/**
  Concrete programs and what the parser makes of them.  Each scenario shows
  one behaviour of the grammar as parser.c implements it, including the
  ones that differ from the RPAL reference grammar.
 */
module Scenarios {
  import opened Results
  import opened Tokens
  import opened Ast
  import opened Parser
  import opened ParserProps
  import opened Program
  import opened Folds

  function Id(x: string): Token { Token(Identifier, x) }
  function Op(x: string): Token { Token(Operator, x) }
  function Kw(x: string): Token { Token(Keyword, x) }
  function Int(x: string): Token { Token(Integer, x) }

  /**
    a > b > c: the comparison is an if, not a loop, so the first comparison
    is the whole expression, and the second '>' and c are printed as trees of
    their own.  The node keeps the spelling '>'.
   */
  lemma ComparisonsDoNotChain(toks: seq<Token>)
    requires toks == [Id("a"), Op(">"), Id("b"), Op(">"), Id("c")]
    ensures ParseProgram(toks) == Ok([Node(Operator, ">", [Leaf(Id("a")), Leaf(Id("b"))]), Leaf(Op(">")), Leaf(Id("c"))])
  {
    FirstComparison(toks);
    ParseProgramOf(toks, Parsed(Node(Operator, ">", [Leaf(Id("a")), Leaf(Id("b"))]), 3));
    assert toks[3..] == [Op(">"), Id("c")];
    var rest := toks[3..];
    assert rest[1..] == [Id("c")];
    assert Leaves(rest[1..]) == [Leaf(Id("c"))] + Leaves([]);
    assert Leaves(rest) == [Leaf(Op(">")), Leaf(Id("c"))];
    var cmp := Node(Operator, ">", [Leaf(Id("a")), Leaf(Id("b"))]);
    assert [cmp] + Leaves(rest) == [cmp, Leaf(Op(">")), Leaf(Id("c"))];
  }

  /** The expression E reads from a > b > c ends before the second '>'. */
  lemma FirstComparison(toks: seq<Token>)
    requires toks == [Id("a"), Op(">"), Id("b"), Op(">"), Id("c")]
    ensures E(toks, 0) == Ok(Parsed(Node(Operator, ">", [Leaf(Id("a")), Leaf(Id("b"))]), 3))
  {
    AOfSum(toks, 0, []);
    AOfSum(toks, 2, []);
    BpOfComparison(toks, 0, A(toks, 0).value, A(toks, 2).value);
    EOfComparison(toks, 0);
  }

  /** a - b - c is (a - b) - c. */
  lemma SubtractionFoldsLeft(toks: seq<Token>)
    requires toks == [Id("a"), Op("-"), Id("b"), Op("-"), Id("c")]
    ensures E(toks, 0)
      == Ok(Parsed(Node(Operator, "-", [Node(Operator, "-", [Leaf(Id("a")), Leaf(Id("b"))]), Leaf(Id("c"))]), 5))
  {
    var steps := [Step("-", Leaf(Id("b"))), Step("-", Leaf(Id("c")))];
    AOfSum(toks, 0, steps);
    assert LeftAssoc(Leaf(Id("a")), steps) == LeftAssoc(Node(Operator, "-", [Leaf(Id("a")), Leaf(Id("b"))]), steps[1..]);
    EOfComparison(toks, 0);
  }

  /** A token that starts no rule, such as 'in', is taken by Rn as a leaf of its own, without error. */
  lemma StrayKeywordIsALeaf(toks: seq<Token>)
    requires toks == [Token(Keyword, "in")]
    ensures ParseProgram(toks) == Ok([Node(Keyword, "in", [])])
  {
    var leaf := Parsed(Node(Keyword, "in", []), 1);
    RnOfToken(toks, 0);
    assert R(toks, 0) == Ok(leaf);
    assert Af(toks, 0) == Ok(leaf);
    assert A(toks, 0) == Ok(leaf);
    assert Bp(toks, 0) == Ok(leaf);
    EOfComparison(toks, 0);
    ParseProgramOf(toks, leaf);
    assert toks[1..] == [];
    assert Leaves(toks[1..]) == [];
    assert [leaf.node] + [] == [Node(Keyword, "in", [])];
  }

  /** After '@' any token is taken as the operator name: here an integer. */
  lemma InfixTakesAnyToken()
    ensures Ap([Id("x"), Op("@"), Token(Integer, "1"), Id("y")], 0)
      == Ok(Parsed(Node(Operator, "@", [Leaf(Id("x")), Leaf(Token(Integer, "1")), Leaf(Id("y"))]), 4))
  {
    var toks := [Id("x"), Op("@"), Token(Integer, "1"), Id("y")];
    RnOfToken(toks, 0);
    RnOfToken(toks, 3);
    assert R(toks, 0) == Ok(Parsed(Leaf(Id("x")), 1));
    assert R(toks, 3) == Ok(Parsed(Leaf(Id("y")), 4));
  }

  /** The empty-tuple marker prints as <()>, as the reference interpreter prints it. */
  lemma EmptyTupleRendering()
    ensures Render(Operator, "()") == "<()>"
    ensures Render(Punctuation, "(") == "("
  {
  }

  /** let x = 3 in x */
  const letToks := [Kw("let"), Id("x"), Op("="), Int("3"), Kw("in"), Id("x")]
  const xIs3 := Node(Operator, "=", [Leaf(Id("x")), Leaf(Int("3"))])

  /** The definition part of let x = 3 in x: the binding x = 3, ending at 'in'. */
  lemma LetDefinition()
    ensures D(letToks, 1) == Ok(Parsed(xIs3, 4))
  {
    var toks := letToks;
    EOfOperand(toks, 3, 4);
    var vl := Parsed(Leaf(Id("x")), 2);
    assert Vl(toks, 1) == Ok(vl);
    assert BindingBody(toks, vl) == Ok(Parsed(xIs3, 4));
    assert Db(toks, 1) == Binding(toks, 1);
    assert Dr(toks, 1) == Db(toks, 1);
  }

  /** let x = 3 in x: a 'let' node over the binding x = 3 and the body x. */
  lemma LetBindsThenUses()
    ensures E(letToks, 0) == Ok(Parsed(Node(Keyword, "let", [xIs3, Leaf(Id("x"))]), 6))
  {
    var toks := letToks;
    LetDefinition();
    EOfOperand(toks, 5, 6);
    assert LetBody(toks, Parsed(xIs3, 4)) == Ok(Parsed(Node(Keyword, "let", [xIs3, Leaf(Id("x"))]), 6));
    assert E(toks, 0) == Let(toks, 0);
  }

  /** fn x . x + 1 */
  const fnToks := [Kw("fn"), Id("x"), Op("."), Id("x"), Op("+"), Int("1")]
  const xPlus1 := Node(Operator, "+", [Leaf(Id("x")), Leaf(Int("1"))])

  /** The sum x + 1 in fn x . x + 1, as Parser_A reads it. */
  lemma LambdaSum()
    ensures A(fnToks, 3) == Ok(Parsed(xPlus1, 6))
  {
    AOfOperand(fnToks, 3, 4);
    AFoldOfOperand(fnToks, 4, Leaf(Id("x")), 6);
  }

  /** The body of fn x . x + 1 is the sum x + 1, running to the end. */
  lemma LambdaBodyIsSum()
    ensures E(fnToks, 3) == Ok(Parsed(xPlus1, 6))
  {
    LambdaSum();
    assert Bp(fnToks, 3) == A(fnToks, 3);
    EOfComparison(fnToks, 3);
  }

  /** fn x . x + 1 binds the one variable x, up to the '.'. */
  lemma LambdaVariables()
    ensures VbList(fnToks, 1) == Ok(Items([Leaf(Id("x"))], 2))
  {
    assert Vb(fnToks, 1) == Ok(Parsed(Leaf(Id("x")), 2));
  }

  /** With the variable x read, the rest of fn x . x + 1 is the '.' and the body. */
  lemma LambdaNode()
    ensures LambdaBody(fnToks, Items([Leaf(Id("x"))], 2))
      == Ok(Parsed(Node(Operator, "lambda", [Leaf(Id("x")), xPlus1]), 6))
  {
    LambdaBodyIsSum();
    assert [Leaf(Id("x"))] + [xPlus1] == [Leaf(Id("x")), xPlus1];
  }

  /** fn x . x + 1: a 'lambda' node over the bound variable x and the body x + 1. */
  lemma LambdaBindsThenUses()
    ensures E(fnToks, 0) == Ok(Parsed(Node(Operator, "lambda", [Leaf(Id("x")), xPlus1]), 6))
  {
    LambdaVariables();
    LambdaNode();
    assert E(fnToks, 0) == Lambda(fnToks, 0);
  }

  /** 1, 2, 3 */
  const tupleToks := [Int("1"), Token(Punctuation, ","), Int("2"), Token(Punctuation, ","), Int("3")]

  /** The last element of 1, 2, 3 ends the list. */
  lemma TupleLast()
    ensures TauList(tupleToks, 3) == Ok(Items([Leaf(Int("3"))], 5))
  {
    var toks := tupleToks;
    TaOfOperand(toks, 4, 5);
    assert Ta(toks, 4) == Ok(Parsed(Leaf(Int("3")), 5));
    assert TauList(toks, 5) == Ok(Items([], 5));
    assert [Leaf(Int("3"))] + [] == [Leaf(Int("3"))];
  }

  /** After the first element of 1, 2, 3, the list reads the other two, in order. */
  lemma TupleRest()
    ensures TauList(tupleToks, 1) == Ok(Items([Leaf(Int("2")), Leaf(Int("3"))], 5))
  {
    var toks := tupleToks;
    TaOfOperand(toks, 2, 3);
    TupleLast();
    assert Ta(toks, 2) == Ok(Parsed(Leaf(Int("2")), 3));
    assert [Leaf(Int("2"))] + [Leaf(Int("3"))] == [Leaf(Int("2")), Leaf(Int("3"))];
  }

  const tau123 := Node(Operator, "tau", [Leaf(Int("1")), Leaf(Int("2")), Leaf(Int("3"))])

  /** T reads all of 1, 2, 3 into one 'tau' node. */
  lemma TupleT()
    ensures T(tupleToks, 0) == Ok(Parsed(tau123, 5))
  {
    TaOfOperand(tupleToks, 0, 1);
    TupleRest();
    TupleNode();
  }

  /** The 'tau' node over 1 and the rest 2, 3 lists all three in order. */
  lemma TupleNode()
    ensures ListNode("tau", Leaf(Int("1")), [Leaf(Int("2")), Leaf(Int("3"))]) == tau123
  {
    var n := ListNode("tau", Leaf(Int("1")), [Leaf(Int("2")), Leaf(Int("3"))]);
    assert n.children == [n.children[0]] + n.children[1..];
  }

  /** 1, 2, 3: one 'tau' node over the three elements, in order. */
  lemma TupleListsItsElements()
    ensures E(tupleToks, 0) == Ok(Parsed(tau123, 5))
  {
    TupleT();
    assert Ew(tupleToks, 0) == T(tupleToks, 0);
  }

  /** a -> b | c */
  const condToks := [Id("a"), Op("->"), Id("b"), Op("|"), Id("c")]
  const abc := Node(Operator, "->", [Leaf(Id("a")), Leaf(Id("b")), Leaf(Id("c"))])

  /** The conditional a -> b | c, on its own, as Tc parses it. */
  lemma ConditionalArms()
    ensures Tc(condToks, 0) == Ok(Parsed(abc, 5))
  {
    var toks := condToks;
    BOfOperand(toks, 0, 1);
    ConditionalTail();
    assert Tc(toks, 0) == Conditional(toks, Parsed(Leaf(Id("a")), 1));
  }

  /** What follows the condition a: the arms b and c, in order. */
  lemma ConditionalTail()
    ensures Conditional(condToks, Parsed(Leaf(Id("a")), 1)) == Ok(Parsed(abc, 5))
  {
    var toks := condToks;
    TcOfOperand(toks, 2, 3);
    TcOfOperand(toks, 4, 5);
  }

  /** a -> b | c: one '->' node over the condition and the two arms, in order. */
  lemma ConditionalKeepsArmsInOrder()
    ensures E(condToks, 0) == Ok(Parsed(abc, 5))
  {
    var toks := condToks;
    ConditionalArms();
    assert Ta(toks, 0) == Ok(Parsed(abc, 5));
    assert T(toks, 0) == Ok(Parsed(abc, 5));
    assert Ew(toks, 0) == Ok(Parsed(abc, 5));
  }

  /** a & b & c */
  const conjToks := [Id("a"), Op("&"), Id("b"), Op("&"), Id("c")]

  /** Each name of a & b & c is, on its own, an operand of '&'. */
  lemma ConjunctionOperands(p: nat)
    requires p in {0, 2, 4}
    ensures Operand(Conj, conjToks, p) == Ok(Parsed(Leaf(conjToks[p]), p + 1))
  {
    AOfOperand(conjToks, p, p + 1);
    assert A(conjToks, p) == Ok(Parsed(Leaf(conjToks[p]), p + 1));
    assert Bp(conjToks, p) == A(conjToks, p);
  }

  /** a & b & c: the conjunction groups to the left, ((a & b) & c). */
  lemma ConjunctionFoldsLeft()
    ensures Bt(conjToks, 0)
      == Ok(Parsed(Node(Operator, "&", [Node(Operator, "&", [Leaf(Id("a")), Leaf(Id("b"))]), Leaf(Id("c"))]), 5))
  {
    var steps := [Step("&", Leaf(Id("b"))), Step("&", Leaf(Id("c")))];
    ConjunctionOperands(0);
    ConjunctionChain();
    RuleOfChain(Conj, conjToks, 0, Parsed(Leaf(Id("a")), 1), steps, 5);
    ConjunctionShape();
  }

  /** The left association of a followed by '&' b and '&' c. */
  lemma ConjunctionShape()
    ensures LeftAssoc(Leaf(Id("a")), [Step("&", Leaf(Id("b"))), Step("&", Leaf(Id("c")))])
      == Node(Operator, "&", [Node(Operator, "&", [Leaf(Id("a")), Leaf(Id("b"))]), Leaf(Id("c"))])
  {
    var steps := [Step("&", Leaf(Id("b"))), Step("&", Leaf(Id("c")))];
    assert steps[..1] == [steps[0]] && steps[..1][..0] == [];
  }

  /** After a, the tokens of a & b & c read '&' b, then '&' c. */
  lemma ConjunctionChain()
    ensures Chain(Conj, conjToks, 1, [Step("&", Leaf(Id("b"))), Step("&", Leaf(Id("c")))], 5)
  {
    var steps := [Step("&", Leaf(Id("b"))), Step("&", Leaf(Id("c")))];
    ConjunctionOperands(2);
    ConjunctionOperands(4);
    assert Chain(Conj, conjToks, 5, steps[2..], 5);
    assert Chain(Conj, conjToks, 3, steps[1..], 5);
  }
}
