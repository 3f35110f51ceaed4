/**
  What the parser makes of whole families of inputs: chains of operands
  joined by one operator are compared with independent definitions of left
  and right association, a prefix '-' is shown to bind only the first
  operand, and the rules that pass a lower level's tree through unchanged
  are stated once.
 */
module ParserProps {
  import opened Results
  import opened Tokens
  import opened Ast
  import opened Parser

  /** A token Rn turns into a leaf on its own: whatever R's loop accepts, except '('. */
  predicate SimpleOperand(t: Token) {
    StartsRn(t) && !Is(t, Punctuation, "(")
  }

  /** The leaf Rn makes of a simple operand: the four constants take their bracketed names. */
  function Atom(t: Token): Node {
    if IsConstant(t) then Node(Keyword, "<" + t.lexeme + ">", []) else Leaf(t)
  }

  /** Rn on any token other than '(' is that token's leaf, and consumes exactly it. */
  lemma RnOfToken(toks: seq<Token>, pos: nat)
    requires pos < |toks| && !Is(toks[pos], Punctuation, "(")
    ensures Rn(toks, pos) == Ok(Parsed(Atom(toks[pos]), pos + 1))
  {
  }

  /** Nothing at pos continues an application: no further operand and no '@'. */
  predicate EndsApplication(toks: seq<Token>, pos: nat) {
    (pos >= |toks| || !StartsRn(toks[pos])) && !Next(toks, pos, Operator, "@")
  }

  /** Nothing at pos continues a term: no further operand, '@', '**', '*' or '/'. */
  predicate EndsTerm(toks: seq<Token>, pos: nat) {
    EndsApplication(toks, pos) && !Next(toks, pos, Operator, "**") && !MulOp(toks, pos)
  }

  /** Nothing at pos continues an arithmetic expression: EndsTerm and no '+' or '-'. */
  predicate EndsSum(toks: seq<Token>, pos: nat) {
    EndsTerm(toks, pos) && !AddOp(toks, pos)
  }

  /** A simple operand followed by the end of an application is an Ap on its own. */
  lemma ApOfOperand(toks: seq<Token>, pos: nat)
    requires pos < |toks| && SimpleOperand(toks[pos]) && EndsApplication(toks, pos + 1)
    ensures Ap(toks, pos) == Ok(Parsed(Atom(toks[pos]), pos + 1))
  {
    RnOfToken(toks, pos);
    assert R(toks, pos) == Ok(Parsed(Atom(toks[pos]), pos + 1));
  }

  /** A simple operand followed by the end of a term is an At on its own. */
  lemma AtOfOperand(toks: seq<Token>, pos: nat)
    requires pos < |toks| && SimpleOperand(toks[pos]) && EndsTerm(toks, pos + 1)
    ensures At(toks, pos) == Ok(Parsed(Atom(toks[pos]), pos + 1))
  {
    ApOfOperand(toks, pos);
    assert Af(toks, pos) == Ok(Parsed(Atom(toks[pos]), pos + 1));
  }

  // ---------------------------------------------------------------------------
  // Left association: '+' and '-', and application
  // ---------------------------------------------------------------------------

  /** One operator of a chain and the operand after it. */
  datatype Step = Step(op: string, operand: Node)

  /**
    first op1 x1 op2 x2 ... opn xn read with left association, defined from
    the end: the last operator is the root, everything before it is its
    left operand.
   */
  function LeftAssoc(first: Node, steps: seq<Step>): Node
    decreases |steps|
  {
    if |steps| == 0 then first
    else
      var last := steps[|steps| - 1];
      Node(Operator, last.op, [LeftAssoc(first, steps[..|steps| - 1]), last.operand])
  }

  /** Left association seen from the front: the first step becomes part of the first operand. */
  lemma {:induction false} LeftAssocFront(first: Node, steps: seq<Step>)
    requires |steps| > 0
    ensures LeftAssoc(Node(Operator, steps[0].op, [first, steps[0].operand]), steps[1..]) == LeftAssoc(first, steps)
    decreases |steps|
  {
    var n := |steps|;
    if n > 1 {
      var init := steps[..n - 1];
      LeftAssocFront(first, init);
      assert init[0] == steps[0];
      assert init[1..] == steps[1..][..n - 2];
      assert steps[1..][n - 2] == steps[n - 1];
    }
  }

  predicate IsAddOp(t: Token) {
    Is(t, Operator, "+") || Is(t, Operator, "-")
  }

  /** From pos on, the tokens read op1 x1 op2 x2 ... with '+' or '-' operators and simple operands. */
  predicate SumSteps(toks: seq<Token>, pos: nat, steps: seq<Step>)
    decreases |steps|
  {
    |steps| > 0 ==>
      && pos + 1 < |toks| && IsAddOp(toks[pos]) && steps[0].op == toks[pos].lexeme
      && SimpleOperand(toks[pos + 1]) && steps[0].operand == Atom(toks[pos + 1])
      && SumSteps(toks, pos + 2, steps[1..])
  }

  /** The loop of Parser_A over a chain of additive steps builds their left association. */
  lemma {:induction false} AFoldOfSum(toks: seq<Token>, pos: nat, acc: Node, steps: seq<Step>, end: nat)
    requires pos <= |toks| && WellShaped(acc)
    requires SumSteps(toks, pos, steps) && end == pos + 2 * |steps| && EndsSum(toks, end)
    ensures AFold(toks, pos, acc) == Ok(Parsed(LeftAssoc(acc, steps), end))
    decreases |steps|
  {
    if |steps| > 0 {
      var acc' := Node(Operator, toks[pos].lexeme, [acc, Atom(toks[pos + 1])]);
      var next := pos + 2;
      if |steps| == 1 {
        assert next == end;
      } else {
        assert IsAddOp(toks[next]);
      }
      AFoldOfOperand(toks, pos, acc, next);
      AFoldOfSum(toks, next, acc', steps[1..], end);
      assert acc' == Node(Operator, steps[0].op, [acc, steps[0].operand]);
      LeftAssocFront(acc, steps);
    } else {
      assert pos == end;
    }
  }

  /** One step of the loop of Parser_A: an additive operator and a simple operand join the tree built so far. */
  lemma AFoldOfOperand(toks: seq<Token>, pos: nat, acc: Node, next: nat)
    requires pos + 1 < |toks| && WellShaped(acc) && IsAddOp(toks[pos])
    requires SimpleOperand(toks[pos + 1]) && next == pos + 2 && EndsTerm(toks, next)
    ensures AFold(toks, pos, acc) == AFold(toks, next, Node(Operator, toks[pos].lexeme, [acc, Atom(toks[pos + 1])]))
  {
    AtOfOperand(toks, pos + 1);
  }

  /**
    x0 op1 x1 ... opn xn with '+' and '-' and simple operands parses as the
    left association of the chain: a - b - c is (a - b) - c.
   */
  lemma AOfSum(toks: seq<Token>, pos: nat, steps: seq<Step>)
    requires pos < |toks| && SimpleOperand(toks[pos])
    requires SumSteps(toks, pos + 1, steps) && EndsSum(toks, pos + 1 + 2 * |steps|)
    ensures A(toks, pos).Ok? && A(toks, pos).value.node == LeftAssoc(Atom(toks[pos]), steps)
    ensures A(toks, pos).value.next == pos + 1 + 2 * |steps|
  {
    var next, end := pos + 1, pos + 1 + 2 * |steps|;
    if |steps| == 0 {
      assert next == end;
    } else {
      assert IsAddOp(toks[next]);
    }
    AOfOperand(toks, pos, next);
    AFoldOfSum(toks, next, Atom(toks[pos]), steps, end);
  }

  /** An unsigned simple operand starts Parser_A: the loop then runs on it. */
  lemma AOfOperand(toks: seq<Token>, pos: nat, next: nat)
    requires pos < |toks| && SimpleOperand(toks[pos]) && next == pos + 1 && EndsTerm(toks, next)
    ensures A(toks, pos) == AFold(toks, next, Atom(toks[pos]))
  {
    assert !AddOp(toks, pos);
    AtOfOperand(toks, pos);
  }

  /**
    A leading '-' negates the first operand only: - a op1 x1 ... is the
    left association of the chain whose first operand is neg a.
   */
  lemma AOfNegatedSum(toks: seq<Token>, pos: nat, steps: seq<Step>)
    requires pos + 1 < |toks| && Is(toks[pos], Operator, "-") && SimpleOperand(toks[pos + 1])
    requires SumSteps(toks, pos + 2, steps) && EndsSum(toks, pos + 2 + 2 * |steps|)
    ensures A(toks, pos).Ok? && A(toks, pos).value.node == LeftAssoc(Node(Operator, "neg", [Atom(toks[pos + 1])]), steps)
    ensures A(toks, pos).value.next == pos + 2 + 2 * |steps|
  {
    var next, end := pos + 2, pos + 2 + 2 * |steps|;
    if |steps| == 0 {
      assert next == end;
    } else {
      assert IsAddOp(toks[next]);
    }
    var first := Node(Operator, "neg", [Atom(toks[pos + 1])]);
    ASignOfOperand(toks, pos, next, first);
    AFoldOfSum(toks, next, first, steps, end);
  }

  /** A leading '+' is dropped: + a op1 x1 ... parses like a op1 x1 ... */
  lemma AOfSignedSum(toks: seq<Token>, pos: nat, steps: seq<Step>)
    requires pos + 1 < |toks| && Is(toks[pos], Operator, "+") && SimpleOperand(toks[pos + 1])
    requires SumSteps(toks, pos + 2, steps) && EndsSum(toks, pos + 2 + 2 * |steps|)
    ensures A(toks, pos).Ok? && A(toks, pos).value.node == LeftAssoc(Atom(toks[pos + 1]), steps)
    ensures A(toks, pos).value.next == pos + 2 + 2 * |steps|
  {
    var next, end := pos + 2, pos + 2 + 2 * |steps|;
    if |steps| == 0 {
      assert next == end;
    } else {
      assert IsAddOp(toks[next]);
    }
    var first := Atom(toks[pos + 1]);
    ASignOfOperand(toks, pos, next, first);
    AFoldOfSum(toks, next, first, steps, end);
  }

  /** With or without a leading '+', the same sum parses to the same tree and ends at the same place. */
  lemma PlusIsDropped(toks: seq<Token>, pos: nat, steps: seq<Step>)
    requires pos + 1 < |toks| && Is(toks[pos], Operator, "+") && SimpleOperand(toks[pos + 1])
    requires SumSteps(toks, pos + 2, steps) && EndsSum(toks, pos + 2 + 2 * |steps|)
    ensures A(toks, pos).Ok? && A(toks, pos + 1).Ok?
    ensures A(toks, pos).value == A(toks, pos + 1).value
  {
    AOfSignedSum(toks, pos, steps);
    AOfSum(toks, pos + 1, steps);
  }

  /** A sign and a simple operand start Parser_A: '-' wraps the operand in 'neg', '+' is dropped. */
  lemma ASignOfOperand(toks: seq<Token>, pos: nat, next: nat, first: Node)
    requires pos + 1 < |toks| && (Is(toks[pos], Operator, "-") || Is(toks[pos], Operator, "+"))
    requires SimpleOperand(toks[pos + 1]) && next == pos + 2 && EndsTerm(toks, next)
    requires first == if Is(toks[pos], Operator, "-") then Node(Operator, "neg", [Atom(toks[pos + 1])]) else Atom(toks[pos + 1])
    ensures A(toks, pos) == AFold(toks, next, first)
  {
    AtOfOperand(toks, pos + 1);
  }

  /** From pos on, the tokens are simple operands written side by side, one per step, each step a 'gamma'. */
  predicate GammaSteps(toks: seq<Token>, pos: nat, steps: seq<Step>)
    decreases |steps|
  {
    |steps| > 0 ==>
      && pos < |toks| && SimpleOperand(toks[pos]) && steps[0] == Step("gamma", Atom(toks[pos]))
      && GammaSteps(toks, pos + 1, steps[1..])
  }

  /** The loop of Parser_R over juxtaposed operands builds their left-associated application. */
  lemma {:induction false} RFoldOfOperands(toks: seq<Token>, pos: nat, acc: Node, steps: seq<Step>)
    requires pos <= |toks| && WellShaped(acc)
    requires GammaSteps(toks, pos, steps)
    requires pos + |steps| >= |toks| || !StartsRn(toks[pos + |steps|])
    ensures RFold(toks, pos, acc) == Ok(Parsed(LeftAssoc(acc, steps), pos + |steps|))
    decreases |steps|
  {
    if |steps| > 0 {
      var next := pos + 1;
      var joined := Node(Operator, "gamma", [acc, Atom(toks[pos])]);
      RnOfToken(toks, pos);
      assert RFold(toks, pos, acc) == RFold(toks, next, joined);
      RFoldOfOperands(toks, next, joined, steps[1..]);
      LeftAssocFront(acc, steps);
    }
  }

  /** f x y z parses as ((f x) y) z: application associates to the left. */
  lemma ROfOperands(toks: seq<Token>, pos: nat, steps: seq<Step>)
    requires pos < |toks| && SimpleOperand(toks[pos])
    requires GammaSteps(toks, pos + 1, steps)
    requires pos + 1 + |steps| >= |toks| || !StartsRn(toks[pos + 1 + |steps|])
    ensures R(toks, pos) == Ok(Parsed(LeftAssoc(Atom(toks[pos]), steps), pos + 1 + |steps|))
  {
    RnOfToken(toks, pos);
    RFoldOfOperands(toks, pos + 1, Atom(toks[pos]), steps);
  }

  // ---------------------------------------------------------------------------
  // Right association: '**'
  // ---------------------------------------------------------------------------

  /** From pos on, the tokens read x0 '**' x1 '**' ... '**' xn with simple operands. */
  predicate PowerChain(toks: seq<Token>, pos: nat, xs: seq<Token>)
    decreases |xs|
  {
    && |xs| > 0 && pos < |toks| && toks[pos] == xs[0] && SimpleOperand(xs[0])
    && (|xs| > 1 ==> Next(toks, pos + 1, Operator, "**") && PowerChain(toks, pos + 2, xs[1..]))
  }

  /** x0 ** x1 ** ... ** xn read with right association: the first operator is the root. */
  function RightAssoc(xs: seq<Token>): Node
    requires |xs| > 0
    decreases |xs|
  {
    if |xs| == 1 then Atom(xs[0]) else Node(Operator, "**", [Atom(xs[0]), RightAssoc(xs[1..])])
  }

  /** A chain of '**' parses right-associatively: a ** b ** c is a ** (b ** c). */
  lemma {:induction false} AfOfPower(toks: seq<Token>, pos: nat, xs: seq<Token>, end: nat)
    requires PowerChain(toks, pos, xs) && end == pos + 2 * |xs| - 1
    requires EndsApplication(toks, end) && !Next(toks, end, Operator, "**")
    ensures Af(toks, pos) == Ok(Parsed(RightAssoc(xs), end))
    decreases |xs|
  {
    if |xs| == 1 {
      ApOfOperand(toks, pos);
    } else {
      var next := pos + 2;
      AfOfPower(toks, next, xs[1..], end);
      AfOfOperand(toks, pos, next, Af(toks, next).value);
    }
  }

  /** An operand, '**', then a right operand that parses from next: the first '**' is the root. */
  lemma AfOfOperand(toks: seq<Token>, pos: nat, next: nat, right: Parsed)
    requires pos < |toks| && SimpleOperand(toks[pos]) && EndsApplication(toks, pos + 1)
    requires Next(toks, pos + 1, Operator, "**") && next == pos + 2 && Af(toks, next) == Ok(right)
    ensures Af(toks, pos) == Ok(Parsed(Node(Operator, "**", [Atom(toks[pos]), right.node]), right.next))
  {
    ApOfOperand(toks, pos);
  }

  /** Ap '**' Af: the second child is the Af parsed from after, the position after the '**', for any Ap. */
  lemma PowerChildren(toks: seq<Token>, pos: nat, after: nat)
    requires pos <= |toks| && Af(toks, pos).Ok? && Next(toks, Ap(toks, pos).value.next, Operator, "**")
    requires after == Ap(toks, pos).value.next + 1
    ensures var r := Af(toks, pos).value;
      && r.node.kind == Operator && r.node.name == "**" && r.node.children[0] == Ap(toks, pos).value.node
      && Af(toks, after) == Ok(Parsed(r.node.children[1], r.next))
  {
  }

  // ---------------------------------------------------------------------------
  // Levels that pass a tree through
  // ---------------------------------------------------------------------------

  /** Nothing at pos continues an expression above the comparison level. */
  predicate EndsExpression(toks: seq<Token>, pos: nat) {
    && !Next(toks, pos, Operator, "&") && !Next(toks, pos, Keyword, "or")
    && !Next(toks, pos, Operator, "->") && !Next(toks, pos, Keyword, "aug")
    && !Next(toks, pos, Punctuation, ",") && !Next(toks, pos, Keyword, "where")
  }

  /** A, a comparison, A: Bp is the comparison node over the two A trees, ending where the second ends. */
  lemma BpOfComparison(toks: seq<Token>, pos: nat, left: Parsed, right: Parsed)
    requires pos <= |toks| && A(toks, pos) == Ok(left)
    requires left.next < |toks| && IsComparison(toks[left.next]) && A(toks, left.next + 1) == Ok(right)
    ensures Bp(toks, pos) == Ok(Parsed(Node(Operator, toks[left.next].lexeme, [left.node, right.node]), right.next))
  {
    var r := Bp(toks, pos);
    assert r.Ok?;
    var n := r.value.node;
    assert A(toks, left.next + 1) == Ok(Parsed(n.children[1], r.value.next));
    assert n.children == [left.node, right.node];
  }

  /**
    An expression with no 'let', 'fn' or 'not' in front and nothing of
    lower precedence after its comparison is that comparison: every level
    from Bs up to E hands the tree through unchanged.
   */
  lemma EOfComparison(toks: seq<Token>, pos: nat)
    requires pos <= |toks|
    requires !Next(toks, pos, Keyword, "let") && !Next(toks, pos, Keyword, "fn") && !Next(toks, pos, Keyword, "not")
    requires Bp(toks, pos).Ok? && EndsExpression(toks, Bp(toks, pos).value.next)
    ensures E(toks, pos) == Bp(toks, pos)
  {
    assert Bs(toks, pos) == Bp(toks, pos);
    assert Bt(toks, pos) == Bp(toks, pos);
    assert B(toks, pos) == Bp(toks, pos);
    assert Tc(toks, pos) == Bp(toks, pos);
    assert Ta(toks, pos) == Bp(toks, pos);
    assert T(toks, pos) == Bp(toks, pos);
  }

  /** Nothing at pos continues a logical expression: no comparison, '&' or 'or'. */
  predicate EndsLogic(toks: seq<Token>, pos: nat) {
    && !(pos < |toks| && IsComparison(toks[pos]))
    && !Next(toks, pos, Operator, "&") && !Next(toks, pos, Keyword, "or")
  }

  /** A simple operand that nothing after it continues, up to the logical level, is a B on its own. */
  lemma BOfOperand(toks: seq<Token>, pos: nat, next: nat)
    requires pos < |toks| && SimpleOperand(toks[pos]) && next == pos + 1
    requires EndsSum(toks, next) && EndsLogic(toks, next)
    ensures B(toks, pos) == Ok(Parsed(Atom(toks[pos]), next))
  {
    AOfSum(toks, pos, []);
    var leaf := Parsed(Atom(toks[pos]), next);
    assert A(toks, pos) == Ok(leaf);
    assert Bp(toks, pos) == Ok(leaf);
    assert Bs(toks, pos) == Ok(leaf);
    assert Bt(toks, pos) == Ok(leaf);
  }

  /** ... and, with no '->' after it, a Tc on its own. */
  lemma TcOfOperand(toks: seq<Token>, pos: nat, next: nat)
    requires pos < |toks| && SimpleOperand(toks[pos]) && next == pos + 1
    requires EndsSum(toks, next) && EndsLogic(toks, next) && !Next(toks, next, Operator, "->")
    ensures Tc(toks, pos) == Ok(Parsed(Atom(toks[pos]), next))
  {
    BOfOperand(toks, pos, next);
  }

  /** ... and, with no 'aug' after it either, a Ta on its own. */
  lemma TaOfOperand(toks: seq<Token>, pos: nat, next: nat)
    requires pos < |toks| && SimpleOperand(toks[pos]) && next == pos + 1
    requires EndsSum(toks, next) && EndsLogic(toks, next) && !Next(toks, next, Operator, "->")
    requires !Next(toks, next, Keyword, "aug")
    ensures Ta(toks, pos) == Ok(Parsed(Atom(toks[pos]), next))
  {
    TcOfOperand(toks, pos, next);
  }

  /** A simple operand that nothing after it continues is an E on its own. */
  lemma EOfOperand(toks: seq<Token>, pos: nat, next: nat)
    requires pos < |toks| && SimpleOperand(toks[pos]) && next == pos + 1
    requires EndsSum(toks, next) && EndsLogic(toks, next) && EndsExpression(toks, next)
    ensures E(toks, pos) == Ok(Parsed(Atom(toks[pos]), next))
  {
    AOfSum(toks, pos, []);
    assert Bp(toks, pos) == A(toks, pos);
    EOfComparison(toks, pos);
  }

  // ---------------------------------------------------------------------------
  // Nested productions: each later child is its rule's parse at its place.
  // The position a child starts at is passed in as `after`, pinned by a
  // requires, so that each statement names that position once.
  // ---------------------------------------------------------------------------

  /** 'rec' Db: the child is the Db parsed right after the keyword, and the rule ends where it ends. */
  lemma RecChild(toks: seq<Token>, pos: nat, after: nat)
    requires pos <= |toks| && Next(toks, pos, Keyword, "rec") && Dr(toks, pos).Ok?
    requires after == pos + 1
    ensures Db(toks, after) == Ok(Parsed(Dr(toks, pos).value.node.children[0], Dr(toks, pos).value.next))
  {
  }

  /** Da 'within' D: the second child is the D parsed from after, the position after 'within'. */
  lemma WithinChildren(toks: seq<Token>, pos: nat, after: nat)
    requires pos <= |toks| && D(toks, pos).Ok? && Next(toks, Da(toks, pos).value.next, Keyword, "within")
    requires after == Da(toks, pos).value.next + 1
    ensures var r := D(toks, pos).value;
      && r.node.kind == Operator && r.node.name == "within" && r.node.children[0] == Da(toks, pos).value.node
      && D(toks, after) == Ok(Parsed(r.node.children[1], r.next))
  {
    var da := Da(toks, pos).value;
    assert D(toks, pos) == Within(toks, da);
    WithinBodyChildren(toks, da, after);
  }

  /** The 'within' part after the definition da: its second child is the D parsed from after. */
  lemma WithinBodyChildren(toks: seq<Token>, da: Parsed, after: nat)
    requires Next(toks, da.next, Keyword, "within") && WellShaped(da.node) && Within(toks, da).Ok?
    requires after == da.next + 1
    ensures D(toks, after) == Ok(Parsed(Within(toks, da).value.node.children[1], Within(toks, da).value.next))
  {
  }

  /** Vl '=' E: the second child is the E parsed from after, the position after '='. */
  lemma BindingChildren(toks: seq<Token>, pos: nat, after: nat)
    requires pos <= |toks| && Binding(toks, pos).Ok?
    requires after == Vl(toks, pos).value.next + 1
    ensures var r := Binding(toks, pos).value;
      && r.node.kind == Operator && r.node.name == "=" && r.node.children[0] == Vl(toks, pos).value.node
      && E(toks, after) == Ok(Parsed(r.node.children[1], r.next))
  {
    BindingBodyChildren(toks, Vl(toks, pos).value, after);
  }

  /** The '=' E part after the names vl: its second child is the E parsed from after. */
  lemma BindingBodyChildren(toks: seq<Token>, vl: Parsed, after: nat)
    requires vl.next <= |toks| && WellShaped(vl.node) && BindingBody(toks, vl).Ok?
    requires after == vl.next + 1
    ensures E(toks, after) == Ok(Parsed(BindingBody(toks, vl).value.node.children[1], BindingBody(toks, vl).value.next))
  {
    var e := E(toks, after);
    assert Expect(toks, vl.next, Operator, "=") == Ok(after);
    assert e.Ok? && BindingBody(toks, vl) == Ok(Parsed(Node(Operator, "=", [vl.node, e.value.node]), e.value.next));
  }

  /**
    '<IDENTIFIER>' Vb+ '=' E: after the name come the parameters VbList
    parsed, in order, and last the E parsed from after, the position after '='.
   */
  lemma FunctionFormChildren(toks: seq<Token>, pos: nat, after: nat)
    requires pos < |toks| && FunctionForm(toks, pos).Ok?
    requires after == VbList(toks, pos + 1).value.next + 1
    ensures var r := FunctionForm(toks, pos).value; var n := |r.node.children|;
      && r.node.children[0] == Leaf(toks[pos])
      && r.node.children[1..n - 1] == VbList(toks, pos + 1).value.nodes
      && E(toks, after) == Ok(Parsed(r.node.children[n - 1], r.next))
  {
    FunctionFormBodyChildren(toks, toks[pos], VbList(toks, pos + 1).value, after);
  }

  /** The '=' E part after the parameters vbs: its last child is the E parsed from after. */
  lemma FunctionFormBodyChildren(toks: seq<Token>, name: Token, vbs: Items, after: nat)
    requires vbs.next <= |toks| && |vbs.nodes| >= 1 && AllShaped(vbs.nodes)
    requires forall i :: 0 <= i < |vbs.nodes| ==> IsBinding(vbs.nodes[i])
    requires FunctionFormBody(toks, name, vbs).Ok? && after == vbs.next + 1
    ensures var r := FunctionFormBody(toks, name, vbs).value;
      E(toks, after) == Ok(Parsed(r.node.children[|vbs.nodes| + 1], r.next))
  {
    var e := E(toks, after);
    assert Expect(toks, vbs.next, Operator, "=") == Ok(after);
    assert e.Ok? && FunctionFormBody(toks, name, vbs) == Ok(Parsed(FunctionFormNode(name, vbs.nodes, e.value.node), e.value.next));
  }

  /** 'let' D 'in' E: the children are the D after 'let' and the E parsed from after, the position after 'in'. */
  lemma LetChildren(toks: seq<Token>, pos: nat, after: nat)
    requires pos <= |toks| && Next(toks, pos, Keyword, "let") && E(toks, pos).Ok?
    requires after == D(toks, pos + 1).value.next + 1
    ensures var r := E(toks, pos).value;
      && r.node.children[0] == D(toks, pos + 1).value.node
      && E(toks, after) == Ok(Parsed(r.node.children[1], r.next))
  {
    var d := D(toks, pos + 1).value;
    assert E(toks, pos) == Let(toks, pos) == LetBody(toks, d);
    LetBodyChildren(toks, d, after);
  }

  /** The 'in' E part after the definition d: its second child is the E parsed from after. */
  lemma LetBodyChildren(toks: seq<Token>, d: Parsed, after: nat)
    requires d.next <= |toks| && WellShaped(d.node) && LetBody(toks, d).Ok?
    requires after == d.next + 1
    ensures E(toks, after) == Ok(Parsed(LetBody(toks, d).value.node.children[1], LetBody(toks, d).value.next))
  {
    var e := E(toks, after);
    assert Expect(toks, d.next, Keyword, "in") == Ok(after);
    assert e.Ok? && LetBody(toks, d) == Ok(Parsed(Node(Keyword, "let", [d.node, e.value.node]), e.value.next));
  }

  /**
    'fn' Vb+ '.' E: the children are the bound variables in order, then the
    E parsed from after, the position after '.'.
   */
  lemma LambdaChildren(toks: seq<Token>, pos: nat, after: nat)
    requires pos <= |toks| && Next(toks, pos, Keyword, "fn") && E(toks, pos).Ok?
    requires after == VbList(toks, pos + 1).value.next + 1
    ensures var r := E(toks, pos).value; var n := |r.node.children|;
      && r.node.children[..n - 1] == VbList(toks, pos + 1).value.nodes
      && Next(toks, after - 1, Operator, ".")
      && E(toks, after) == Ok(Parsed(r.node.children[n - 1], r.next))
  {
    var vbs := VbList(toks, pos + 1).value;
    assert E(toks, pos) == Lambda(toks, pos) == LambdaBody(toks, vbs);
    LambdaBodyChildren(toks, vbs, after);
  }

  /** The '.' E part after the bound variables vbs: its last child is the E parsed from after. */
  lemma LambdaBodyChildren(toks: seq<Token>, vbs: Items, after: nat)
    requires vbs.next <= |toks| && |vbs.nodes| >= 1 && AllShaped(vbs.nodes) && LambdaBody(toks, vbs).Ok?
    requires after == vbs.next + 1
    ensures E(toks, after) == Ok(Parsed(LambdaBody(toks, vbs).value.node.children[|vbs.nodes|], LambdaBody(toks, vbs).value.next))
  {
    var e := E(toks, after);
    assert Expect(toks, vbs.next, Operator, ".") == Ok(after);
    assert e.Ok? && LambdaBody(toks, vbs) == Ok(Parsed(Node(Operator, "lambda", vbs.nodes + [e.value.node]), e.value.next));
  }

  /** B '->' Tc '|' Tc: the first arm is the Tc parsed from thenAt, the position after '->', and a '|' follows it. */
  lemma ConditionalThen(toks: seq<Token>, pos: nat, thenAt: nat)
    requires pos <= |toks| && Tc(toks, pos).Ok? && Next(toks, B(toks, pos).value.next, Operator, "->")
    requires thenAt == B(toks, pos).value.next + 1
    ensures var r := Tc(toks, pos).value;
      && Tc(toks, thenAt).Ok? && r.node.children[1] == Tc(toks, thenAt).value.node
      && Next(toks, Tc(toks, thenAt).value.next, Operator, "|")
  {
    var b := B(toks, pos).value;
    assert Tc(toks, pos) == Conditional(toks, b);
  }

  /** ... and the second arm is the Tc parsed from elseAt, the position after that '|', ending where the conditional ends. */
  lemma ConditionalElse(toks: seq<Token>, pos: nat, thenAt: nat, elseAt: nat)
    requires pos <= |toks| && Tc(toks, pos).Ok? && Next(toks, B(toks, pos).value.next, Operator, "->")
    requires thenAt == B(toks, pos).value.next + 1 && Tc(toks, thenAt).Ok?
    requires Next(toks, Tc(toks, thenAt).value.next, Operator, "|") && elseAt == Tc(toks, thenAt).value.next + 1
    ensures var r := Tc(toks, pos).value;
      Tc(toks, elseAt) == Ok(Parsed(r.node.children[2], r.next))
  {
    var b := B(toks, pos).value;
    assert Tc(toks, pos) == Conditional(toks, b);
    ConditionalElseArm(toks, b, thenAt, Tc(toks, thenAt).value, elseAt);
  }

  /** Conditional after b with first arm t1 parsed from thenAt: its last child is the Tc parsed from elseAt. */
  lemma ConditionalElseArm(toks: seq<Token>, b: Parsed, thenAt: nat, t1: Parsed, elseAt: nat)
    requires Next(toks, b.next, Operator, "->") && WellShaped(b.node) && Conditional(toks, b).Ok?
    requires thenAt == b.next + 1 && Tc(toks, thenAt) == Ok(t1)
    requires Next(toks, t1.next, Operator, "|") && elseAt == t1.next + 1
    ensures Tc(toks, elseAt) == Ok(Parsed(Conditional(toks, b).value.node.children[2], Conditional(toks, b).value.next))
  {
    var t2 := Tc(toks, elseAt);
    assert Expect(toks, t1.next, Operator, "|") == Ok(elseAt);
    assert t2.Ok? && Conditional(toks, b) == Ok(Parsed(Node(Operator, "->", [b.node, t1.node, t2.value.node]), t2.value.next));
  }
}
