/**
  The loops of parser.c that build a chain of binary operators: Parser_A
  ('+' '-'), Parser_At ('*' '/'), Parser_Bt ('&'), Parser_B ('or') and
  Parser_Ta ('aug') each read an operand, then, while their operator
  follows, one more operand, and hang the tree built so far as the left
  child of a new node.  Parser_Ap does the same with '@', an operator name
  and an operand, building three-child nodes, and Parser_R with 'gamma'
  over operands written side by side.  Here every such loop is compared
  with the independent definition of left association, in both
  directions: a chain of operands is folded to its left association, and
  whatever a loop returns is the left association of some chain.  The
  sign Parser_A reads before its first operand, and the right-nested
  '**' of Parser_Af, are stated the same way.
 */
module Folds {
  import opened Results
  import opened Tokens
  import opened Ast
  import opened Parser
  import opened ParserProps

  /** The five binary levels built by a left-folding loop. */
  datatype Level = Sum | Term | Conj | Disj | Aug

  /** The operator of the level is at pos. */
  predicate IsOp(level: Level, toks: seq<Token>, pos: nat) {
    match level
    case Sum => AddOp(toks, pos)
    case Term => MulOp(toks, pos)
    case Conj => Next(toks, pos, Operator, "&")
    case Disj => Next(toks, pos, Keyword, "or")
    case Aug => Next(toks, pos, Keyword, "aug")
  }

  /** The rule that parses each operand of the level. */
  function Operand(level: Level, toks: seq<Token>, pos: nat): (r: Result<Parsed>)
    requires pos <= |toks|
    ensures Sound(toks, pos, r)
  {
    match level
    case Sum => At(toks, pos)
    case Term => Af(toks, pos)
    case Conj => Bs(toks, pos)
    case Disj => Bt(toks, pos)
    case Aug => Tc(toks, pos)
  }

  /** The loop of the level, started at pos on the tree built so far. */
  function Fold(level: Level, toks: seq<Token>, pos: nat, acc: Node): (r: Result<Parsed>)
    requires pos <= |toks| && WellShaped(acc)
    ensures !IsOp(level, toks, pos) ==> r == Ok(Parsed(acc, pos))
  {
    match level
    case Sum => AFold(toks, pos, acc)
    case Term => AtFold(toks, pos, acc)
    case Conj => BtFold(toks, pos, acc)
    case Disj => BFold(toks, pos, acc)
    case Aug => TaFold(toks, pos, acc)
  }

  /**
    From pos on, the tokens read op1 x1 op2 x2 ... with the level's
    operators, each xi being what the operand rule parses right after opi,
    and the chain ends at end.
   */
  predicate Chain(level: Level, toks: seq<Token>, pos: nat, steps: seq<Step>, end: nat)
    decreases |steps|
  {
    if |steps| == 0 then pos == end
    else
      && IsOp(level, toks, pos) && pos < |toks| && steps[0].op == toks[pos].lexeme
      && Operand(level, toks, pos + 1).Ok? && Operand(level, toks, pos + 1).value.node == steps[0].operand
      && Chain(level, toks, Operand(level, toks, pos + 1).value.next, steps[1..], end)
  }

  /** One turn of a loop: the operator at pos and the operand o parsed from after join the tree built so far. */
  lemma FoldStep(level: Level, toks: seq<Token>, pos: nat, acc: Node, after: nat, o: Parsed)
    requires pos < |toks| && WellShaped(acc) && IsOp(level, toks, pos)
    requires after == pos + 1 && Operand(level, toks, after) == Ok(o)
    ensures WellShaped(Node(Operator, toks[pos].lexeme, [acc, o.node]))
    ensures Fold(level, toks, pos, acc) == Fold(level, toks, o.next, Node(Operator, toks[pos].lexeme, [acc, o.node]))
  {
    var n := Node(Operator, toks[pos].lexeme, [acc, o.node]);
    assert IsBinaryName(n.name);
    assert forall i :: 0 <= i < |n.children| ==> WellShaped(n.children[i]);
  }

  /** A loop run over a chain that nothing of its level continues builds the chain's left association. */
  lemma {:induction false} FoldOfChain(level: Level, toks: seq<Token>, pos: nat, acc: Node, steps: seq<Step>, end: nat)
    requires pos <= |toks| && WellShaped(acc)
    requires Chain(level, toks, pos, steps, end) && !IsOp(level, toks, end)
    ensures Fold(level, toks, pos, acc) == Ok(Parsed(LeftAssoc(acc, steps), end))
    decreases |steps|
  {
    if |steps| == 0 {
      assert pos == end;
    } else {
      var o := Operand(level, toks, pos + 1).value;
      var acc' := Node(Operator, steps[0].op, [acc, steps[0].operand]);
      FoldStep(level, toks, pos, acc, pos + 1, o);
      FoldOfChain(level, toks, o.next, acc', steps[1..], end);
      LeftAssocFront(acc, steps);
    }
  }

  /** Whatever a loop returns is the left association of the chain it read, and nothing of its level follows. */
  lemma {:induction false} ChainOfFold(level: Level, toks: seq<Token>, pos: nat, acc: Node) returns (steps: seq<Step>)
    requires pos <= |toks| && WellShaped(acc) && Fold(level, toks, pos, acc).Ok?
    ensures Chain(level, toks, pos, steps, Fold(level, toks, pos, acc).value.next)
    ensures Fold(level, toks, pos, acc).value.node == LeftAssoc(acc, steps)
    decreases |toks| - pos
  {
    if !IsOp(level, toks, pos) {
      steps := [];
    } else {
      var o := Operand(level, toks, pos + 1).value;
      var acc' := Node(Operator, toks[pos].lexeme, [acc, o.node]);
      FoldStep(level, toks, pos, acc, pos + 1, o);
      var rest := ChainOfFold(level, toks, o.next, acc');
      steps := [Step(toks[pos].lexeme, o.node)] + rest;
      assert steps[1..] == rest;
      LeftAssocFront(acc, steps);
    }
  }

  /** The loop of each level returns a position that its operator does not start. */
  lemma FoldStopsAtOperator(level: Level, toks: seq<Token>, pos: nat, acc: Node)
    requires pos <= |toks| && WellShaped(acc) && Fold(level, toks, pos, acc).Ok?
    ensures !IsOp(level, toks, Fold(level, toks, pos, acc).value.next)
  {
  }

  // ---------------------------------------------------------------------------
  // The rules At, Bt, B and Ta: a first operand, then the loop
  // ---------------------------------------------------------------------------

  /**
    The rule whose loop is the level's: At over Af, Bt over Bs, B over Bt,
    Ta over Tc.  Parser_A reads an optional sign first; it has its own
    lemmas below.
   */
  function Rule(level: Level, toks: seq<Token>, pos: nat): Result<Parsed>
    requires level != Sum && pos <= |toks|
  {
    match level
    case Term => At(toks, pos)
    case Conj => Bt(toks, pos)
    case Disj => B(toks, pos)
    case Aug => Ta(toks, pos)
  }

  /** The rule hands its first operand to the loop: nothing else happens before the loop. */
  lemma RuleIsFold(level: Level, toks: seq<Token>, pos: nat)
    requires level != Sum && pos <= |toks| && Operand(level, toks, pos).Ok?
    ensures Rule(level, toks, pos) == Fold(level, toks, Operand(level, toks, pos).value.next, Operand(level, toks, pos).value.node)
  {
  }

  /** x0 op1 x1 ... opn xn with the level's operators parses as the left association of the chain. */
  lemma RuleOfChain(level: Level, toks: seq<Token>, pos: nat, first: Parsed, steps: seq<Step>, end: nat)
    requires level != Sum && pos <= |toks| && Operand(level, toks, pos) == Ok(first)
    requires Chain(level, toks, first.next, steps, end) && !IsOp(level, toks, end)
    ensures Rule(level, toks, pos) == Ok(Parsed(LeftAssoc(first.node, steps), end))
  {
    RuleIsFold(level, toks, pos);
    FoldOfChain(level, toks, first.next, first.node, steps, end);
  }

  /** Whatever the rule returns is the left association of a chain that starts with its first operand. */
  lemma ChainOfRule(level: Level, toks: seq<Token>, pos: nat) returns (steps: seq<Step>)
    requires level != Sum && pos <= |toks| && Rule(level, toks, pos).Ok?
    ensures Operand(level, toks, pos).Ok?
    ensures Chain(level, toks, Operand(level, toks, pos).value.next, steps, Rule(level, toks, pos).value.next)
    ensures Rule(level, toks, pos).value.node == LeftAssoc(Operand(level, toks, pos).value.node, steps)
  {
    assert Operand(level, toks, pos).Ok?;
    RuleIsFold(level, toks, pos);
    var first := Operand(level, toks, pos).value;
    steps := ChainOfFold(level, toks, first.next, first.node);
  }

  // ---------------------------------------------------------------------------
  // Application: '@' <name> R, with three-child nodes
  // ---------------------------------------------------------------------------

  /** One '@' of an application chain: the token after '@' and the operand after that token. */
  datatype Infix = Infix(name: Token, operand: Node)

  /** x0 @ f1 x1 @ f2 x2 ... read with left association, the last '@' at the root. */
  function InfixAssoc(first: Node, steps: seq<Infix>): Node
    decreases |steps|
  {
    if |steps| == 0 then first
    else
      var last := steps[|steps| - 1];
      Node(Operator, "@", [InfixAssoc(first, steps[..|steps| - 1]), Leaf(last.name), last.operand])
  }

  /** Infix association seen from the front: the first step becomes part of the first operand. */
  lemma {:induction false} InfixAssocFront(first: Node, steps: seq<Infix>)
    requires |steps| > 0
    ensures InfixAssoc(Node(Operator, "@", [first, Leaf(steps[0].name), steps[0].operand]), steps[1..]) == InfixAssoc(first, steps)
    decreases |steps|
  {
    var n := |steps|;
    if n > 1 {
      var init := steps[..n - 1];
      InfixAssocFront(first, init);
      assert init[0] == steps[0];
      assert init[1..] == steps[1..][..n - 2];
      assert steps[1..][n - 2] == steps[n - 1];
    }
  }

  /** From pos on, the tokens read '@' f1 x1 '@' f2 x2 ..., each xi what R parses after fi, ending at end. */
  predicate InfixChain(toks: seq<Token>, pos: nat, steps: seq<Infix>, end: nat)
    decreases |steps|
  {
    if |steps| == 0 then pos == end
    else
      && Next(toks, pos, Operator, "@") && pos + 1 < |toks| && toks[pos + 1] == steps[0].name
      && R(toks, pos + 2).Ok? && R(toks, pos + 2).value.node == steps[0].operand
      && InfixChain(toks, R(toks, pos + 2).value.next, steps[1..], end)
  }

  /** One turn of the '@' loop: the name after '@' and the operand o parsed from after join the tree built so far. */
  lemma ApFoldStep(toks: seq<Token>, pos: nat, acc: Node, after: nat, o: Parsed)
    requires pos + 1 < |toks| && WellShaped(acc) && Next(toks, pos, Operator, "@")
    requires after == pos + 2 && R(toks, after) == Ok(o)
    ensures WellShaped(Node(Operator, "@", [acc, Leaf(toks[pos + 1]), o.node]))
    ensures ApFold(toks, pos, acc) == ApFold(toks, o.next, Node(Operator, "@", [acc, Leaf(toks[pos + 1]), o.node]))
  {
    var n := Node(Operator, "@", [acc, Leaf(toks[pos + 1]), o.node]);
    assert forall i :: 0 <= i < |n.children| ==> WellShaped(n.children[i]);
  }

  /** The '@' loop run over a chain that no further '@' continues builds the chain's infix association. */
  lemma {:induction false} ApFoldOfChain(toks: seq<Token>, pos: nat, acc: Node, steps: seq<Infix>, end: nat)
    requires pos <= |toks| && WellShaped(acc)
    requires InfixChain(toks, pos, steps, end) && !Next(toks, end, Operator, "@")
    ensures ApFold(toks, pos, acc) == Ok(Parsed(InfixAssoc(acc, steps), end))
    decreases |steps|
  {
    if |steps| == 0 {
      assert pos == end;
    } else {
      var o := R(toks, pos + 2).value;
      var acc' := Node(Operator, "@", [acc, Leaf(steps[0].name), steps[0].operand]);
      ApFoldStep(toks, pos, acc, pos + 2, o);
      ApFoldOfChain(toks, o.next, acc', steps[1..], end);
      InfixAssocFront(acc, steps);
    }
  }

  /** Whatever the '@' loop returns is the infix association of the chain it read. */
  lemma {:induction false} ChainOfApFold(toks: seq<Token>, pos: nat, acc: Node) returns (steps: seq<Infix>)
    requires pos <= |toks| && WellShaped(acc) && ApFold(toks, pos, acc).Ok?
    ensures InfixChain(toks, pos, steps, ApFold(toks, pos, acc).value.next)
    ensures ApFold(toks, pos, acc).value.node == InfixAssoc(acc, steps)
    decreases |toks| - pos
  {
    if !Next(toks, pos, Operator, "@") {
      steps := [];
    } else {
      var o := R(toks, pos + 2).value;
      var acc' := Node(Operator, "@", [acc, Leaf(toks[pos + 1]), o.node]);
      ApFoldStep(toks, pos, acc, pos + 2, o);
      var rest := ChainOfApFold(toks, o.next, acc');
      steps := [Infix(toks[pos + 1], o.node)] + rest;
      assert steps[1..] == rest;
      InfixAssocFront(acc, steps);
    }
  }

  /** x0 @ f1 x1 ... @ fn xn parses as the infix association of the chain: the leftmost '@' is innermost. */
  lemma ApOfChain(toks: seq<Token>, pos: nat, first: Parsed, steps: seq<Infix>, end: nat)
    requires pos <= |toks| && R(toks, pos) == Ok(first)
    requires InfixChain(toks, first.next, steps, end) && !Next(toks, end, Operator, "@")
    ensures Ap(toks, pos) == Ok(Parsed(InfixAssoc(first.node, steps), end))
  {
    ApFoldOfChain(toks, first.next, first.node, steps, end);
  }

  /** Whatever Ap returns is the infix association of a chain that starts with its first R. */
  lemma ChainOfAp(toks: seq<Token>, pos: nat) returns (steps: seq<Infix>)
    requires pos <= |toks| && Ap(toks, pos).Ok?
    ensures R(toks, pos).Ok?
    ensures InfixChain(toks, R(toks, pos).value.next, steps, Ap(toks, pos).value.next)
    ensures Ap(toks, pos).value.node == InfixAssoc(R(toks, pos).value.node, steps)
  {
    var first := R(toks, pos).value;
    steps := ChainOfApFold(toks, first.next, first.node);
  }

  // ---------------------------------------------------------------------------
  // A: an optional sign before the first operand, then the '+'/'-' loop
  // ---------------------------------------------------------------------------

  /** Where A's first At starts: after a leading '+' or '-', else at pos. */
  function SignedStart(toks: seq<Token>, pos: nat): (start: nat)
    requires pos <= |toks|
    ensures start <= |toks|
    ensures AddOp(toks, pos) <==> start == pos + 1
    ensures !AddOp(toks, pos) <==> start == pos
  {
    if AddOp(toks, pos) then pos + 1 else pos
  }

  /** The first operand of A as the loop receives it: wrapped in 'neg' after a '-', bare otherwise. */
  function Signed(toks: seq<Token>, pos: nat, first: Node): (n: Node)
    requires WellShaped(first)
    ensures WellShaped(n)
    ensures Next(toks, pos, Operator, "-") ==> n.kind == Operator && n.name == "neg" && n.children == [first]
    ensures !Next(toks, pos, Operator, "-") ==> n == first
  {
    if Next(toks, pos, Operator, "-") then UnaryNode("neg", first) else first
  }

  /**
    A reads its sign, if any, then hands the first At to the '+'/'-' loop:
    a '+' is dropped, a '-' wraps only that first At in 'neg', and A fails
    exactly when that At or the loop fails.
   */
  lemma AIsFold(toks: seq<Token>, pos: nat, start: nat)
    requires pos <= |toks| && start == SignedStart(toks, pos)
    ensures A(toks, pos).Ok? <==>
      At(toks, start).Ok? && Fold(Sum, toks, At(toks, start).value.next, Signed(toks, pos, At(toks, start).value.node)).Ok?
    ensures At(toks, start).Ok? ==>
      A(toks, pos) == Fold(Sum, toks, At(toks, start).value.next, Signed(toks, pos, At(toks, start).value.node))
  {
  }

  /** A sign, if any, then x0 op1 x1 ... opn xn with '+' and '-' parses as the chain's left association over the signed x0. */
  lemma AOfChain(toks: seq<Token>, pos: nat, start: nat, first: Parsed, steps: seq<Step>, end: nat)
    requires pos <= |toks| && start == SignedStart(toks, pos) && At(toks, start) == Ok(first)
    requires Chain(Sum, toks, first.next, steps, end) && !IsOp(Sum, toks, end)
    ensures A(toks, pos) == Ok(Parsed(LeftAssoc(Signed(toks, pos, first.node), steps), end))
  {
    AIsFold(toks, pos, start);
    FoldOfChain(Sum, toks, first.next, Signed(toks, pos, first.node), steps, end);
  }

  /** Whatever A returns is the left association of a chain that starts with its signed first At. */
  lemma ChainOfA(toks: seq<Token>, pos: nat, start: nat) returns (steps: seq<Step>)
    requires pos <= |toks| && start == SignedStart(toks, pos) && A(toks, pos).Ok?
    ensures At(toks, start).Ok?
    ensures Chain(Sum, toks, At(toks, start).value.next, steps, A(toks, pos).value.next)
    ensures A(toks, pos).value.node == LeftAssoc(Signed(toks, pos, At(toks, start).value.node), steps)
  {
    AIsFold(toks, pos, start);
    var first := At(toks, start).value;
    steps := ChainOfFold(Sum, toks, first.next, Signed(toks, pos, first.node));
  }

  // ---------------------------------------------------------------------------
  // Application by juxtaposition: the 'gamma' loop of R over Rn operands
  // ---------------------------------------------------------------------------

  /** Nothing at pos can start one more operand of R's loop. */
  predicate EndsOperands(toks: seq<Token>, pos: nat) {
    pos >= |toks| || !StartsRn(toks[pos])
  }

  /** From pos on, the tokens are operands side by side, each step a 'gamma' over what Rn parses there, ending at end. */
  predicate Juxtaposed(toks: seq<Token>, pos: nat, steps: seq<Step>, end: nat)
    decreases |steps|
  {
    if |steps| == 0 then pos == end
    else
      && pos < |toks| && StartsRn(toks[pos]) && Rn(toks, pos).Ok?
      && steps[0] == Step("gamma", Rn(toks, pos).value.node)
      && Juxtaposed(toks, Rn(toks, pos).value.next, steps[1..], end)
  }

  /** One turn of R's loop: the operand o that Rn parses at pos is applied to the tree built so far. */
  lemma RFoldStep(toks: seq<Token>, pos: nat, acc: Node, o: Parsed)
    requires pos < |toks| && StartsRn(toks[pos]) && WellShaped(acc) && Rn(toks, pos) == Ok(o)
    ensures WellShaped(Node(Operator, "gamma", [acc, o.node]))
    ensures RFold(toks, pos, acc) == RFold(toks, o.next, Node(Operator, "gamma", [acc, o.node]))
  {
    var n := Node(Operator, "gamma", [acc, o.node]);
    assert forall i :: 0 <= i < |n.children| ==> WellShaped(n.children[i]);
  }

  /** R's loop run over juxtaposed operands that nothing continues builds their left-associated 'gamma' application. */
  lemma {:induction false} RFoldOfChain(toks: seq<Token>, pos: nat, acc: Node, steps: seq<Step>, end: nat)
    requires pos <= |toks| && WellShaped(acc)
    requires Juxtaposed(toks, pos, steps, end) && EndsOperands(toks, end)
    ensures RFold(toks, pos, acc) == Ok(Parsed(LeftAssoc(acc, steps), end))
    decreases |steps|
  {
    if |steps| == 0 {
      assert pos == end;
    } else {
      var o := Rn(toks, pos).value;
      var acc' := Node(Operator, "gamma", [acc, o.node]);
      RFoldStep(toks, pos, acc, o);
      RFoldOfChain(toks, o.next, acc', steps[1..], end);
      LeftAssocFront(acc, steps);
    }
  }

  /** Whatever R's loop returns is the left-associated application of the operands it read. */
  lemma {:induction false} ChainOfRFold(toks: seq<Token>, pos: nat, acc: Node) returns (steps: seq<Step>)
    requires pos <= |toks| && WellShaped(acc) && RFold(toks, pos, acc).Ok?
    ensures Juxtaposed(toks, pos, steps, RFold(toks, pos, acc).value.next)
    ensures RFold(toks, pos, acc).value.node == LeftAssoc(acc, steps)
    decreases |toks| - pos
  {
    if EndsOperands(toks, pos) {
      steps := [];
    } else {
      var o := Rn(toks, pos).value;
      var acc' := Node(Operator, "gamma", [acc, o.node]);
      RFoldStep(toks, pos, acc, o);
      var rest := ChainOfRFold(toks, o.next, acc');
      steps := [Step("gamma", o.node)] + rest;
      assert steps[1..] == rest;
      LeftAssocFront(acc, steps);
    }
  }

  /** R parses its first Rn and hands it to the loop; it fails exactly when that Rn or the loop fails. */
  lemma RIsFold(toks: seq<Token>, pos: nat)
    requires pos <= |toks|
    ensures R(toks, pos).Ok? <==> Rn(toks, pos).Ok? && RFold(toks, Rn(toks, pos).value.next, Rn(toks, pos).value.node).Ok?
    ensures Rn(toks, pos).Ok? ==> R(toks, pos) == RFold(toks, Rn(toks, pos).value.next, Rn(toks, pos).value.node)
  {
  }

  /** f x (g y) z parses as ((f x) (g y)) z, whatever the operands: application associates to the left. */
  lemma ROfChain(toks: seq<Token>, pos: nat, first: Parsed, steps: seq<Step>, end: nat)
    requires pos <= |toks| && Rn(toks, pos) == Ok(first)
    requires Juxtaposed(toks, first.next, steps, end) && EndsOperands(toks, end)
    ensures R(toks, pos) == Ok(Parsed(LeftAssoc(first.node, steps), end))
  {
    RIsFold(toks, pos);
    RFoldOfChain(toks, first.next, first.node, steps, end);
  }

  /** Whatever R returns is the left-associated application of its first Rn to the operands after it. */
  lemma ChainOfR(toks: seq<Token>, pos: nat) returns (steps: seq<Step>)
    requires pos <= |toks| && R(toks, pos).Ok?
    ensures Rn(toks, pos).Ok?
    ensures Juxtaposed(toks, Rn(toks, pos).value.next, steps, R(toks, pos).value.next)
    ensures R(toks, pos).value.node == LeftAssoc(Rn(toks, pos).value.node, steps)
  {
    RIsFold(toks, pos);
    var first := Rn(toks, pos).value;
    steps := ChainOfRFold(toks, first.next, first.node);
  }

  // ---------------------------------------------------------------------------
  // Exponentiation: '**' nests to the right over Ap operands
  // ---------------------------------------------------------------------------

  /**
    From pos on, the tokens read x0 '**' x1 '**' ... '**' xn, each xi what
    Ap parses where it starts, no '**' after xn, and the chain ends at end.
   */
  predicate Powers(toks: seq<Token>, pos: nat, xs: seq<Node>, end: nat)
    decreases |xs|
  {
    && |xs| > 0 && pos <= |toks| && Ap(toks, pos).Ok? && Ap(toks, pos).value.node == xs[0]
    && if |xs| == 1 then Ap(toks, pos).value.next == end && !Next(toks, end, Operator, "**")
       else Next(toks, Ap(toks, pos).value.next, Operator, "**") && Powers(toks, Ap(toks, pos).value.next + 1, xs[1..], end)
  }

  /** x0 ** x1 ** ... ** xn read with right association: the first '**' is the root. */
  function PowerAssoc(xs: seq<Node>): Node
    requires |xs| > 0
    decreases |xs|
  {
    if |xs| == 1 then xs[0] else Node(Operator, "**", [xs[0], PowerAssoc(xs[1..])])
  }

  /** One '**': the Ap at pos, then the Af parsed from after, the position after the '**'. */
  lemma AfStep(toks: seq<Token>, pos: nat, ap: Parsed, after: nat)
    requires pos <= |toks| && Ap(toks, pos) == Ok(ap) && Next(toks, ap.next, Operator, "**")
    requires after == ap.next + 1
    ensures Af(toks, pos).Ok? <==> Af(toks, after).Ok?
    ensures Af(toks, after).Ok? ==>
      Af(toks, pos) == Ok(Parsed(Node(Operator, "**", [ap.node, Af(toks, after).value.node]), Af(toks, after).value.next))
  {
  }

  /** A chain of '**' over any Ap operands parses to its right association: a ** f b ** (c) is a ** ((f b) ** c). */
  lemma {:induction false} AfOfPowers(toks: seq<Token>, pos: nat, xs: seq<Node>, end: nat)
    requires Powers(toks, pos, xs, end)
    ensures Af(toks, pos) == Ok(Parsed(PowerAssoc(xs), end))
    decreases |xs|
  {
    var ap := Ap(toks, pos).value;
    if |xs| > 1 {
      var after := ap.next + 1;
      AfOfPowers(toks, after, xs[1..], end);
      AfStep(toks, pos, ap, after);
    }
  }

  /** Whatever Af returns is the right association of the chain of Ap operands it read. */
  lemma {:induction false} PowersOfAf(toks: seq<Token>, pos: nat) returns (xs: seq<Node>)
    requires pos <= |toks| && Af(toks, pos).Ok?
    ensures Powers(toks, pos, xs, Af(toks, pos).value.next)
    ensures Af(toks, pos).value.node == PowerAssoc(xs)
    decreases |toks| - pos
  {
    var ap := Ap(toks, pos).value;
    if !Next(toks, ap.next, Operator, "**") {
      xs := [ap.node];
    } else {
      var after := ap.next + 1;
      AfStep(toks, pos, ap, after);
      var rest := PowersOfAf(toks, after);
      xs := [ap.node] + rest;
      assert xs[1..] == rest;
    }
  }
}
