/**
  The recursive-descent parser of parser.c, Parser_Vl through Parser_E.

  The C keeps one global token list that is at once the unread input and a
  stack whose front is the subtree the last rule built; a rule looks ahead
  with T_SECOND, the token after that subtree.  Here the token list is
  fixed and every rule starts at a position in it and returns the subtree
  together with the position after it, so T_FIRST is toks[pos] before a
  rule runs and T_SECOND is toks[next] after it.  Every rule needs at least
  one token: where the C would dereference the empty list the rule returns
  UnexpectedEnd.

  Every rule that succeeds moves strictly forward, which is what makes
  `decreases |toks| - pos, rank` a termination measure: a rule calls a rule
  of lower rank at the same position, or any rule further on.
 */
module Parser {
  import opened Results
  import opened Tokens
  import opened Ast

  /** A subtree and the position after it. */
  datatype Parsed = Parsed(node: Node, next: nat)

  /** The subtrees a repetition collected, in source order, and the position after them. */
  datatype Items = Items(nodes: seq<Node>, next: nat)

  /** T_MATCH on the token at pos. */
  predicate Next(toks: seq<Token>, pos: nat, k: Kind, s: string) {
    pos < |toks| && Is(toks[pos], k, s)
  }

  predicate AllShaped(ns: seq<Node>) {
    forall i :: 0 <= i < |ns| ==> WellShaped(ns[i])
  }

  /** A production node over well-shaped children, with as many children as its label allows, is well shaped. */
  lemma ShapedOperator(name: string, children: seq<Node>)
    requires ArityOk(name, |children|) && AllShaped(children)
    ensures WellShaped(Node(Operator, name, children))
  {
  }

  /** The node of a one-child rule ('rec', 'not', 'neg') over the subtree it wraps. */
  function UnaryNode(name: string, child: Node): (n: Node)
    requires name in {"rec", "not", "neg"} && WellShaped(child)
    ensures WellShaped(n) && n.kind == Operator && n.name == name && n.children == [child]
  {
    ShapedOperator(name, [child]);
    Node(Operator, name, [child])
  }

  /** The node of a list rule ('tau', 'and'): the first subtree, then those the loop collected. */
  function ListNode(name: string, first: Node, rest: seq<Node>): (n: Node)
    requires name in {"tau", "and"} && |rest| >= 1 && WellShaped(first) && AllShaped(rest)
    ensures WellShaped(n) && n.kind == Operator && n.name == name
    ensures |n.children| >= 2 && n.children[0] == first && n.children[1..] == rest
  {
    var children := [first] + rest;
    assert forall i :: 1 <= i < |children| ==> children[i] == rest[i - 1];
    ShapedOperator(name, children);
    Node(Operator, name, children)
  }

  /**
    What every rule promises: it fails when no token is left, and on
    success it consumed at least one token and built a well-shaped tree.
   */
  predicate Sound(toks: seq<Token>, pos: nat, r: Result<Parsed>) {
    && (pos == |toks| ==> r.Err?)
    && (r.Ok? ==> pos < r.value.next <= |toks| && WellShaped(r.value.node))
  }

  /** The guarantee of a left fold: it may consume nothing, and keeps the tree well shaped. */
  predicate SoundFold(toks: seq<Token>, pos: nat, r: Result<Parsed>) {
    r.Ok? ==> pos <= r.value.next <= |toks| && WellShaped(r.value.node)
  }

  /** The guarantee of a repetition that may match nothing. */
  predicate SoundItems(toks: seq<Token>, pos: nat, r: Result<Items>) {
    r.Ok? ==> pos <= r.value.next <= |toks| && AllShaped(r.value.nodes)
  }

  /** T_VERIFY and the T_POP_DUMP after it: the position after the expected token. */
  function Expect(toks: seq<Token>, pos: nat, k: Kind, s: string): (r: Result<nat>)
    ensures r.Ok? <==> Next(toks, pos, k, s)
    ensures r.Ok? ==> r.value == pos + 1
  {
    if Next(toks, pos, k, s) then Ok(pos + 1)
    else if pos >= |toks| then Err(UnexpectedEnd)
    else Err(Expected(toks[pos].lexeme, s))
  }

  const Comma: Token := Token(Punctuation, ",")

  /** The token a leaf was made from. */
  function LeafToken(n: Node): Token {
    Token(n.kind, n.name)
  }

  function LeafTokens(ns: seq<Node>): (ts: seq<Token>)
    ensures |ts| == |ns|
  {
    if |ns| == 0 then [] else [LeafToken(ns[0])] + LeafTokens(ns[1..])
  }

  predicate AllLeaves(ns: seq<Node>) {
    forall i :: 0 <= i < |ns| ==> ns[i].children == []
  }

  /** Elements written with a separator between each two of them. */
  function JoinedBy(elems: seq<Token>, sep: Token): seq<Token>
    requires |elems| > 0
  {
    if |elems| == 1 then [elems[0]] else [elems[0], sep] + JoinedBy(elems[1..], sep)
  }

  // ---------------------------------------------------------------------------
  // Definitions: D, Da, Dr, Db, Vb, Vl
  // ---------------------------------------------------------------------------

  /** The loop of Parser_Vl: an element, and more elements while a comma follows it. */
  function CommaList(toks: seq<Token>, pos: nat): (r: Result<Items>)
    requires pos < |toks|
    decreases |toks| - pos
    ensures r.Ok? ==> pos < r.value.next <= |toks| && |r.value.nodes| >= 1
    ensures r.Ok? ==> AllLeaves(r.value.nodes) && r.value.nodes[0] == Leaf(toks[pos])
    ensures r.Ok? ==> toks[pos..r.value.next] == JoinedBy(LeafTokens(r.value.nodes), Comma)
    ensures r.Ok? ==> !Next(toks, r.value.next, Punctuation, ",")
    ensures r.Ok? && Next(toks, pos + 1, Punctuation, ",") ==> |r.value.nodes| >= 2
  {
    if Next(toks, pos + 1, Punctuation, ",") then
      if pos + 2 >= |toks| then Err(UnexpectedEnd)
      else
        var more :- CommaList(toks, pos + 2);
        var nodes := [Leaf(toks[pos])] + more.nodes;
        assert nodes[1..] == more.nodes;
        assert toks[pos..more.next] == [toks[pos], Comma] + toks[pos + 2..more.next];
        Ok(Items(nodes, more.next))
    else
      Ok(Items([Leaf(toks[pos])], pos + 1))
  }

  /**
    Vl -> <ID> (',' <ID>)* : a single identifier is returned as it is; two
    or more elements become a ',' node.  Only the first element is checked
    to be an identifier.
   */
  function Vl(toks: seq<Token>, pos: nat): (r: Result<Parsed>)
    requires pos <= |toks|
    ensures Sound(toks, pos, r)
    ensures (pos == |toks| || toks[pos].kind != Identifier) ==> r.Err?
    ensures r.Ok? ==> IsVarList(r.value.node)
    ensures pos < |toks| && toks[pos].kind == Identifier && !Next(toks, pos + 1, Punctuation, ",") ==>
      r == Ok(Parsed(Leaf(toks[pos]), pos + 1))
    ensures r.Ok? && Next(toks, pos + 1, Punctuation, ",") ==>
      && r.value.node.kind == Operator && r.value.node.name == ","
      && |r.value.node.children| >= 2
      && toks[pos..r.value.next] == JoinedBy(LeafTokens(r.value.node.children), Comma)
      && !Next(toks, r.value.next, Punctuation, ",")
  {
    if pos == |toks| then Err(UnexpectedEnd)
    else if toks[pos].kind != Identifier then Err(Expected(toks[pos].lexeme, "ID"))
    else if Next(toks, pos + 1, Punctuation, ",") then
      var items :- CommaList(toks, pos);
      Ok(Parsed(Node(Operator, ",", items.nodes), items.next))
    else
      Ok(Parsed(Leaf(toks[pos]), pos + 1))
  }

  /** Vb -> <ID> | '(' Vl ')' | '(' ')' : a variable, a parenthesised list, or the '()' marker. */
  function Vb(toks: seq<Token>, pos: nat): (r: Result<Parsed>)
    requires pos <= |toks|
    ensures Sound(toks, pos, r)
    ensures r.Ok? ==> IsBinding(r.value.node)
    ensures pos < |toks| && toks[pos].kind == Identifier ==> r == Ok(Parsed(Leaf(toks[pos]), pos + 1))
    ensures Next(toks, pos, Punctuation, "(") && Next(toks, pos + 1, Punctuation, ")") ==>
      r == Ok(Parsed(Node(Operator, "()", []), pos + 2))
    ensures pos < |toks| && toks[pos].kind != Identifier && !Next(toks, pos, Punctuation, "(") ==> r.Err?
    ensures Next(toks, pos, Punctuation, "(") && !Next(toks, pos + 1, Punctuation, ")") && r.Ok? ==>
      && Vl(toks, pos + 1).Ok?
      && r.value.node == Vl(toks, pos + 1).value.node
      && Next(toks, Vl(toks, pos + 1).value.next, Punctuation, ")")
      && r.value.next == Vl(toks, pos + 1).value.next + 1
  {
    if pos == |toks| then Err(UnexpectedEnd)
    else if toks[pos].kind == Identifier then Ok(Parsed(Leaf(toks[pos]), pos + 1))
    else if Next(toks, pos, Punctuation, "(") && Next(toks, pos + 1, Punctuation, ")") then
      Ok(Parsed(Node(Operator, "()", []), pos + 2))
    else if Next(toks, pos, Punctuation, "(") then
      var vl :- Vl(toks, pos + 1);
      var after :- Expect(toks, vl.next, Punctuation, ")");
      Ok(Parsed(vl.node, after))
    else Err(Expected(toks[pos].lexeme, "("))
  }

  /** A token that lets the Vb+ repetition go on. */
  predicate StartsVb(t: Token) {
    t.kind == Identifier || Is(t, Punctuation, "(")
  }

  /** nodes are the trees Vb parses one after another from pos, the last one ending at end. */
  predicate VbItems(toks: seq<Token>, pos: nat, nodes: seq<Node>, end: nat)
    decreases |nodes|
  {
    && |nodes| > 0 && pos <= |toks| && Vb(toks, pos).Ok? && Vb(toks, pos).value.node == nodes[0]
    && (if |nodes| == 1 then Vb(toks, pos).value.next == end
        else VbItems(toks, Vb(toks, pos).value.next, nodes[1..], end))
  }

  /**
    The do-while loop collecting Vb+ in Parser_Db and Parser_E: it stops
    at the first token that cannot start a Vb; running out of tokens is an
    error.
   */
  function VbList(toks: seq<Token>, pos: nat): (r: Result<Items>)
    requires pos <= |toks|
    decreases |toks| - pos, 1
    ensures SoundItems(toks, pos, r)
    ensures r.Ok? ==> pos < r.value.next < |toks| && |r.value.nodes| >= 1
    ensures r.Ok? ==> forall i :: 0 <= i < |r.value.nodes| ==> IsBinding(r.value.nodes[i])
    ensures r.Ok? ==> !StartsVb(toks[r.value.next])
    ensures r.Ok? ==> VbItems(toks, pos, r.value.nodes, r.value.next)
  {
    var vb :- Vb(toks, pos);
    if vb.next == |toks| then Err(UnexpectedEnd)
    else if StartsVb(toks[vb.next]) then
      var more :- VbList(toks, vb.next);
      var nodes := [vb.node] + more.nodes;
      assert nodes[1..] == more.nodes;
      Ok(Items(nodes, more.next))
    else
      Ok(Items([vb.node], vb.next))
  }

  /** The '=' E part of the Vl '=' E branch, after the names vl. */
  function BindingBody(toks: seq<Token>, vl: Parsed): (r: Result<Parsed>)
    requires vl.next <= |toks| && WellShaped(vl.node)
    decreases |toks| - vl.next, 0
    ensures r.Ok? ==> vl.next < r.value.next <= |toks| && WellShaped(r.value.node)
    ensures r.Ok? ==>
      && r.value.node.kind == Operator && r.value.node.name == "="
      && |r.value.node.children| == 2 && r.value.node.children[0] == vl.node
      && Next(toks, vl.next, Operator, "=")
  {
    var afterEq :- Expect(toks, vl.next, Operator, "=");
    var e :- E(toks, afterEq);
    Ok(Parsed(Node(Operator, "=", [vl.node, e.node]), e.next))
  }

  /** The Vl '=' E branch of Parser_Db: the names and the value they are bound to. */
  function Binding(toks: seq<Token>, pos: nat): (r: Result<Parsed>)
    requires pos <= |toks|
    decreases |toks| - pos, 1
    ensures Sound(toks, pos, r)
    ensures r.Ok? ==> Vl(toks, pos).Ok?
    ensures Vl(toks, pos).Ok? ==> r == BindingBody(toks, Vl(toks, pos).value)
  {
    var vl :- Vl(toks, pos);
    BindingBody(toks, vl)
  }

  /** The <ID> Vb+ '=' E branch of Parser_Db: the name, its parameters and the body. */
  function FunctionForm(toks: seq<Token>, pos: nat): (r: Result<Parsed>)
    requires pos < |toks|
    decreases |toks| - pos, 1
    ensures r.Ok? ==> pos < r.value.next <= |toks| && WellShaped(r.value.node)
    ensures r.Ok? ==> VbList(toks, pos + 1).Ok?
    ensures VbList(toks, pos + 1).Ok? ==> r == FunctionFormBody(toks, toks[pos], VbList(toks, pos + 1).value)
  {
    var vbs :- VbList(toks, pos + 1);
    FunctionFormBody(toks, toks[pos], vbs)
  }

  /** The '=' E part of the function form named name, after its parameters vbs. */
  function FunctionFormBody(toks: seq<Token>, name: Token, vbs: Items): (r: Result<Parsed>)
    requires vbs.next <= |toks| && |vbs.nodes| >= 1 && AllShaped(vbs.nodes)
    requires forall i :: 0 <= i < |vbs.nodes| ==> IsBinding(vbs.nodes[i])
    decreases |toks| - vbs.next, 0
    ensures r.Ok? ==> vbs.next < r.value.next <= |toks| && WellShaped(r.value.node)
    ensures r.Ok? ==>
      && r.value.node.kind == Operator && r.value.node.name == "function_form"
      && |r.value.node.children| == |vbs.nodes| + 2 && r.value.node.children[0] == Leaf(name)
      && r.value.node.children[1..|vbs.nodes| + 1] == vbs.nodes
      && Next(toks, vbs.next, Operator, "=")
  {
    var afterEq :- Expect(toks, vbs.next, Operator, "=");
    var e :- E(toks, afterEq);
    Ok(Parsed(FunctionFormNode(name, vbs.nodes, e.node), e.next))
  }

  /** The node Parser_Fcn_Form builds: the name, the bindings, then the body. */
  function FunctionFormNode(name: Token, bindings: seq<Node>, body: Node): (n: Node)
    requires |bindings| >= 1 && AllShaped(bindings) && WellShaped(body)
    requires forall i :: 0 <= i < |bindings| ==> IsBinding(bindings[i])
    ensures WellShaped(n) && n.kind == Operator && n.name == "function_form"
    ensures |n.children| == |bindings| + 2 && n.children[0] == Leaf(name)
    ensures n.children[1..|n.children| - 1] == bindings && n.children[|n.children| - 1] == body
  {
    var children := [Leaf(name)] + bindings + [body];
    assert forall i :: 1 <= i < |children| - 1 ==> children[i] == bindings[i - 1];
    assert children[1..|children| - 1] == bindings;
    ShapedOperator("function_form", children);
    Node(Operator, "function_form", children)
  }

  /**
    Db -> Vl '=' E | <ID> Vb+ '=' E | '(' D ')'.  The two identifier forms
    are told apart by the token after the identifier: ',' or '=' selects
    Vl '=' E, an identifier or '(' selects the function form, anything
    else is an error.
   */
  function Db(toks: seq<Token>, pos: nat): (r: Result<Parsed>)
    requires pos <= |toks|
    decreases |toks| - pos, 2
    ensures Sound(toks, pos, r)
    ensures Next(toks, pos, Punctuation, "(") && r.Ok? ==>
      && D(toks, pos + 1).Ok? && r.value.node == D(toks, pos + 1).value.node
      && Next(toks, D(toks, pos + 1).value.next, Punctuation, ")")
      && r.value.next == D(toks, pos + 1).value.next + 1
    ensures pos < |toks| && !Next(toks, pos, Punctuation, "(") && toks[pos].kind != Identifier ==> r.Err?
    ensures (&& pos < |toks| && toks[pos].kind == Identifier
             && (Next(toks, pos + 1, Punctuation, ",") || Next(toks, pos + 1, Operator, "="))) ==>
      r == Binding(toks, pos)
    ensures (&& pos + 1 < |toks| && toks[pos].kind == Identifier && StartsVb(toks[pos + 1])
             && !Next(toks, pos + 1, Punctuation, ",") && !Next(toks, pos + 1, Operator, "=")) ==>
      r == FunctionForm(toks, pos)
    ensures (&& pos < |toks| && toks[pos].kind == Identifier
             && !Next(toks, pos + 1, Punctuation, ",") && !Next(toks, pos + 1, Operator, "=")
             && !(pos + 1 < |toks| && StartsVb(toks[pos + 1]))) ==> r.Err?
  {
    if Next(toks, pos, Punctuation, "(") then
      var d :- D(toks, pos + 1);
      var after :- Expect(toks, d.next, Punctuation, ")");
      Ok(Parsed(d.node, after))
    else if pos == |toks| then Err(UnexpectedEnd)
    else if toks[pos].kind != Identifier then Err(Expected(toks[pos].lexeme, "ID"))
    else if Next(toks, pos + 1, Punctuation, ",") || Next(toks, pos + 1, Operator, "=") then
      Binding(toks, pos)
    else if pos + 1 < |toks| && StartsVb(toks[pos + 1]) then
      FunctionForm(toks, pos)
    else if pos + 1 < |toks| then Err(Expected(toks[pos + 1].lexeme, "="))
    else Err(UnexpectedEnd)
  }

  /** Dr -> 'rec' Db => 'rec' | Db. */
  function Dr(toks: seq<Token>, pos: nat): (r: Result<Parsed>)
    requires pos <= |toks|
    decreases |toks| - pos, 3
    ensures Sound(toks, pos, r)
    ensures Next(toks, pos, Keyword, "rec") && r.Ok? ==>
      && r.value.node.kind == Operator && r.value.node.name == "rec" && |r.value.node.children| == 1
    ensures !Next(toks, pos, Keyword, "rec") ==> r == Db(toks, pos)
  {
    if Next(toks, pos, Keyword, "rec") then
      var db :- Db(toks, pos + 1);
      Ok(Parsed(UnaryNode("rec", db.node), db.next))
    else Db(toks, pos)
  }

  /** From pos on, the tokens read 'and' Dr 'and' Dr ..., with nodes the Dr trees, ending at end. */
  predicate AndItems(toks: seq<Token>, pos: nat, nodes: seq<Node>, end: nat)
    decreases |toks| - pos, 0
  {
    if |nodes| == 0 then pos == end
    else
      && Next(toks, pos, Keyword, "and") && Dr(toks, pos + 1).Ok? && Dr(toks, pos + 1).value.node == nodes[0]
      && AndItems(toks, Dr(toks, pos + 1).value.next, nodes[1..], end)
  }

  /** The loop of Parser_Da: a Dr after each 'and'. */
  function AndList(toks: seq<Token>, pos: nat): (r: Result<Items>)
    requires pos <= |toks|
    decreases |toks| - pos, 1
    ensures SoundItems(toks, pos, r)
    ensures r.Ok? ==> !Next(toks, r.value.next, Keyword, "and")
    ensures r.Ok? && Next(toks, pos, Keyword, "and") ==> |r.value.nodes| >= 1
    ensures !Next(toks, pos, Keyword, "and") ==> r == Ok(Items([], pos))
    ensures r.Ok? ==> AndItems(toks, pos, r.value.nodes, r.value.next)
  {
    if Next(toks, pos, Keyword, "and") then
      var dr :- Dr(toks, pos + 1);
      var more :- AndList(toks, dr.next);
      var nodes := [dr.node] + more.nodes;
      assert nodes[1..] == more.nodes;
      Ok(Items(nodes, more.next))
    else Ok(Items([], pos))
  }

  /** Da -> Dr ('and' Dr)+ => 'and' | Dr : the 'and' node exists only when an 'and' follows the first Dr. */
  function Da(toks: seq<Token>, pos: nat): (r: Result<Parsed>)
    requires pos <= |toks|
    decreases |toks| - pos, 4
    ensures Sound(toks, pos, r)
    ensures r.Ok? ==> !Next(toks, r.value.next, Keyword, "and")
    ensures r.Ok? ==> Dr(toks, pos).Ok?
    ensures r.Ok? && !Next(toks, Dr(toks, pos).value.next, Keyword, "and") ==> r == Dr(toks, pos)
    ensures r.Ok? && Next(toks, Dr(toks, pos).value.next, Keyword, "and") ==>
      && r.value.node.kind == Operator && r.value.node.name == "and"
      && |r.value.node.children| >= 2 && r.value.node.children[0] == Dr(toks, pos).value.node
      && AndList(toks, Dr(toks, pos).value.next) == Ok(Items(r.value.node.children[1..], r.value.next))
  {
    var first :- Dr(toks, pos);
    if Next(toks, first.next, Keyword, "and") then
      var more :- AndList(toks, first.next);
      Ok(Parsed(ListNode("and", first.node, more.nodes), more.next))
    else Ok(first)
  }

  /** The 'within' D part of Parser_D, after the definition da, which ends at the 'within'. */
  function Within(toks: seq<Token>, da: Parsed): (r: Result<Parsed>)
    requires Next(toks, da.next, Keyword, "within") && WellShaped(da.node)
    decreases |toks| - da.next, 0
    ensures r.Ok? ==> da.next < r.value.next <= |toks| && WellShaped(r.value.node)
    ensures r.Ok? ==> !Next(toks, r.value.next, Keyword, "within")
    ensures r.Ok? ==>
      && r.value.node.kind == Operator && r.value.node.name == "within"
      && |r.value.node.children| == 2 && r.value.node.children[0] == da.node
  {
    var d :- D(toks, da.next + 1);
    Ok(Parsed(Node(Operator, "within", [da.node, d.node]), d.next))
  }

  /**
    D -> Da 'within' D => 'within' | Da.  The C loops while 'within'
    follows, but the inner D has already consumed every 'within' it can, so
    the loop body runs at most once: the result never leaves a 'within'.
   */
  function D(toks: seq<Token>, pos: nat): (r: Result<Parsed>)
    requires pos <= |toks|
    decreases |toks| - pos, 5
    ensures Sound(toks, pos, r)
    ensures r.Ok? ==> !Next(toks, r.value.next, Keyword, "within")
    ensures r.Ok? ==> Da(toks, pos).Ok?
    ensures r.Ok? && !Next(toks, Da(toks, pos).value.next, Keyword, "within") ==> r == Da(toks, pos)
    ensures Da(toks, pos).Ok? && Next(toks, Da(toks, pos).value.next, Keyword, "within") ==>
      r == Within(toks, Da(toks, pos).value)
  {
    var da :- Da(toks, pos);
    if Next(toks, da.next, Keyword, "within") then Within(toks, da)
    else Ok(da)
  }

  // ---------------------------------------------------------------------------
  // Operands: Rn, R, Ap, Af, At, A
  // ---------------------------------------------------------------------------

  /** The four constants Rn renames to their bracketed spelling. */
  predicate IsConstant(t: Token) {
    t.kind == Keyword && t.lexeme in {"true", "false", "nil", "dummy"}
  }

  /** The tokens R's loop accepts as the start of one more operand. */
  predicate StartsRn(t: Token) {
    t.kind == Identifier || t.kind == Integer || t.kind == String || IsConstant(t) || Is(t, Punctuation, "(")
  }

  /**
    Rn -> <ID> | <INT> | <STR> | true | false | nil | dummy | '(' E ')'.
    The constants become '<true>' and so on.  Parser_Rn has no final else:
    any other token is left in place and so becomes a leaf, without error.
   */
  function Rn(toks: seq<Token>, pos: nat): (r: Result<Parsed>)
    requires pos <= |toks|
    decreases |toks| - pos, 1
    ensures Sound(toks, pos, r)
    ensures pos < |toks| && !Next(toks, pos, Punctuation, "(") ==>
      && r.Ok? && r.value.next == pos + 1
      && r.value.node.children == [] && r.value.node.kind == toks[pos].kind
      && (IsConstant(toks[pos]) ==> r.value.node.name == "<" + toks[pos].lexeme + ">")
      && (!IsConstant(toks[pos]) ==> r.value.node.name == toks[pos].lexeme)
    ensures Next(toks, pos, Punctuation, "(") ==> r == Parenthesized(toks, pos)
  {
    if pos == |toks| then Err(UnexpectedEnd)
    else if IsConstant(toks[pos]) then
      Ok(Parsed(Node(Keyword, "<" + toks[pos].lexeme + ">", []), pos + 1))
    else if Next(toks, pos, Punctuation, "(") then
      Parenthesized(toks, pos)
    else
      Ok(Parsed(Leaf(toks[pos]), pos + 1))
  }

  /** Rn -> '(' E ')': the tree of E, with no node for the brackets; the ')' is mandatory. */
  function Parenthesized(toks: seq<Token>, pos: nat): (r: Result<Parsed>)
    requires pos < |toks|
    decreases |toks| - pos, 0
    ensures Sound(toks, pos, r)
    ensures r.Ok? ==>
      && E(toks, pos + 1).Ok? && r.value.node == E(toks, pos + 1).value.node
      && r.value.next == E(toks, pos + 1).value.next + 1
  {
    var e :- E(toks, pos + 1);
    Closed(toks, pos, e)
  }

  /** The ')' that must follow a bracketed E: the tree of E, ending after the ')'. */
  function Closed(toks: seq<Token>, pos: nat, e: Parsed): (r: Result<Parsed>)
    requires pos < e.next <= |toks| && WellShaped(e.node)
    ensures Sound(toks, pos, r)
    ensures r.Ok? <==> Next(toks, e.next, Punctuation, ")")
    ensures r.Ok? ==> r.value.node == e.node && r.value.next == e.next + 1
  {
    var after :- Expect(toks, e.next, Punctuation, ")");
    Ok(Parsed(e.node, after))
  }

  /** The loop of Parser_R: juxtaposition is application, folded to the left as 'gamma'. */
  function RFold(toks: seq<Token>, pos: nat, acc: Node): (r: Result<Parsed>)
    requires pos <= |toks| && WellShaped(acc)
    decreases |toks| - pos, 2
    ensures SoundFold(toks, pos, r)
    ensures r.Ok? ==> r.value.next == |toks| || !StartsRn(toks[r.value.next])
    ensures (pos == |toks| || !StartsRn(toks[pos])) ==> r == Ok(Parsed(acc, pos))
    ensures r.Ok? && pos < |toks| && StartsRn(toks[pos]) ==>
      r.value.node.kind == Operator && r.value.node.name == "gamma" && |r.value.node.children| == 2
  {
    if pos < |toks| && StartsRn(toks[pos]) then
      var rn :- Rn(toks, pos);
      RFold(toks, rn.next, Node(Operator, "gamma", [acc, rn.node]))
    else Ok(Parsed(acc, pos))
  }

  /** R -> R Rn => 'gamma' | Rn. */
  function R(toks: seq<Token>, pos: nat): (r: Result<Parsed>)
    requires pos <= |toks|
    decreases |toks| - pos, 3
    ensures Sound(toks, pos, r)
    ensures r.Ok? ==> r.value.next == |toks| || !StartsRn(toks[r.value.next])
  {
    var rn :- Rn(toks, pos);
    RFold(toks, rn.next, rn.node)
  }

  /**
    The loop of Parser_Ap: after '@' the next token is taken as the
    operator name without any check, then an R follows.
   */
  function ApFold(toks: seq<Token>, pos: nat, acc: Node): (r: Result<Parsed>)
    requires pos <= |toks| && WellShaped(acc)
    decreases |toks| - pos, 0
    ensures SoundFold(toks, pos, r)
    ensures r.Ok? ==> !Next(toks, r.value.next, Operator, "@")
    ensures !Next(toks, pos, Operator, "@") ==> r == Ok(Parsed(acc, pos))
    ensures Next(toks, pos, Operator, "@") && r.Ok? ==>
      && r.value.node.kind == Operator && r.value.node.name == "@" && |r.value.node.children| == 3
    ensures Next(toks, pos, Operator, "@") && pos + 2 >= |toks| ==> r.Err?
  {
    if Next(toks, pos, Operator, "@") then
      if pos + 1 == |toks| then Err(UnexpectedEnd)
      else
        var rr :- R(toks, pos + 2);
        ApFold(toks, rr.next, Node(Operator, "@", [acc, Leaf(toks[pos + 1]), rr.node]))
    else Ok(Parsed(acc, pos))
  }

  /** Ap -> Ap '@' <ID> R => '@' | R. */
  function Ap(toks: seq<Token>, pos: nat): (r: Result<Parsed>)
    requires pos <= |toks|
    decreases |toks| - pos, 4
    ensures Sound(toks, pos, r)
    ensures r.Ok? ==> !Next(toks, r.value.next, Operator, "@")
  {
    var rr :- R(toks, pos);
    ApFold(toks, rr.next, rr.node)
  }

  /**
    Af -> Ap '**' Af => '**' | Ap.  Right-recursive: the C's loop runs at
    most once because the inner Af consumes every '**' it meets.
   */
  function Af(toks: seq<Token>, pos: nat): (r: Result<Parsed>)
    requires pos <= |toks|
    decreases |toks| - pos, 5
    ensures Sound(toks, pos, r)
    ensures r.Ok? ==> !Next(toks, r.value.next, Operator, "**")
    ensures r.Ok? ==> Ap(toks, pos).Ok?
    ensures r.Ok? && !Next(toks, Ap(toks, pos).value.next, Operator, "**") ==> r == Ap(toks, pos)
    ensures r.Ok? && Next(toks, Ap(toks, pos).value.next, Operator, "**") ==>
      && r.value.node.kind == Operator && r.value.node.name == "**"
      && |r.value.node.children| == 2 && r.value.node.children[0] == Ap(toks, pos).value.node
  {
    var ap :- Ap(toks, pos);
    if Next(toks, ap.next, Operator, "**") then
      var af :- Af(toks, ap.next + 1);
      Ok(Parsed(Node(Operator, "**", [ap.node, af.node]), af.next))
    else Ok(ap)
  }

  /** A '*' or '/' at pos. */
  predicate MulOp(toks: seq<Token>, pos: nat) {
    Next(toks, pos, Operator, "*") || Next(toks, pos, Operator, "/")
  }

  /** The loop of Parser_At: '*' and '/' fold to the left; the node takes the operator's spelling. */
  function AtFold(toks: seq<Token>, pos: nat, acc: Node): (r: Result<Parsed>)
    requires pos <= |toks| && WellShaped(acc)
    decreases |toks| - pos, 0
    ensures SoundFold(toks, pos, r)
    ensures r.Ok? ==> !MulOp(toks, r.value.next)
    ensures !MulOp(toks, pos) ==> r == Ok(Parsed(acc, pos))
    ensures MulOp(toks, pos) && r.Ok? ==>
      r.value.node.kind == Operator && r.value.node.name in {"*", "/"} && |r.value.node.children| == 2
  {
    if MulOp(toks, pos) then
      var af :- Af(toks, pos + 1);
      AtFold(toks, af.next, Node(Operator, toks[pos].lexeme, [acc, af.node]))
    else Ok(Parsed(acc, pos))
  }

  /** At -> At '*' Af | At '/' Af | Af. */
  function At(toks: seq<Token>, pos: nat): (r: Result<Parsed>)
    requires pos <= |toks|
    decreases |toks| - pos, 6
    ensures Sound(toks, pos, r)
    ensures r.Ok? ==> !MulOp(toks, r.value.next)
  {
    var af :- Af(toks, pos);
    AtFold(toks, af.next, af.node)
  }

  /** A '+' or '-' at pos. */
  predicate AddOp(toks: seq<Token>, pos: nat) {
    Next(toks, pos, Operator, "+") || Next(toks, pos, Operator, "-")
  }

  /** The loop of Parser_A: '+' and '-' fold to the left. */
  function AFold(toks: seq<Token>, pos: nat, acc: Node): (r: Result<Parsed>)
    requires pos <= |toks| && WellShaped(acc)
    decreases |toks| - pos, 0
    ensures SoundFold(toks, pos, r)
    ensures r.Ok? ==> !AddOp(toks, r.value.next)
    ensures !AddOp(toks, pos) ==> r == Ok(Parsed(acc, pos))
    ensures AddOp(toks, pos) && r.Ok? ==>
      r.value.node.kind == Operator && r.value.node.name in {"+", "-"} && |r.value.node.children| == 2
  {
    if AddOp(toks, pos) then
      var at :- At(toks, pos + 1);
      AFold(toks, at.next, Node(Operator, toks[pos].lexeme, [acc, at.node]))
    else Ok(Parsed(acc, pos))
  }

  /**
    A -> A '+' At | A '-' At | '+' At | '-' At => 'neg' | At.  A sign is
    looked at only before the first operand: '+' is dropped, '-' wraps
    that operand in 'neg'; the left fold then follows.
   */
  function A(toks: seq<Token>, pos: nat): (r: Result<Parsed>)
    requires pos <= |toks|
    decreases |toks| - pos, 7
    ensures Sound(toks, pos, r)
    ensures r.Ok? ==> !AddOp(toks, r.value.next)
  {
    if Next(toks, pos, Operator, "+") then
      var at :- At(toks, pos + 1);
      AFold(toks, at.next, at.node)
    else if Next(toks, pos, Operator, "-") then
      var at :- At(toks, pos + 1);
      AFold(toks, at.next, Node(Operator, "neg", [at.node]))
    else
      var at :- At(toks, pos);
      AFold(toks, at.next, at.node)
  }

  // ---------------------------------------------------------------------------
  // Booleans and tuples: Bp, Bs, Bt, B, Tc, Ta, T
  // ---------------------------------------------------------------------------

  /** The ten comparison tokens Parser_Bp accepts: keywords for the words, operators for the symbols. */
  predicate IsComparison(t: Token) {
    || (t.kind == Keyword && t.lexeme in {"gr", "ge", "ls", "le", "eq", "ne"})
    || (t.kind == Operator && t.lexeme in {">", ">=", "<", "<="})
  }

  /**
    Bp -> A (gr | > | ge | >= | ls | < | le | <= | eq | ne) A | A.  The
    comparison token becomes the node with its own spelling (only its kind
    changes), and there is no loop: comparisons do not chain.
   */
  function Bp(toks: seq<Token>, pos: nat): (r: Result<Parsed>)
    requires pos <= |toks|
    decreases |toks| - pos, 8
    ensures Sound(toks, pos, r)
    ensures r.Ok? ==> A(toks, pos).Ok?
    ensures r.Ok? && !(A(toks, pos).value.next < |toks| && IsComparison(toks[A(toks, pos).value.next])) ==>
      r == A(toks, pos)
    ensures r.Ok? && A(toks, pos).value.next < |toks| && IsComparison(toks[A(toks, pos).value.next]) ==>
      && r.value.node.kind == Operator
      && r.value.node.name == toks[A(toks, pos).value.next].lexeme
      && |r.value.node.children| == 2
      && r.value.node.children[0] == A(toks, pos).value.node
      && A(toks, A(toks, pos).value.next + 1) == Ok(Parsed(r.value.node.children[1], r.value.next))
  {
    var a1 :- A(toks, pos);
    if a1.next < |toks| && IsComparison(toks[a1.next]) then
      var a2 :- A(toks, a1.next + 1);
      Ok(Parsed(Node(Operator, toks[a1.next].lexeme, [a1.node, a2.node]), a2.next))
    else Ok(a1)
  }

  /** Bs -> 'not' Bp => 'not' | Bp. */
  function Bs(toks: seq<Token>, pos: nat): (r: Result<Parsed>)
    requires pos <= |toks|
    decreases |toks| - pos, 9
    ensures Sound(toks, pos, r)
    ensures Next(toks, pos, Keyword, "not") && r.Ok? ==>
      && r.value.node.kind == Operator && r.value.node.name == "not" && |r.value.node.children| == 1
      && Bp(toks, pos + 1) == Ok(Parsed(r.value.node.children[0], r.value.next))
    ensures !Next(toks, pos, Keyword, "not") ==> r == Bp(toks, pos)
  {
    if Next(toks, pos, Keyword, "not") then
      var bp :- Bp(toks, pos + 1);
      Ok(Parsed(UnaryNode("not", bp.node), bp.next))
    else Bp(toks, pos)
  }

  /** The loop of Parser_Bt: '&' folds to the left. */
  function BtFold(toks: seq<Token>, pos: nat, acc: Node): (r: Result<Parsed>)
    requires pos <= |toks| && WellShaped(acc)
    decreases |toks| - pos, 0
    ensures SoundFold(toks, pos, r)
    ensures r.Ok? ==> !Next(toks, r.value.next, Operator, "&")
    ensures !Next(toks, pos, Operator, "&") ==> r == Ok(Parsed(acc, pos))
    ensures Next(toks, pos, Operator, "&") && r.Ok? ==>
      r.value.node.kind == Operator && r.value.node.name == "&" && |r.value.node.children| == 2
  {
    if Next(toks, pos, Operator, "&") then
      var bs :- Bs(toks, pos + 1);
      BtFold(toks, bs.next, Node(Operator, "&", [acc, bs.node]))
    else Ok(Parsed(acc, pos))
  }

  /** Bt -> Bt '&' Bs | Bs. */
  function Bt(toks: seq<Token>, pos: nat): (r: Result<Parsed>)
    requires pos <= |toks|
    decreases |toks| - pos, 10
    ensures Sound(toks, pos, r)
    ensures r.Ok? ==> !Next(toks, r.value.next, Operator, "&")
  {
    var bs :- Bs(toks, pos);
    BtFold(toks, bs.next, bs.node)
  }

  /** The loop of Parser_B: 'or' folds to the left. */
  function BFold(toks: seq<Token>, pos: nat, acc: Node): (r: Result<Parsed>)
    requires pos <= |toks| && WellShaped(acc)
    decreases |toks| - pos, 0
    ensures SoundFold(toks, pos, r)
    ensures r.Ok? ==> !Next(toks, r.value.next, Keyword, "or")
    ensures !Next(toks, pos, Keyword, "or") ==> r == Ok(Parsed(acc, pos))
    ensures Next(toks, pos, Keyword, "or") && r.Ok? ==>
      r.value.node.kind == Operator && r.value.node.name == "or" && |r.value.node.children| == 2
  {
    if Next(toks, pos, Keyword, "or") then
      var bt :- Bt(toks, pos + 1);
      BFold(toks, bt.next, Node(Operator, "or", [acc, bt.node]))
    else Ok(Parsed(acc, pos))
  }

  /** B -> B 'or' Bt | Bt. */
  function B(toks: seq<Token>, pos: nat): (r: Result<Parsed>)
    requires pos <= |toks|
    decreases |toks| - pos, 11
    ensures Sound(toks, pos, r)
    ensures r.Ok? ==> !Next(toks, r.value.next, Keyword, "or")
  {
    var bt :- Bt(toks, pos);
    BFold(toks, bt.next, bt.node)
  }

  /**
    The '->' Tc '|' Tc part of Parser_Tc, after the condition b, which ends
    at the '->': both arms are full Tc, so the conditional nests to the right.
   */
  function Conditional(toks: seq<Token>, b: Parsed): (r: Result<Parsed>)
    requires Next(toks, b.next, Operator, "->") && WellShaped(b.node)
    decreases |toks| - b.next, 0
    ensures r.Ok? ==> b.next < r.value.next <= |toks| && WellShaped(r.value.node)
    ensures r.Ok? ==> !Next(toks, r.value.next, Operator, "->")
    ensures r.Ok? ==>
      && r.value.node.kind == Operator && r.value.node.name == "->"
      && |r.value.node.children| == 3 && r.value.node.children[0] == b.node
  {
    var t1 :- Tc(toks, b.next + 1);
    var afterBar :- Expect(toks, t1.next, Operator, "|");
    var t2 :- Tc(toks, afterBar);
    Ok(Parsed(Node(Operator, "->", [b.node, t1.node, t2.node]), t2.next))
  }

  /**
    Tc -> B '->' Tc '|' Tc => '->' | B.  The '|' is mandatory.  As in D,
    the C loop runs at most once: the second Tc leaves no '->' behind.
   */
  function Tc(toks: seq<Token>, pos: nat): (r: Result<Parsed>)
    requires pos <= |toks|
    decreases |toks| - pos, 12
    ensures Sound(toks, pos, r)
    ensures r.Ok? ==> !Next(toks, r.value.next, Operator, "->")
    ensures r.Ok? ==> B(toks, pos).Ok?
    ensures r.Ok? && !Next(toks, B(toks, pos).value.next, Operator, "->") ==> r == B(toks, pos)
    ensures r.Ok? && Next(toks, B(toks, pos).value.next, Operator, "->") ==>
      && r.value.node.kind == Operator && r.value.node.name == "->"
      && |r.value.node.children| == 3 && r.value.node.children[0] == B(toks, pos).value.node
  {
    var b :- B(toks, pos);
    if Next(toks, b.next, Operator, "->") then Conditional(toks, b)
    else Ok(b)
  }

  /** The loop of Parser_Ta: 'aug' folds to the left. */
  function TaFold(toks: seq<Token>, pos: nat, acc: Node): (r: Result<Parsed>)
    requires pos <= |toks| && WellShaped(acc)
    decreases |toks| - pos, 0
    ensures SoundFold(toks, pos, r)
    ensures r.Ok? ==> !Next(toks, r.value.next, Keyword, "aug")
    ensures !Next(toks, pos, Keyword, "aug") ==> r == Ok(Parsed(acc, pos))
    ensures Next(toks, pos, Keyword, "aug") && r.Ok? ==>
      r.value.node.kind == Operator && r.value.node.name == "aug" && |r.value.node.children| == 2
  {
    if Next(toks, pos, Keyword, "aug") then
      var tc :- Tc(toks, pos + 1);
      TaFold(toks, tc.next, Node(Operator, "aug", [acc, tc.node]))
    else Ok(Parsed(acc, pos))
  }

  /** Ta -> Ta 'aug' Tc | Tc. */
  function Ta(toks: seq<Token>, pos: nat): (r: Result<Parsed>)
    requires pos <= |toks|
    decreases |toks| - pos, 13
    ensures Sound(toks, pos, r)
    ensures r.Ok? ==> !Next(toks, r.value.next, Keyword, "aug")
  {
    var tc :- Tc(toks, pos);
    TaFold(toks, tc.next, tc.node)
  }

  /** From pos on, the tokens read ',' Ta ',' Ta ..., with nodes the Ta trees, ending at end. */
  predicate TauItems(toks: seq<Token>, pos: nat, nodes: seq<Node>, end: nat)
    decreases |toks| - pos, 0
  {
    if |nodes| == 0 then pos == end
    else
      && Next(toks, pos, Punctuation, ",") && Ta(toks, pos + 1).Ok? && Ta(toks, pos + 1).value.node == nodes[0]
      && TauItems(toks, Ta(toks, pos + 1).value.next, nodes[1..], end)
  }

  /** The loop of Parser_T: a Ta after each ','. */
  function TauList(toks: seq<Token>, pos: nat): (r: Result<Items>)
    requires pos <= |toks|
    decreases |toks| - pos, 1
    ensures SoundItems(toks, pos, r)
    ensures r.Ok? ==> !Next(toks, r.value.next, Punctuation, ",")
    ensures r.Ok? && Next(toks, pos, Punctuation, ",") ==> |r.value.nodes| >= 1
    ensures !Next(toks, pos, Punctuation, ",") ==> r == Ok(Items([], pos))
    ensures r.Ok? ==> TauItems(toks, pos, r.value.nodes, r.value.next)
  {
    if Next(toks, pos, Punctuation, ",") then
      var ta :- Ta(toks, pos + 1);
      var more :- TauList(toks, ta.next);
      var nodes := [ta.node] + more.nodes;
      assert nodes[1..] == more.nodes;
      Ok(Items(nodes, more.next))
    else Ok(Items([], pos))
  }

  /** T -> Ta (',' Ta)+ => 'tau' | Ta : the 'tau' node exists only when a ',' follows the first Ta. */
  function T(toks: seq<Token>, pos: nat): (r: Result<Parsed>)
    requires pos <= |toks|
    decreases |toks| - pos, 14
    ensures Sound(toks, pos, r)
    ensures r.Ok? ==> !Next(toks, r.value.next, Punctuation, ",")
    ensures r.Ok? ==> Ta(toks, pos).Ok?
    ensures r.Ok? && !Next(toks, Ta(toks, pos).value.next, Punctuation, ",") ==> r == Ta(toks, pos)
    ensures r.Ok? && Next(toks, Ta(toks, pos).value.next, Punctuation, ",") ==>
      && r.value.node.kind == Operator && r.value.node.name == "tau"
      && |r.value.node.children| >= 2 && r.value.node.children[0] == Ta(toks, pos).value.node
      && TauList(toks, Ta(toks, pos).value.next) == Ok(Items(r.value.node.children[1..], r.value.next))
  {
    var first :- Ta(toks, pos);
    if Next(toks, first.next, Punctuation, ",") then
      var more :- TauList(toks, first.next);
      Ok(Parsed(ListNode("tau", first.node, more.nodes), more.next))
    else Ok(first)
  }

  // ---------------------------------------------------------------------------
  // Expressions: Ew, E
  // ---------------------------------------------------------------------------

  /** The 'where' Dr part of Parser_Ew, after the expression t, which ends at the 'where'. */
  function Where(toks: seq<Token>, t: Parsed): (r: Result<Parsed>)
    requires Next(toks, t.next, Keyword, "where") && WellShaped(t.node)
    decreases |toks| - t.next, 0
    ensures r.Ok? ==> t.next < r.value.next <= |toks| && WellShaped(r.value.node)
    ensures r.Ok? ==>
      && r.value.node.kind == Operator && r.value.node.name == "where"
      && |r.value.node.children| == 2 && r.value.node.children[0] == t.node
      && Dr(toks, t.next + 1) == Ok(Parsed(r.value.node.children[1], r.value.next))
  {
    var dr :- Dr(toks, t.next + 1);
    Ok(Parsed(Node(Operator, "where", [t.node, dr.node]), dr.next))
  }

  /** Ew -> T 'where' Dr => 'where' | T. */
  function Ew(toks: seq<Token>, pos: nat): (r: Result<Parsed>)
    requires pos <= |toks|
    decreases |toks| - pos, 15
    ensures Sound(toks, pos, r)
    ensures r.Ok? ==> T(toks, pos).Ok?
    ensures r.Ok? && !Next(toks, T(toks, pos).value.next, Keyword, "where") ==> r == T(toks, pos)
    ensures T(toks, pos).Ok? && Next(toks, T(toks, pos).value.next, Keyword, "where") ==>
      r == Where(toks, T(toks, pos).value)
  {
    var t :- T(toks, pos);
    if Next(toks, t.next, Keyword, "where") then Where(toks, t)
    else Ok(t)
  }

  /** The 'in' E part of the 'let' branch, after the definition d. */
  function LetBody(toks: seq<Token>, d: Parsed): (r: Result<Parsed>)
    requires d.next <= |toks| && WellShaped(d.node)
    decreases |toks| - d.next, 0
    ensures r.Ok? ==> d.next < r.value.next <= |toks| && WellShaped(r.value.node)
    ensures r.Ok? ==>
      && r.value.node.kind == Keyword && r.value.node.name == "let"
      && |r.value.node.children| == 2 && r.value.node.children[0] == d.node
      && Next(toks, d.next, Keyword, "in")
  {
    var afterIn :- Expect(toks, d.next, Keyword, "in");
    var e :- E(toks, afterIn);
    Ok(Parsed(Node(Keyword, "let", [d.node, e.node]), e.next))
  }

  /** The 'let' D 'in' E branch of Parser_E, started on the 'let'. */
  function Let(toks: seq<Token>, pos: nat): (r: Result<Parsed>)
    requires pos < |toks|
    decreases |toks| - pos, 0
    ensures r.Ok? ==> pos < r.value.next <= |toks| && WellShaped(r.value.node)
    ensures r.Ok? ==> D(toks, pos + 1).Ok?
    ensures D(toks, pos + 1).Ok? ==> r == LetBody(toks, D(toks, pos + 1).value)
  {
    var d :- D(toks, pos + 1);
    LetBody(toks, d)
  }

  /** The '.' E part of the 'fn' branch, after the bound variables vbs. */
  function LambdaBody(toks: seq<Token>, vbs: Items): (r: Result<Parsed>)
    requires vbs.next <= |toks| && |vbs.nodes| >= 1 && AllShaped(vbs.nodes)
    decreases |toks| - vbs.next, 0
    ensures r.Ok? ==> vbs.next < r.value.next <= |toks| && WellShaped(r.value.node)
    ensures r.Ok? ==>
      && r.value.node.kind == Operator && r.value.node.name == "lambda"
      && |r.value.node.children| == |vbs.nodes| + 1
      && r.value.node.children[..|vbs.nodes|] == vbs.nodes
      && Next(toks, vbs.next, Operator, ".")
  {
    var afterDot :- Expect(toks, vbs.next, Operator, ".");
    var e :- E(toks, afterDot);
    var children := vbs.nodes + [e.node];
    assert forall i :: 0 <= i < |children| ==> WellShaped(children[i]);
    assert children[..|vbs.nodes|] == vbs.nodes;
    ShapedOperator("lambda", children);
    Ok(Parsed(Node(Operator, "lambda", children), e.next))
  }

  /**
    The 'fn' Vb+ '.' E branch of Parser_E, started on the 'fn': the bound
    variables, each an identifier, '()' or a parenthesised list, then the body.
   */
  function Lambda(toks: seq<Token>, pos: nat): (r: Result<Parsed>)
    requires pos < |toks|
    decreases |toks| - pos, 0
    ensures r.Ok? ==> pos < r.value.next <= |toks| && WellShaped(r.value.node)
    ensures r.Ok? ==> VbList(toks, pos + 1).Ok? && |VbList(toks, pos + 1).value.nodes| >= 1
    ensures VbList(toks, pos + 1).Ok? ==> r == LambdaBody(toks, VbList(toks, pos + 1).value)
  {
    var vbs :- VbList(toks, pos + 1);
    LambdaBody(toks, vbs)
  }

  /**
    E -> 'let' D 'in' E => 'let' | 'fn' Vb+ '.' E => 'lambda' | Ew.  The
    'let' node is the keyword token itself and stays a Keyword; 'in' and
    '.' are mandatory.
   */
  function E(toks: seq<Token>, pos: nat): (r: Result<Parsed>)
    requires pos <= |toks|
    decreases |toks| - pos, 16
    ensures Sound(toks, pos, r)
    ensures Next(toks, pos, Keyword, "let") && r.Ok? ==>
      && r.value.node.kind == Keyword && r.value.node.name == "let"
      && |r.value.node.children| == 2
      && D(toks, pos + 1).Ok? && r.value.node.children[0] == D(toks, pos + 1).value.node
      && Next(toks, D(toks, pos + 1).value.next, Keyword, "in")
    ensures Next(toks, pos, Keyword, "fn") && r.Ok? ==>
      && r.value.node.kind == Operator && r.value.node.name == "lambda"
      && |r.value.node.children| >= 2
      && forall i :: 0 <= i < |r.value.node.children| - 1 ==> IsBinding(r.value.node.children[i])
    ensures !Next(toks, pos, Keyword, "let") && !Next(toks, pos, Keyword, "fn") ==> r == Ew(toks, pos)
  {
    if Next(toks, pos, Keyword, "let") then Let(toks, pos)
    else if Next(toks, pos, Keyword, "fn") then Lambda(toks, pos)
    else Ew(toks, pos)
  }
}
