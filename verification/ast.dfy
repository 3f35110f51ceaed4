/**
  The abstract syntax tree.  In parser.c a tree node is the same struct as
  a token: a kind, a string and a list of children.  A token left in place
  by a rule becomes a leaf; a rule that reduces a production either reuses
  the operator token (changing its kind to Operator with T_POP_OP, or
  keeping it, as 'let' does) or allocates a fresh Operator node.
 */
module Ast {
  import opened Tokens

  datatype Node = Node(kind: Kind, name: string, children: seq<Node>)

  /** A token left in the stream as a subtree of its own. */
  function Leaf(t: Token): Node {
    Node(t.kind, t.lexeme, [])
  }

  /** Labels of the two-child reductions. */
  predicate IsBinaryName(l: string) {
    l in {"let", "where", "within", "=", "gamma", "aug", "or", "&", "+", "-", "*", "/", "**",
          "gr", "ge", "ls", "le", "eq", "ne", ">", ">=", "<", "<="}
  }

  /**
    The number of children each production gives its node: fixed for the
    unary, binary and ternary rules, at least two for the list rules, at
    least one binding plus the body for 'lambda', and the name, at least one
    binding and the body for 'function_form'.
   */
  predicate ArityOk(name: string, n: nat) {
    if IsBinaryName(name) then n == 2
    else if name in {"->", "@"} then n == 3
    else if name in {"neg", "not", "rec"} then n == 1
    else if name in {"tau", "and", ",", "lambda"} then n >= 2
    else if name == "function_form" then n >= 3
    else false
  }

  /**
    The tree invariant the parser keeps: a node is either a leaf or the
    result of a production with the right number of children; an inner node
    is an Operator, except 'let', whose keyword token is reused unchanged.
   */
  predicate WellShaped(n: Node)
    decreases n
  {
    && (|n.children| == 0 || ArityOk(n.name, |n.children|))
    && (|n.children| > 0 ==> n.kind == Operator || (n.kind == Keyword && n.name == "let"))
    && forall i :: 0 <= i < |n.children| ==> WellShaped(n.children[i])
  }

  /** An identifier leaf. */
  predicate IsIdLeaf(n: Node) {
    n.kind == Identifier && n.children == []
  }

  /**
    What Vl produces: one identifier, or a ',' node over at least two leaves
    whose first is an identifier (later elements are not checked).
   */
  predicate IsVarList(n: Node) {
    || IsIdLeaf(n)
    || (&& n.kind == Operator && n.name == "," && |n.children| >= 2 && IsIdLeaf(n.children[0])
        && forall i :: 0 <= i < |n.children| ==> n.children[i].children == [])
  }

  /** What Vb produces: a variable list or the empty-tuple marker '()'. */
  predicate IsBinding(n: Node) {
    IsVarList(n) || n == Node(Operator, "()", [])
  }

  /** The number of nodes of a tree: one for a leaf, and more than any of its subtrees. */
  function Size(n: Node): (k: nat)
    decreases n
    ensures k >= 1
    ensures k == 1 <==> |n.children| == 0
    ensures forall i :: 0 <= i < |n.children| ==> k > Size(n.children[i])
  {
    1 + SizeOf(n.children)
  }

  /** The number of nodes of a forest: at least one per tree, and at least the size of each tree. */
  function SizeOf(ns: seq<Node>): (k: nat)
    decreases ns
    ensures k >= |ns|
    ensures forall i :: 0 <= i < |ns| ==> k >= Size(ns[i])
  {
    if |ns| == 0 then 0 else Size(ns[0]) + SizeOf(ns[1..])
  }
}
