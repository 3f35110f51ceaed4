/**
  DumpAST: every tree is printed in pre-order, one node per line, the node
  prefixed with one dot per level of depth and followed by a space (the
  output of the reference RPAL interpreter has the same trailing space).

  The partner of the printer is a reader for its output: Undump recovers
  the printed shape of every tree from the lines, as long as no printed
  node itself starts with a dot (an operator such as '.' left over after
  the parse would be read as one more level of depth).
 */
module Dump {
  import opened Tokens
  import opened Ast

  /** One printed node: its depth and its rendering. */
  datatype Entry = Entry(depth: nat, text: string)

  /** A tree as it appears in the output: rendered nodes and their children. */
  datatype Outline = Outline(text: string, children: seq<Outline>)

  /** How a node is printed (TokenToStr). */
  function Text(n: Node): string {
    Render(n.kind, n.name)
  }

  function Shape(n: Node): Outline
    decreases n
  {
    Outline(Text(n), Shapes(n.children))
  }

  function Shapes(ns: seq<Node>): (os: seq<Outline>)
    decreases ns
    ensures |os| == |ns|
    ensures forall i :: 0 <= i < |ns| ==> os[i] == Shape(ns[i])
  {
    if |ns| == 0 then [] else [Shape(ns[0])] + Shapes(ns[1..])
  }

  /**
    The recursion of DumpAST: the node at its depth, then each child one
    level deeper.  There is one entry per node, the first is the root, and
    every other entry is deeper than the root.
   */
  function Entries(n: Node, depth: nat): (es: seq<Entry>)
    decreases n
    ensures |es| == Size(n)
    ensures es[0] == Entry(depth, Text(n))
    ensures forall i :: 1 <= i < |es| ==> es[i].depth > depth
  {
    [Entry(depth, Text(n))] + EntriesOf(n.children, depth + 1)
  }

  /**
    The entries of trees printed one after another at the same depth: the
    children of a node, or the roots the main loop prints at depth 0.
   */
  function EntriesOf(ns: seq<Node>, depth: nat): (es: seq<Entry>)
    decreases ns
    ensures |es| == SizeOf(ns)
    ensures forall i :: 0 <= i < |es| ==> es[i].depth >= depth
    ensures |ns| > 0 ==> es[0] == Entry(depth, Text(ns[0]))
  {
    if |ns| == 0 then []
    else Entries(ns[0], depth) + EntriesOf(ns[1..], depth)
  }

  function Dots(k: nat): (s: string)
    ensures |s| == k && forall i :: 0 <= i < k ==> s[i] == '.'
  {
    if k == 0 then "" else "." + Dots(k - 1)
  }

  /** One line of output, without its newline: depth dots, the text, one space. */
  function Format(e: Entry): (line: string)
    ensures |line| == e.depth + |e.text| + 1
    ensures forall i :: 0 <= i < e.depth ==> line[i] == '.'
    ensures line[e.depth..|line| - 1] == e.text && line[|line| - 1] == ' '
  {
    Dots(e.depth) + e.text + " "
  }

  function FormatAll(es: seq<Entry>): (lines: seq<string>)
    ensures |lines| == |es|
    ensures forall i :: 0 <= i < |es| ==> lines[i] == Format(es[i])
  {
    if |es| == 0 then [] else [Format(es[0])] + FormatAll(es[1..])
  }

  // ---------------------------------------------------------------------------
  // Reading the output back
  // ---------------------------------------------------------------------------

  function LeadingDots(s: string): (k: nat)
    ensures k <= |s|
    ensures forall i :: 0 <= i < k ==> s[i] == '.'
    ensures k == |s| || s[k] != '.'
  {
    if |s| == 0 || s[0] != '.' then 0 else 1 + LeadingDots(s[1..])
  }

  /** A line split into its depth and its text, without the trailing space. */
  function ParseLine(s: string): Entry {
    var k := LeadingDots(s);
    var rest := s[k..];
    Entry(k, if |rest| == 0 then rest else rest[..|rest| - 1])
  }

  function ParseAll(lines: seq<string>): (es: seq<Entry>)
    ensures |es| == |lines|
  {
    if |lines| == 0 then [] else [ParseLine(lines[0])] + ParseAll(lines[1..])
  }

  /** The length of the leading run of entries deeper than depth: the descendants of a node. */
  function Deeper(es: seq<Entry>, depth: nat): (k: nat)
    ensures k <= |es|
    ensures forall i :: 0 <= i < k ==> es[i].depth > depth
    ensures k == |es| || es[k].depth <= depth
  {
    if |es| == 0 || es[0].depth <= depth then 0 else 1 + Deeper(es[1..], depth)
  }

  /** Regroup pre-order entries into trees: a node owns the deeper entries that follow it. */
  function Forest(es: seq<Entry>): seq<Outline>
    decreases |es|
  {
    if |es| == 0 then []
    else
      var k := Deeper(es[1..], es[0].depth);
      [Outline(es[0].text, Forest(es[1..1 + k]))] + Forest(es[1 + k..])
  }

  function Undump(lines: seq<string>): seq<Outline> {
    Forest(ParseAll(lines))
  }

  // ---------------------------------------------------------------------------
  // Round trip
  // ---------------------------------------------------------------------------

  predicate NoLeadingDot(t: string) {
    |t| == 0 || t[0] != '.'
  }

  /** No node of the tree prints starting with a dot. */
  predicate Undotted(n: Node)
    decreases n
  {
    NoLeadingDot(Text(n)) && forall i :: 0 <= i < |n.children| ==> Undotted(n.children[i])
  }

  predicate AllUndotted(ns: seq<Node>) {
    forall i :: 0 <= i < |ns| ==> Undotted(ns[i])
  }

  /** The leading dots of a line are exactly its first k characters when the one after them is not a dot. */
  lemma LeadingDotsOf(s: string, k: nat)
    requires k < |s| && s[k] != '.'
    requires forall i :: 0 <= i < k ==> s[i] == '.'
    ensures LeadingDots(s) == k
  {
  }

  /** The text of a line, after its dots, is the entry's text and the trailing space. */
  lemma FormatSplits(e: Entry, line: string)
    requires line == Format(e)
    ensures e.depth < |line| && line[e.depth..] == e.text + " "
  {
    assert line == Dots(e.depth) + (e.text + " ");
  }

  /**
    A line is read back as the entry it was printed from: the dots in front
    are exactly the depth, because the text does not start with one.
   */
  lemma ParseFormat(e: Entry)
    requires NoLeadingDot(e.text)
    ensures ParseLine(Format(e)) == e
  {
    var line := Format(e);
    var t := e.text + " ";
    FormatSplits(e, line);
    assert line[e.depth] == t[0];
    LeadingDotsOf(line, e.depth);
    assert t[..|t| - 1] == e.text;
  }

  lemma {:induction false} ParseFormatAll(es: seq<Entry>)
    requires forall i :: 0 <= i < |es| ==> NoLeadingDot(es[i].text)
    ensures ParseAll(FormatAll(es)) == es
  {
    if |es| > 0 {
      ParseFormat(es[0]);
      ParseFormatAll(es[1..]);
      assert FormatAll(es)[1..] == FormatAll(es[1..]);
    }
  }

  /** The descendants are exactly the entries deeper than their root. */
  lemma {:induction false} DeeperPrefix(a: seq<Entry>, b: seq<Entry>, depth: nat)
    requires forall i :: 0 <= i < |a| ==> a[i].depth > depth
    requires |b| == 0 || b[0].depth <= depth
    ensures Deeper(a + b, depth) == |a|
  {
    if |a| > 0 {
      assert (a + b)[1..] == a[1..] + b;
      DeeperPrefix(a[1..], b, depth);
    } else {
      assert a + b == b;
    }
  }

  lemma {:induction false} EntriesUndotted(n: Node, depth: nat)
    requires Undotted(n)
    ensures forall i :: 0 <= i < |Entries(n, depth)| ==> NoLeadingDot(Entries(n, depth)[i].text)
    decreases n, 1
  {
    EntriesOfUndotted(n.children, depth + 1);
  }

  lemma {:induction false} EntriesOfUndotted(ns: seq<Node>, depth: nat)
    requires AllUndotted(ns)
    ensures forall i :: 0 <= i < |EntriesOf(ns, depth)| ==> NoLeadingDot(EntriesOf(ns, depth)[i].text)
    decreases ns, 0
  {
    if |ns| > 0 {
      EntriesUndotted(ns[0], depth);
      EntriesOfUndotted(ns[1..], depth);
    }
  }

  /** A node followed by deeper entries and then a shallower one owns exactly the deeper ones. */
  lemma ForestCons(e: Entry, kids: seq<Entry>, after: seq<Entry>)
    requires forall i :: 0 <= i < |kids| ==> kids[i].depth > e.depth
    requires |after| == 0 || after[0].depth <= e.depth
    ensures Forest([e] + kids + after) == [Outline(e.text, Forest(kids))] + Forest(after)
  {
    var es := [e] + kids + after;
    assert es[1..] == kids + after;
    DeeperPrefix(kids, after, e.depth);
    assert es[1..1 + |kids|] == kids;
    assert es[1 + |kids|..] == after;
  }

  /**
    Regrouping the entries of trees printed at depth, followed by entries
    at depth or shallower, gives back those trees first.
   */
  lemma {:induction false} ForestOfEntries(ns: seq<Node>, depth: nat, rest: seq<Entry>)
    requires |rest| == 0 || rest[0].depth <= depth
    ensures Forest(EntriesOf(ns, depth) + rest) == Shapes(ns) + Forest(rest)
    decreases ns, 1
  {
    if |ns| == 0 {
      assert EntriesOf(ns, depth) + rest == rest;
    } else {
      ForestOfChildren(ns[0], depth);
      ForestHead(ns, depth, rest);
      ForestOfEntries(ns[1..], depth, rest);
      ShapesCons(ns);
      ConcatAssoc([Outline(Text(ns[0]), Shapes(ns[0].children))], Shapes(ns[1..]), Forest(rest));
    }
  }

  /** The first tree is regrouped on its own, given that its children are. */
  lemma ForestHead(ns: seq<Node>, depth: nat, rest: seq<Entry>)
    requires |ns| > 0
    requires |rest| == 0 || rest[0].depth <= depth
    requires Forest(EntriesOf(ns[0].children, depth + 1)) == Shapes(ns[0].children)
    ensures Forest(EntriesOf(ns, depth) + rest)
      == [Outline(Text(ns[0]), Shapes(ns[0].children))] + Forest(EntriesOf(ns[1..], depth) + rest)
  {
    var e := Entry(depth, Text(ns[0]));
    var kids := EntriesOf(ns[0].children, depth + 1);
    var after := EntriesOf(ns[1..], depth) + rest;
    EntriesOfCons(ns, depth, rest);
    ForestCons(e, kids, after);
  }

  /** The entries of the first tree, then the rest. */
  lemma EntriesOfCons(ns: seq<Node>, depth: nat, rest: seq<Entry>)
    requires |ns| > 0
    ensures EntriesOf(ns, depth) + rest
      == [Entry(depth, Text(ns[0]))] + EntriesOf(ns[0].children, depth + 1) + (EntriesOf(ns[1..], depth) + rest)
  {
    var head := [Entry(depth, Text(ns[0]))];
    var kids := EntriesOf(ns[0].children, depth + 1);
    var tail := EntriesOf(ns[1..], depth);
    assert EntriesOf(ns, depth) == head + kids + tail;
    ConcatAssoc(head + kids, tail, rest);
  }

  lemma ConcatAssoc<T>(a: seq<T>, b: seq<T>, c: seq<T>)
    ensures a + (b + c) == (a + b) + c
  {
  }

  lemma ShapesCons(ns: seq<Node>)
    requires |ns| > 0
    ensures Shapes(ns) == [Outline(Text(ns[0]), Shapes(ns[0].children))] + Shapes(ns[1..])
  {
  }

  lemma {:induction false} ForestOfChildren(n: Node, depth: nat)
    ensures Forest(EntriesOf(n.children, depth + 1)) == Shapes(n.children)
    decreases n, 0
  {
    ForestOfEntries(n.children, depth + 1, []);
    assert EntriesOf(n.children, depth + 1) + [] == EntriesOf(n.children, depth + 1);
    assert Shapes(n.children) + Forest([]) == Shapes(n.children);
  }

  /**
    Round trip: the lines printed for a sequence of trees as roots, read
    back, give the printed shapes of those trees, provided no node prints
    with a leading dot.
   */
  lemma UndumpRoots(ns: seq<Node>)
    requires AllUndotted(ns)
    ensures Undump(FormatAll(EntriesOf(ns, 0))) == Shapes(ns)
  {
    EntriesOfUndotted(ns, 0);
    ParseFormatAll(EntriesOf(ns, 0));
    ForestOfEntries(ns, 0, []);
    assert EntriesOf(ns, 0) + [] == EntriesOf(ns, 0);
  }
}
