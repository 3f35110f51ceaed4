/**
  The driver of parser.c (main): scan the whole file, then either print
  every token on a line of its own (-s), or, when there is at least one
  token, parse one expression E and print with DumpAST every tree left in
  the token list: the tree E built, then each token E did not consume, as a
  one-line tree of its own.  A diagnostic and exit(1) is an Err here; no
  output line is printed before the scanner and the parser have finished,
  so an Err stands for the whole run.

  Each output mode has a reader as its partner: the scan-only lines give
  the tokens back, and the dump lines give back the shapes of the trees.
 */
module Program {
  import opened Results
  import opened Tokens
  import opened Lexer
  import opened Ast
  import opened Parser
  import opened Dump

  /** Tokens that no rule consumed, each as a tree of its own. */
  function Leaves(ts: seq<Token>): (ns: seq<Node>)
    ensures |ns| == |ts|
    ensures forall i :: 0 <= i < |ns| ==> ns[i] == Leaf(ts[i])
    ensures LeafTokens(ns) == ts
  {
    if |ts| == 0 then []
    else
      var ns := [Leaf(ts[0])] + Leaves(ts[1..]);
      assert ns[1..] == Leaves(ts[1..]);
      ns
  }

  /**
    The trees main prints: none for an empty program, otherwise the tree of
    E parsed from the first token followed by every token after it.  Trailing
    tokens are not an error.
   */
  function ParseProgram(toks: seq<Token>): (r: Result<seq<Node>>)
    ensures |toks| == 0 ==> r == Ok([])
    ensures |toks| > 0 ==> (r.Ok? <==> E(toks, 0).Ok?)
    ensures |toks| > 0 && r.Err? ==> r.error == E(toks, 0).error
    ensures |toks| > 0 && r.Ok? ==>
      && |r.value| >= 1
      && r.value[0] == E(toks, 0).value.node
      && LeafTokens(r.value[1..]) == toks[E(toks, 0).value.next..]
    ensures r.Ok? ==> AllShaped(r.value)
  {
    if |toks| == 0 then Ok([])
    else
      var p :- E(toks, 0);
      var roots := [p.node] + Leaves(toks[p.next..]);
      assert roots[1..] == Leaves(toks[p.next..]);
      Ok(roots)
  }

  /** The trees of a program whose expression parsed as p. */
  lemma ParseProgramOf(toks: seq<Token>, p: Parsed)
    requires |toks| > 0 && E(toks, 0) == Ok(p)
    ensures ParseProgram(toks) == Ok([p.node] + Leaves(toks[p.next..]))
  {
  }

  /** The trees of a program text, or the first diagnostic. */
  function Roots(src: string): (r: Result<seq<Node>>)
    ensures r.Ok? ==> Lex(src).Ok? && r == ParseProgram(Lex(src).value)
    ensures Lex(src).Err? ==> r == Err(Lex(src).error)
  {
    var toks :- Lex(src);
    ParseProgram(toks)
  }

  /** The printed lines of the default mode, without their newlines. */
  function Output(src: string): (r: Result<seq<string>>)
    ensures r.Ok? <==> Roots(src).Ok?
    ensures r.Ok? ==> |r.value| == SizeOf(Roots(src).value)
    ensures Lex(src) == Ok([]) ==> r == Ok([])
  {
    var roots :- Roots(src);
    Ok(FormatAll(EntriesOf(roots, 0)))
  }

  // ---------------------------------------------------------------------------
  // Scan-only mode
  // ---------------------------------------------------------------------------

  function RenderAll(ts: seq<Token>): (lines: seq<string>)
    ensures |lines| == |ts|
    ensures forall i :: 0 <= i < |ts| ==> lines[i] == Render(ts[i].kind, ts[i].lexeme)
  {
    if |ts| == 0 then [] else [Render(ts[0].kind, ts[0].lexeme)] + RenderAll(ts[1..])
  }

  /** The lines of -s: one rendered token per line, in scan order. */
  function ScanLines(src: string): (r: Result<seq<string>>)
    ensures r.Ok? <==> Lex(src).Ok?
    ensures r.Ok? ==> |r.value| == |Lex(src).value|
    ensures r.Ok? ==> forall i :: 0 <= i < |r.value| ==>
      r.value[i] == Render(Lex(src).value[i].kind, Lex(src).value[i].lexeme)
  {
    var toks :- Lex(src);
    Ok(RenderAll(toks))
  }

  /**
    Reads a scan-only line back as a token.  The bracketed forms name their
    kind; a bare line is punctuation when it is one punctuation character, a
    keyword when it starts with a letter, and an operator otherwise.
   */
  function Unrender(line: string): Token {
    if |line| >= 5 && line[..4] == "<ID:" && line[|line| - 1] == '>' then
      Token(Identifier, line[4..|line| - 1])
    else if |line| >= 6 && line[..5] == "<INT:" && line[|line| - 1] == '>' then
      Token(Integer, line[5..|line| - 1])
    else if |line| >= 8 && line[..6] == "<STR:'" && line[|line| - 2..] == "'>" then
      Token(String, line[6..|line| - 2])
    else if |line| == 1 && IsPunctuation(line[0]) then
      Token(Punctuation, line)
    else if |line| > 0 && IsLetter(line[0]) then
      Token(Keyword, line)
    else
      Token(Operator, line)
  }

  function UnrenderAll(lines: seq<string>): (ts: seq<Token>)
    ensures |ts| == |lines|
    ensures forall i :: 0 <= i < |lines| ==> ts[i] == Unrender(lines[i])
  {
    if |lines| == 0 then [] else [Unrender(lines[0])] + UnrenderAll(lines[1..])
  }

  /** A bracketed rendering: the prefix names the kind, the text sits between it and the suffix. */
  lemma UnrenderBracketed(k: Kind, l: string)
    requires k in {Identifier, Integer, String}
    ensures Unrender(Spelled(k, l)) == Token(k, l)
  {
    var line := Spelled(k, l);
    if k == Identifier {
      assert line[..4] == "<ID:" && line[4..|line| - 1] == l;
    } else if k == Integer {
      assert line[2] == 'N';
      assert line[..5] == "<INT:" && line[5..|line| - 1] == l;
    } else {
      assert line[1] == 'S';
      assert line[..6] == "<STR:'" && line[|line| - 2..] == "'>" && line[6..|line| - 2] == l;
    }
  }

  /** A bare rendering: a lexeme with no bracket prefix is read as punctuation, keyword or operator. */
  lemma UnrenderBare(t: Token)
    requires WellFormed(t) && t.kind in {Punctuation, Keyword, Operator}
    ensures Unrender(Spelled(t.kind, t.lexeme)) == t
  {
    var l := t.lexeme;
    if t.kind == Operator {
      UnrenderOperator(l);
    } else {
      assert Spelled(t.kind, l) == l;
      assert IsLetter(l[0]) || IsPunctuation(l[0]);
      NotBracketed(l);
    }
  }

  /** Text whose first or second character cannot open a bracket prefix is not read as a bracketed rendering. */
  lemma NotBracketed(l: string)
    requires |l| > 0 && (l[0] != '<' || |l| < 2 || IsOperatorSymbol(l[1]))
    ensures !(|l| >= 5 && l[..4] == "<ID:") && !(|l| >= 6 && l[..5] == "<INT:") && !(|l| >= 8 && l[..6] == "<STR:'")
  {
  }

  /** An operator is printed bare (save '()') and read back as an operator. */
  lemma UnrenderOperator(l: string)
    requires WellFormed(Token(Operator, l))
    ensures Unrender(Spelled(Operator, l)) == Token(Operator, l)
  {
    assert l != "()" by { assert !IsOperatorSymbol('('); }
    assert Spelled(Operator, l) == l;
    assert !IsLetter(l[0]) && !IsPunctuation(l[0]);
    NotBracketed(l);
  }

  /**
    The rendering of a token the scanner can produce names its kind and its
    lexeme unambiguously, as long as the buffer did not cut it short.
   */
  lemma UnrenderRender(t: Token)
    requires WellFormed(t)
    requires |Spelled(t.kind, t.lexeme)| < BufferSize
    ensures Unrender(Render(t.kind, t.lexeme)) == t
  {
    if t.kind in {Identifier, Integer, String} {
      UnrenderBracketed(t.kind, t.lexeme);
    } else {
      UnrenderBare(t);
    }
  }

  /**
    Round trip of -s: when no line reached the buffer's limit, reading the
    printed lines back gives exactly the tokens the scanner produced.
   */
  lemma {:induction false} ScanLinesReadBack(src: string)
    requires ScanLines(src).Ok?
    requires forall i :: 0 <= i < |ScanLines(src).value| ==> |ScanLines(src).value[i]| < BufferSize - 1
    ensures UnrenderAll(ScanLines(src).value) == Lex(src).value
  {
    var toks := Lex(src).value;
    var lines := ScanLines(src).value;
    forall i | 0 <= i < |toks|
      ensures Unrender(lines[i]) == toks[i]
    {
      assert lines[i] == Clip(Spelled(toks[i].kind, toks[i].lexeme));
      assert |Spelled(toks[i].kind, toks[i].lexeme)| < BufferSize;
      UnrenderRender(toks[i]);
    }
  }

  // ---------------------------------------------------------------------------
  // Default mode read back
  // ---------------------------------------------------------------------------

  /** How a leftover token reads back: a rendered node with no children. */
  function LeafOutlines(ts: seq<Token>): (os: seq<Outline>)
    ensures |os| == |ts|
    ensures forall i :: 0 <= i < |ts| ==> os[i] == Outline(Render(ts[i].kind, ts[i].lexeme), [])
  {
    seq(|ts|, i requires 0 <= i < |ts| => Outline(Render(ts[i].kind, ts[i].lexeme), []))
  }

  /** A leftover token prints as a tree with no children. */
  lemma {:induction false} ShapesOfLeaves(ts: seq<Token>)
    ensures Shapes(Leaves(ts)) == LeafOutlines(ts)
  {
    if |ts| > 0 {
      ShapesOfLeaves(ts[1..]);
      assert Leaves(ts)[1..] == Leaves(ts[1..]);
      assert LeafOutlines(ts)[1..] == LeafOutlines(ts[1..]);
    }
  }

  /**
    What the printed lines of a parsed token list read back as: the trees
    main dumps are the expression's tree p.node, then one leaf per token
    from p.next on.
   */
  lemma DumpReadBack(roots: seq<Node>, p: Parsed, toks: seq<Token>)
    requires p.next <= |toks| && roots == [p.node] + Leaves(toks[p.next..])
    requires AllUndotted(roots)
    ensures Undump(FormatAll(EntriesOf(roots, 0))) == [Shape(p.node)] + LeafOutlines(toks[p.next..])
  {
    UndumpRoots(roots);
    ShapesHead(roots, p.node, Leaves(toks[p.next..]));
    ShapesOfLeaves(toks[p.next..]);
  }

  lemma ShapesHead(roots: seq<Node>, n: Node, more: seq<Node>)
    requires roots == [n] + more
    ensures Shapes(roots) == [Shape(n)] + Shapes(more)
  {
    assert roots[1..] == more;
  }

  /**
    Round trip of the default mode: read back, the printed lines give the
    shape of the parsed expression first and then one childless tree per
    token the parse left over, in order (provided no printed node starts
    with a dot, which would read as one more level of depth).
   */
  lemma OutputReadBack(src: string, toks: seq<Token>)
    requires Lex(src) == Ok(toks) && |toks| > 0
    requires Roots(src).Ok? && AllUndotted(Roots(src).value)
    ensures Output(src).Ok?
    ensures
      var p := E(toks, 0).value;
      Undump(Output(src).value) == [Shape(p.node)] + LeafOutlines(toks[p.next..])
  {
    assert Roots(src) == ParseProgram(toks);
    var p := E(toks, 0).value;
    var roots := OutputOfProgram(src, toks, p);
    DumpReadBack(roots, p, toks);
  }

  /** The trees and the lines of a program whose expression parsed as p. */
  lemma OutputOfProgram(src: string, toks: seq<Token>, p: Parsed) returns (roots: seq<Node>)
    requires Lex(src) == Ok(toks) && |toks| > 0 && E(toks, 0) == Ok(p)
    ensures roots == [p.node] + Leaves(toks[p.next..])
    ensures Roots(src) == Ok(roots) && Output(src) == Ok(FormatAll(EntriesOf(roots, 0)))
  {
    roots := [p.node] + Leaves(toks[p.next..]);
    ParseProgramOf(toks, p);
  }
}
