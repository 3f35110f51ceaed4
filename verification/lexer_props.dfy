/**
  Properties of the scanner that relate several calls: lexing the spelling
  of a sequence of well-formed tokens gives those tokens back.
 */
module LexerProps {
  import opened Results
  import opened Tokens
  import opened Lexer

  /** How a token is written in program text. */
  function SpellToken(t: Token): string {
    if t.kind == String then "'" + t.lexeme + "'" else t.lexeme
  }

  /** Tokens written one after another, separated by single spaces, with nothing after the last. */
  function Spell(toks: seq<Token>): string {
    if |toks| == 0 then ""
    else if |toks| == 1 then SpellToken(toks[0])
    else SpellToken(toks[0]) + " " + Spell(toks[1..])
  }

  /** A run of cls followed by a character outside cls is measured exactly. */
  lemma {:induction false} RunLengthOfPrefix(w: string, rest: string, cls: CharClass)
    requires forall i :: 0 <= i < |w| ==> InClass(cls, w[i])
    requires |rest| == 0 || !InClass(cls, rest[0])
    ensures RunLength(w + rest, cls) == |w|
  {
    if |w| > 0 {
      assert (w + rest)[1..] == w[1..] + rest;
      RunLengthOfPrefix(w[1..], rest, cls);
    } else {
      assert w + rest == rest;
    }
  }

  /** A well-formed string body followed by a closing quote is read back verbatim. */
  lemma ScanStringOfBody(body: string, rest: string)
    requires StringBody(body)
    ensures ScanString(body + "'" + rest) == Ok(Literal(body, |body| + 1))
  {
    var s := body + "'" + rest;
    assert s[..|body|] == body && s[|body|] == '\'';
    ScanStringClosed(s, body);
  }

  /** The same, for a text that starts with the body and the closing quote. */
  lemma {:induction false} ScanStringClosed(s: string, body: string)
    requires StringBody(body) && |s| > |body| && s[..|body|] == body && s[|body|] == '\''
    ensures ScanString(s) == Ok(Literal(body, |body| + 1))
  {
    if |body| == 0 {
      ScanStringQuote(s);
    } else if IsStringChar(body[0]) {
      var tail := body[1..];
      assert s[1..][..|tail|] == tail;
      ScanStringClosed(s[1..], tail);
      ScanStringCharStep(s, body, tail);
    } else {
      assert |body| >= 2 && body[0] == '\\' && IsEscapeLetter(body[1]) && StringBody(body[2..]);
      var tail := body[2..];
      assert s[2..][..|tail|] == tail;
      ScanStringClosed(s[2..], tail);
      ScanStringEscapeStep(s, body, tail);
    }
  }

  /** A quote ends the literal at once. */
  lemma ScanStringQuote(s: string)
    requires |s| > 0 && s[0] == '\''
    ensures ScanString(s) == Ok(Literal("", 1))
  {
  }

  /** A body that starts with a string character: one character more than the rest of it. */
  lemma ScanStringCharStep(s: string, body: string, tail: string)
    requires |body| > 0 && IsStringChar(body[0]) && |s| > |body| && s[..|body|] == body && tail == body[1..]
    requires ScanString(s[1..]) == Ok(Literal(tail, |tail| + 1))
    ensures ScanString(s) == Ok(Literal(body, |body| + 1))
  {
    ScanStringCons(s, Literal(tail, |tail| + 1));
    assert [s[0]] + tail == body;
  }

  /** A body that starts with an escape: two characters more than the rest of it. */
  lemma ScanStringEscapeStep(s: string, body: string, tail: string)
    requires |body| >= 2 && body[0] == '\\' && IsEscapeLetter(body[1]) && |s| > |body| && s[..|body|] == body
    requires tail == body[2..] && ScanString(s[2..]) == Ok(Literal(tail, |tail| + 1))
    ensures ScanString(s) == Ok(Literal(body, |body| + 1))
  {
    ScanStringEscape(s, Literal(tail, |tail| + 1));
    assert s[..2] + tail == body;
  }

  /** One string character, then the rest of the literal. */
  lemma ScanStringCons(s: string, more: Literal)
    requires |s| > 0 && IsStringChar(s[0]) && ScanString(s[1..]) == Ok(more)
    ensures ScanString(s) == Ok(Literal([s[0]] + more.text, 1 + more.used))
  {
    var c := s[0];
    assert c != '\'' && c != NUL && c != '\\' by { StringCharIsPlain(c); }
  }

  /** A string character neither closes the literal nor starts an escape. */
  lemma StringCharIsPlain(c: char)
    requires IsStringChar(c)
    ensures c != '\'' && c != NUL && c != '\\'
  {
  }

  /** One escape, then the rest of the literal. */
  lemma ScanStringEscape(s: string, more: Literal)
    requires |s| >= 2 && s[0] == '\\' && IsEscapeLetter(s[1]) && ScanString(s[2..]) == Ok(more)
    ensures ScanString(s) == Ok(Literal(s[..2] + more.text, 2 + more.used))
  {
  }

  /** A well-formed body that runs to the end of the text is closed there, without error. */
  lemma {:induction false} ScanStringUnterminated(body: string)
    requires StringBody(body)
    ensures ScanString(body) == Ok(Literal(body, |body|))
  {
    if |body| == 0 {
    } else if IsStringChar(body[0]) {
      ScanStringUnterminated(body[1..]);
      ScanStringCons(body, Literal(body[1..], |body[1..]|));
      assert [body[0]] + body[1..] == body;
    } else {
      assert |body| >= 2 && body[0] == '\\' && IsEscapeLetter(body[1]) && StringBody(body[2..]);
      ScanStringUnterminated(body[2..]);
      ScanStringEscape(body, Literal(body[2..], |body[2..]|));
      assert body[..2] + body[2..] == body;
    }
  }

  /** The two ways a literal is rejected, each reported at the offending character. */
  lemma ScanStringRejects(s: string)
    requires |s| > 0
    ensures s[0] == '\\' && !IsEscapeLetter(PeekSecond(s)) ==> ScanString(s) == Err(BadEscape(PeekSecond(s)))
    ensures s[0] !in ['\'', NUL, '\\'] && !IsStringChar(s[0]) ==> ScanString(s) == Err(BadStringChar(s[0]))
  {
  }

  /** What may follow a token's spelling without joining it: nothing, a space, or the NUL that ends the scan. */
  predicate Delimits(rest: string) {
    |rest| == 0 || rest[0] == ' ' || rest[0] == NUL
  }

  /** The spelling of a token is never empty and never starts with NUL. */
  lemma SpellingStarts(t: Token)
    requires WellFormed(t)
    ensures |SpellToken(t)| > 0 && SpellToken(t)[0] != NUL
    ensures t.kind != String ==> SpellToken(t)[0] == t.lexeme[0]
  {
  }

  /** An operator or integer spelled in full and followed by a space, a NUL or nothing is one scanner step. */
  lemma StepOfRun(t: Token, rest: string, cls: CharClass)
    requires WellFormed(t) && t.kind in {Operator, Integer}
    requires cls == (if t.kind == Operator then OperatorSymbols else Digits)
    requires Delimits(rest)
    ensures |t.lexeme + rest| > 0 && (t.lexeme + rest)[0] != NUL
    ensures Step(t.lexeme + rest) == Ok(Lexed(Some(t), |t.lexeme|))
  {
    var w := t.lexeme;
    var s := w + rest;
    assert s[0] == w[0];
    assert forall i :: 0 <= i < |w| ==> InClass(cls, w[i]);
    assert s[1..] == w[1..] + rest;
    RunLengthOfPrefix(w[1..], rest, cls);
    assert s[..|w|] == w;
    assert RunToken(s, t.kind, cls) == t;
    assert |w| > 1 ==> s[1] == w[1];
    assert |w| == 1 && |s| > 1 ==> s[1] == rest[0];
    assert !StartsComment(s);
  }

  /** A word spelled in full and followed by a space, a NUL or nothing is one scanner step. */
  lemma StepOfWord(t: Token, rest: string)
    requires WellFormed(t) && t.kind in {Identifier, Keyword}
    requires Delimits(rest)
    ensures |t.lexeme + rest| > 0 && (t.lexeme + rest)[0] != NUL
    ensures Step(t.lexeme + rest) == Ok(Lexed(Some(t), |t.lexeme|))
  {
    var w := t.lexeme;
    var s := w + rest;
    assert s[0] == w[0];
    assert s[1..] == w[1..] + rest;
    RunLengthOfPrefix(w[1..], rest, IdentifierChars);
    assert s[..|w|] == w;
    assert Word(s) == t;
  }

  /** Lexer.Step on a quote is the string scanner on what follows it. */
  lemma StepOfQuote(s: string, scanned: Result<Literal>)
    requires |s| > 0 && s[0] == '\'' && ScanString(s[1..]) == scanned
    ensures Step(s) ==
      match scanned
      case Ok(lit) => Ok(Lexed(Some(Token(String, lit.text)), 1 + lit.used))
      case Err(e) => Err(e)
  {
    assert !IsSpace('\'') && !StartsComment(s);
  }

  /** A quoted string literal is one scanner step, whatever follows it. */
  lemma StepOfString(t: Token, rest: string)
    requires WellFormed(t) && t.kind == String
    ensures |SpellToken(t) + rest| > 0 && (SpellToken(t) + rest)[0] != NUL
    ensures Step(SpellToken(t) + rest) == Ok(Lexed(Some(t), |SpellToken(t)|))
  {
    var s := SpellToken(t) + rest;
    assert s[0] == '\'';
    assert s[1..] == t.lexeme + "'" + rest;
    ScanStringOfBody(t.lexeme, rest);
    assert t == Token(String, t.lexeme) && |SpellToken(t)| == 1 + (|t.lexeme| + 1);
    StepOfQuote(s, ScanString(s[1..]));
  }

  /** The scanner, started at the spelling of a well-formed token followed by a space, a NUL or nothing, yields exactly that token. */
  lemma StepOfSpelling(t: Token, rest: string)
    requires WellFormed(t)
    requires Delimits(rest)
    ensures |SpellToken(t) + rest| > 0 && (SpellToken(t) + rest)[0] != NUL
    ensures Step(SpellToken(t) + rest) == Ok(Lexed(Some(t), |SpellToken(t)|))
  {
    match t.kind
    case String => StepOfString(t, rest);
    case Operator => StepOfRun(t, rest, OperatorSymbols);
    case Integer => StepOfRun(t, rest, Digits);
    case Identifier => StepOfWord(t, rest);
    case Keyword => StepOfWord(t, rest);
    case Punctuation =>
      var s := SpellToken(t) + rest;
      assert s[0] == t.lexeme[0];
      assert t == Token(Punctuation, [s[0]]);
  }

  /** Lexing a token's spelling followed by a space and more text. */
  lemma LexAfterToken(t: Token, tail: string)
    requires WellFormed(t)
    ensures Lex(SpellToken(t) + " " + tail) ==
      (match Lex(tail) case Ok(ts) => Ok([t] + ts) case Err(e) => Err(e))
  {
    var w := SpellToken(t);
    var s := w + " " + tail;
    assert s == w + (" " + tail);
    StepOfSpelling(t, " " + tail);
    var u := s[|w|..];
    assert u == " " + tail;
    assert u[0] == ' ' && u[1..] == tail;
    assert Lex(u) == Lex(tail);
  }

  /** Lexing the spelling of one token. */
  lemma LexSingle(t: Token)
    requires WellFormed(t)
    ensures Lex(SpellToken(t)) == Ok([t])
  {
    var w := SpellToken(t);
    StepOfSpelling(t, "");
    assert w + "" == w;
    assert w[|w|..] == "";
    assert Lex(w[|w|..]) == Ok([]);
    assert [t] + [] == [t];
  }

  /**
    Round trip: every sequence of tokens the scanner can produce, written
    with single spaces between them, scans back to the same sequence.
   */
  lemma {:induction false} LexSpell(toks: seq<Token>)
    requires forall i :: 0 <= i < |toks| ==> WellFormed(toks[i])
    ensures Lex(Spell(toks)) == Ok(toks)
  {
    if |toks| == 1 {
      LexSingle(toks[0]);
      assert Spell(toks) == SpellToken(toks[0]);
      assert [toks[0]] == toks;
    } else if |toks| > 1 {
      LexSpell(toks[1..]);
      LexAfterToken(toks[0], Spell(toks[1..]));
      assert [toks[0]] + toks[1..] == toks;
    }
  }

  /** Lexing the spelling of one token followed by NUL and anything else. */
  lemma LexSingleThenNul(t: Token, tail: string)
    requires WellFormed(t) && |tail| > 0 && tail[0] == NUL
    ensures Lex(SpellToken(t) + tail) == Ok([t])
  {
    var w := SpellToken(t);
    StepOfSpelling(t, tail);
    assert (w + tail)[|w|..] == tail;
    assert Lex(tail) == Ok([]);
    assert [t] + [] == [t];
  }

  /** The spelling of well-formed tokens followed by text that starts with NUL. */
  lemma {:induction false} LexSpellThenNul(toks: seq<Token>, tail: string)
    requires forall i :: 0 <= i < |toks| ==> WellFormed(toks[i])
    requires |tail| > 0 && tail[0] == NUL
    ensures Lex(Spell(toks) + tail) == Ok(toks)
  {
    if |toks| == 0 {
      assert Spell(toks) + tail == tail;
    } else if |toks| == 1 {
      LexSingleThenNul(toks[0], tail);
      assert [toks[0]] == toks;
    } else {
      SpellCons(toks, tail);
      LexSpellThenNul(toks[1..], tail);
      LexAfterToken(toks[0], Spell(toks[1..]) + tail);
      assert [toks[0]] + toks[1..] == toks;
    }
  }

  /**
    The scan ends at the first NUL: the spelling of well-formed tokens
    followed by a NUL scans back to those tokens, whatever comes after it.
   */
  lemma LexStopsAtNul(toks: seq<Token>, rest: string)
    requires forall i :: 0 <= i < |toks| ==> WellFormed(toks[i])
    ensures Lex(Spell(toks) + [NUL] + rest) == Ok(toks)
  {
    LexSpellThenNul(toks, [NUL] + rest);
    assert Spell(toks) + [NUL] + rest == Spell(toks) + ([NUL] + rest);
  }

  /** The spelling of two or more tokens, with text after it, splits after the first token and its space. */
  lemma SpellCons(toks: seq<Token>, tail: string)
    requires |toks| > 1
    ensures Spell(toks) + tail == SpellToken(toks[0]) + " " + (Spell(toks[1..]) + tail)
  {
  }
}
