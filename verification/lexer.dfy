/**
  The scanner of parser.c as a pure function from the program text to its
  token sequence.  The C reads the file a byte at a time with read/lseek;
  here the text is a sequence and every scanner routine returns how many
  characters it used.  Peeking past the end of the text yields NUL, which
  belongs to no character class.
 */
module Lexer {
  import opened Results
  import opened Tokens

  datatype Option<+T> = None | Some(value: T)

  /** One scanner step: the token it produced, if any, and the characters it used. */
  datatype Lexed = Lexed(token: Option<Token>, used: nat)

  /** The text of a string literal and the characters the literal used after its opening quote. */
  datatype Literal = Literal(text: string, used: nat)

  /** The continuation classes of the three maximal-munch token kinds. */
  datatype CharClass = OperatorSymbols | Digits | IdentifierChars

  predicate InClass(cls: CharClass, c: char) {
    match cls
    case OperatorSymbols => IsOperatorSymbol(c)
    case Digits => IsDigit(c)
    case IdentifierChars => IsIdentifierChar(c)
  }

  /** The character after the first one, or NUL when there is none (CharPeekNext). */
  function PeekSecond(s: string): char {
    if |s| > 1 then s[1] else NUL
  }

  /**
    The length of the longest prefix of s whose characters are all in cls:
    the loops of Scanner_Operator, Scanner_Integer and Scanner_Identifier.
   */
  function RunLength(s: string, cls: CharClass): (n: nat)
    ensures n <= |s|
    ensures forall i :: 0 <= i < n ==> InClass(cls, s[i])
    ensures n == |s| || !InClass(cls, s[n])
  {
    if |s| == 0 || !InClass(cls, s[0]) then 0 else 1 + RunLength(s[1..], cls)
  }

  /** A character that ends a comment: a newline, or NUL (end of file included). */
  predicate EndsComment(c: char) {
    c == '\n' || c == NUL
  }

  /**
    Scanner_Comment, started on the second slash: the characters discarded,
    up to and including the first newline or NUL, or the rest of the text.
   */
  function CommentLength(s: string): (n: nat)
    ensures n <= |s|
    ensures forall i :: 0 <= i < n - 1 ==> !EndsComment(s[i])
    ensures n == |s| || (n > 0 && EndsComment(s[n - 1]))
    ensures n < |s| ==> n > 0
  {
    if |s| == 0 then 0
    else if EndsComment(s[0]) then 1
    else 1 + CommentLength(s[1..])
  }

  /**
    The shape of a string literal's stored text: string characters and the
    two-character escapes \t \n \\ \' kept verbatim.
   */
  predicate StringBody(t: string)
    decreases |t|
  {
    || |t| == 0
    || (IsStringChar(t[0]) && StringBody(t[1..]))
    || (|t| >= 2 && t[0] == '\\' && IsEscapeLetter(t[1]) && StringBody(t[2..]))
  }

  /**
    Scanner_String, started after the opening quote.  The literal ends at a
    quote, at a NUL, or at the end of the text (no error in the last case).
   */
  function ScanString(s: string): (r: Result<Literal>)
    ensures r.Ok? ==> LiteralOf(s, r.value)
  {
    if |s| == 0 then Ok(Literal("", 0))
    else if s[0] == '\'' || s[0] == NUL then Ok(Literal("", 1))
    else if s[0] == '\\' then
      var e := PeekSecond(s);
      if IsEscapeLetter(e) then
        var more :- ScanString(s[2..]);
        EscapeThenLiteral(s, more);
        Ok(Literal(s[..2] + more.text, 2 + more.used))
      else Err(BadEscape(e))
    else if IsStringChar(s[0]) then
      var more :- ScanString(s[1..]);
      CharThenLiteral(s, more);
      Ok(Literal([s[0]] + more.text, 1 + more.used))
    else Err(BadStringChar(s[0]))
  }

  /**
    What a string literal read from the front of s is: its text is a prefix
    of s with the shape of a string body, and the literal ends either at the
    end of s or one character later, at a quote or a NUL, which is consumed
    but not kept.
   */
  predicate LiteralOf(s: string, lit: Literal) {
    && lit.used <= |s| && |lit.text| <= lit.used
    && lit.text == s[..|lit.text|]
    && StringBody(lit.text)
    && (|| (lit.used == |lit.text| == |s|)
        || (lit.used == |lit.text| + 1 && s[|lit.text|] in ['\'', NUL]))
  }

  /** A string character in front of a literal extends it by one. */
  lemma CharThenLiteral(s: string, more: Literal)
    requires |s| > 0 && IsStringChar(s[0]) && LiteralOf(s[1..], more)
    ensures LiteralOf(s, Literal([s[0]] + more.text, 1 + more.used))
  {
    var text := [s[0]] + more.text;
    assert text[1..] == more.text;
    assert text == s[..|text|];
    assert |text| < |s| ==> s[|text|] == s[1..][|more.text|];
  }

  /** An escape in front of a literal extends it by two, both kept. */
  lemma EscapeThenLiteral(s: string, more: Literal)
    requires |s| > 1 && s[0] == '\\' && IsEscapeLetter(s[1]) && LiteralOf(s[2..], more)
    ensures LiteralOf(s, Literal(s[..2] + more.text, 2 + more.used))
  {
    var text := s[..2] + more.text;
    assert text[2..] == more.text;
    assert text == s[..|text|];
    assert |text| < |s| ==> s[|text|] == s[2..][|more.text|];
  }

  /** An identifier-shaped word: a letter, then letters, digits and underscores. */
  predicate IdentifierShaped(w: string) {
    |w| > 0 && IsLetter(w[0]) && forall i :: 0 <= i < |w| ==> IsIdentifierChar(w[i])
  }

  /** A maximal run of cls starting at the first character of s, which itself belongs to cls. */
  predicate MaximalRun(s: string, n: nat, cls: CharClass) {
    && 0 < n <= |s|
    && (forall i :: 0 <= i < n ==> InClass(cls, s[i]))
    && (n == |s| || !InClass(cls, s[n]))
  }

  /**
    A token the scanner can produce: the reference definition of each kind's
    lexeme, independent of how the scanner finds it.
   */
  predicate WellFormed(t: Token) {
    match t.kind
    case Operator =>
      && |t.lexeme| > 0
      && (forall i :: 0 <= i < |t.lexeme| ==> IsOperatorSymbol(t.lexeme[i]))
      && !(|t.lexeme| >= 2 && t.lexeme[0] == '/' && t.lexeme[1] == '/')
    case Integer => |t.lexeme| > 0 && forall i :: 0 <= i < |t.lexeme| ==> IsDigit(t.lexeme[i])
    case Identifier => IdentifierShaped(t.lexeme) && t.lexeme !in Keywords
    case Keyword => IdentifierShaped(t.lexeme) && t.lexeme in Keywords
    case Punctuation => |t.lexeme| == 1 && IsPunctuation(t.lexeme[0])
    case String => StringBody(t.lexeme)
  }

  /** A character at which some scanner routine starts. */
  predicate StartsToken(c: char) {
    IsSpace(c) || c == '\'' || IsOperatorSymbol(c) || IsDigit(c) || IsLetter(c) || IsPunctuation(c)
  }

  /** A comment starts at a slash followed by a slash; it takes precedence over operators. */
  predicate StartsComment(s: string) {
    |s| > 0 && s[0] == '/' && PeekSecond(s) == '/'
  }

  /**
    Scanner_Operator and Scanner_Integer: the first character and the
    maximal run of its continuation class after it.
   */
  function RunToken(s: string, k: Kind, cls: CharClass): (t: Token)
    requires |s| > 0 && InClass(cls, s[0])
    ensures t.kind == k
    ensures MaximalRun(s, |t.lexeme|, cls) && t.lexeme == s[..|t.lexeme|]
  {
    Token(k, s[..1 + RunLength(s[1..], cls)])
  }

  /** Scanner_Identifier: a maximal identifier run, a Keyword exactly when it is in the keyword set. */
  function Word(s: string): (t: Token)
    requires |s| > 0 && IsLetter(s[0])
    ensures MaximalRun(s, |t.lexeme|, IdentifierChars) && t.lexeme == s[..|t.lexeme|]
    ensures IdentifierShaped(t.lexeme)
    ensures t.kind == Keyword <==> t.lexeme in Keywords
    ensures t.kind == Identifier <==> t.lexeme !in Keywords
  {
    var w := s[..1 + RunLength(s[1..], IdentifierChars)];
    Token(if w in Keywords then Keyword else Identifier, w)
  }

  /**
    One iteration of the main loop of Scanner: dispatch on the first
    character in the order whitespace, comment, string, operator, integer,
    identifier, punctuation, error.
   */
  function Step(s: string): (r: Result<Lexed>)
    requires |s| > 0 && s[0] != NUL
    ensures r.Ok? ==> 0 < r.value.used <= |s|
    ensures r.Ok? && r.value.token.Some? ==> WellFormed(r.value.token.value)
    // whitespace and comments emit nothing
    ensures IsSpace(s[0]) ==> r == Ok(Lexed(None, 1))
    ensures StartsComment(s) ==>
      r.Ok? && r.value.token.None? && r.value.used == 1 + CommentLength(s[1..])
    // dispatch order: a slash pair is a comment, '_' starts an operator
    ensures IsOperatorSymbol(s[0]) && !StartsComment(s) ==>
      r == Ok(Lexed(Some(RunToken(s, Operator, OperatorSymbols)), |RunToken(s, Operator, OperatorSymbols).lexeme|))
    ensures IsDigit(s[0]) ==>
      r == Ok(Lexed(Some(RunToken(s, Integer, Digits)), |RunToken(s, Integer, Digits).lexeme|))
    ensures IsLetter(s[0]) ==> r == Ok(Lexed(Some(Word(s)), |Word(s).lexeme|))
    ensures IsPunctuation(s[0]) ==> r == Ok(Lexed(Some(Token(Punctuation, [s[0]])), 1))
    ensures s[0] == '\'' && r.Ok? ==>
      (r.value.token.Some? && r.value.token.value.kind == String)
    // a character in no class is an error; any other error comes from a string
    ensures !StartsToken(s[0]) ==> r == Err(BadChar(s[0]))
    ensures r.Err? ==> !StartsToken(s[0]) || s[0] == '\''
  {
    var c := s[0];
    if IsSpace(c) then Ok(Lexed(None, 1))
    else if StartsComment(s) then Ok(Lexed(None, 1 + CommentLength(s[1..])))
    else if c == '\'' then
      var lit :- ScanString(s[1..]);
      Ok(Lexed(Some(Token(String, lit.text)), 1 + lit.used))
    else if IsOperatorSymbol(c) then
      var t := RunToken(s, Operator, OperatorSymbols);
      Ok(Lexed(Some(t), |t.lexeme|))
    else if IsDigit(c) then
      var t := RunToken(s, Integer, Digits);
      Ok(Lexed(Some(t), |t.lexeme|))
    else if IsLetter(c) then
      var t := Word(s);
      Ok(Lexed(Some(t), |t.lexeme|))
    else if IsPunctuation(c) then Ok(Lexed(Some(Token(Punctuation, [c])), 1))
    else Err(BadChar(c))
  }

  /** Scanner: the whole text to tokens; a NUL read by the main loop ends the scan. */
  function Lex(s: string): (r: Result<seq<Token>>)
    decreases |s|
    ensures r.Ok? ==> forall i :: 0 <= i < |r.value| ==> WellFormed(r.value[i])
    ensures r.Ok? ==> |r.value| <= |s|
  {
    if |s| == 0 || s[0] == NUL then Ok([])
    else
      var st :- Step(s);
      var more :- Lex(s[st.used..]);
      match st.token
      case Some(t) => Ok([t] + more)
      case None => Ok(more)
  }
}
