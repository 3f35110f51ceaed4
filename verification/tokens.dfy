/**
  Tokens of the RPAL lexicon: the six token kinds, the fixed character
  classes the scanner dispatches on, the keyword set, and the one-line
  rendering of a token used by both dump modes.
 */
module Tokens {

  datatype Kind = Keyword | Identifier | Integer | Operator | String | Punctuation

  datatype Token = Token(kind: Kind, lexeme: string)

  /** The byte the C reader returns at end of file; a NUL in the text reads the same. */
  const NUL: char := 0 as char

  predicate IsOperatorSymbol(c: char) {
    || c == '+' || c == '-' || c == '*' || c == '<' || c == '>' || c == '&' || c == '.'
    || c == '@' || c == '/' || c == ':' || c == '=' || c == '~' || c == '|' || c == '$'
    || c == '!' || c == '#' || c == '%' || c == '^' || c == '_' || c == '[' || c == ']'
    || c == '{' || c == '}' || c == '"' || c == '`' || c == '?'
  }

  predicate IsDigit(c: char) {
    '0' <= c <= '9'
  }

  predicate IsLetter(c: char) {
    ('A' <= c <= 'Z') || ('a' <= c <= 'z')
  }

  predicate IsPunctuation(c: char) {
    c == '(' || c == ')' || c == ';' || c == ','
  }

  predicate IsSpace(c: char) {
    c == ' ' || c == '\t' || c == '\n' || c == '\r'
  }

  predicate IsIdentifierChar(c: char) {
    IsLetter(c) || IsDigit(c) || c == '_'
  }

  predicate IsStringChar(c: char) {
    IsLetter(c) || IsDigit(c) || IsOperatorSymbol(c) || IsPunctuation(c) || c == ' '
  }

  /** The characters after a backslash that a string escape may use. */
  predicate IsEscapeLetter(c: char) {
    c == 't' || c == 'n' || c == '\\' || c == '\''
  }

  const Keywords: set<string> :=
    {"let", "in", "fn", "where", "aug", "or", "not", "gr", "ge", "ls",
     "le", "eq", "ne", "true", "false", "nil", "dummy", "within", "and", "rec"}

  /** T_MATCH: a token of exactly this kind and spelling. */
  predicate Is(t: Token, k: Kind, s: string) {
    t.kind == k && t.lexeme == s
  }

  /** The capacity of TokenToStr's static buffer, terminating NUL included. */
  const BufferSize: nat := 256

  /** snprintf into the buffer keeps at most BufferSize - 1 characters. */
  function Clip(s: string): (r: string)
    ensures |r| <= BufferSize - 1
    ensures |r| == if |s| < BufferSize then |s| else BufferSize - 1
    ensures |r| <= |s| && r == s[..|r|]
    ensures |s| < BufferSize ==> r == s
  {
    if |s| < BufferSize then s else s[..BufferSize - 1]
  }

  /**
    The rendering before it is clipped to the buffer: identifiers, integers
    and strings are wrapped in a tag that names the kind and hold the text
    just before the closing '>' (and the quote, for strings); keywords,
    punctuation and operators print bare, except the operator '()', which
    prints as <()>.
   */
  function Spelled(k: Kind, text: string): (r: string)
    ensures |r| >= |text|
    ensures k in {Identifier, Integer} ==> |r| >= |text| + 5 && r[0] == '<' && r[|r| - 1] == '>'
    ensures k in {Identifier, Integer} ==> r[|r| - 1 - |text|..|r| - 1] == text
    ensures k == String ==> |r| == |text| + 8 && r[0] == '<' && r[|r| - 2..] == "'>" && r[6..|r| - 2] == text
    ensures k in {Keyword, Punctuation} || (k == Operator && text != "()") ==> r == text
    ensures k == Operator && text == "()" ==> r == "<()>"
  {
    match k
    case Keyword => text
    case Identifier => "<ID:" + text + ">"
    case Integer => "<INT:" + text + ">"
    case Operator => if text == "()" then "<()>" else text
    case String => "<STR:'" + text + "'>"
    case Punctuation => text
  }

  /**
    TokenToStr: how one token or tree node is printed.  The printed line is
    a prefix of the spelling, short enough for the buffer, and all of it
    when it fits.
   */
  function Render(k: Kind, text: string): (r: string)
    ensures |r| < BufferSize && |r| <= |Spelled(k, text)| && r == Spelled(k, text)[..|r|]
    ensures |Spelled(k, text)| < BufferSize <==> r == Spelled(k, text)
  {
    Clip(Spelled(k, text))
  }
}
