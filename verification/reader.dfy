/**
  The scanner of parser.c as it runs against the file: a read pointer
  moved by read(2) and lseek(2).  CharGet reads one byte and returns NUL
  at end of file; CharSkipNext reads one byte and drops it; CharPeekNext
  reads one byte and then seeks back one byte.

  CharPeekNext seeks back even when the read returned nothing at end of
  file, so a peek at the end moves the read pointer one byte BEFORE the
  end.  The scanner then reads the last byte of the file a second time.
  When a file ends in the middle of an operator, integer or identifier
  (no newline after the last token), the last token is scanned again and
  again and the scanner never stops.  PeekMode selects the peek as written
  or the corrected one that seeks back only after a byte was read; the
  corrected reader computes exactly what Lexer.Lex computes.
 */
module Reader {
  import opened Results
  import opened Tokens
  import opened Lexer
  import opened LexerProps

  /** An open file: its bytes and the read pointer. */
  datatype File = File(data: string, offset: nat)

  predicate Valid(f: File) {
    f.offset <= |f.data|
  }

  /** A character read and the file after the read. */
  datatype Read = Read(c: char, file: File)

  datatype PeekMode = AsWritten | Corrected

  /** CharGet (and CharSkipNext, which drops the character). */
  function Get(f: File): (r: Read)
    requires Valid(f)
    ensures Valid(r.file) && r.file.data == f.data
    ensures f.offset < |f.data| ==> r == Read(f.data[f.offset], File(f.data, f.offset + 1))
    ensures f.offset == |f.data| ==> r == Read(NUL, f)
  {
    if f.offset < |f.data| then Read(f.data[f.offset], File(f.data, f.offset + 1))
    else Read(NUL, f)
  }

  /**
    CharPeekNext: read, then seek back one byte.  As written, the seek also
    happens after a read that hit the end of the file.  Every peek of the
    scanner follows a read, so the file is not empty and the seek cannot
    fail.  Corrected, a read at the end leaves the pointer where it is.
   */
  function PeekNext(mode: PeekMode, f: File): (r: Read)
    requires Valid(f) && |f.data| > 0
    ensures Valid(r.file) && r.file.data == f.data
    // inside the file a peek returns the next byte and leaves the pointer alone
    ensures f.offset < |f.data| ==> r == Read(f.data[f.offset], f)
    // at the end it returns NUL; only the corrected peek stays at the end
    ensures f.offset == |f.data| ==> r.c == NUL
    ensures f.offset == |f.data| ==>
      r.file.offset == (if mode == AsWritten then |f.data| - 1 else |f.data|)
  {
    var rd := Get(f);
    if f.offset < |f.data| then Read(rd.c, File(f.data, f.offset))
    else if mode == AsWritten then Read(rd.c, File(f.data, f.offset - 1))
    else rd
  }

  /** The text a run loop collected and the file after it. */
  datatype Scanned = Scanned(text: string, file: File)

  /**
    The loops of Scanner_Operator, Scanner_Integer and Scanner_Identifier:
    peek, and while the peeked character is in the class, take it.  The
    text is the maximal run of the class; only the final pointer depends on
    the peek: as written it ends one byte before the end of the file when
    the run reached the end.
   */
  function Run(mode: PeekMode, f: File, cls: CharClass): (r: Scanned)
    requires Valid(f) && |f.data| > 0
    decreases |f.data| - f.offset
    ensures
      var n := RunLength(f.data[f.offset..], cls);
      && r.text == f.data[f.offset..f.offset + n]
      && r.file.data == f.data
      && r.file.offset ==
           (if mode == AsWritten && f.offset + n == |f.data| then f.offset + n - 1 else f.offset + n)
  {
    var pk := PeekNext(mode, f);
    if pk.c != NUL && InClass(cls, pk.c) then
      assert f.offset < |f.data| && pk.file == f;
      var more := Run(mode, File(f.data, f.offset + 1), cls);
      RunTakes(mode, f, cls, more);
      Scanned([pk.c] + more.text, more.file)
    else
      NulInNoClass(cls);
      var s := f.data[f.offset..];
      assert |s| == 0 || (s[0] == pk.c && pk.file == f);
      assert RunLength(s, cls) == 0;
      Scanned("", pk.file)
  }

  /** A run that takes the character at the pointer: that character in front of the run after it. */
  lemma RunTakes(mode: PeekMode, f: File, cls: CharClass, more: Scanned)
    requires Valid(f) && f.offset < |f.data| && InClass(cls, f.data[f.offset])
    requires var k := RunLength(f.data[f.offset + 1..], cls);
      && more.text == f.data[f.offset + 1..f.offset + 1 + k]
      && more.file.offset ==
           (if mode == AsWritten && f.offset + 1 + k == |f.data| then f.offset + k else f.offset + 1 + k)
    ensures var n := RunLength(f.data[f.offset..], cls);
      && [f.data[f.offset]] + more.text == f.data[f.offset..f.offset + n]
      && more.file.offset == (if mode == AsWritten && f.offset + n == |f.data| then f.offset + n - 1 else f.offset + n)
  {
    var s := f.data[f.offset..];
    assert s[0] == f.data[f.offset] && s[1..] == f.data[f.offset + 1..];
    var k := RunLength(s[1..], cls);
    assert RunLength(s, cls) == 1 + k;
  }

  lemma NulInNoClass(cls: CharClass)
    ensures !InClass(cls, NUL)
  {
  }

  /** One pass of the main loop: the token, if any, and the file after it. */
  datatype Stepped = Stepped(token: Option<Token>, file: File)

  /** Scanner_String after the opening quote: the literal, and the file after its closing quote. */
  function Quoted(f: File): (r: Result<Stepped>)
    requires Valid(f)
    ensures r.Ok? ==> Valid(r.value.file) && r.value.file.data == f.data
  {
    var lit :- ScanString(f.data[f.offset..]);
    Ok(Stepped(Some(Token(String, lit.text)), File(f.data, f.offset + lit.used)))
  }

  /**
    The branches of Scanner after the comment test, for a character c the
    loop has just read from f.
   */
  function Dispatch(mode: PeekMode, c: char, f: File): (r: Result<Stepped>)
    requires Valid(f) && |f.data| > 0
    ensures r.Ok? ==> Valid(r.value.file) && r.value.file.data == f.data
  {
    if c == '\'' then Quoted(f)
    else if IsOperatorSymbol(c) then
      var run := Run(mode, f, OperatorSymbols);
      Ok(Stepped(Some(Token(Operator, [c] + run.text)), run.file))
    else if IsDigit(c) then
      var run := Run(mode, f, Digits);
      Ok(Stepped(Some(Token(Integer, [c] + run.text)), run.file))
    else if IsLetter(c) then
      var run := Run(mode, f, IdentifierChars);
      var w := [c] + run.text;
      Ok(Stepped(Some(Token(if w in Keywords then Keyword else Identifier, w)), run.file))
    else if IsPunctuation(c) then
      Ok(Stepped(Some(Token(Punctuation, [c])), f))
    else
      Err(BadChar(c))
  }

  /**
    One pass of the main loop of Scanner after CharGet returned c: spaces
    are skipped, a slash peeks for a second slash (the peek happens even
    when it finds none), a comment is read with CharGet up to a newline,
    and everything else is dispatched.  Scanner_String peeks only after a
    backslash, where NUL is an error in either mode, so it reads like
    Lexer.ScanString.
   */
  function ScanStep(mode: PeekMode, c: char, f: File): (r: Result<Stepped>)
    requires Valid(f) && f.offset > 0
    ensures r.Ok? ==> Valid(r.value.file) && r.value.file.data == f.data
  {
    if IsSpace(c) then Ok(Stepped(None, f))
    else if c == '/' then
      var pk := PeekNext(mode, f);
      if pk.c == '/' then
        Ok(Stepped(None, File(f.data, pk.file.offset + CommentLength(f.data[pk.file.offset..]))))
      else Dispatch(mode, c, pk.file)
    else Dispatch(mode, c, f)
  }

  /** How a bounded run of the scanner ends. */
  datatype Outcome = Done(tokens: seq<Token>) | Failed(error: Error) | OutOfFuel

  function Prepend(t: Option<Token>, ts: seq<Token>): seq<Token> {
    match t
    case Some(x) => [x] + ts
    case None => ts
  }

  /** A pass's token, if any, in front of the outcome of the passes after it. */
  function Then(t: Option<Token>, o: Outcome): Outcome {
    match o
    case Done(ts) => Done(Prepend(t, ts))
    case other => other
  }

  /**
    Scanner: at most fuel passes of its main loop, which stops when CharGet
    returns NUL.  OutOfFuel means the loop was still running.
   */
  function Scan(mode: PeekMode, f: File, fuel: nat): (r: Outcome)
    requires Valid(f)
    decreases fuel
    ensures fuel == 0 ==> r == OutOfFuel
    ensures fuel > 0 && Get(f).c == NUL ==> r == Done([])
  {
    if fuel == 0 then OutOfFuel
    else
      var g := Get(f);
      if g.c == NUL then Done([])
      else
        match ScanStep(mode, g.c, g.file)
        case Err(e) => Failed(e)
        case Ok(st) => Then(st.token, Scan(mode, st.file, fuel - 1))
  }

  // ---------------------------------------------------------------------------
  // The peek as written: the scanner does not stop
  // ---------------------------------------------------------------------------

  /** A run that reaches the end of the file leaves the pointer on the last byte. */
  lemma RunRewindsAtEnd(f: File, cls: CharClass)
    requires Valid(f) && |f.data| > 0
    requires forall i :: f.offset <= i < |f.data| ==> InClass(cls, f.data[i])
    ensures Run(AsWritten, f, cls).text == f.data[f.offset..]
    ensures Run(AsWritten, f, cls).file == File(f.data, |f.data| - 1)
  {
    var s := f.data[f.offset..];
    RunLengthAll(s, cls);
  }

  lemma {:induction false} RunLengthAll(s: string, cls: CharClass)
    requires forall i :: 0 <= i < |s| ==> InClass(cls, s[i])
    ensures RunLength(s, cls) == |s|
  {
    if |s| > 0 {
      RunLengthAll(s[1..], cls);
    }
  }

  /** The file "x": the scanner reads x, peeks past the end and is put back before the x. */
  lemma StepOfLastIdentifier()
    ensures ScanStep(AsWritten, 'x', File("x", 1)) == Ok(Stepped(Some(Token(Identifier, "x")), File("x", 0)))
  {
    RunRewindsAtEnd(File("x", 1), IdentifierChars);
    var run := Run(AsWritten, File("x", 1), IdentifierChars);
    assert run.text == "x"[1..] == [];
    assert ['x'] + run.text == "x";
    assert "x" !in Keywords;
    assert !IsOperatorSymbol('x') && !IsDigit('x') && IsLetter('x') && !IsSpace('x');
  }

  /** So, as written, scanning the file "x" never finishes, however long it runs. */
  lemma {:induction false} AsWrittenNeverStops(fuel: nat)
    ensures Scan(AsWritten, File("x", 0), fuel) == OutOfFuel
  {
    if fuel > 0 {
      StepOfLastIdentifier();
      AsWrittenNeverStops(fuel - 1);
    }
  }

  /** A file ending in a single slash: the failed comment peek rewinds, and the slash is read twice. */
  lemma StepOfLastSlash()
    ensures ScanStep(AsWritten, '/', File("/", 1)) == Ok(Stepped(Some(Token(Operator, "//")), File("/", 0)))
  {
    assert PeekNext(AsWritten, File("/", 1)) == Read(NUL, File("/", 0));
    RunRewindsAtEnd(File("/", 0), OperatorSymbols);
    var run := Run(AsWritten, File("/", 0), OperatorSymbols);
    assert run.text == "/"[0..] == "/";
    assert ['/'] + run.text == "//";
    assert Dispatch(AsWritten, '/', File("/", 0)) == Ok(Stepped(Some(Token(Operator, "//")), File("/", 0)));
  }

  // ---------------------------------------------------------------------------
  // The corrected peek: the file scanner is the string scanner
  // ---------------------------------------------------------------------------

  /**
    A corrected run loop, started after the first character of a token,
    collects the rest of the token Lexer.RunToken takes from that character
    on, and stops right after it.
   */
  lemma RunAgrees(data: string, offset: nat, k: Kind, cls: CharClass)
    requires 0 < offset <= |data| && InClass(cls, data[offset - 1])
    ensures
      var s := data[offset - 1..];
      var run := Run(Corrected, File(data, offset), cls);
      && [s[0]] + run.text == RunToken(s, k, cls).lexeme
      && run.file.data == data && run.file.offset == offset - 1 + |RunToken(s, k, cls).lexeme|
  {
    var s := data[offset - 1..];
    var n := RunLength(data[offset..], cls);
    RunTokenOf(s, k, cls, data[offset..], n);
    ConsSlice(data, offset, n);
    var run := Run(Corrected, File(data, offset), cls);
    assert run.text == data[offset..offset + n] && run.file.offset == offset + n;
  }

  /** Lexer.RunToken from the character before rest: that character and a run of length n. */
  lemma RunTokenOf(s: string, k: Kind, cls: CharClass, rest: string, n: nat)
    requires |s| > 0 && InClass(cls, s[0]) && rest == s[1..] && n == RunLength(rest, cls)
    ensures RunToken(s, k, cls).lexeme == s[..1 + n]
  {
  }

  lemma ConsSlice(data: string, offset: nat, n: nat)
    requires 0 < offset && offset + n <= |data|
    ensures var s := data[offset - 1..]; [s[0]] + data[offset..offset + n] == s[..1 + n]
  {
  }

  /** The same for an identifier or keyword: the corrected scanner reads Lexer.Word. */
  lemma WordAgrees(data: string, offset: nat)
    requires 0 < offset <= |data| && IsLetter(data[offset - 1])
    ensures
      var s := data[offset - 1..];
      var run := Run(Corrected, File(data, offset), IdentifierChars);
      && [s[0]] + run.text == Word(s).lexeme
      && run.file.data == data && run.file.offset == offset - 1 + |Word(s).lexeme|
  {
    var s := data[offset - 1..];
    assert s[1..] == data[offset..];
    var n := RunLength(s[1..], IdentifierChars);
    var run := Run(Corrected, File(data, offset), IdentifierChars);
    assert run.text == data[offset..offset + n] && run.file.offset == offset + n;
    assert [s[0]] + data[offset..offset + n] == s[..1 + n];
  }

  /** Lexer.Step as an outcome of one pass of the file scanner that stopped at offset. */
  predicate SameStep(st: Result<Lexed>, r: Result<Stepped>, data: string, start: nat) {
    match st
    case Ok(x) => r == Ok(Stepped(x.token, File(data, start + x.used)))
    case Err(e) => r == Err(e)
  }

  lemma SameStepOf(st: Result<Lexed>, r: Result<Stepped>, data: string, start: nat)
    requires st.Ok? && r.Ok? && r.value.token == st.value.token
    requires r.value.file.data == data && r.value.file.offset == start + st.value.used
    ensures SameStep(st, r, data, start)
  {
  }

  /** A token made by a run routine, compared with the one Lexer.Step makes. */
  lemma RunStepAgrees(data: string, offset: nat, k: Kind, cls: CharClass)
    requires 0 < offset <= |data| && InClass(cls, data[offset - 1])
    requires Step(data[offset - 1..]) ==
      Ok(Lexed(Some(RunToken(data[offset - 1..], k, cls)), |RunToken(data[offset - 1..], k, cls).lexeme|))
    requires k in {Operator, Integer}
    ensures
      var run := Run(Corrected, File(data, offset), cls);
      SameStep(Step(data[offset - 1..]), Ok(Stepped(Some(Token(k, [data[offset - 1]] + run.text)), run.file)),
               data, offset - 1)
  {
    RunAgrees(data, offset, k, cls);
    var run := Run(Corrected, File(data, offset), cls);
    SameStepOf(Step(data[offset - 1..]), Ok(Stepped(Some(Token(k, [data[offset - 1]] + run.text)), run.file)), data, offset - 1);
  }

  /**
    The dispatch of a corrected scanner on the character at offset - 1 is
    Lexer.Step on the text from that character, and the pointer advances
    by exactly the characters Step used.
   */
  lemma DispatchAgrees(data: string, offset: nat)
    requires 0 < offset <= |data|
    requires data[offset - 1] != NUL && !IsSpace(data[offset - 1])
    requires !StartsComment(data[offset - 1..])
    ensures SameStep(Step(data[offset - 1..]), Dispatch(Corrected, data[offset - 1], File(data, offset)), data, offset - 1)
  {
    var s := data[offset - 1..];
    var c := data[offset - 1];
    assert s[0] == c;
    if c == '\'' {
      StringDispatchAgrees(data, offset);
    } else if IsOperatorSymbol(c) {
      RunStepAgrees(data, offset, Operator, OperatorSymbols);
    } else if IsDigit(c) {
      RunStepAgrees(data, offset, Integer, Digits);
    } else if IsLetter(c) {
      LetterDispatchAgrees(data, offset);
    }
  }

  /** The string routine makes the token Lexer.Step makes from a quote. */
  lemma StringDispatchAgrees(data: string, offset: nat)
    requires 0 < offset <= |data| && data[offset - 1] == '\''
    ensures SameStep(Step(data[offset - 1..]), Dispatch(Corrected, data[offset - 1], File(data, offset)), data, offset - 1)
  {
    assert Dispatch(Corrected, '\'', File(data, offset)) == Quoted(File(data, offset));
    QuotedAgrees(data, offset);
  }

  /** Scanner_String, started after the quote at offset - 1, makes the token Lexer.Step makes there. */
  lemma QuotedAgrees(data: string, offset: nat)
    requires 0 < offset <= |data| && data[offset - 1] == '\''
    ensures SameStep(Step(data[offset - 1..]), Quoted(File(data, offset)), data, offset - 1)
  {
    var s := data[offset - 1..];
    assert s[0] == '\'' && s[1..] == data[offset..];
    StepOfQuote(s, ScanString(data[offset..]));
    match ScanString(data[offset..])
    case Err(e) =>
    case Ok(lit) =>
      SameStepOf(Step(s), Quoted(File(data, offset)), data, offset - 1);
  }

  /** The identifier routine makes the token Lexer.Step makes from a letter. */
  lemma LetterDispatchAgrees(data: string, offset: nat)
    requires 0 < offset <= |data| && IsLetter(data[offset - 1])
    requires !IsOperatorSymbol(data[offset - 1]) && !IsDigit(data[offset - 1])
    ensures SameStep(Step(data[offset - 1..]), Dispatch(Corrected, data[offset - 1], File(data, offset)), data, offset - 1)
  {
    var s := data[offset - 1..];
    var c := data[offset - 1];
    assert s[0] == c;
    WordStepAgrees(data, offset);
    var run := Run(Corrected, File(data, offset), IdentifierChars);
    assert Dispatch(Corrected, c, File(data, offset)) == Ok(Stepped(Some(Word(s)), run.file));
    assert Step(s) == Ok(Lexed(Some(Word(s)), |Word(s).lexeme|));
    SameStepOf(Step(s), Dispatch(Corrected, c, File(data, offset)), data, offset - 1);
  }

  /** The identifier routine, keyword test included, makes the token Lexer.Word makes. */
  lemma WordStepAgrees(data: string, offset: nat)
    requires 0 < offset <= |data| && IsLetter(data[offset - 1])
    ensures
      var run := Run(Corrected, File(data, offset), IdentifierChars);
      var w := [data[offset - 1]] + run.text;
      && Token(if w in Keywords then Keyword else Identifier, w) == Word(data[offset - 1..])
      && run.file.data == data && run.file.offset == offset - 1 + |w|
  {
    WordAgrees(data, offset);
  }

  /** One corrected pass of the main loop is one Lexer.Step. */
  lemma StepAgrees(data: string, offset: nat)
    requires 0 < offset <= |data| && data[offset - 1] != NUL
    ensures SameStep(Step(data[offset - 1..]), ScanStep(Corrected, data[offset - 1], File(data, offset)), data, offset - 1)
  {
    var s := data[offset - 1..];
    var c := data[offset - 1];
    assert s[0] == c && s[1..] == data[offset..];
    if IsSpace(c) {
    } else if StartsComment(s) {
      assert data[offset] == '/';
    } else if c == '/' {
      assert PeekNext(Corrected, File(data, offset)).file == File(data, offset);
      DispatchAgrees(data, offset);
    } else {
      DispatchAgrees(data, offset);
    }
  }

  /** The verdict of Lex as an outcome of the file scanner. */
  function AsOutcome(r: Result<seq<Token>>): Outcome {
    match r
    case Ok(ts) => Done(ts)
    case Err(e) => Failed(e)
  }

  /** What one pass of Lexer.Lex contributes: the step's token in front of the rest. */
  lemma LexPass(s: string, st: Lexed)
    requires |s| > 0 && s[0] != NUL && Step(s) == Ok(st)
    ensures AsOutcome(Lex(s)) == Then(st.token, AsOutcome(Lex(s[st.used..])))
  {
    match Lex(s[st.used..])
    case Err(e) =>
    case Ok(ts) =>
      match st.token
      case Some(t) =>
      case None =>
  }

  /** The file scanner's outcome from an offset, as a function of the offset. */
  function ScanFrom(data: string, offset: nat, fuel: nat): Outcome {
    if offset <= |data| then Scan(Corrected, File(data, offset), fuel) else OutOfFuel
  }

  /** The string scanner's outcome on the text from an offset. */
  function LexFrom(data: string, offset: nat): Outcome {
    if offset <= |data| then AsOutcome(Lex(data[offset..])) else OutOfFuel
  }

  /** A pass from offset ends both scanners: at the end, at a NUL, or with an error. */
  predicate Stops(data: string, offset: nat) {
    !(offset < |data| && data[offset] != NUL && Step(data[offset..]).Ok?)
  }

  /** What a pass from offset that does not stop does: the token and the length Lexer.Step gives there. */
  function Pass(data: string, offset: nat): Lexed {
    if Stops(data, offset) then Lexed(None, 0) else Step(data[offset..]).value
  }

  /**
    With the corrected peek, and one pass per remaining byte, scanning the
    file from any offset gives what Lexer.Lex gives on the rest of the text:
    the same tokens, or the same error.
   */
  lemma ScanCorrected(data: string, offset: nat, fuel: nat, rest: string)
    requires offset <= |data| && rest == data[offset..]
    requires fuel > |data| - offset
    ensures Scan(Corrected, File(data, offset), fuel) == AsOutcome(Lex(rest))
  {
    ScanFromCorrected(data, offset);
    assert ScanFrom(data, offset, fuel) == LexFrom(data, offset);
  }

  /** Where the next pass starts after a step of st from offset. */
  function Next(offset: nat, st: Lexed): nat {
    offset + st.used
  }

  /** A pass that does not stop moves forward and stays inside the file. */
  lemma PassBounds(data: string, offset: nat)
    requires offset <= |data| && !Stops(data, offset)
    ensures offset < Next(offset, Pass(data, offset)) <= |data|
  {
  }

  /**
    Both scanners from one offset, by induction on the bytes left: where a
    pass stops they give the same outcome, and otherwise both put the same
    token in front of what they give from the same later offset.
   */
  lemma {:induction false} ScanFromCorrected(data: string, offset: nat)
    requires offset <= |data|
    ensures forall fuel: nat {:trigger ScanFrom(data, offset, fuel)} ::
      fuel > |data| - offset ==> ScanFrom(data, offset, fuel) == LexFrom(data, offset)
    decreases |data| - offset, 1
  {
    if Stops(data, offset) {
      forall fuel: nat | fuel > |data| - offset
        ensures ScanFrom(data, offset, fuel) == LexFrom(data, offset)
      {
        StopsTogether(data, offset, fuel);
      }
    } else {
      PassCorrected(data, offset);
    }
  }

  /** The step case: a pass that goes on, then the rest of the run. */
  lemma {:induction false} PassCorrected(data: string, offset: nat)
    requires offset <= |data| && !Stops(data, offset)
    ensures forall fuel: nat {:trigger ScanFrom(data, offset, fuel)} ::
      fuel > |data| - offset ==> ScanFrom(data, offset, fuel) == LexFrom(data, offset)
    decreases |data| - offset, 0
  {
    PassBounds(data, offset);
    ScanFromCorrected(data, Next(offset, Pass(data, offset)));
    LexSteps(data, offset);
    forall fuel: nat | fuel > |data| - offset
      ensures ScanFrom(data, offset, fuel) == LexFrom(data, offset)
    {
      ScanSteps(data, offset, fuel);
    }
  }

  /** Where one pass stops, both scanners give the same outcome. */
  lemma StopsTogether(data: string, offset: nat, fuel: nat)
    requires offset <= |data| && fuel > 0 && Stops(data, offset)
    ensures ScanFrom(data, offset, fuel) == LexFrom(data, offset)
  {
    if offset < |data| && data[offset] != NUL {
      FailedPass(data, offset, fuel, Step(data[offset..]).error);
    } else {
      assert Lex(data[offset..]) == Ok([]);
    }
  }

  /** Where one pass goes on, the file scanner puts its token in front of the rest of the run. */
  lemma ScanSteps(data: string, offset: nat, fuel: nat)
    requires offset <= |data| && fuel > 0 && !Stops(data, offset)
    ensures ScanFrom(data, offset, fuel) ==
      Then(Pass(data, offset).token, ScanFrom(data, Next(offset, Pass(data, offset)), fuel - 1))
  {
    ScanStepsWith(data, offset, fuel, Pass(data, offset));
  }

  lemma ScanStepsWith(data: string, offset: nat, fuel: nat, st: Lexed)
    requires offset < |data| && data[offset] != NUL && fuel > 0
    requires Step(data[offset..]) == Ok(st)
    ensures ScanFrom(data, offset, fuel) == Then(st.token, ScanFrom(data, Next(offset, st), fuel - 1))
  {
    var next := Stepped(st.token, File(data, Next(offset, st)));
    ScanStepOfStep(data, offset, st);
    ScanPass(data, offset, fuel, next);
  }

  lemma ScanStepOfStep(data: string, offset: nat, st: Lexed)
    requires offset < |data| && data[offset] != NUL
    requires Step(data[offset..]) == Ok(st)
    ensures ScanStep(Corrected, data[offset], File(data, offset + 1)) == Ok(Stepped(st.token, File(data, Next(offset, st))))
  {
    var next := offset + 1;
    StepAgreesFrom(data, offset, next);
    SameStepOk(st, ScanStep(Corrected, data[offset], File(data, next)), data, offset);
  }

  lemma SameStepOk(st: Lexed, r: Result<Stepped>, data: string, start: nat)
    requires SameStep(Ok(st), r, data, start)
    ensures r == Ok(Stepped(st.token, File(data, Next(start, st))))
  {
  }

  /** StepAgrees, for the pass that reads the character at start. */
  lemma StepAgreesFrom(data: string, start: nat, next: nat)
    requires start < |data| && data[start] != NUL && next == start + 1
    ensures SameStep(Step(data[start..]), ScanStep(Corrected, data[start], File(data, next)), data, start)
  {
    StepAgrees(data, next);
  }

  /** Where one pass goes on, Lexer.Lex puts the same token in front of the rest. */
  lemma LexSteps(data: string, offset: nat)
    requires offset <= |data| && !Stops(data, offset)
    ensures LexFrom(data, offset) == Then(Pass(data, offset).token, LexFrom(data, Next(offset, Pass(data, offset))))
  {
    var s := data[offset..];
    var st := Pass(data, offset);
    assert Step(s) == Ok(st);
    LexPass(s, st);
    assert s[st.used..] == data[Next(offset, st)..];
  }

  /** A pass that fails fails both scanners with the same error. */
  lemma FailedPass(data: string, offset: nat, fuel: nat, e: Error)
    requires offset < |data| && data[offset] != NUL && fuel > 0
    requires Step(data[offset..]) == Err(e)
    ensures Scan(Corrected, File(data, offset), fuel) == Failed(e)
    ensures Lex(data[offset..]) == Err(e)
  {
    StepAgrees(data, offset + 1);
    assert data[offset + 1 - 1..] == data[offset..];
    assert Get(File(data, offset)) == Read(data[offset], File(data, offset + 1));
  }

  /** One pass of the file scanner: the pass's token in front of what the rest of the run gives. */
  lemma ScanPass(data: string, offset: nat, fuel: nat, st: Stepped)
    requires offset < |data| && data[offset] != NUL && fuel > 0
    requires ScanStep(Corrected, data[offset], File(data, offset + 1)) == Ok(st)
    requires Valid(st.file)
    ensures Scan(Corrected, File(data, offset), fuel) == Then(st.token, Scan(Corrected, st.file, fuel - 1))
  {
    assert Get(File(data, offset)) == Read(data[offset], File(data, offset + 1));
  }

  /** The whole file, scanned with the corrected peek, is Lexer.Lex of its text. */
  lemma ScanFileCorrected(data: string, fuel: nat)
    requires fuel > |data|
    ensures Scan(Corrected, File(data, 0), fuel) == AsOutcome(Lex(data))
  {
    assert data[0..] == data;
    ScanCorrected(data, 0, fuel, data);
  }
}
