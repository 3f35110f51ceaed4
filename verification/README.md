# RPAL abstract syntax tree generator, modelled in Dafny

This project models `parser.c` of the RPAL AST generator. That C program reads
an RPAL program file and runs it through three stages:

- a hand-written scanner turns the bytes into tokens of six kinds: keyword,
  identifier, integer, operator, string and punctuation;
- a recursive-descent parser with one token of lookahead (`Parser_Vl` …
  `Parser_E`) builds one expression tree;
- `DumpAST` prints every tree in pre-order, one node per line, with one dot
  per level of depth and a trailing space.

Tokens that the expression did not consume are printed as trees of their own.
With `-s` the program prints only the scanned tokens, one per line.

The model is functional:

- The scanner is a pure function from text to `Result<seq<Token>>`
  (`Lexer.Lex`).
- Each grammar rule is a function from a token sequence and a position to
  `Result<Parsed(node, next)>`. The C reads ahead with `T_SECOND`; here that
  is the token at `next`.
- Every place where the C would dereference an empty token list returns
  `UnexpectedEnd`. Every `printf` + `exit(1)` diagnostic is an `Err`.

The main operations have partners they are checked against:

- the scanner against a spelling function (`LexerProps.LexSpell`);
- every operator chain of the grammar against an independent left- or
  right-association definition, for operands of any form and in both
  directions: the five binary loops, '@', 'gamma' (juxtaposition), '**',
  and the optional sign in front of A (`Folds`); `ParserProps` adds
  special cases with single-token operands and exact end positions;
- each nested production against the rules that parse its children, at
  the positions where those children start (`ParserProps`, the `…Children`
  lemmas);
- the tree dump against a reader for its own output (`Dump.UndumpRoots`,
  `Program.OutputReadBack`);
- the scan-only listing against a reader that turns the lines back into
  tokens (`Program.ScanLinesReadBack`);
- the file-level scanner (`read`/`lseek`) against the string scanner
  (`Reader.ScanFileCorrected`).

The character classes and keyword tables are plain definitions without
contracts. The remaining members (`Dots`, the list and node builders) are
stated directly by their contracts.

Modules, one per file:

- `Results` (results.dfy): errors and the `Result` type.
- `Tokens` (tokens.dfy): token kinds, character classes, keywords, `TokenToStr`.
- `Lexer` (lexer.dfy) and `LexerProps` (lexer_props.dfy): the scanner and its properties.
- `Reader` (reader.dfy): the scanner as it runs on a file descriptor.
- `Ast` (ast.dfy): tree nodes and the shape invariant the parser keeps.
- `Parser` (parser.dfy) and `ParserProps` (parser_props.dfy): the grammar and its properties.
- `Folds` (folds.dfy): the five left-associating loops, the '@' and 'gamma' loops, the sign of A and the '**' nesting, each against a chain of operators and operands.
- `Dump` (dump.dfy): `DumpAST` and the reader of its output.
- `Program` (program.dfy): the driver in `main`.
- `Scenarios` (scenarios.dfy): concrete inputs.

Two facts of the code that the model follows:

- A string literal that reaches the end of the file is closed without error
  (parser.c:366-403).
- The operator character class has 26 members (parser.c:20-29).

## Model

| member | source | states |
|---|---|---|
| Tokens.Clip | parser.c:161-204 | printing into the 256-byte `tokenstr` keeps at most 255 characters, always a prefix of the full rendering; a shorter rendering is kept whole, and a longer one is cut to exactly 255 |
| Tokens.Spelled | parser.c:163-204 | identifiers and integers print as a tag in angle brackets with the lexeme right before the closing '>'; strings as <STR:'…'> around the lexeme; keywords, punctuation and operators print bare, except the operator '()', which prints as <()> |
| Tokens.Render | parser.c:161-204 | the printed text is a prefix of the spelling shorter than the buffer, and is the whole spelling exactly when the spelling fits |
| Lexer.RunLength | parser.c:408-472 | the loop of each run routine takes exactly the longest prefix whose characters are all in its class: every character taken is in the class and the next one is not |
| Lexer.CommentLength | parser.c:347-360 | a comment discards everything up to and including the first newline or NUL, or the rest of the text when there is none |
| Lexer.ScanString | parser.c:364-404 | an accepted literal's text is a prefix of the input made of string characters and the escapes \t \n \\ \' kept as backslash plus letter; the literal ends at a quote or NUL, which is consumed, or at the end of the text |
| Lexer.CharThenLiteral | parser.c:391-395 | a string character in front of an accepted literal is kept, and the result is still an accepted literal of the longer text |
| Lexer.EscapeThenLiteral | parser.c:375-390 | one of the escapes \t \n \\ \' in front of an accepted literal is kept as backslash plus letter, and the result is still an accepted literal of the longer text |
| LexerProps.ScanStringOfBody | parser.c:369-373 | every well-formed body followed by a quote is read back verbatim and uses exactly the body plus the quote |
| LexerProps.ScanStringUnterminated | parser.c:366-403 | a well-formed body that runs to the end of the text is accepted whole, without error |
| LexerProps.ScanStringRejects | parser.c:375-400 | a backslash followed by anything but t, n, \ or ' is a bad escape; a character outside the string class is a bad string character |
| Lexer.RunToken | parser.c:408-446 | an operator or integer token is the first character plus the maximal run of its class, so the character after the token is never in that class |
| Lexer.Word | parser.c:450-472 | an identifier-shaped word is a maximal run of identifier characters, and it is a Keyword exactly when it is one of the 20 keywords, otherwise an Identifier |
| Lexer.Step | parser.c:484-524 | dispatch order: whitespace emits nothing; `//` starts a comment; a quote starts a string; then operator symbol, digit, letter, punctuation; any other character is a lexical error; every emitted token is well formed, and any error comes from a bad character or a string |
| Lexer.Lex | parser.c:484-524 | the scan stops at the end of the text or at a NUL; every token is well formed; there are no more tokens than characters |
| LexerProps.RunLengthOfPrefix | parser.c:408-446 | a run of the class followed by a character outside it is measured exactly |
| LexerProps.SpellingStarts | parser.c:484-524 | a well-formed token's spelling is never empty and never starts with NUL |
| LexerProps.StepOfRun | parser.c:408-446 | an operator or integer spelled in full and followed by a space, a NUL or nothing is one scanner step that yields exactly that token |
| LexerProps.StepOfWord | parser.c:450-472 | an identifier or keyword spelled in full and followed by a space, a NUL or nothing is one step that yields exactly it, kind included |
| LexerProps.StepOfString | parser.c:364-404 | a quoted literal is one step that yields exactly its body, whatever follows |
| LexerProps.StepOfSpelling | parser.c:484-524 | for every well-formed token, the scanner started on its spelling yields that token and uses the whole spelling |
| LexerProps.LexAfterToken | parser.c:484-524 | lexing a token's spelling, a space and more text gives the token in front of the tokens of the rest |
| LexerProps.LexSingle | parser.c:484-524 | lexing one token's spelling gives exactly that token |
| LexerProps.LexSpell | parser.c:484-524 | round trip: for every sequence of well-formed tokens, scanning their space-separated spelling gives back exactly those tokens |
| LexerProps.LexSingleThenNul | parser.c:484-524 | one token's spelling followed by a NUL scans to exactly that token, whatever follows the NUL |
| LexerProps.LexSpellThenNul | parser.c:484-524 | the spelling of well-formed tokens followed by text that starts with NUL scans to exactly those tokens |
| LexerProps.LexStopsAtNul | parser.c:484-524 | the scan ends at the first NUL: the spelling of well-formed tokens, a NUL and any text scans back to exactly those tokens |
| Reader.Get | parser.c:296-308 | CharGet returns the byte under the pointer and advances it, and returns NUL and stays at end of file |
| Reader.PeekNext | parser.c:312-330 | CharPeekNext inside the file returns the next byte and leaves the pointer alone; at the end it returns NUL, and as written it moves the pointer one byte back, before the end |
| Reader.Run | parser.c:408-472 | the peek-and-skip loop collects exactly the maximal run of the class; as written it leaves the pointer one byte before the end when the run reached the end of the file |
| Reader.RunTakes | parser.c:408-472 | a run that takes the character under the pointer is that character in front of the run after it; the run then spans the maximal prefix of the class from the pointer, and ends one byte short of the end only when the peek as written hit the end |
| Reader.Dispatch | parser.c:496-522 | the branches after the comment test keep the pointer inside the same file; what they compute is stated against the string scanner by Reader.DispatchAgrees |
| Reader.Quoted | parser.c:364-404 | the string routine started after the opening quote keeps the pointer inside the same file; what it computes is stated by Reader.QuotedAgrees |
| Reader.ScanStep | parser.c:486-495 | one pass of the main loop keeps the pointer inside the same file; what it computes is stated against the string scanner by Reader.StepAgrees |
| Reader.Scan | parser.c:484-524 | the main loop stops as soon as CharGet returns NUL, with no further tokens; a run that has used up its passes has not stopped |
| Reader.RunRewindsAtEnd | parser.c:312-330 | a run that reaches the end of the file leaves the pointer on the last byte |
| Reader.StepOfLastIdentifier | parser.c:450-472 | on the one-byte file "x", after reading x the identifier routine emits x and puts the pointer back before the x |
| Reader.AsWrittenNeverStops | parser.c:484-524 | as written, the scanner on the file "x" has not stopped after any number of passes |
| Reader.StepOfLastSlash | parser.c:488-495 | a file ending in one slash: the failed comment peek rewinds, and the slash is scanned as the operator "//" |
| Reader.RunAgrees | parser.c:408-446 | with the corrected peek, a run routine reads the same token the string scanner reads and stops right after it |
| Reader.WordAgrees | parser.c:450-472 | with the corrected peek, the identifier routine reads the same word as the string scanner |
| Reader.WordStepAgrees | parser.c:463-469 | the keyword test after the identifier loop makes the same token as the string scanner, kind included |
| Reader.RunStepAgrees | parser.c:408-446 | an operator or integer token made by the file reader is the string scanner's token, and the pointer ends where that step ends |
| LexerProps.StepOfQuote | parser.c:498-501 | the string scanner on a quote is the literal routine on what follows: the token is the literal's text and it uses the quote plus what the literal used, or the literal's error |
| Reader.QuotedAgrees | parser.c:364-404 | the file string routine started after a quote gives the string scanner's step from that quote: the same token or the same error, and the pointer right after the characters used |
| Reader.StringDispatchAgrees | parser.c:498-501 | the dispatch on a quote gives the string scanner's step |
| Reader.LetterDispatchAgrees | parser.c:510-513 | the dispatch on a letter gives the string scanner's step: the same identifier or keyword, and the pointer right after it |
| Reader.DispatchAgrees | parser.c:496-522 | the dispatch on a character that is neither a space nor a comment start gives the string scanner's step: the same token or the same error, and the pointer advanced by the characters used |
| Reader.StepAgrees | parser.c:484-524 | one corrected pass of the main loop is one step of the string scanner |
| Reader.LexPass | parser.c:484-524 | one pass of the string scanner puts its token, if any, in front of the outcome of the rest |
| Reader.FailedPass | parser.c:484-524 | a pass that fails fails both scanners with the same error |
| Reader.StopsTogether | parser.c:488-489 | where a pass stops (end of file, a NUL byte or an error) the file scanner and the string scanner give the same outcome |
| Reader.ScanSteps | parser.c:484-524 | where a pass goes on, the file scanner's outcome is the pass's token in front of the outcome of the remaining passes from the offset the step reached |
| Reader.LexSteps | parser.c:484-524 | where a pass goes on, the string scanner's outcome is the same token in front of its outcome from that same offset |
| Reader.PassCorrected | parser.c:484-524 | from an offset where a pass goes on, with more passes than bytes left, the two scanners agree |
| Reader.ScanFromCorrected | parser.c:484-524 | from every offset inside the file, with more passes than bytes left, the file scanner gives exactly what the string scanner gives on the rest of the text |
| Reader.ScanPass | parser.c:484-524 | one pass of the file scanner puts its token in front of what the rest of the run gives |
| Reader.ScanCorrected | parser.c:484-524 | with the corrected peek and enough passes, scanning the file from any offset gives what the string scanner gives on the rest of the text: the same tokens, or the same error |
| Reader.ScanFileCorrected | parser.c:484-524 | the whole file scanned with the corrected peek is exactly `Lexer.Lex` of its contents |
| Ast.Size | parser.c:1567-1585 | DumpAST prints at least one line per tree, exactly one for a leaf, and more for a tree than for any of its subtrees |
| Ast.SizeOf | parser.c:1579-1584 | the children printed one after another take at least one line each, and at least as many as any one of them |
| Parser.Expect | parser.c:137-145 | T_VERIFY succeeds exactly when the next token has the expected kind and spelling, and then moves one token on |
| Parser.CommaList | parser.c:555-568 | the ',' loop of Vl collects at least one element, all of them leaves, the first being the token it started on; the tokens consumed are exactly the elements joined by commas, and no comma follows |
| Parser.Vl | parser.c:530-574 | a missing or non-identifier first token is an error; a lone identifier is returned unwrapped; with a ',' after it the result is a ',' node of two or more leaves, in source order, covering exactly the comma-joined tokens; only the first element is checked |
| Parser.Vb | parser.c:583-631 | an identifier is a leaf; '(' ')' is the operator '()'; '(' Vl ')' is the Vl tree with no wrapper, the ')' is mandatory, and Vb ends right after that ')'; anything else is an error |
| Parser.VbList | parser.c:724-730 | the do-while loop collects at least one binding, each a variable list or '()', stops at the first token that cannot start one, and is an error when the tokens run out; the bindings are the successive Vb parses from the first position, each starting where the previous one ended |
| Parser.BindingBody | parser.c:699-708 | after the Vl, a mandatory '=' and an E give a two-child '=' node with the Vl tree first |
| Parser.Binding | parser.c:690-711 | the Vl '=' E branch fails when Vl fails, and otherwise is the '=' tail on the Vl tree |
| ParserProps.BindingChildren | parser.c:690-711 | the '=' node has the Vl tree first and, second, the E parsed right after the '='; the branch ends where that E ends |
| ParserProps.BindingBodyChildren | parser.c:699-708 | the second child of the '=' tail is the E parsed right after the '=' |
| Parser.FunctionFormNode | parser.c:716-741 | the 'function_form' node holds the name leaf, then the bindings in order, then the body, and is well shaped |
| Parser.FunctionFormBody | parser.c:732-741 | after the bindings, a mandatory '=' and an E give 'function_form' with the name leaf first and the bindings, in order, after it |
| Parser.FunctionForm | parser.c:713-743 | the function-form branch fails when its bindings fail, and otherwise is the 'function_form' tail on the bindings Vb+ read after the name |
| ParserProps.FunctionFormChildren | parser.c:713-743 | 'function_form' has the name leaf first, then exactly the bindings read after the name, then the E parsed right after the '='; the branch ends where that E ends |
| ParserProps.FunctionFormBodyChildren | parser.c:732-741 | the last child of the 'function_form' tail is the E parsed right after the '=' |
| Parser.Db | parser.c:639-749 | a leading '(' gives the D parsed after it with no wrapper, followed by a mandatory ')', and ends right after the ')'; an identifier followed by ',' or '=' is the Vl '=' E branch; followed by an identifier or '(' it is the function-form branch; followed by anything else, or any other first token, is an error |
| Parser.Dr | parser.c:756-782 | 'rec' gives a one-child 'rec' node; otherwise Dr is Db |
| ParserProps.RecChild | parser.c:761-775 | the child of 'rec' is the Db parsed right after the keyword, and Dr ends where that Db ends |
| Parser.AndList | parser.c:800-815 | the 'and' loop leaves no 'and' behind; with no 'and' it consumes nothing; the items are the Dr trees parsed one after another, each right after an 'and', the next 'and' following where the previous Dr ended |
| Parser.Da | parser.c:789-821 | an 'and' node exists only when 'and' follows the first Dr; it has at least two children with that Dr first, and the others are exactly the items of the 'and' loop started after it; otherwise Da is Dr |
| Parser.ListNode | parser.c:800-815 | the node of a list rule ('tau', 'and') is well shaped, has at least two children, and keeps the first subtree in front of the ones the loop collected, in order |
| Parser.Within | parser.c:838-853 | after a Da and 'within', a D gives a two-child 'within' node with the Da first, and no 'within' is left behind |
| Parser.D | parser.c:828-856 | 'within' nests to the right: D is Da unless 'within' follows it, and then it is the 'within' tail on that Da; no 'within' is left behind |
| ParserProps.WithinChildren | parser.c:838-853 | the 'within' node has the Da first and, second, the D parsed right after 'within'; D ends where that inner D ends |
| ParserProps.WithinBodyChildren | parser.c:838-853 | the second child of the 'within' tail is the D parsed right after 'within' |
| Parser.Rn | parser.c:869-948 | a token other than '(' is consumed on its own as a leaf of its own kind, with no error whatever the token; true, false, nil and dummy are renamed with angle brackets; a '(' hands over to Parser.Parenthesized |
| Parser.Parenthesized | parser.c:931-947 | '(' E ')' gives the E tree started after the '(' with no wrapper, and ends right after the ')' that follows that E |
| Parser.Closed | parser.c:941-942 | the bracketed form succeeds exactly when a ')' follows the inner E, and then keeps the inner tree and ends right after that ')' |
| Parser.RFold | parser.c:964-988 | juxtaposed operands fold into 'gamma' nodes; the loop stops at the first token that cannot start an operand, and returns the tree built so far at once when none starts at pos; the full association is stated by Folds.RFoldOfChain and Folds.ChainOfRFold |
| Parser.R | parser.c:955-991 | R consumes every operand that follows; Folds.RIsFold ties it to the 'gamma' loop started on its first Rn |
| Parser.ApFold | parser.c:1006-1025 | each '@' builds a three-child '@' node; a '@' with nothing after it is an error; no '@' is left behind |
| Parser.Ap | parser.c:998-1028 | Ap leaves no '@' behind |
| Parser.Af | parser.c:1035-1062 | '**' nests to the right: Af is Ap unless '**' follows it, and then a two-child '**' node with that Ap first; the right child is the Af after the '**' (ParserProps.PowerChildren) |
| Parser.AtFold | parser.c:1078-1098 | '*' and '/' fold to the left into two-child nodes spelled like their operator |
| Parser.At | parser.c:1070-1101 | At leaves no '*' or '/' behind |
| Parser.AFold | parser.c:1152-1171 | '+' and '-' fold to the left into two-child nodes spelled like their operator |
| Parser.A | parser.c:1111-1172 | A leaves no '+' or '-' behind; Folds.AIsFold states the sign and the start of the loop |
| Parser.Bp | parser.c:1184-1233 | with no comparison after the first A, Bp is that A; otherwise a two-child node spelled like the comparison token, with the two A trees as children; there is no second comparison |
| Parser.Bs | parser.c:1240-1266 | 'not' gives a one-child 'not' node whose child is the Bp parsed right after 'not', ending where that Bp ends; otherwise Bs is Bp |
| Parser.BtFold | parser.c:1281-1298 | '&' folds to the left into two-child nodes |
| Parser.Bt | parser.c:1273-1301 | Bt leaves no '&' behind |
| Parser.BFold | parser.c:1316-1333 | 'or' folds to the left into two-child nodes |
| Parser.B | parser.c:1308-1336 | B leaves no 'or' behind |
| Parser.Conditional | parser.c:1354-1378 | after a B and '->', two Tc separated by a mandatory '\|' give a three-child '->' node with the B first, and no '->' is left behind |
| Parser.Tc | parser.c:1343-1380 | Tc is B unless '->' follows it, and then a three-child '->' node with that B first; no '->' is left behind |
| ParserProps.ConditionalThen | parser.c:1354-1366 | the middle child of '->' is the Tc parsed right after '->', and a '\|' follows it |
| ParserProps.ConditionalElse | parser.c:1366-1376 | the last child of '->' is the Tc parsed right after the '\|', and Tc ends where that Tc ends |
| ParserProps.ConditionalElseArm | parser.c:1366-1376 | the last child of the '->' tail is the Tc parsed right after the '\|' |
| Parser.TaFold | parser.c:1395-1412 | 'aug' folds to the left into two-child nodes |
| Parser.Ta | parser.c:1387-1415 | Ta leaves no 'aug' behind |
| Parser.TauList | parser.c:1436-1448 | the ',' loop of T leaves no ',' behind; with no ',' it consumes nothing; the items are the Ta trees parsed one after another, each right after a ',' |
| Parser.T | parser.c:1422-1454 | a 'tau' node exists only when ',' follows the first Ta; it has at least two children with that Ta first, and the others are exactly the items of the ',' loop started after it; otherwise T is Ta |
| Parser.Where | parser.c:1471-1487 | after a T and 'where', the Dr parsed right after 'where' becomes the second child of a two-child 'where' node with the T first, and the rule ends where that Dr ends |
| Parser.Ew | parser.c:1461-1489 | Ew is T unless 'where' follows it, and then it is the 'where' tail on that T |
| Parser.LetBody | parser.c:1512-1524 | after the D, a mandatory 'in' and an E give a two-child node that keeps the Keyword kind 'let', with the D tree first |
| Parser.Let | parser.c:1506-1528 | the 'let' branch fails when the D after 'let' fails, and otherwise is the 'let' tail on that D |
| ParserProps.LetChildren | parser.c:1506-1528 | the 'let' node has the D parsed right after 'let' first and, second, the E parsed right after 'in'; E ends where that inner E ends |
| ParserProps.LetBodyChildren | parser.c:1516-1524 | the second child of the 'let' tail is the E parsed right after 'in' |
| Parser.LambdaBody | parser.c:1545-1555 | after the bindings, a mandatory '.' and an E give 'lambda' with the bindings first, in order, and one more child |
| Parser.Lambda | parser.c:1529-1556 | the 'fn' branch fails when its bindings fail, and otherwise is the 'lambda' tail on the bindings Vb+ read after 'fn' |
| ParserProps.LambdaChildren | parser.c:1529-1556 | 'lambda' has exactly the bindings read after 'fn', then the E parsed right after the '.'; E ends where that inner E ends |
| ParserProps.LambdaBodyChildren | parser.c:1545-1555 | the last child of the 'lambda' tail is the E parsed right after the '.' |
| Parser.E | parser.c:1499-1563 | every rule, E included, fails on an empty token list and otherwise consumes at least one token and builds a tree of the right arity; 'let' and 'fn' give their nodes; anything else is Ew |
| ParserProps.RnOfToken | parser.c:869-948 | Rn on any token other than '(' gives that token's leaf, constants renamed, and consumes exactly that token |
| ParserProps.ApOfOperand | parser.c:998-1028 | a simple operand with nothing after it that continues an application is an Ap on its own |
| ParserProps.AtOfOperand | parser.c:1070-1101 | a simple operand with nothing after it that continues a term is an At on its own |
| ParserProps.AfOfOperand | parser.c:1035-1062 | a simple operand followed by '**' and a parsed right side is a two-child '**' node over the operand and that right side, ending where the right side ends |
| ParserProps.AFoldOfOperand | parser.c:1152-1171 | one '+' or '-' and a simple operand fold into the accumulated tree, and the loop goes on from after the operand |
| ParserProps.AOfOperand | parser.c:1145-1171 | a sum that starts with a simple operand is the loop of A started from that operand's leaf |
| ParserProps.ASignOfOperand | parser.c:1118-1144 | a sum that starts with a sign is the loop of A started from the operand after it, wrapped in 'neg' for '-' and bare for '+' |
| ParserProps.LeftAssocFront | parser.c:1152-1171 | folding the first step into the first operand does not change the left association |
| ParserProps.AFoldOfSum | parser.c:1152-1171 | the loop of A over a chain of '+' and '-' builds exactly the left association of the chain |
| ParserProps.AOfSum | parser.c:1111-1172 | a - b - c is (a - b) - c: A over a chain of simple operands is their left association |
| ParserProps.AOfNegatedSum | parser.c:1128-1144 | a leading '-' wraps only the first operand in 'neg', and the fold then follows |
| ParserProps.AOfSignedSum | parser.c:1118-1127 | a leading '+' is dropped: + a op b … is the left association of a op b …, ending right after the chain |
| ParserProps.PlusIsDropped | parser.c:1118-1127 | with or without a leading '+', the same sum parses to the same tree and ends at the same place |
| ParserProps.RFoldOfOperands | parser.c:964-988 | the loop of R over juxtaposed operands builds their left-associated 'gamma' application |
| ParserProps.ROfOperands | parser.c:955-991 | f x y z parses as ((f x) y) z |
| ParserProps.PowerChildren | parser.c:1035-1062 | for any Ap, the '**' node has that Ap first and, second, the Af parsed right after the '**'; Af ends where that inner Af ends |
| ParserProps.AfOfPower | parser.c:1035-1062 | a ** b ** c parses as a ** (b ** c) for single-token operands, with the exact end position; Folds.AfOfPowers is the general form |
| ParserProps.EOfComparison | parser.c:1240-1489 | with no 'let', 'fn' or 'not' in front and nothing of lower precedence after it, an expression is its comparison: every level from Bs to E hands the tree through unchanged |
| ParserProps.BpOfComparison | parser.c:1194-1230 | an A, a comparison token and a second A give the node spelled like the comparison over the two A trees, ending where the second A ends |
| ParserProps.BOfOperand | parser.c:1273-1336 | a simple operand with nothing after it that continues a logical expression is a B on its own |
| ParserProps.TcOfOperand | parser.c:1343-1380 | with no '->' after it either, it is a Tc on its own |
| ParserProps.TaOfOperand | parser.c:1387-1415 | with no 'aug' after it either, it is a Ta on its own |
| ParserProps.EOfOperand | parser.c:1422-1563 | a simple operand that nothing after it continues is an E on its own |
| Folds.Operand | parser.c:1078-1405 | the operand rule of each level (At, Af, Bs, Bt, Tc) fails on an empty list and otherwise consumes at least one token and builds a well-shaped tree |
| Folds.Fold | parser.c:1081-1412 | each loop ('+' '-', '*' '/', '&', 'or', 'aug') stops at once, keeping the tree built so far, when its operator does not follow |
| Folds.FoldStep | parser.c:1081-1412 | one turn of a loop: the operator and the operand parsed after it become a two-child node spelled like the operator over the tree so far and that operand, and the loop goes on after the operand |
| Folds.FoldOfChain | parser.c:1081-1412 | a loop over a chain of its operators and operands builds exactly the left association of the chain and stops where the chain ends |
| Folds.ChainOfFold | parser.c:1081-1412 | every successful loop read a chain of its operators and operands, and built the chain's left association |
| Folds.FoldStopsAtOperator | parser.c:1081-1412 | a successful loop leaves no operator of its level behind |
| Folds.RuleIsFold | parser.c:1070-1415 | At, Bt, B and Ta are their loop started on the first operand: nothing else happens before the loop |
| Folds.RuleOfChain | parser.c:1070-1415 | a * b / c, a & b & c, a or b or c and a aug b aug c parse as the left association of their chains |
| Folds.ChainOfRule | parser.c:1070-1415 | every successful At, Bt, B or Ta is the left association of the chain of operands it read |
| Folds.InfixAssocFront | parser.c:1009-1025 | folding the first '@' step into the first operand does not change the left association |
| Folds.ApFoldStep | parser.c:1009-1025 | one turn of the '@' loop: the token after '@' is the middle child, unchecked, and the R after it the right child |
| Folds.ApFoldOfChain | parser.c:1009-1025 | the '@' loop over a chain of '@' name R builds exactly its left association |
| Folds.ChainOfApFold | parser.c:1009-1025 | every successful '@' loop read such a chain and built its left association |
| Folds.ApOfChain | parser.c:998-1028 | x @ f y @ g z parses as (x @ f y) @ g z |
| Folds.ChainOfAp | parser.c:998-1028 | every successful Ap is the left association of the '@' chain it read |
| Folds.SignedStart | parser.c:1118-1150 | A's first At starts right after a leading '+' or '-', and at A's own position otherwise |
| Folds.Signed | parser.c:1128-1144 | after a leading '-' the first At is the only child of a 'neg' node; otherwise it reaches the loop unchanged |
| Folds.AIsFold | parser.c:1111-1172 | for every input, A succeeds exactly when its first At, read after the sign if any, and the '+'/'-' loop started on that At (wrapped in 'neg' after '-', bare after '+' or no sign) both succeed, and A is then that loop's result |
| Folds.AOfChain | parser.c:1111-1172 | - f x + y - (z) parses as ((neg(f x)) + y) - z, whatever the operands: the sign binds the first At only, and the rest associates to the left |
| Folds.ChainOfA | parser.c:1111-1172 | every successful A is the left association of a '+'/'-' chain that starts with its signed first At |
| Folds.RFoldStep | parser.c:964-988 | one turn of R's loop: the Rn parsed at pos becomes the right child of a 'gamma' over the tree so far, and the loop goes on after it |
| Folds.RFoldOfChain | parser.c:964-988 | R's loop over juxtaposed operands of any form builds exactly their left-associated 'gamma' application and stops where they end |
| Folds.ChainOfRFold | parser.c:964-988 | every successful run of R's loop read juxtaposed Rn operands and built their left-associated application |
| Folds.RIsFold | parser.c:955-991 | for every input, R succeeds exactly when its first Rn and the loop started on it succeed, and is then that loop's result |
| Folds.ROfChain | parser.c:955-991 | f x (g y) z parses as ((f x) (g y)) z: application associates to the left whatever the operands |
| Folds.ChainOfR | parser.c:955-991 | every successful R is the left-associated application of its first Rn to the operands that follow |
| Folds.AfStep | parser.c:1035-1062 | an Ap followed by '**' gives an Af exactly when the Af after the '**' succeeds, and then a '**' node over that Ap and that Af, ending where the inner Af ends |
| Folds.AfOfPowers | parser.c:1035-1062 | a ** f b ** (c) parses as a ** ((f b) ** c): a chain of '**' over any Ap operands is its right association |
| Folds.PowersOfAf | parser.c:1035-1062 | every successful Af is the right association of the chain of Ap operands and '**' it read |
| Dump.Shapes | parser.c:1567-1585 | the printed shapes of a sequence of trees are the shapes of each tree, in order |
| Dump.Entries | parser.c:1567-1585 | DumpAST prints one line per node; the first line is the root at its own depth, and every other line is deeper |
| Dump.EntriesOf | parser.c:1579-1584 | trees printed one after another give one line per node, none shallower than their depth, starting with the first root |
| Dump.Dots | parser.c:1574 | the indent is exactly depth dots |
| Dump.Format | parser.c:1574-1577 | a printed line is the depth in dots, then the node's rendering, then one space |
| Dump.FormatAll | parser.c:1574-1577 | line i of the output is entry i printed |
| Dump.ParseFormat | parser.c:1574-1577 | a printed line whose node does not start with a dot reads back as its depth and its rendering |
| Dump.ParseFormatAll | parser.c:1574-1577 | printed lines read back as the entries they were printed from |
| Dump.DeeperPrefix | parser.c:1579-1584 | the descendants of a node are exactly the lines deeper than it that follow it |
| Dump.ForestCons | parser.c:1579-1584 | a node followed by its deeper lines and then a shallower one owns exactly the deeper ones |
| Dump.ForestOfEntries | parser.c:1567-1585 | regrouping the lines of trees printed at one depth gives back those trees' shapes |
| Dump.UndumpRoots | parser.c:1567-1585 | round trip: the lines printed for a sequence of trees, read back, give the shapes of those trees, as long as no node prints with a leading dot |
| Program.Leaves | parser.c:1665-1672 | every token the parse left over becomes a childless tree of its own, in order |
| Program.ParseProgram | parser.c:1663-1673 | an empty token list gives no trees; otherwise the run fails exactly when E fails, with E's error, and otherwise gives E's tree followed by one leaf per token E did not consume; trailing tokens are not an error |
| Program.Roots | parser.c:1650-1673 | a scanner error is the result; otherwise the trees of the parse |
| Program.Output | parser.c:1663-1674 | output exists exactly when scanning and parsing succeed, with one line per node of every tree, and an empty program prints nothing |
| Program.RenderAll | parser.c:1654-1661 | -s prints one rendered line per token, in scan order |
| Program.ScanLines | parser.c:1654-1662 | -s output exists exactly when the scan succeeds, and line i is the rendering of token i |
| Program.UnrenderAll | parser.c:1654-1661 | reading back gives one token per line |
| Program.UnrenderBracketed | parser.c:172-193 | an identifier, integer or string rendering reads back as that token |
| Program.UnrenderBare | parser.c:167-198 | a keyword, operator or punctuation rendering reads back as that token |
| Program.UnrenderOperator | parser.c:182-198 | an operator rendering, '()' included, reads back as that operator |
| Program.UnrenderRender | parser.c:163-204 | the rendering of a token the scanner can produce names its kind and lexeme unambiguously, unless the buffer cut it short |
| Program.ScanLinesReadBack | parser.c:1654-1662 | round trip of -s: when no line reached the buffer limit, the printed lines read back as exactly the scanned tokens |
| Program.ShapesOfLeaves | parser.c:1665-1672 | a leftover token prints as a tree with no children |
| Program.DumpReadBack | parser.c:1663-1674 | the lines printed for a parsed token list read back as the expression's shape followed by one childless tree per leftover token, in order |
| Program.OutputReadBack | parser.c:1628-1674 | round trip of the default mode from the program text: the printed lines read back as the shape of the parsed expression, then one childless tree per leftover token |
| Program.OutputOfProgram | parser.c:1650-1674 | when E parses the tokens of a program as p, the trees are p's tree then the leftover leaves, and the output is exactly their dump |
| Program.ParseProgramOf | parser.c:1663-1673 | when E parses as p, the trees are p's tree followed by the leaves of the tokens after it |
| Scenarios.ComparisonsDoNotChain | parser.c:1184-1233 | a > b > c gives the tree >(a, b) and then the leftover trees '>' and c |
| Scenarios.FirstComparison | parser.c:1194-1230 | the expression read from a > b > c ends before the second '>' |
| Scenarios.SubtractionFoldsLeft | parser.c:1152-1171 | a - b - c gives -(-(a, b), c) |
| Scenarios.StrayKeywordIsALeaf | parser.c:869-948 | a program that is only 'in' gives the single leaf 'in', with no error |
| Scenarios.InfixTakesAnyToken | parser.c:1006-1025 | in x @ 1 y the integer after '@' becomes the middle child, unchecked |
| Scenarios.LetDefinition | parser.c:690-711 | in let x = 3 in x, the definition part is the binding x = 3, ending at 'in' |
| Scenarios.LetBindsThenUses | parser.c:1506-1528 | let x = 3 in x gives let(=(x, 3), x) and consumes every token |
| Scenarios.LambdaSum | parser.c:1145-1171 | in fn x . x + 1, A reads x + 1 as +(x, 1) |
| Scenarios.LambdaBodyIsSum | parser.c:1111-1172 | in fn x . x + 1, the body is +(x, 1), running to the end |
| Scenarios.LambdaVariables | parser.c:1535-1543 | in fn x . x + 1, the bindings are x alone, up to the '.' |
| Scenarios.LambdaNode | parser.c:1545-1555 | in fn x . x + 1, after the binding x the '.' and the body give lambda(x, +(x, 1)) |
| Scenarios.LambdaBindsThenUses | parser.c:1529-1556 | fn x . x + 1 gives lambda(x, +(x, 1)) and consumes every token |
| Scenarios.TupleLast | parser.c:1437-1448 | in 1, 2, 3, the ',' loop started before 3 reads 3 and stops at the end |
| Scenarios.TupleRest | parser.c:1437-1448 | in 1, 2, 3, the ',' loop after 1 reads 2 and then 3, in order |
| Scenarios.TupleT | parser.c:1422-1454 | 1, 2, 3 is one tau node over 1, 2 and 3 |
| Scenarios.TupleListsItsElements | parser.c:1422-1563 | 1, 2, 3 gives tau(1, 2, 3) as an expression |
| Scenarios.ConditionalTail | parser.c:1354-1378 | in a -> b \| c, the arms after a are b and then c |
| Scenarios.ConditionalArms | parser.c:1343-1380 | a -> b \| c is one Tc, ->(a, b, c) |
| Scenarios.ConditionalKeepsArmsInOrder | parser.c:1343-1563 | a -> b \| c gives ->(a, b, c) as an expression |
| Scenarios.ConjunctionOperands | parser.c:1240-1266 | each name of a & b & c is an operand of '&' on its own |
| Scenarios.ConjunctionChain | parser.c:1283-1298 | after a, the tokens of a & b & c read as the chain '&' b, '&' c |
| Scenarios.ConjunctionFoldsLeft | parser.c:1273-1301 | a & b & c gives &(&(a, b), c) |
| Scenarios.EmptyTupleRendering | parser.c:182-188 | the operator '()' prints as <()> and punctuation prints raw |

## Left out

- File and process plumbing: `getopt`, the usage text, `open`/`close`, exit
  codes and the exact diagnostic text. A diagnostic is an `Err` value. No
  output is printed before scanning and parsing have finished, so an `Err`
  stands for the whole run.
- The `-p`/`-P` rule tracing (`LOG_TDN`/`LOG_BUP`) and the `----------`
  separator printed only with tracing on. These are diagnostic output only.
- A failed `read` or `lseek` call (`perror` + `exit(1)`). The reader models a
  file whose reads succeed.
- Memory management: `TokenAlloc`, `TokenAddChar`, `TokenFree`, `FreeAST`, the
  `length` field and the intrusive list mechanics. Lexemes are strings, and the
  token list is a sequence with a position.
- The C's undefined behaviour when a rule dereferences an empty token list.
  It is modelled as `UnexpectedEnd` and not specified further.
- Reader.PeekNext: requires a non-empty file. Every peek of the scanner
  follows a successful read, so the seek back can never fail; the error path
  of `lseek` at offset 0 is not modelled.
- Reader.ScanStep: requires the pointer to be past the byte just read, which
  the main loop guarantees. The string routine is modelled by
  `Lexer.ScanString` in both peek modes. Its only peek follows a backslash,
  and a NUL there is an error either way.
- Reader.Scan: runs at most `fuel` passes. `OutOfFuel` is how a scanner that
  does not stop shows up. One pass per byte plus one is enough for the
  corrected scanner.
- Program.UnrenderRender: holds only for renderings shorter than the 256-byte
  buffer. `snprintf` cuts longer ones short, and those cannot be read back.
- Dump.UndumpRoots: holds only for trees in which no node's rendering starts
  with a dot. A leftover '.' or '..' operator prints with a leading dot and
  reads back one level deeper.
- Reader.Dispatch, Reader.ScanStep: the contracts state only that the pointer
  stays inside the file. Their behaviour is stated by comparison with
  `Lexer.Step` in Reader.DispatchAgrees and Reader.StepAgrees (corrected
  peek), and by the two concrete passes of the as-written peek.
- Parser.ApFold, Parser.AtFold, Parser.AFold, Parser.BtFold, Parser.BFold,
  Parser.TaFold: the function's own contract states only the top node. The
  full left association, in both directions, is stated by the lemmas of
  `Folds` (`Folds.FoldOfChain`, `Folds.ChainOfFold`, `Folds.ApFoldOfChain`,
  `Folds.ChainOfApFold`).
- Parser.RFold, Parser.R, Parser.Af, Parser.A: the function's own contract
  states the top node and where the rule stops. The full association, for
  operands of any form and in both directions, is stated by the lemmas of
  `Folds` (`RFoldOfChain`/`ChainOfRFold` and `ROfChain`/`ChainOfR` for
  'gamma', `AfOfPowers`/`PowersOfAf` for '**', `AIsFold`,
  `AOfChain`/`ChainOfA` for the sign of A).
- Parser.Dr, Parser.D, Parser.Tc, Parser.Binding, Parser.FunctionForm,
  Parser.Let, Parser.Lambda, Parser.E: a child that is parsed by the same rule
  or an enclosing one (the Db under 'rec', the D after 'within', the arms of
  '->', the E after '=' or 'in' or '.') is tied to that rule by a lemma of
  `ParserProps` (`RecChild`, `WithinChildren`, `ConditionalThen`,
  `ConditionalElse`, `BindingChildren`, `FunctionFormChildren`,
  `LetChildren`, `LambdaChildren`), not by the function's own contract. A
  function contract is assumed at every call, so one that names an
  enclosing rule would make the rules' contracts unfold one another
  without end.

## Findings

| source | as written | input that shows it | evidently intended | confidence | as-written member | corrected member |
|---|---|---|---|---|---|---|
| parser.c:312-330 | `CharPeekNext` seeks back one byte even when the read returned nothing at end of file, so a peek at the end moves the read pointer one byte before the end | a file whose last byte ends an identifier, integer or operator, such as the one-byte file `x`: the last token is scanned again and again and the scanner never stops | seek back only after a byte was actually read, so the scanner stops at end of file | not executed | Reader.AsWrittenNeverStops | Reader.ScanFileCorrected |
