# Melhorzin-lang interpreter core in Dafny

Melhorzin-lang is a small scripting language whose keywords are emoji:
`🖨️ "text"` prints, `✍️ x = 5` assigns, `▶️ f(a, b) { … ↩️ a ➕ b }` defines a
function, `🚀 … 👨🏿‍💻 { … } 🤦🏿‍♂️ { … }` is a try/catch. Its interpreter
is written in Go. This project models its three core pieces and proves
properties of them:

- **the tokenizer** (`internal/lexer/lexer.go`), modules `Lexer` and
  `LexerProps`. It is a byte-indexed scanner. The emoji lexemes are matched
  first by exact byte prefix. After them come single-byte punctuation, runs
  of letters/digits and of digits, and a string scanner that splits every
  `💱{name}` out of a string literal. `Lexer.Step` specifies one iteration of
  the main loop and `Lexer.LexFrom` the whole loop. The class `Lexer.Lexer`
  runs the loop in place over `pos` and `tokens`, and is proved to append
  exactly `LexFrom`'s tokens.
- **the parser and the node evaluators** (`internal/parser/parser.go`).
  - `Grammar` gives each parse function as a function of the token list and
    the cursor. Its outcomes are `Ok(value, next)`, `Abort` (Go's `panic`)
    or `Diverge`. `Diverge` is the body loop that never advances on a token
    no statement starts with.
  - The class `Parser.Parser` mutates its cursor as Go does. Each of its
    methods is proved to return what its `Grammar` twin returns.
  - `Ast` holds the node and value types. `Semantics` gives `Evaluate` as a
    function from a node and a variable map to the value, the new map and
    the printed lines.
  - The class `Evaluator.Machine` keeps the one variable map and standard
    output as fields and updates them in place, including the map copy and
    the argument and body loops of a call. Each of its methods is proved to
    compute what `Semantics` describes.
  - `GrammarProps` and `SemanticsProps` state what the parser and the
    evaluators promise.
- **the driver** (`internal/interpreter/interpreter.go`), module
  `Interpreter`. The class `Interpreter.Interpreter` holds a `Machine`, whose
  map persists across `Interpret` calls, and the last result. `Interpret` is
  proved against `Run`, a fold over the node list that also adds the
  driver's own echo of int and bool results.

The model keeps these quirks of the code:
- a number inside an expression becomes an `AssignNode` with an empty name;
- `TryCatchNode` never runs its try body;
- `parseAssign` reads no type annotation;
- no arity or type check exists anywhere;
- a stray token inside a braced body makes the parser loop forever.

Go's `int` is 64 bits wide. `+` and `*` wrap around (`Text.Wrap64`), and
`strconv.Atoi` clamps out-of-range numbers with an error (`Text.Atoi`).
Function calls may recurse without bound, so evaluation carries fuel. Each
call spends one unit, and running out is the outcome `OutOfFuel`.

Some behaviour of the code differs from what the language's documentation
describes. The model follows the code:
- **Interpolation in prints never fires.** The tokenizer splits `💱{name}`
  out of every string, so `parsePrint` never sees a placeholder and no
  parsed print is interpolated (`GrammarProps.LexedPrintsPlain`).
- **Top-level expressions are not parsed.** A top-level `x ➕ y` is two
  variable references, because a statement never starts an expression.
- **No type annotations exist.** `✍️ x: 🔢 = 5` is a parse error
  (`GrammarProps.AssignRejectsAnnotation`).

## Model

| member | source | states |
|---|---|---|
| Text.Wrap64 | internal/parser/parser.go:85-110 | the result lies in the 64-bit range, is congruent to the exact value modulo 2^64, and equals it when it fits |
| Text.Digits | internal/interpreter/interpreter.go:31-35 | the decimal text of a number is a non-empty digit string with no leading zero |
| Text.DigitsRoundTrip | internal/interpreter/interpreter.go:31-35 | reading the decimal digits of n back gives n |
| Text.ScanUint | internal/parser/parser.go:337-340 | the digit loop of strconv never returns a value wider than 64 bits |
| Text.ScanUintDigits | internal/parser/parser.go:337-340 | on a digit string the digit loop returns the string's value, or a range error exactly when that value needs more than 64 bits |
| Text.AtoiOfDigits | internal/parser/parser.go:337-340 | Atoi of a NUMBER token is its value with no error when it fits in an int, and MaxInt64 with an error otherwise |
| Text.AtoiDecimalRoundTrip | internal/parser/parser.go:337-340 | Atoi of the decimal text of any 64-bit int gives that int back with no error |
| Lexer.EmojiAt | internal/lexer/lexer.go:72-147 | the emoji found is one of the table and the input starts with it there; none is found exactly when no table entry matches |
| Lexer.WordEnd | internal/lexer/lexer.go:236-241 | the run of letters and digits from i is maximal |
| Lexer.NumberEnd | internal/lexer/lexer.go:252-256 | the run of digits from i is maximal |
| Lexer.FindByte | internal/lexer/lexer.go:201-204 | the index of the first occurrence of the byte, or the input's length when there is none |
| Lexer.ScanString | internal/lexer/lexer.go:177-235 | the string scanner never moves backwards, and it moves forward unless it hits the end of the input |
| Lexer.ScanInterpolation | internal/lexer/lexer.go:185-225 | an interpolation is fatal exactly when no `}` follows, and then it stops at the end of the input; otherwise it stops just past a `}` |
| Lexer.ScanStringPlain | internal/lexer/lexer.go:182-228 | an ordinary byte inside a string is passed over |
| Lexer.ScanStringInterpolation | internal/lexer/lexer.go:185-225 | at `💱{` the string scanner emits the interpolation's tokens and starts a fresh chunk after it |
| Lexer.ScanStringQuote | internal/lexer/lexer.go:228-235 | the closing quote flushes the pending chunk as one STRING token and ends the literal after the quote |
| Lexer.Step | internal/lexer/lexer.go:67-272 | one iteration of the main loop never moves backwards, and it advances unless it ends lexing |
| Lexer.ByteStep | internal/lexer/lexer.go:150-272 | the byte switch never moves backwards, and it advances unless it ends lexing |
| Lexer.Lexer.constructor | internal/lexer/lexer.go:61-63 | NewLexer: the cursor at 0 and no tokens |
| Lexer.Lexer.Lex | internal/lexer/lexer.go:66-277 | Lex appends to `tokens` exactly the tokens LexFrom gives from the cursor, and returns the whole list |
| Lexer.Lexer.LexStep | internal/lexer/lexer.go:67-150 | one loop iteration appends Step's tokens and moves the cursor to Step's end; it stops exactly when Step is fatal |
| Lexer.Lexer.LexByte | internal/lexer/lexer.go:150-272 | the byte switch appends ByteStep's tokens and moves the cursor to its end |
| Lexer.Lexer.LexString | internal/lexer/lexer.go:177-235 | the string case appends ScanString's tokens, and it stops exactly on an unterminated string or interpolation |
| Lexer.Lexer.LexInterpolation | internal/lexer/lexer.go:185-225 | the interpolation case appends ScanInterpolation's tokens and reports an unclosed brace |
| Lexer.Lexer.LexWord | internal/lexer/lexer.go:236-251 | the identifier case moves to the end of the maximal letter/digit run and appends one token of that run's kind holding the run |
| Lexer.Lexer.LexNumber | internal/lexer/lexer.go:252-258 | the number case moves to the end of the maximal digit run and appends one NUMBER token holding the run |
| LexerProps.LexFromTokens | internal/lexer/lexer.go:66-277 | a complete token list ends in exactly one EOF with none before it; a list cut short by an unterminated string has no EOF; no STRING token holds `💱{` |
| LexerProps.TokenizeEof | internal/lexer/lexer.go:66-67 | the list ends in EOF exactly when the whole input was scanned |
| LexerProps.UnterminatedString | internal/lexer/lexer.go:177-232 | a string literal with no closing quote ends lexing with the tokens gathered so far and no EOF |
| LexerProps.ScanStringUnterminated | internal/lexer/lexer.go:229-232 | a string scan that finds no quote before the end is fatal |
| LexerProps.InterpolationShape | internal/lexer/lexer.go:185-225 | `💱{name}` emits STRING(the text before it), INTERPOLATE and LBRACE; when closed, also IDENTIFIER(the bytes up to the first `}`) and RBRACE |
| LexerProps.InterpolationTokens | internal/lexer/lexer.go:185-225 | the tokens of an interpolation hold no EOF and no STRING containing `💱{` |
| LexerProps.ScanStringTokens | internal/lexer/lexer.go:177-235 | the tokens of a string literal hold no EOF and no STRING containing `💱{` |
| LexerProps.StepTokens | internal/lexer/lexer.go:67-272 | one loop iteration emits no EOF and no STRING containing `💱{` |
| LexerProps.EmojiLeads | internal/lexer/lexer.go:72-147 | every emoji lexeme is at least three bytes long and starts with a non-ASCII byte |
| LexerProps.EmojiUnique | internal/lexer/lexer.go:72-147 | at most one emoji lexeme matches at any position, so the order of the prefix tests does not matter |
| LexerProps.NoEmojiAtAscii | internal/lexer/lexer.go:72-147 | no emoji lexeme matches at an ASCII byte |
| LexerProps.StepAscii | internal/lexer/lexer.go:148-152 | at an ASCII byte the iteration goes straight to the byte switch |
| LexerProps.StepEmoji | internal/lexer/lexer.go:72-147 | a keyword emoji yields one token holding the emoji and advances by its byte length; `💱` outside a string yields nothing and is skipped |
| LexerProps.EmojiStepShape | internal/lexer/lexer.go:72-147 | a matched emoji yields exactly its table tokens |
| LexerProps.StepPunctuation | internal/lexer/lexer.go:153-175 | each of `{ } ( ) , = + * . :` yields one token of its kind holding that byte, and advances by one |
| LexerProps.StepSkip | internal/lexer/lexer.go:259-271 | whitespace, and any byte no rule accepts that starts no emoji (an ASCII byte never does), advances by one and emits nothing |
| LexerProps.ByteStepSkip | internal/lexer/lexer.go:259-271 | in the byte switch, whitespace and any byte no case accepts advance by one and emit nothing |
| LexerProps.WordKinds | internal/lexer/lexer.go:242-249 | a word is BOOLEAN exactly for `true`/`false`, MAIN exactly for `main`, and IDENTIFIER otherwise |
| LexerProps.StepWord | internal/lexer/lexer.go:236-251 | a letter that starts no emoji (an ASCII letter never does) yields one token holding the maximal letter/digit run, of the word's kind |
| LexerProps.ByteStepWord | internal/lexer/lexer.go:236-251 | in the byte switch, a letter yields one token holding the maximal letter/digit run from it, of the word's kind |
| LexerProps.StepNumber | internal/lexer/lexer.go:252-258 | a digit yields one NUMBER token whose non-empty value is the maximal digit run |
| LexerProps.StepPlainString | internal/lexer/lexer.go:177-235 | a closed string without `💱{` is one STRING token holding the bytes between the quotes, and scanning resumes just past the closing quote |
| LexerProps.PlainRun | internal/lexer/lexer.go:182-235 | a string scan over bytes without quote or marker up to a quote yields the whole chunk as one STRING |
| LexerProps.ByteStepQuote | internal/lexer/lexer.go:177-179 | a double quote hands over to the string scanner after the quote |
| Placeholders.NameEnd | internal/parser/parser.go:305 | the run of name bytes `[A-Za-z0-9_]` from i is maximal |
| Placeholders.PlaceholderEnd | internal/parser/parser.go:305 | a placeholder spans the marker, at least one name byte and `}` |
| Placeholders.PlaceholderName | internal/parser/parser.go:305 | a captured name is non-empty and made of name bytes |
| Placeholders.Dedup | internal/parser/parser.go:310-312 | the names kept are exactly the names given, each once |
| Placeholders.InsideNoLead | internal/parser/parser.go:306 | placeholders do not overlap |
| Placeholders.MatchesSound | internal/parser/parser.go:306 | every name the matcher reports is captured by a placeholder in the text |
| Placeholders.MatchesComplete | internal/parser/parser.go:306 | every placeholder in the text is reported by the matcher |
| Placeholders.VariablesExact | internal/parser/parser.go:300-313 | the recorded names are non-empty exactly when a placeholder occurs, are exactly the captured names, and hold no repetition |
| Placeholders.NoMarkerNoPlaceholder | internal/parser/parser.go:305 | a text without `💱{` records no variable |
| Placeholders.ReplaceAllAbsent | internal/parser/parser.go:35 | replacing a pattern that does not occur leaves the text unchanged |
| Grammar.Consume | internal/parser/parser.go:252-259 | consume succeeds exactly when the current token has the expected kind; it then returns that token and advances by one, and otherwise panics naming the expected kind and the token found |
| Grammar.ParseStatement | internal/parser/parser.go:261-288 | a statement is nil exactly when the current token starts no statement, and nil consumes nothing; a node consumes tokens; a node parsed from tokens without placeholders is not interpolated |
| Grammar.ParseStatementNode | internal/parser/parser.go:262-284 | every statement case that builds a node consumes at least one token |
| Grammar.ParseIdentifierStatement | internal/parser/parser.go:275-284 | the identifier case consumes at least one token |
| Grammar.ParsePrint | internal/parser/parser.go:290-320 | succeeds exactly on PRINT then STRING, consuming both; the node's text is that STRING's, it records the text's placeholder names and is interpolated exactly when it records some; a missing PRINT or STRING panics with the token found |
| Grammar.ParseNumber | internal/parser/parser.go:337-340 | a number parses exactly when the token is a NUMBER that Atoi reads without error, with Atoi's value and one token consumed; any other token is a panic expecting NUMBER, and a range error a panic showing the next token's text |
| Grammar.ParseAssign | internal/parser/parser.go:322-342 | an assignment node stores the IDENTIFIER after ASSIGN as its name, needs `=` after it, and stores a node only when that node is a call |
| Grammar.ParseAssignValue | internal/parser/parser.go:328-341 | a node is stored exactly when an IDENTIFIER and `(` follow `=`, and it is a call; a STRING is stored as its text and consumes one token; anything else is read as a NUMBER: Atoi's value on success, ParseNumber's panic otherwise |
| Grammar.ParseEqual | internal/parser/parser.go:344-356 | a comparison parses exactly when IDENTIFIER and EQUAL are followed by a STRING or by a NUMBER that Atoi reads; it consumes those three tokens and compares the name with the string's text or Atoi's value |
| Grammar.ParseBody | internal/parser/parser.go:364-368 | a body loop that ends stops at RBRACE or EOF |
| Grammar.ParseBlock | internal/parser/parser.go:362-369 | a block starts at LBRACE and ends just past an RBRACE, consuming at least those two tokens |
| Grammar.ParseMain | internal/parser/parser.go:358-371 | a MainNode starts with MAIN and two ASSIGN tokens |
| Grammar.ParseTryHead | internal/parser/parser.go:374-378 | the head parses exactly when TRY_START, IDENTIFIER, COMMA, NUMBER and TRY follow one another, consumes those five tokens, and otherwise panics |
| Grammar.ParseTryCatch | internal/parser/parser.go:373-397 | parseTryCatch yields a TryCatchNode and consumes tokens |
| Grammar.ParseTryBlocks | internal/parser/parser.go:379-396 | the two blocks yield a TryCatchNode and consume tokens |
| Grammar.ParseCatch | internal/parser/parser.go:387-395 | the catch block starts with CATCH |
| Grammar.ParseMoreParams | internal/parser/parser.go:409-412 | the parameter loop takes two tokens per name and stops at a token that is not a comma |
| Grammar.ParseParams | internal/parser/parser.go:406-413 | the list is empty exactly before RPAREN, and then consumes nothing; otherwise it takes 2n-1 tokens for n names, and stops at a token that is not a comma |
| Grammar.ParseParamList | internal/parser/parser.go:403-414 | the parameter list parses exactly when LPAREN, the parameters and RPAREN follow one another; its names are the parameters' and it ends just past the RPAREN |
| Grammar.ParseFunction | internal/parser/parser.go:400-427 | a FunctionNode starts with FUNCTION and is named by the IDENTIFIER after it |
| Grammar.ParseReturn | internal/parser/parser.go:430-433 | a ReturnNode starts with RETURN and holds a left-leaning operator chain |
| Grammar.ParseMoreArgs | internal/parser/parser.go:444-447 | the argument loop is empty exactly when no comma follows, and stops at a token that is not a comma |
| Grammar.ParseArgs | internal/parser/parser.go:441-448 | the argument list is empty exactly before RPAREN, and then consumes nothing |
| Grammar.ParseFunctionCall | internal/parser/parser.go:436-452 | a call is named by its first token, has `(` as its second token and ends just past an RPAREN |
| Grammar.ParseExpression | internal/parser/parser.go:455-470 | an expression is a left-leaning chain of operators over terms, and it stops at the first token that is not an operator |
| Grammar.ParseOperators | internal/parser/parser.go:458-467 | the operator loop keeps the chain left-leaning and stops at a non-operator |
| Grammar.ParseTerm | internal/parser/parser.go:473-493 | an IDENTIFIER without `(` is a variable of that name and a STRING a literal of that text, each over one token; any token other than IDENTIFIER, NUMBER or STRING panics as an unexpected term; every term consumes tokens |
| Grammar.ParseTop | internal/parser/parser.go:232-243 | Parse's loop, when it ends, stops at EOF |
| Parser.OperatorsStep | internal/parser/parser.go:458-467 | one turn of the operator loop: an operator, a term, and a BinaryOpNode whose left operand is the chain so far |
| Parser.TopStep | internal/parser/parser.go:234-240 | one turn of Parse's loop: a node is kept, and a nil statement skips exactly one token |
| Parser.Parser.constructor | internal/parser/parser.go:227-229 | NewParser: the cursor at the first token |
| Parser.Parser.CurrentToken | internal/parser/parser.go:245-250 | the token under the cursor, or EOF past the end |
| Parser.Parser.Consume | internal/parser/parser.go:252-259 | returns Grammar.Consume; on success it returns the current token and advances by one, on a panic the cursor stays |
| Parser.Parser.Parse | internal/parser/parser.go:232-243 | returns Grammar.ParseTop from the cursor and leaves the cursor where it ends |
| Parser.Parser.ParseStatement | internal/parser/parser.go:261-288 | returns Grammar.ParseStatement, cursor at its end |
| Parser.Parser.ParseStatementNode | internal/parser/parser.go:262-284 | returns Grammar.ParseStatementNode, cursor at its end |
| Parser.Parser.ParseIdentifierStatement | internal/parser/parser.go:275-284 | returns Grammar.ParseIdentifierStatement, cursor at its end |
| Parser.Parser.ParsePrint | internal/parser/parser.go:290-320 | returns Grammar.ParsePrint, cursor at its end |
| Parser.Parser.ParseNumber | internal/parser/parser.go:337-340 | returns Grammar.ParseNumber, cursor at its end |
| Parser.Parser.ParseAssign | internal/parser/parser.go:322-342 | returns Grammar.ParseAssign, cursor at its end |
| Parser.Parser.ParseAssignValue | internal/parser/parser.go:328-341 | returns Grammar.ParseAssignValue, cursor at its end |
| Parser.Parser.ParseEqual | internal/parser/parser.go:344-356 | returns Grammar.ParseEqual, cursor at its end |
| Parser.Parser.ParseBody | internal/parser/parser.go:364-368 | returns Grammar.ParseBody, cursor at its end; reports the endless loop as Diverge |
| Parser.Parser.ParseBlock | internal/parser/parser.go:362-369 | returns Grammar.ParseBlock, cursor at its end |
| Parser.Parser.ParseMain | internal/parser/parser.go:358-371 | returns Grammar.ParseMain, cursor at its end |
| Parser.Parser.ParseTryHead | internal/parser/parser.go:374-378 | returns Grammar.ParseTryHead, cursor at its end |
| Parser.Parser.ParseTryCatch | internal/parser/parser.go:373-397 | returns Grammar.ParseTryCatch, cursor at its end |
| Parser.Parser.ParseTryBlocks | internal/parser/parser.go:379-396 | returns Grammar.ParseTryBlocks, cursor at its end |
| Parser.Parser.ParseCatch | internal/parser/parser.go:387-395 | returns Grammar.ParseCatch, cursor at its end |
| Parser.Parser.ParseParams | internal/parser/parser.go:406-413 | returns Grammar.ParseParams, cursor at its end |
| Parser.Parser.ParseMoreParams | internal/parser/parser.go:409-412 | returns Grammar.ParseMoreParams, cursor at its end |
| Parser.Parser.ParseFunction | internal/parser/parser.go:400-427 | returns Grammar.ParseFunction, cursor at its end |
| Parser.Parser.ParseParamList | internal/parser/parser.go:403-414 | returns Grammar.ParseParamList, cursor at its end |
| Parser.Parser.ParseReturn | internal/parser/parser.go:430-433 | returns Grammar.ParseReturn, cursor at its end |
| Parser.Parser.ParseArgs | internal/parser/parser.go:441-448 | returns Grammar.ParseArgs, cursor at its end |
| Parser.Parser.ParseMoreArgs | internal/parser/parser.go:444-447 | returns Grammar.ParseMoreArgs, cursor at its end |
| Parser.Parser.ParseFunctionCall | internal/parser/parser.go:436-452 | returns Grammar.ParseFunctionCall, cursor at its end |
| Parser.Parser.ParseExpression | internal/parser/parser.go:455-470 | returns Grammar.ParseExpression, cursor at its end |
| Parser.Parser.ParseOperators | internal/parser/parser.go:458-467 | returns Grammar.ParseOperators, cursor at its end |
| Parser.Parser.ParseOperator | internal/parser/parser.go:463-466 | one turn of the operator loop advances the cursor and leaves the loop's final result unchanged; a panic in it is the loop's result |
| Parser.Parser.ParseTerm | internal/parser/parser.go:473-493 | returns Grammar.ParseTerm, cursor at its end |
| GrammarProps.IdentifierDispatch | internal/parser/parser.go:275-284 | an identifier followed by EQUAL is a comparison, one followed by `(` is a call, and any other is a variable reference consuming one token |
| GrammarProps.BodyDiverges | internal/parser/parser.go:364-368 | inside a body, a token that neither closes it nor starts a statement makes the loop run forever |
| GrammarProps.BodyStops | internal/parser/parser.go:364-368 | a body that ends is empty exactly when it consumed nothing, and exactly when it starts at RBRACE or EOF |
| GrammarProps.TopSkips | internal/parser/parser.go:234-240 | at top level, a token no statement starts with is skipped |
| GrammarProps.AssignRejectsAnnotation | internal/parser/parser.go:322-325 | a colon after the assigned name is a panic expecting `=` |
| GrammarProps.NumberTerm | internal/parser/parser.go:482-485 | a number term is an AssignNode with an empty name holding Atoi's value, its error ignored |
| GrammarProps.CallTerm | internal/parser/parser.go:474-476 | an IDENTIFIER followed by `(` in an expression is parsed as a function call |
| GrammarProps.AssignShape | internal/parser/parser.go:322-342 | an assignment parses exactly when ASSIGN, an IDENTIFIER and `=` are followed by a value; the node's name is that identifier's text and its value the one ParseAssignValue reads after `=` |
| GrammarProps.AssignValueCall | internal/parser/parser.go:328-331 | when an IDENTIFIER and `(` follow `=`, the stored value is the call parseFunctionCall reads there, and its panics are the assignment's |
| GrammarProps.BlockShape | internal/parser/parser.go:362-369 | a block parses exactly when LBRACE is followed by a body that ends at RBRACE; its statements are that body's and it ends just past the RBRACE |
| GrammarProps.MainShape | internal/parser/parser.go:358-371 | parseMain succeeds exactly on MAIN, two ASSIGN tokens and a block; the MainNode's body is that block's statements |
| GrammarProps.CatchShape | internal/parser/parser.go:387-395 | the catch part parses exactly when CATCH is followed by a block, and is that block |
| GrammarProps.TryBlocksShape | internal/parser/parser.go:379-396 | the try body is the first block's statements and the catch body those of the block after CATCH; the node parses exactly when both do |
| GrammarProps.TryCatchShape | internal/parser/parser.go:373-397 | a panic in the five-token head is the statement's panic; otherwise the blocks are read from just past the head |
| GrammarProps.MoreParamNames | internal/parser/parser.go:409-412 | each repetition is a comma followed by the IDENTIFIER whose text is the next name |
| GrammarProps.ParamNames | internal/parser/parser.go:406-413 | the parameters are the texts of the IDENTIFIER tokens at every other position from the first, with a comma between each two |
| GrammarProps.FunctionShape | internal/parser/parser.go:400-427 | parseFunction succeeds exactly on FUNCTION, an IDENTIFIER, a parameter list and a block; the definition's name is that identifier's text, its parameters the list's names and its body the block's statements |
| GrammarProps.ReturnShape | internal/parser/parser.go:430-433 | parseReturn succeeds exactly on RETURN followed by an expression, and returns that expression |
| GrammarProps.MoreArgsShape | internal/parser/parser.go:444-447 | the loop is empty when no comma follows; after a comma it reads an expression and then the remaining repetitions |
| GrammarProps.ArgsShape | internal/parser/parser.go:441-448 | the arguments are empty before RPAREN; otherwise the first is the expression at the cursor and the others follow it after commas |
| GrammarProps.MoreArgsLeftChain | internal/parser/parser.go:444-447 | every argument read after a comma is a left-leaning operator chain |
| GrammarProps.ArgsLeftChain | internal/parser/parser.go:441-448 | every argument of a call is a left-leaning operator chain |
| GrammarProps.CallShape | internal/parser/parser.go:436-452 | parseFunctionCall succeeds exactly on an IDENTIFIER, `(`, the arguments and `)`; the call is named by the identifier's text, holds those arguments and ends just past the `)` |
| GrammarProps.LeftAssociative | internal/parser/parser.go:455-470 | any three terms joined by two operators, `a op b op c`, parse as `(a op b) op c`, for any two of the four operators |
| GrammarProps.PrintRecords | internal/parser/parser.go:300-319 | a print is interpolated exactly when its text holds a placeholder, and its variables are exactly the captured names, each once |
| GrammarProps.PlainBridge | internal/lexer/lexer.go:182-234 | tokens whose strings hold no `💱{` hold no placeholder either |
| GrammarProps.LexedPrintsPlain | internal/parser/parser.go:290-319 | no print parsed from tokenized source text is interpolated |
| Semantics.BinOp | internal/parser/parser.go:84-113 | `+` and `➕` give the wrapped sum of two ints and `✖️` the wrapped product; `.` gives the concatenation of both texts; anything else is nil |
| SemanticsProps.EvaluateFuel | internal/parser/parser.go:155-189 | more fuel does not change an evaluation that finished |
| SemanticsProps.BindArgsFuel | internal/parser/parser.go:164-169 | more fuel does not change argument binding that finished |
| SemanticsProps.RunBodyFuel | internal/parser/parser.go:171-185 | more fuel does not change a body run that finished |
| SemanticsProps.EvalAllFuel | internal/parser/parser.go:196-201 | more fuel does not change a main body that finished |
| SemanticsProps.ReadOnlyKeepsEnv | internal/parser/parser.go:155-189 | a node that assigns nothing at its own level leaves the caller's map unchanged, whatever the functions it calls assign |
| SemanticsProps.BindKeepsEnv | internal/parser/parser.go:164-169 | arguments that assign nothing leave the caller's map unchanged |
| SemanticsProps.EvalAllKeepsEnv | internal/parser/parser.go:196-201 | a list of nodes that assign nothing leaves the map unchanged |
| SemanticsProps.CallIsolation | internal/parser/parser.go:158-185 | after a call the caller's map is what the arguments left it; the body's assignments never reach it |
| SemanticsProps.UnboundCall | internal/parser/parser.go:155-157 | a call of an unset name, or of a name holding no function, is nil and changes nothing |
| SemanticsProps.BindIgnoresExtra | internal/parser/parser.go:165-169 | arguments beyond the parameter count are never evaluated |
| SemanticsProps.CallIgnoresExtraArgs | internal/parser/parser.go:165-169 | a call with surplus arguments behaves as the call without them |
| SemanticsProps.ReturnCuts | internal/parser/parser.go:173-177 | statements after the first top-level return never run |
| SemanticsProps.BodyLikeMain | internal/parser/parser.go:173-184 | a body without a top-level return leaves the same map and prints the same lines as a main body |
| SemanticsProps.BodyLastValue | internal/parser/parser.go:172-185 | a body without a top-level return has its last statement's value |
| SemanticsProps.TryIgnoresTryBody | internal/parser/parser.go:209-218 | the try body is never run: only whether it holds a try node matters, and without one the node is nil and changes nothing |
| SemanticsProps.NumberTermValue | internal/parser/parser.go:50-58 | a number term stores the number under the empty name and is nil |
| SemanticsProps.LiteralArithmetic | internal/parser/parser.go:80-113 | arithmetic on two number literals is nil and leaves the right operand under the empty name |
| SemanticsProps.PlusIsNumPlus | internal/parser/parser.go:85-103 | `+` and `➕` evaluate alike |
| SemanticsProps.EqualTruth | internal/parser/parser.go:66-70 | a comparison is true exactly when the variable is set and holds the literal, and changes nothing |
| SemanticsProps.PrintPlainText | internal/parser/parser.go:24-28 | a print that is not interpolated prints its text once and is that text |
| SemanticsProps.InterpolateIdentity | internal/parser/parser.go:30-37 | interpolation leaves the text unchanged when no name is both set and present as a placeholder |
| SemanticsProps.PrintOneLine | internal/parser/parser.go:23-42 | a print prints exactly one line, is that line, and changes no variable |
| Evaluator.Machine.Eval | internal/parser/parser.go:23-218 | `Evaluate` run in place: the value, the new map and the printed lines are Semantics.Evaluate's |
| Evaluator.Machine.Interpolation | internal/parser/parser.go:30-37 | the substitution loop computes Semantics.Interpolate |
| Evaluator.Machine.EvalBinary | internal/parser/parser.go:80-113 | the left operand, then the right one on the map it left, then the operator: Semantics.Evaluate of the node |
| Evaluator.Machine.EvalCall | internal/parser/parser.go:155-189 | copy the map, bind the arguments, run the body on the copy and restore the caller's map: Semantics.Evaluate of the call |
| Evaluator.Machine.BindAll | internal/parser/parser.go:158-169 | the argument loop computes Semantics.BindArgs from the caller's map and a copy of it |
| Evaluator.Machine.BindOne | internal/parser/parser.go:165-169 | one turn of the argument loop keeps the loop's relation to Semantics.BindArgs |
| Evaluator.Machine.EvalBody | internal/parser/parser.go:171-185 | the body loop computes Semantics.RunBody |
| Evaluator.Machine.StatementOne | internal/parser/parser.go:178-183 | one statement of the body loop keeps the loop's relation to Semantics.RunBody |
| Evaluator.Machine.ReturnOne | internal/parser/parser.go:174-177 | a top-level return ends the body with its expression's value |
| Evaluator.Machine.EvalMain | internal/parser/parser.go:196-201 | MainNode's loop computes Semantics.EvalAll |
| Evaluator.Machine.NodeOne | internal/parser/parser.go:197-199 | one turn of MainNode's loop keeps the loop's relation to Semantics.EvalAll |
| Evaluator.Machine.EvalTry | internal/parser/parser.go:209-218 | the scan for a nested try, then the first catch node: Semantics.Evaluate of the node |
| Interpreter.Echo | internal/interpreter/interpreter.go:29-45 | at most one line is echoed; one is echoed exactly for an int or bool value of a node that is not a print, and it is the value's text |
| Interpreter.Interpreter.constructor | internal/interpreter/interpreter.go:15-17 | NewInterpreter: an empty map, nothing printed, a nil result |
| Interpreter.Interpreter.Interpret | internal/interpreter/interpreter.go:20-49 | the nodes run in order on the persistent map; the result and the returned value are the last node's value (nil for none), and the map and output are Run's |
| Interpreter.Interpreter.RunNode | internal/interpreter/interpreter.go:23-45 | one turn of the loop: evaluate the node, store its value as the result, echo it |
| Interpreter.Interpreter.GetResult | internal/interpreter/interpreter.go:52-54 | the stored result |
| Interpreter.RunAppend | internal/interpreter/interpreter.go:15-24 | two Interpret calls on one interpreter act as one call on the joined lists: the map and the output carry over |
| Interpreter.ExhaustedRun | internal/interpreter/interpreter.go:23-25 | when one node runs out of fuel, the whole run does |
| Interpreter.PrintsOnce | internal/interpreter/interpreter.go:27-30 | a list of plain prints prints each text exactly once, in order, and changes no variable |
| Interpreter.LastValue | internal/interpreter/interpreter.go:20-25 | the value of a run is its last node's value on the map the earlier nodes left, and nil for no nodes |
| Interpreter.ExtendShift | internal/interpreter/interpreter.go:23-45 | one more node after two runs that end on the same map gives the same outcome, apart from the earlier output |
| Interpreter.RunNext | internal/interpreter/interpreter.go:23-45 | the run over k + 1 nodes is the run over k nodes followed by node k |

## Left out

- `cmd/interpreter/main.go` is not part of this model. It reads the file, prints the final result and sets the exit status.
- Standard output is a trace of lines kept in `Machine.out`. The lexer's diagnostic prints are not part of the trace: the token dump (internal/lexer/lexer.go:275), the message for an unexpected character (internal/lexer/lexer.go:270), for an unterminated string (internal/lexer/lexer.go:230) and for an unterminated interpolation (internal/lexer/lexer.go:207).
- `unicode.IsLetter`, `IsDigit` and `IsSpace` are applied to single bytes. They are modelled by their meaning for code points below 256. The test for U+FE0F and U+FEFF can never succeed on a byte and is not modelled.
- The regular expression in `parsePrint` is replaced by a hand-written matcher (`Placeholders.Matches`) for `💱{` followed by a name in `[A-Za-z0-9_]+` and `}`.
- `PrintNode.Variables` is a Go map, walked in random order. The model keeps the names in order of first occurrence. The order matters only when a substituted value itself contains a placeholder.
- `%v` of a function value prints the struct behind the pointer, including the addresses of its body nodes. It is modelled as a fixed text followed by the function's name.
- A panic's message text is not modelled. `Abort` records the expected token kind and the token found.
- Evaluation carries fuel: a call with no fuel left stops with `OutOfFuel`. This replaces Go's stack overflow on unbounded recursion. All of the following hold at every fuel level: the lemmas, and the results of runs that finish.
- Evaluator.Machine.Eval: after `OutOfFuel`, the map and the output left behind are not described. Go would have crashed at that point.
- Interpreter.Interpreter.Interpret: when a node runs out of fuel, the method stops there. `result` and the returned value are then the value of the node before it, and the map and the output are not described.
- Grammar.ParseAssign: its own contract does not give the stored name's token position and the stored value; GrammarProps.AssignShape states it for every token list.
- Grammar.ParseAssignValue: its own contract does not give which call is stored; GrammarProps.AssignValueCall states it for every token list.
- Grammar.ParseBlock: its own contract does not give that the statements are the body's; GrammarProps.BlockShape states it for every token list.
- Grammar.ParseMain: its own contract does not give the MainNode's body; GrammarProps.MainShape states it for every token list.
- Grammar.ParseCatch: its own contract does not give that the catch part is the block after CATCH; GrammarProps.CatchShape states it for every token list.
- Grammar.ParseTryBlocks: its own contract does not give the try and catch bodies; GrammarProps.TryBlocksShape states it for every token list.
- Grammar.ParseTryCatch: its own contract does not give where the blocks start and which panic a bad head gives; GrammarProps.TryCatchShape states it for every token list.
- Grammar.ParseFunction: its own contract does not give the parameters and the body; GrammarProps.FunctionShape states it for every token list.
- Grammar.ParseReturn: its own contract does not give the returned expression; GrammarProps.ReturnShape states it for every token list.
- Grammar.ParseArgs: its own contract does not give the argument expressions; GrammarProps.ArgsShape and GrammarProps.ArgsLeftChain state it for every token list.
- Grammar.ParseMoreArgs: its own contract does not give the argument expressions; GrammarProps.MoreArgsShape and GrammarProps.MoreArgsLeftChain state it for every token list.
- Grammar.ParseFunctionCall: its own contract does not give the arguments; GrammarProps.CallShape states it for every token list.
- Grammar.ParseParams: its own contract does not give which names are read; GrammarProps.ParamNames states it for every token list.
- Grammar.ParseMoreParams: its own contract does not give which names are read; GrammarProps.MoreParamNames states it for every token list.
- Clauses like these, put on the functions themselves, push the proofs past the solver's budget. Most of these functions are mutually recursive, so each proof would see every other function's clauses. This is why the clauses live in lemmas.
