# A verified model of jlox, the clox chunk and a C doubly linked list

This project models three independent pieces of a "Crafting Interpreters"
repository in Dafny and proves properties of each.

**jlox**, the Java tree-walking Lox interpreter, from source text to execution:

- **Scanner** (`scanner.dfy`): the `Scanner` class with its `start`, `current`
  and `line` cursor and growing token list. It is proved to follow `ScanStep`
  and `Run`, functions giving the meaning of one `scanToken` call and of the
  scanning loop.
- **StringUtils and Util** (`string_utils.dfy`, `util.dfy`): the escape tables
  and the `unescapeString` loops, each proved against one recursive
  specification, and `stringify` and `isInteger`.
- **Parser** (`parser.dfy`): a function per grammar rule over the token list,
  and the imperative `Parser` class proved to agree with them. Precedence,
  associativity, error productions and `synchronize` are proved in
  `parser_properties.dfy`.
- **Resolver** (`resolver.dfy`): the scope stack, where every name moves
  through DECLARED, DEFINED and USED. It records hop counts in a distance
  table keyed by node identity, and it reports misuse of `return`, `this` and
  `super`. A Java exception from the scope stack ends the walk and keeps the
  state at the throw, so the errors already reported stay reported.
  `resolver_properties.dfy` proves the scope-stack invariant, the lifecycle
  of a scope entry, the warnings of `endScope`, and that errors are never
  taken back.
- **Environments** (`runtime.dfy`): every `Environment` is a frame in one
  arena, and its identity is its index there. `define`, `declare`, `get` and
  `assign` walk the enclosing chain to the nearest frame that holds the name.
- **Interpreter, LoxFunction and LoxClass** (`evaluation.dfy`,
  `interpreter.dfy`, `lox_class.dfy`). Functions give what evaluating an
  expression or executing a statement yields. The yield is a value or an
  abrupt completion: a RuntimeError, a `Return`, or a break or continue on its
  way out. The `Interpreter` class, which switches and restores its current
  environment, is proved to compute exactly that.
  `interpreter_properties.dfy` states the language's promises: truthiness and
  equality, the operators, short-circuiting, the if-else chain, the while
  loop, increments and the call frame.

**The clox chunk** (`chunk.dfy`): a growable byte buffer, its constants, and a
run-length table from byte index to source line, all over arrays. The table is
modelled as `chunk.c` writes it. The table as evidently intended is specified
beside it, with its round trip proved (see Findings).

**The C doubly linked list** (`doubly_linked_list.dfy`): `Node` and `List`
classes whose `prev`/`next`/`head`/`tail` pointers are rewired in place. A
ghost sequence of the nodes from head to tail specifies every insertion,
search and removal. The invariant proved is that the links stay consistent
and the nodes distinct.

## Model

| member | source | states |
|---|---|---|
| StringUtils.EscapeFor | com/craftinginterpreters/lox/StringUtils.java:9-19 | exactly the eight escape letters b t n f r " ' \ have a replacement, of one or two characters (`\b` is passed through as backslash-b) |
| StringUtils.Prefixed | com/craftinginterpreters/lox/StringUtils.java:33-52 | prepending the text already built keeps success and failure apart and leaves an exception's message alone |
| StringUtils.PrefixedTwice | com/craftinginterpreters/lox/StringUtils.java:33-52 | appending to the buffer in two steps is appending once |
| StringUtils.PrefixedEmpty | com/craftinginterpreters/lox/StringUtils.java:33 | an empty buffer adds nothing |
| StringUtils.UnescapeString | com/craftinginterpreters/lox/StringUtils.java:32-53 | the character loop returns what the unescape specification gives: the unescaped text, or the exception's message |
| StringUtils.NoBackslashUnchanged | com/craftinginterpreters/lox/StringUtils.java:47-49 | text with no backslash comes back unchanged |
| StringUtils.UnescapeNotLonger | com/craftinginterpreters/lox/StringUtils.java:36-43 | unescaping never lengthens the text |
| StringUtils.UnescapeAppend | com/craftinginterpreters/lox/StringUtils.java:34-50 | when the first part unescapes on its own, unescaping the concatenation is unescaping each part in turn |
| StringUtils.RecognisedEscape | com/craftinginterpreters/lox/StringUtils.java:36-43 | a backslash and a known letter become the table's replacement |
| StringUtils.UnrecognisedEscape | com/craftinginterpreters/lox/StringUtils.java:39-42 | after a clean prefix, a backslash and an unknown letter fail with "Unrecognized escape sequence \c" |
| StringUtils.TrailingBackslash | com/craftinginterpreters/lox/StringUtils.java:44-46 | a trailing backslash fails with the end-of-literal message |
| StringUtils.EscapedBackslashExamples | com/craftinginterpreters/lox/StringUtils.java:11-18 | an escaped backslash does not start a second escape, `\b` stays two characters, `\t` becomes a tab |
| Util.EscapeSequence | com/craftinginterpreters/lox/Util.java:21-31 | the copy of the escape table in Util has the same eight keys |
| Util.TablesAgree | com/craftinginterpreters/lox/Util.java:21-31 | the two escape tables agree on every character |
| Util.UnescapeString | com/craftinginterpreters/lox/Util.java:44-65 | Util's copy of the loop computes exactly StringUtils' unescaping |
| Util.ToString | com/craftinginterpreters/lox/Util.java:87 | every non-number value has a toString except null, which has none |
| Util.StringifyNil | com/craftinginterpreters/lox/Util.java:76 | nil prints as "nil" |
| Util.StringifyNumber | com/craftinginterpreters/lox/Util.java:78-85 | a number's text loses a trailing ".0" and nothing else |
| Util.StringifyOther | com/craftinginterpreters/lox/Util.java:87 | any other value prints as its toString, whatever the number formatting |
| Util.WholeIsInteger | com/craftinginterpreters/lox/Util.java:94-96 | every whole number is an integer |
| Util.FractionIsNotInteger | com/craftinginterpreters/lox/Util.java:94-96 | a number is not an integer exactly when it lies strictly between two consecutive whole numbers |
| Scanner.IdentifierKind | com/craftinginterpreters/lox/Scanner.java:17-37 | a keyword lexeme gets its keyword type, any other IDENTIFIER, never EOF |
| Scanner.NewlineCount | com/craftinginterpreters/lox/Scanner.java:123 | the lines a stretch of source adds are at most its length |
| Scanner.NewlineCountZero | com/craftinginterpreters/lox/Scanner.java:123 | the count of newlines is zero exactly when there is none |
| Scanner.IdentifierEnd | com/craftinginterpreters/lox/Scanner.java:164-165 | identifier() stops at the first character that is not a letter, digit or underscore |
| Scanner.DigitsEnd | com/craftinginterpreters/lox/Scanner.java:187 | the digit loop stops at a non-digit or at the end of the source |
| Scanner.DigitsEndAllDigits | com/craftinginterpreters/lox/Scanner.java:187 | every character the digit loop passes is a digit |
| Scanner.LineCommentEnd | com/craftinginterpreters/lox/Scanner.java:117-119 | a line comment runs to, not including, the next newline |
| Scanner.BlockCommentEnd | com/craftinginterpreters/lox/Scanner.java:120-125 | a block comment's body ends at a star-slash pair, or at the end of the source |
| Scanner.BlockCommentEndIsFirst | com/craftinginterpreters/lox/Scanner.java:120-125 | no star-slash pair comes before that end: the loop stops at the first one |
| Scanner.StringEnd | com/craftinginterpreters/lox/Scanner.java:204-212 | a string body ends at a terminator that no active escape precedes, or at the end of the source |
| Scanner.DotIndex | com/craftinginterpreters/lox/Scanner.java:190-193 | the position of the first dot of a lexeme |
| Scanner.NumberLexemeShaped | com/craftinginterpreters/lox/Scanner.java:184-197 | every lexeme number() takes is made of digits and dots |
| Scanner.StringStepClosed | com/craftinginterpreters/lox/Scanner.java:214-231 | a closed string emits its token with the line counted up to the closing quote |
| Scanner.ScanStep | com/craftinginterpreters/lox/Scanner.java:74-162 | one scanToken call that does not crash consumes at least one character |
| Scanner.Scanner.constructor | com/craftinginterpreters/lox/Scanner.java:9-13 | a scanner at the start of the source, line 1, with no tokens |
| Scanner.Scanner.Match | com/craftinginterpreters/lox/Scanner.java:249-255 | match consumes the next character exactly when it is the expected one |
| Scanner.Scanner.Advance | com/craftinginterpreters/lox/Scanner.java:258-260 | advance returns the character at the cursor and moves past it; past the end it throws |
| Scanner.Scanner.AddToken | com/craftinginterpreters/lox/Scanner.java:263-271 | the new token's lexeme is the source text from start to current, on the current line |
| Scanner.Scanner.Error | com/craftinginterpreters/lox/Scanner.java:158 | an error is reported at the current line |
| Scanner.Scanner.Identifier | com/craftinginterpreters/lox/Scanner.java:164-172 | identifier() does what IdentifierStep specifies |
| Scanner.Scanner.Digits | com/craftinginterpreters/lox/Scanner.java:187 | the loop stops where DigitsEnd says |
| Scanner.Scanner.Number | com/craftinginterpreters/lox/Scanner.java:184-198 | number() does what NumberStep specifies, including the parseDouble crash |
| Scanner.Scanner.AddNumber | com/craftinginterpreters/lox/Scanner.java:197 | the NUMBER token holds the parsed value, or the scan aborts |
| Scanner.Scanner.String | com/craftinginterpreters/lox/Scanner.java:204-232 | string() does what StringStep specifies |
| Scanner.Scanner.StringBody | com/craftinginterpreters/lox/Scanner.java:207-212 | the loop ends where StringEnd says, having counted every newline it passed |
| Scanner.Scanner.AddString | com/craftinginterpreters/lox/Scanner.java:219-231 | the STRING token holds the unescaped body, or the raw body and an error |
| Scanner.Scanner.ScanToken | com/craftinginterpreters/lox/Scanner.java:74-162 | scanToken does what ScanStep specifies, or crashes as it does |
| Scanner.Scanner.Operator | com/craftinginterpreters/lox/Scanner.java:100-114 | the two-character operator when '=' follows, else the one-character one |
| Scanner.Scanner.Dot | com/craftinginterpreters/lox/Scanner.java:90-97 | a dot before a digit starts a number, otherwise it is DOT |
| Scanner.Scanner.Slash | com/craftinginterpreters/lox/Scanner.java:116-132 | line comment, block comment or SLASH, as SlashStep specifies |
| Scanner.Scanner.BlockComment | com/craftinginterpreters/lox/Scanner.java:120-128 | the block comment loop and its two closing advance() calls, which crash at the end |
| Scanner.Scanner.ScanTokens | com/craftinginterpreters/lox/Scanner.java:43-52 | scanTokens returns the scanned tokens and one EOF, as FinishBatch specifies |
| Scanner.Scanner.ScanTokensInteractive | com/craftinginterpreters/lox/Scanner.java:54-68 | the REPL variant adds a SEMICOLON when the last token is not one, as FinishInteractive specifies |
| Scanner.Scanner.ScanAll | com/craftinginterpreters/lox/Scanner.java:44-48 | the scanning loop does what Run specifies |
| ScannerProperties.NewlineCountAppend | com/craftinginterpreters/lox/Scanner.java:123 | newline counts add up over a concatenation |
| ScannerProperties.NewlineCountSplit | com/craftinginterpreters/lox/Scanner.java:123 | newline counts add up over adjacent ranges |
| ScannerProperties.NoNewlineCount | com/craftinginterpreters/lox/Scanner.java:140-141 | a range without newlines adds no line |
| ScannerProperties.EmitFaithful | com/craftinginterpreters/lox/Scanner.java:268-271 | an emitted token is the consumed text, on the line reached, and never EOF |
| ScannerProperties.BlockCommentFaithful | com/craftinginterpreters/lox/Scanner.java:120-128 | a block comment counts exactly the newlines it consumes |
| ScannerProperties.ClosedCommentLines | com/craftinginterpreters/lox/Scanner.java:120-128 | the opening and closing pairs hold no newline |
| ScannerProperties.ClosedStringShape | com/craftinginterpreters/lox/Scanner.java:219-231 | a closed string emits a STRING token of its source text holding the unescaped body, or the raw body and an error at the line when unescaping fails |
| ScannerProperties.StringFaithful | com/craftinginterpreters/lox/Scanner.java:204-232 | a string counts exactly the newlines it consumes and its token is its source text |
| ScannerProperties.QuotedLines | com/craftinginterpreters/lox/Scanner.java:209 | the quotes add no line |
| ScannerProperties.NumberFaithful | com/craftinginterpreters/lox/Scanner.java:184-198 | a number token is its source text |
| ScannerProperties.SlashFaithful | com/craftinginterpreters/lox/Scanner.java:116-132 | every '/' branch counts its newlines and emits its text |
| ScannerProperties.StepFacts | com/craftinginterpreters/lox/Scanner.java:74-162 | every step of scanToken is faithful to the source and the line count |
| ScannerProperties.ApplyConsistent | com/craftinginterpreters/lox/Scanner.java:46-47 | one step keeps tokens, their source ranges and the line count consistent |
| ScannerProperties.RunFacts | com/craftinginterpreters/lox/Scanner.java:43-48 | the loop reaches the end, only appends, and ends on the starting line plus the newlines scanned |
| ScannerProperties.ScanTokensEndsWithEof | com/craftinginterpreters/lox/Scanner.java:50-51 | scanTokens ends with exactly one EOF token, on the last line |
| ScannerProperties.TokensAreSourceRanges | com/craftinginterpreters/lox/Scanner.java:263-271 | each token is the text of a non-empty source range, in order and without overlap |
| ScannerProperties.InteractiveSemicolon | com/craftinginterpreters/lox/Scanner.java:60-66 | the REPL scan ends in SEMICOLON, EOF, adding the SEMICOLON exactly when the last token is not one |
| ScannerProperties.InteractiveEmptySource | com/craftinginterpreters/lox/Scanner.java:62 | an empty REPL line makes tokens.get(-1) throw, while scanTokens returns a lone EOF |
| ScannerProperties.LongestMatchOperators | com/craftinginterpreters/lox/Scanner.java:100-114 | '!', '=', '<', '>' take a following '=' into one token |
| ScannerProperties.IdentifiersAndKeywords | com/craftinginterpreters/lox/Scanner.java:164-172 | an identifier takes the longest alphanumeric run and is a keyword exactly when the run is one |
| ScannerProperties.WhitespaceAndCommentsEmitNothing | com/craftinginterpreters/lox/Scanner.java:116-142 | whitespace and comments emit no token and report nothing |
| ScannerProperties.NewlineCounts | com/craftinginterpreters/lox/Scanner.java:140-142 | a newline moves to the next line and emits nothing |
| ScannerProperties.UnexpectedCharacter | com/craftinginterpreters/lox/Scanner.java:156-159 | an unexpected character is reported on its line and scanning resumes after it |
| ScannerProperties.UnterminatedBlockComment | com/craftinginterpreters/lox/Scanner.java:122-128 | a block comment with no closing pair makes advance() run past the end |
| ScannerProperties.UnterminatedString | com/craftinginterpreters/lox/Scanner.java:214-217 | a string with no unescaped terminator reports "Unterminated string." and emits nothing |
| ScannerProperties.TerminatedString | com/craftinginterpreters/lox/Scanner.java:204-232 | a string ends at its first unescaped terminator and emits the unescaped body, or the raw body and an error |
| ScannerProperties.StringEndFirst | com/craftinginterpreters/lox/Scanner.java:208 | the string loop stops at the first unescaped terminator |
| ScannerProperties.ParseNumberFails | com/craftinginterpreters/lox/Scanner.java:197 | parseDouble rejects a lexeme exactly when it holds two dots |
| ScannerProperties.TwoFractionsCrash | com/craftinginterpreters/lox/Scanner.java:184-197 | `1.2.3` is taken whole and then aborts the scan |
| ScannerProperties.DoubleDotCrash | com/craftinginterpreters/lox/Scanner.java:184-197 | `1..5` is taken whole and then aborts the scan |
| Parser.Next | com/craftinginterpreters/lox/Parser.java:291-294 | advance moves one token on, except at EOF where it stays |
| Parser.Report | com/craftinginterpreters/lox/Parser.java:308-311 | a parse error is reported at the token with the message, in order |
| Parser.Expect | com/craftinginterpreters/lox/Parser.java:281-284 | consume succeeds exactly when the current token has the kind, returning it and moving past; otherwise it reports at the current token and throws |
| Parser.ParseExpression | com/craftinginterpreters/lox/Parser.java:122-124 | an expression that parses consumes at least one token, and an error is reported whenever a ParseError is thrown |
| Parser.ParseAssignment | com/craftinginterpreters/lox/Parser.java:127-143 | as ParseExpression, for assignment |
| Parser.ParseConditional | com/craftinginterpreters/lox/Parser.java:146-163 | as ParseExpression, for the ternary rule |
| Parser.ConditionalLoop | com/craftinginterpreters/lox/Parser.java:148-161 | the ternary loop only moves forward and reports whatever it throws |
| Parser.ParseTernaryParts | com/craftinginterpreters/lox/Parser.java:149-153 | consequent, ':' and alternative consume at least one token |
| Parser.ParseBinary | com/craftinginterpreters/lox/Parser.java:166-219 | each left-associative binary level consumes at least one token when it parses |
| Parser.ParseOperand | com/craftinginterpreters/lox/Parser.java:166-219 | the operand of a binary level consumes at least one token |
| Parser.BinaryLoop | com/craftinginterpreters/lox/Parser.java:168-172 | the operator loop of a binary level only moves forward |
| Parser.ParseUnary | com/craftinginterpreters/lox/Parser.java:222-230 | unary consumes at least one token when it parses |
| Parser.ParsePrimary | com/craftinginterpreters/lox/Parser.java:233-254 | primary consumes at least one token when it parses |
| Parser.ParseGrouping | com/craftinginterpreters/lox/Parser.java:246-250 | a parenthesised expression consumes its parentheses |
| Parser.ParseProduceError | com/craftinginterpreters/lox/Parser.java:258-268 | the error production always throws, having reported |
| Parser.SyncLoop | com/craftinginterpreters/lox/Parser.java:316-332 | synchronize's loop stops at the first statement boundary |
| Parser.SyncPoint | com/craftinginterpreters/lox/Parser.java:313-333 | synchronize always moves past the current token unless at EOF |
| Parser.ParseDeclaration | com/craftinginterpreters/lox/Parser.java:62-71 | a declaration always consumes at least one token, even when it fails |
| Parser.ParseVarDeclaration | com/craftinginterpreters/lox/Parser.java:74-84 | a var declaration consumes its tokens and reports what it throws |
| Parser.ParseStatement | com/craftinginterpreters/lox/Parser.java:87-92 | a statement consumes at least one token when it parses |
| Parser.ParseBlockStatement | com/craftinginterpreters/lox/Parser.java:89 | a block statement reports whatever its block throws |
| Parser.ParseExpressionStatement | com/craftinginterpreters/lox/Parser.java:107-111 | as ParseStatement, for an expression statement |
| Parser.ParsePrintStatement | com/craftinginterpreters/lox/Parser.java:115-119 | as ParseStatement, for print |
| Parser.ParseBlock | com/craftinginterpreters/lox/Parser.java:95-104 | a block reports whatever it throws |
| Parser.BlockLoop | com/craftinginterpreters/lox/Parser.java:98-100 | the block loop stops at '}' or EOF, only adding statements |
| Parser.ProgramLoop | com/craftinginterpreters/lox/Parser.java:52-59 | parse's loop ends at EOF, only adding statements |
| Parser.Parser.constructor | com/craftinginterpreters/lox/Parser.java:47-49 | a parser at the first token with nothing reported |
| Parser.Parser.Advance | com/craftinginterpreters/lox/Parser.java:291-294 | advance does what Next specifies and returns the previous token |
| Parser.Parser.Match | com/craftinginterpreters/lox/Parser.java:270-279 | match consumes the current token exactly when its kind is among those given |
| Parser.Parser.Error | com/craftinginterpreters/lox/Parser.java:308-311 | the error is appended to what was reported |
| Parser.Parser.Consume | com/craftinginterpreters/lox/Parser.java:281-284 | consume does what Expect specifies |
| Parser.Parser.Expression | com/craftinginterpreters/lox/Parser.java:122-124 | expression() does what ParseExpression specifies |
| Parser.Parser.Assignment | com/craftinginterpreters/lox/Parser.java:127-143 | assignment() does what ParseAssignment specifies |
| Parser.Parser.Conditional | com/craftinginterpreters/lox/Parser.java:146-163 | conditional() does what ParseConditional specifies |
| Parser.Parser.TernaryParts | com/craftinginterpreters/lox/Parser.java:149-153 | the body of the ternary loop does what ParseTernaryParts specifies |
| Parser.Parser.BinaryLevel | com/craftinginterpreters/lox/Parser.java:166-219 | comma(), equality(), comparison(), term() and factor() do what ParseBinary specifies |
| Parser.Parser.Operand | com/craftinginterpreters/lox/Parser.java:166-219 | the operand call of each level does what ParseOperand specifies |
| Parser.Parser.Unary | com/craftinginterpreters/lox/Parser.java:222-230 | unary() does what ParseUnary specifies |
| Parser.Parser.Primary | com/craftinginterpreters/lox/Parser.java:233-254 | primary() does what ParsePrimary specifies |
| Parser.Parser.Grouping | com/craftinginterpreters/lox/Parser.java:246-250 | the grouping branch does what ParseGrouping specifies |
| Parser.Parser.ProduceError | com/craftinginterpreters/lox/Parser.java:258-268 | produceError() does what ParseProduceError specifies and never returns a node |
| Parser.Parser.Synchronize | com/craftinginterpreters/lox/Parser.java:313-333 | synchronize() stops where SyncPoint says |
| Parser.Parser.Declaration | com/craftinginterpreters/lox/Parser.java:62-71 | declaration() does what ParseDeclaration specifies, with null as Absent |
| Parser.Parser.VarDeclaration | com/craftinginterpreters/lox/Parser.java:74-84 | varDeclaration() does what ParseVarDeclaration specifies |
| Parser.Parser.Statement | com/craftinginterpreters/lox/Parser.java:87-92 | statement() does what ParseStatement specifies |
| Parser.Parser.Block | com/craftinginterpreters/lox/Parser.java:95-104 | block() does what ParseBlock specifies |
| Parser.Parser.BlockStatement | com/craftinginterpreters/lox/Parser.java:89 | the block branch of statement() does what ParseBlockStatement specifies |
| Parser.Parser.ExpressionStatement | com/craftinginterpreters/lox/Parser.java:107-111 | expressionStatement() does what ParseExpressionStatement specifies |
| Parser.Parser.PrintStatement | com/craftinginterpreters/lox/Parser.java:115-119 | printStatement() does what ParsePrintStatement specifies |
| Parser.Parser.Parse | com/craftinginterpreters/lox/Parser.java:52-59 | parse() does what ProgramLoop specifies |
| ParserProperties.OpLevel | com/craftinginterpreters/lox/Parser.java:166-219 | each binary operator belongs to the precedence level whose loop matches it |
| ParserProperties.OperatorLevel | com/craftinginterpreters/lox/Parser.java:166-219 | an operator a level matches has that level, so no operator belongs to two levels |
| ParserProperties.PlacedLower | com/craftinginterpreters/lox/Parser.java:9-35 | an expression that may stand at a tighter level may stand at a looser one |
| ParserProperties.ExpressionPlaced | com/craftinginterpreters/lox/Parser.java:122-124 | every parsed expression respects the grammar's precedence, and no '?' is left after it |
| ParserProperties.AssignmentPlaced | com/craftinginterpreters/lox/Parser.java:127-143 | as ExpressionPlaced, for assignment |
| ParserProperties.ConditionalPlaced | com/craftinginterpreters/lox/Parser.java:146-163 | a parsed conditional stands at the conditional level and has taken every '?' |
| ParserProperties.ConditionalLoopPlaced | com/craftinginterpreters/lox/Parser.java:148-161 | the ternary loop runs at most once, because the alternative takes any further '?' |
| ParserProperties.TernaryPartsPlaced | com/craftinginterpreters/lox/Parser.java:149-153 | consequent and alternative are full expressions |
| ParserProperties.BinaryPlaced | com/craftinginterpreters/lox/Parser.java:166-219 | a binary level only builds nodes of its own or tighter operators |
| ParserProperties.OperandPlaced | com/craftinginterpreters/lox/Parser.java:166-219 | a level's operand stands at the next tighter level |
| ParserProperties.BinaryLoopPlaced | com/craftinginterpreters/lox/Parser.java:168-172 | each iteration nests what was built so far as the left operand |
| ParserProperties.UnaryPlaced | com/craftinginterpreters/lox/Parser.java:222-230 | unary builds only unary and primary nodes |
| ParserProperties.PrimaryPlaced | com/craftinginterpreters/lox/Parser.java:233-254 | primary builds only primary nodes |
| ParserProperties.GroupingPlaced | com/craftinginterpreters/lox/Parser.java:246-250 | a grouping is a primary whatever it holds |
| ParserProperties.Precedence | com/craftinginterpreters/lox/Parser.java:9-35 | precedence from loosest to tightest: assignment, conditional, comma, equality, comparison, term, factor, unary, primary |
| ParserProperties.LeftAssociative | com/craftinginterpreters/lox/Parser.java:166-219 | binary operators associate to the left: the right operand never holds an operator as loose, the left never a looser one |
| ParserProperties.TernaryRightAssociative | com/craftinginterpreters/lox/Parser.java:24 | a ternary's condition is never itself an unparenthesised ternary or assignment |
| ParserProperties.AssignmentTargets | com/craftinginterpreters/lox/Parser.java:130-142 | after "target =" the value is a full assignment; a Variable target makes an Assign, any other is kept and "Invalid assignment target." reported |
| ParserProperties.BinaryOperatorWithoutLeftOperand | com/craftinginterpreters/lox/Parser.java:260-265 | a binary operator in operand position is reported, a right operand parsed and dropped, and a ParseError thrown |
| ParserProperties.MissingExpression | com/craftinginterpreters/lox/Parser.java:267 | anything else in operand position reports "Expect expression." and throws |
| ParserProperties.SynchronizeStops | com/craftinginterpreters/lox/Parser.java:313-333 | synchronize skips to the first position after a ';', before a statement keyword, or at EOF |
| ParserProperties.FailedDeclaration | com/craftinginterpreters/lox/Parser.java:62-71 | a declaration that throws yields null and resumes at the synchronisation point |
| ParserProperties.AbsentCount | com/craftinginterpreters/lox/Parser.java:55 | a list holds no more nulls than entries |
| ParserProperties.DeclarationReports | com/craftinginterpreters/lox/Parser.java:62-71 | a declaration yields null only after an error was reported |
| ParserProperties.StatementNotAbsent | com/craftinginterpreters/lox/Parser.java:87-92 | statement() never yields null |
| ParserProperties.ProgramLoopReports | com/craftinginterpreters/lox/Parser.java:52-59 | every null entry of the loop is matched by a reported error |
| ParserProperties.ParseAccounting | com/craftinginterpreters/lox/Parser.java:52-59 | parse stops at the first EOF, and each null entry comes with a reported error |
| Resolver.ReportError | com/craftinginterpreters/lox/Lox.java:93-100 | a resolver error is appended to what was reported and changes nothing else |
| Resolver.Innermost | com/craftinginterpreters/lox/Resolver.java:47-54 | the hop count is found exactly when some scope holds the name, and counts the scopes inside the innermost one holding it |
| Resolver.WithLocal | com/craftinginterpreters/lox/Resolver.java:47-54 | resolveLocal records the hop count for the node when a scope holds the name, and leaves the table alone for a global |
| Resolver.Pushed | com/craftinginterpreters/lox/Resolver.java:77-79 | beginScope pushes an empty scope |
| Resolver.Popped | com/craftinginterpreters/lox/Resolver.java:81-84 | endScope pops the innermost scope and warns about its unused entries; on an empty stack it throws, keeping the state as it was |
| Resolver.Declared | com/craftinginterpreters/lox/Resolver.java:86-95 | declare does nothing at global scope; otherwise it binds a DECLARED entry, reporting a re-declaration in the same scope |
| Resolver.Defined | com/craftinginterpreters/lox/Resolver.java:97-105 | define does nothing at global scope; otherwise the innermost entry becomes DEFINED, and a missing entry dereferences null, keeping the state as it was |
| Resolver.UnusedAmongStep | com/craftinginterpreters/lox/Resolver.java:111-118 | the warnings of checkVarUsage are those of each entry, one at a time, whatever the iteration order |
| Resolver.Resolver.constructor | com/craftinginterpreters/lox/Resolver.java:10-18 | an empty scope stack, no function and no class |
| Resolver.Resolver.Report | com/craftinginterpreters/lox/Lox.java:93-100 | the error is reported as ReportError specifies |
| Resolver.Resolver.ResolveLocal | com/craftinginterpreters/lox/Resolver.java:47-54 | the loop from the innermost scope out does what WithLocal specifies |
| Resolver.Resolver.BeginScope | com/craftinginterpreters/lox/Resolver.java:77-79 | beginScope does what Pushed specifies |
| Resolver.Resolver.CheckVarUsage | com/craftinginterpreters/lox/Resolver.java:111-118 | the loop adds exactly the warnings for entries never read that are not this or super |
| Resolver.Resolver.EndScope | com/craftinginterpreters/lox/Resolver.java:81-84 | endScope does what Popped specifies, including the EmptyStackException |
| Resolver.Resolver.PutTop | com/craftinginterpreters/lox/Resolver.java:310 | scopes.peek().put replaces one entry of the innermost scope |
| Resolver.Resolver.Declare | com/craftinginterpreters/lox/Resolver.java:86-95 | declare does what Declared specifies |
| Resolver.Resolver.Define | com/craftinginterpreters/lox/Resolver.java:97-105 | define does what Defined specifies |
| Resolver.Resolver.VisitVariable | com/craftinginterpreters/lox/Resolver.java:272-286 | visitVariableExpr does what VariableRead specifies |
| Resolver.Resolver.Resolve | com/craftinginterpreters/lox/Resolver.java:33-37 | resolving a statement list does what StmtsResolved specifies, stopping at the first exception with the errors and warnings reported before it |
| Resolver.Resolver.ResolveFunction | com/craftinginterpreters/lox/Resolver.java:64-75 | parameters declared and defined in a new scope, the body resolved, the scope ended and the function kind restored |
| Resolver.Resolver.ResolveStmt | com/craftinginterpreters/lox/Resolver.java:125-208 | each statement visit does what StmtResolved specifies; a null statement throws |
| Resolver.Resolver.VisitIf | com/craftinginterpreters/lox/Resolver.java:161-165 | an if branch resolves its condition, then its body |
| Resolver.Resolver.VisitIfElse | com/craftinginterpreters/lox/Resolver.java:148-158 | every branch in order, then the else branch |
| Resolver.Resolver.VisitReturn | com/craftinginterpreters/lox/Resolver.java:174-185 | the top-level and initializer errors, then the value |
| Resolver.Resolver.ClassPrologue | com/craftinginterpreters/lox/Resolver.java:296-312 | the class name declared and defined, then the superclass read and a "super" scope opened unless the class names itself |
| Resolver.Resolver.ResolveMethods | com/craftinginterpreters/lox/Resolver.java:316-321 | each method resolved as an initializer when named init, else as a method |
| Resolver.Resolver.VisitClass | com/craftinginterpreters/lox/Resolver.java:295-328 | visitClassStmt does what StmtResolved specifies, including its two endScope calls; an exception from either leaves the errors reported before it, the self-inheritance error among them |
| Resolver.Resolver.ResolveExpr | com/craftinginterpreters/lox/Resolver.java:210-361 | each expression visit does what ExprResolved specifies |
| Resolver.Resolver.VisitCall | com/craftinginterpreters/lox/Resolver.java:225-231 | the callee, then every argument in order |
| Resolver.Resolver.VisitThis | com/craftinginterpreters/lox/Resolver.java:344-351 | an error outside any class, then `this` resolved as a local, as ExprResolved specifies |
| Resolver.Resolver.VisitSuper | com/craftinginterpreters/lox/Resolver.java:353-361 | an error outside any class or inside one without a superclass, then `super` resolved as a local, as ExprResolved specifies |
| ResolverProperties.ReadMarksUsed | com/craftinginterpreters/lox/Resolver.java:272-286 | a read of a name the innermost scope holds marks it USED, reporting first when it was only DECLARED; other reads change no scope; the hop count is recorded either way |
| ResolverProperties.DeclareThenDefine | com/craftinginterpreters/lox/Resolver.java:188-195 | a fresh declaration and its definition leave a DEFINED entry and no error |
| ResolverProperties.UnusedWarningsExact | com/craftinginterpreters/lox/Resolver.java:111-118 | an entry never read that is not this or super is warned about |
| ResolverProperties.NoUnusedNoWarnings | com/craftinginterpreters/lox/Resolver.java:111-118 | a scope whose entries were all read gives no warning |
| ResolverProperties.WarningsHaveUnusedEntries | com/craftinginterpreters/lox/Resolver.java:111-118 | every warning belongs to an entry never read that is not this or super |
| ResolverProperties.TopLevelReturn | com/craftinginterpreters/lox/Resolver.java:174-185 | return outside a function reports "Can't return from top-level code." and then still resolves its value, if it has one |
| ResolverProperties.ReturnValueFromInitializer | com/craftinginterpreters/lox/Resolver.java:178-183 | returning a value from an initializer reports before the value is resolved |
| ResolverProperties.ReturnInFunction | com/craftinginterpreters/lox/Resolver.java:174-185 | inside a function or method a return reports nothing |
| ResolverProperties.InitializerIffInit | com/craftinginterpreters/lox/Resolver.java:317-319 | a method is resolved as an initializer exactly when it is named init |
| ResolverProperties.ThisErrors | com/craftinginterpreters/lox/Resolver.java:344-350 | 'this' outside a class is reported, and only there |
| ResolverProperties.SuperErrors | com/craftinginterpreters/lox/Resolver.java:353-361 | 'super' is reported outside a class and in a class without a superclass, and nowhere else |
| ResolverProperties.DefineAfterWalk | com/craftinginterpreters/lox/Resolver.java:188-195 | a name declared before a balanced walk is still there for define |
| ResolverProperties.DeclaredBalanced | com/craftinginterpreters/lox/Resolver.java:86-95 | declare keeps the stack balanced |
| ResolverProperties.ReadBalanced | com/craftinginterpreters/lox/Resolver.java:272-286 | a variable read keeps the stack balanced |
| ResolverProperties.PushPop | com/craftinginterpreters/lox/Resolver.java:77-84 | a pushed scope walked in balance can be popped, leaving the stack as it was |
| ResolverProperties.ThisBalanced | com/craftinginterpreters/lox/Resolver.java:344-350 | `this` never throws and leaves the scope stack and the enclosing kinds as they were, whatever error it reports |
| ResolverProperties.SuperBalanced | com/craftinginterpreters/lox/Resolver.java:353-361 | neither does `super` |
| ResolverProperties.ExprBalanced | com/craftinginterpreters/lox/Resolver.java:210-361 | resolving an expression raises nothing and leaves the scope stack balanced |
| ResolverProperties.ExprsBalanced | com/craftinginterpreters/lox/Resolver.java:227-229 | so does resolving a list of arguments |
| ResolverProperties.StmtsBalanced | com/craftinginterpreters/lox/Resolver.java:33-37 | resolving a statement list without null statements or self-inheriting classes raises nothing and stays balanced |
| ResolverProperties.StmtBalanced | com/craftinginterpreters/lox/Resolver.java:125-208 | so does resolving one such statement |
| ResolverProperties.BranchBalanced | com/craftinginterpreters/lox/Resolver.java:161-165 | so does an if branch |
| ResolverProperties.BranchesBalanced | com/craftinginterpreters/lox/Resolver.java:148-158 | so do the branches of an if-else |
| ResolverProperties.ParamsBalanced | com/craftinginterpreters/lox/Resolver.java:68-71 | declaring and defining parameters never throws |
| ResolverProperties.FunctionBalanced | com/craftinginterpreters/lox/Resolver.java:64-75 | a function pops the scope it pushed and restores the function kind |
| ResolverProperties.MethodsBalanced | com/craftinginterpreters/lox/Resolver.java:316-321 | resolving a class's methods stays balanced |
| ResolverProperties.ClassOpenedShape | com/craftinginterpreters/lox/Resolver.java:296-312 | the class prologue defines the class name and, for a distinct superclass, pushes one scope holding only "super" |
| ResolverProperties.ClassBalanced | com/craftinginterpreters/lox/Resolver.java:295-328 | a class that does not name itself as superclass leaves the stack balanced and restores the class kind |
| ResolverProperties.ProgramBalanced | com/craftinginterpreters/lox/Resolver.java:33-37 | a resolvable program raises nothing and ends with an empty stack at top level |
| ResolverProperties.ExprKeepsErrors | com/craftinginterpreters/lox/Resolver.java:210-361 | an expression walk only adds to the errors, whether it finishes or throws |
| ResolverProperties.ExprsKeepErrors | com/craftinginterpreters/lox/Resolver.java:227-229 | so does a list of arguments |
| ResolverProperties.StmtsKeepErrors | com/craftinginterpreters/lox/Resolver.java:33-37 | so does a statement list, so an exception takes back none of the errors printed before it |
| ResolverProperties.StmtKeepsErrors | com/craftinginterpreters/lox/Resolver.java:125-208 | so does one statement |
| ResolverProperties.ReturnKeepsErrors | com/craftinginterpreters/lox/Resolver.java:174-185 | so does a return, whatever it reports |
| ResolverProperties.BranchKeepsErrors | com/craftinginterpreters/lox/Resolver.java:161-165 | so does an if branch |
| ResolverProperties.BranchesKeepErrors | com/craftinginterpreters/lox/Resolver.java:148-158 | so do the branches of an if-else |
| ResolverProperties.ParamsKeepErrors | com/craftinginterpreters/lox/Resolver.java:68-71 | so do the parameters of a function |
| ResolverProperties.FunctionKeepsErrors | com/craftinginterpreters/lox/Resolver.java:64-75 | so does a function |
| ResolverProperties.MethodsKeepErrors | com/craftinginterpreters/lox/Resolver.java:316-321 | so do the methods of a class |
| ResolverProperties.ClassBodyKeepsErrors | com/craftinginterpreters/lox/Resolver.java:314-327 | what follows a class's prologue keeps the errors the prologue reported |
| ResolverProperties.ClassKeepsErrors | com/craftinginterpreters/lox/Resolver.java:295-328 | so does a whole class |
| ResolverProperties.SuperEnclosesThis | com/craftinginterpreters/lox/Resolver.java:308-320 | in a subclass's methods "this" is one hop out of the method scope and "super" one hop further |
| ResolverProperties.SelfInheritancePopsEnclosing | com/craftinginterpreters/lox/Resolver.java:301-324 | a class naming itself as superclass pops one scope more than it pushed, and throws at top level |
| ResolverProperties.SelfInheritanceReported | com/craftinginterpreters/lox/Resolver.java:301-303 | a class naming itself as superclass reports "A class can't inherit from itself.", and the error stays reported whether the class then finishes or throws |
| ResolverProperties.SelfInheritanceAtTopLevel | com/craftinginterpreters/lox/Resolver.java:301-324 | at top level a class naming itself as superclass reports "A class can't inherit from itself." and then its extra pop throws EmptyStackException, with that error still reported |
| ResolverProperties.SelfInheritanceInBlock | com/craftinginterpreters/lox/Resolver.java:126-131 | inside a block the class pops the block's scope, so the block's own endScope throws, with the self-inheritance error still reported |
| ResolverProperties.ShadowedRead | com/craftinginterpreters/lox/Resolver.java:47-54 | a read resolves to the inner scope when it declares the name, to the outer one when only that does, and to a global when neither does |
| Runtime.NatToString | com/craftinginterpreters/lox/Interpreter.java:383-387 | the decimal text of an argument count is never empty |
| Runtime.Declared | com/craftinginterpreters/lox/LoxFunction.java:13-17 | a function made from a declaration keeps its name, parameters and body and captures the given environment |
| Runtime.Anonymous | com/craftinginterpreters/lox/LoxFunction.java:19-26 | a function expression gets an IDENTIFIER token "anonymous" on the keyword's line and captures the given environment |
| Runtime.Arity | com/craftinginterpreters/lox/LoxFunction.java:29-31 | arity is the number of declared parameters |
| Runtime.Chain | com/craftinginterpreters/lox/Environment.java:7 | the enclosing chain from an environment starts there and only visits older environments, so it ends |
| Runtime.Holder | com/craftinginterpreters/lox/Environment.java:29-55 | the environment that get and assign stop at holds the name and lies on the chain, no further out than where the search started |
| Runtime.ChainStaysLinked | com/craftinginterpreters/lox/Environment.java:7 | writing values never changes any enclosing chain |
| Runtime.HolderIsNearest | com/craftinginterpreters/lox/Environment.java:29-55 | get and assign stop at the nearest environment on the chain that holds the name, and find none exactly when no environment on it does |
| Runtime.NearestValue | com/craftinginterpreters/lox/Environment.java:29-36 | get returns the nearest binding's value, or fails with "Illegal variable access before initialization." when that binding is only declared |
| Runtime.Undefined | com/craftinginterpreters/lox/Environment.java:38-55 | a name no environment on the chain holds is undefined for both get and assign |
| Runtime.DefineThenGet | com/craftinginterpreters/lox/Environment.java:21-23 | define writes this environment only, and a following get finds the value |
| Runtime.DeclareThenGet | com/craftinginterpreters/lox/Environment.java:25-27 | declare binds the uninitialised marker, so a following get fails |
| Runtime.AssignThenGet | com/craftinginterpreters/lox/Environment.java:43-55 | assign succeeds exactly when get would find a holder, creates no binding, changes only the holder, and a following get returns the value |
| Runtime.HolderUnchanged | com/craftinginterpreters/lox/Environment.java:43-55 | overwriting a binding does not move the holder |
| Runtime.Environments.constructor | com/craftinginterpreters/lox/Environment.java:13-15 | the globals: one empty environment with no enclosing one |
| Runtime.Environments.NewEnvironment | com/craftinginterpreters/lox/Environment.java:17-19 | a new empty environment enclosed by the given one |
| Runtime.Environments.Define | com/craftinginterpreters/lox/Environment.java:21-23 | define as DefineIn specifies |
| Runtime.Environments.Declare | com/craftinginterpreters/lox/Environment.java:25-27 | declare as DeclareIn specifies |
| Runtime.Environments.Get | com/craftinginterpreters/lox/Environment.java:29-41 | the walk up the enclosing links returns what Lookup specifies |
| Runtime.Environments.Assign | com/craftinginterpreters/lox/Environment.java:43-55 | the walk up the enclosing links does what AssignIn specifies, changing nothing on an error |
| Evaluation.DefineOk | com/craftinginterpreters/lox/Environment.java:21-23 | define keeps the environments well formed |
| Evaluation.DeclareOk | com/craftinginterpreters/lox/Environment.java:25-27 | declare keeps the environments well formed |
| Evaluation.AssignOk | com/craftinginterpreters/lox/Environment.java:43-55 | assign keeps the environments well formed |
| Evaluation.AllocateOk | com/craftinginterpreters/lox/Environment.java:17-19 | a new environment keeps the others well formed |
| Evaluation.LookupLive | com/craftinginterpreters/lox/Environment.java:29-41 | a value read from an environment only refers to existing environments |
| Evaluation.LiteralValue | com/craftinginterpreters/lox/Interpreter.java:164-166 | a literal is nil exactly when it is the nil literal, and never a function |
| Evaluation.CheckNumberOperand | com/craftinginterpreters/lox/Interpreter.java:201-204 | the operand check passes exactly for a number |
| Evaluation.CheckNumberOperands | com/craftinginterpreters/lox/Interpreter.java:206-209 | the operand check passes exactly for two numbers |
| Evaluation.Eval | com/craftinginterpreters/lox/Interpreter.java:79-81 | evaluating an expression only adds environments and writes bindings, and every value it yields refers to an existing environment |
| Evaluation.Accept | com/craftinginterpreters/lox/Interpreter.java:79-81 | as Eval, for the dispatch on the node |
| Evaluation.Assigned | com/craftinginterpreters/lox/Interpreter.java:254-258 | as Eval, for the write of an assignment |
| Evaluation.EvalAssign | com/craftinginterpreters/lox/Interpreter.java:254-258 | as Eval, for an assignment |
| Evaluation.EvalUnary | com/craftinginterpreters/lox/Interpreter.java:169-182 | as Eval, for a unary operator |
| Evaluation.EvalBinary | com/craftinginterpreters/lox/Interpreter.java:101-156 | as Eval, for a binary operator |
| Evaluation.EvalLogical | com/craftinginterpreters/lox/Interpreter.java:296-308 | as Eval, for and/or |
| Evaluation.ShortCircuit | com/craftinginterpreters/lox/Interpreter.java:300-307 | as Eval, for the right operand of and/or |
| Evaluation.EvalTernary | com/craftinginterpreters/lox/Interpreter.java:185-199 | as Eval, for the conditional |
| Evaluation.Choose | com/craftinginterpreters/lox/Interpreter.java:190-196 | as Eval, for the branch the conditional takes |
| Evaluation.IncrementStep | com/craftinginterpreters/lox/Interpreter.java:338-363 | as Eval, for increment and decrement |
| Evaluation.WriteBack | com/craftinginterpreters/lox/Interpreter.java:346-358 | as Eval, for the write of an increment |
| Evaluation.EvalCall | com/craftinginterpreters/lox/Interpreter.java:366-390 | as Eval, for a call |
| Evaluation.EvalArgs | com/craftinginterpreters/lox/Interpreter.java:369-372 | evaluating the arguments keeps the environments well formed and yields one value per argument unless one stops |
| Evaluation.Invoke | com/craftinginterpreters/lox/Interpreter.java:374-389 | as Eval, for calling a value |
| Evaluation.BindParams | com/craftinginterpreters/lox/LoxFunction.java:36-39 | binding the parameters keeps the environments well formed |
| Evaluation.CallFunction | com/craftinginterpreters/lox/LoxFunction.java:34-46 | as Eval, for running a function's body |
| Evaluation.Exec | com/craftinginterpreters/lox/Interpreter.java:83-85 | executing a statement keeps the environments well formed and completes normally only with no value |
| Evaluation.AcceptStmt | com/craftinginterpreters/lox/Interpreter.java:83-85 | as Exec, for the dispatch on the node |
| Evaluation.ExecVar | com/craftinginterpreters/lox/Interpreter.java:238-246 | as Exec, for var |
| Evaluation.ExecReturn | com/craftinginterpreters/lox/Interpreter.java:400-403 | return always completes abruptly |
| Evaluation.ExecBlock | com/craftinginterpreters/lox/Interpreter.java:87-98 | as Exec, for a statement list in a given environment |
| Evaluation.ExecIfElse | com/craftinginterpreters/lox/Interpreter.java:278-293 | as Exec, for an if-else chain |
| Evaluation.ExecWhile | com/craftinginterpreters/lox/Interpreter.java:311-330 | as Exec, for while |
| Evaluation.TryBody | com/craftinginterpreters/lox/Interpreter.java:314-319 | as Exec, for one pass of the try block of while |
| Evaluation.Iterate | com/craftinginterpreters/lox/Interpreter.java:313-329 | as Exec, for the iterations of while |
| Interpreter.Interpreter.constructor | com/craftinginterpreters/lox/Interpreter.java:13-31 | an interpreter whose current environment is the empty globals |
| Interpreter.Interpreter.Evaluate | com/craftinginterpreters/lox/Interpreter.java:79-81 | evaluate gives the completion and environments Eval specifies and restores the current environment |
| Interpreter.Interpreter.VisitVariable | com/craftinginterpreters/lox/Interpreter.java:249-251 | a variable is read with environment.get |
| Interpreter.Interpreter.AssignValue | com/craftinginterpreters/lox/Interpreter.java:256-257 | the assigned value is written with environment.assign and is the expression's value |
| Interpreter.Interpreter.VisitAssign | com/craftinginterpreters/lox/Interpreter.java:254-258 | visitAssignExpr does what EvalAssign specifies |
| Interpreter.Interpreter.VisitUnary | com/craftinginterpreters/lox/Interpreter.java:169-182 | visitUnaryExpr does what EvalUnary specifies |
| Interpreter.Interpreter.VisitBinary | com/craftinginterpreters/lox/Interpreter.java:101-156 | visitBinaryExpr does what EvalBinary specifies |
| Interpreter.Interpreter.VisitLogical | com/craftinginterpreters/lox/Interpreter.java:296-308 | visitLogicalExpr does what EvalLogical specifies |
| Interpreter.Interpreter.Decide | com/craftinginterpreters/lox/Interpreter.java:300-307 | the short-circuit decision does what ShortCircuit specifies |
| Interpreter.Interpreter.VisitTernary | com/craftinginterpreters/lox/Interpreter.java:185-199 | visitTernaryExpr does what EvalTernary specifies |
| Interpreter.Interpreter.Conditional | com/craftinginterpreters/lox/Interpreter.java:190-196 | the branch choice does what Choose specifies |
| Interpreter.Interpreter.VisitIncrement | com/craftinginterpreters/lox/Interpreter.java:338-363 | visitIncrementExpr does what IncrementStep specifies |
| Interpreter.Interpreter.VisitCall | com/craftinginterpreters/lox/Interpreter.java:366-390 | visitCallExpr does what EvalCall specifies |
| Interpreter.Interpreter.CallValue | com/craftinginterpreters/lox/Interpreter.java:374-389 | the callable and arity checks and the call do what Invoke specifies |
| Interpreter.Interpreter.Call | com/craftinginterpreters/lox/LoxFunction.java:34-46 | LoxFunction.call does what CallFunction specifies |
| Interpreter.Interpreter.Execute | com/craftinginterpreters/lox/Interpreter.java:83-85 | execute gives what Exec specifies and restores the current environment |
| Interpreter.Interpreter.VisitExpression | com/craftinginterpreters/lox/Interpreter.java:225-228 | an expression statement evaluates and drops the value |
| Interpreter.Interpreter.VisitPrint | com/craftinginterpreters/lox/Interpreter.java:231-235 | a print statement evaluates its expression; the printing is not part of the model |
| Interpreter.Interpreter.VisitBlock | com/craftinginterpreters/lox/Interpreter.java:261-264 | a block runs its statements in a new environment enclosed by the current one |
| Interpreter.Interpreter.VisitFunction | com/craftinginterpreters/lox/Interpreter.java:393-397 | a function declaration defines its name, in the current environment, as a function closing over that environment |
| Interpreter.Interpreter.VisitVar | com/craftinginterpreters/lox/Interpreter.java:238-246 | visitVarStmt does what ExecVar specifies |
| Interpreter.Interpreter.VisitReturn | com/craftinginterpreters/lox/Interpreter.java:400-403 | visitReturnStmt does what ExecReturn specifies |
| Interpreter.Interpreter.ExecuteBlock | com/craftinginterpreters/lox/Interpreter.java:87-98 | executeBlock runs the statements in the given environment and restores the previous one however they end |
| Interpreter.Interpreter.VisitIfElse | com/craftinginterpreters/lox/Interpreter.java:278-293 | visitIfElseStmt does what ExecIfElse specifies |
| Interpreter.Interpreter.VisitWhile | com/craftinginterpreters/lox/Interpreter.java:311-330 | visitWhileStmt does what ExecWhile specifies |
| Interpreter.Interpreter.TryBody | com/craftinginterpreters/lox/Interpreter.java:314-319 | one pass of the loop's try block does what TryBody specifies |
| Interpreter.Interpreter.Interpret | com/craftinginterpreters/lox/Interpreter.java:33-45 | interpret runs the statements in order in the current environment, and hands back the RuntimeError that stops them for reporting |
| Interpreter.JoinedPrepend | com/craftinginterpreters/lox/Interpreter.java:369-372 | the arguments collected so far followed by the rest are the whole argument list |
| InterpreterProperties.FalsyValues | com/craftinginterpreters/lox/Interpreter.java:211-215 | only nil and false are falsy |
| InterpreterProperties.EqualityIsValueEquality | com/craftinginterpreters/lox/Interpreter.java:217-222 | equality is nil equal only to nil and otherwise structural equality of values, and symmetric; for function values see Left out |
| InterpreterProperties.PlusAddsOrConcatenates | com/craftinginterpreters/lox/Interpreter.java:118-133 | + adds two numbers, concatenates display forms when either side is a string, and fails for every other pair |
| InterpreterProperties.NumberOperatorsNeedNumbers | com/craftinginterpreters/lox/Interpreter.java:101-156 | -, *, / and the comparisons succeed only on two numbers, checking the left operand first |
| InterpreterProperties.DivisionByZeroRaises | com/craftinginterpreters/lox/Interpreter.java:134-141 | dividing by zero raises "Cannot divide by 0." at the operator; any other divisor divides |
| InterpreterProperties.UnaryOperators | com/craftinginterpreters/lox/Interpreter.java:169-182 | ! negates truthiness, so !!x is x's truthiness; unary - needs a number and negates it |
| InterpreterProperties.OrShortCircuits | com/craftinginterpreters/lox/Interpreter.java:296-308 | or yields a truthy left operand without evaluating the right one, otherwise the right one; the result is truthy exactly when one operand is |
| InterpreterProperties.AndShortCircuits | com/craftinginterpreters/lox/Interpreter.java:296-308 | and yields a falsy left operand without evaluating the right one, otherwise the right one; the result is truthy exactly when both are |
| InterpreterProperties.TernaryEvaluatesOneBranch | com/craftinginterpreters/lox/Interpreter.java:185-199 | the conditional evaluates its condition and then exactly one branch; an unknown operator pair fails before anything is evaluated |
| InterpreterProperties.SelectBranch | com/craftinginterpreters/lox/Interpreter.java:280-286 | the branch chosen is one of the chain's, or none |
| InterpreterProperties.IfElseRunsFirstTruthyBranch | com/craftinginterpreters/lox/Interpreter.java:278-293 | an if-else chain runs only the body of its first truthy branch, and the else branch only when no condition was truthy |
| InterpreterProperties.WhileFalseSkipsBody | com/craftinginterpreters/lox/Interpreter.java:311-313 | a condition falsy from the start runs the body zero times |
| InterpreterProperties.WhileIteration | com/craftinginterpreters/lox/Interpreter.java:313-319 | one iteration runs the body, then the condition again, inside the same try block |
| InterpreterProperties.WhileInterrupts | com/craftinginterpreters/lox/Interpreter.java:320-328 | break leaves the loop, continue goes on with the condition, another loop keyword is a RuntimeError, anything else propagates |
| InterpreterProperties.NextIteration | com/craftinginterpreters/lox/Interpreter.java:313-319 | a normal pass through the try block starts the next iteration with the condition value it computed |
| InterpreterProperties.LoopSignalOutcome | com/craftinginterpreters/lox/Interpreter.java:320-328 | a loop interrupt out of the try block: continue evaluates the condition and goes on, break ends the loop with nil, any other keyword is a RuntimeError |
| InterpreterProperties.OtherSignalOutcome | com/craftinginterpreters/lox/Interpreter.java:311-330 | any other abrupt completion of the try block is the loop's own outcome |
| InterpreterProperties.IncrementWritesBack | com/craftinginterpreters/lox/Interpreter.java:338-363 | increment and decrement need a whole number, write back plus or minus one, and yield the new value when prefix and the old one when postfix |
| InterpreterProperties.VarWithoutInitializerDeclares | com/craftinginterpreters/lox/Interpreter.java:238-246 | a var without initializer declares the name, so reading it fails until it is assigned |
| InterpreterProperties.VarWithInitializerDefines | com/craftinginterpreters/lox/Interpreter.java:238-246 | a var with initializer defines the name with the initializer's value |
| InterpreterProperties.FunctionDeclarationCapturesEnvironment | com/craftinginterpreters/lox/Interpreter.java:393-397 | a function declaration binds a function whose closure is the current environment |
| InterpreterProperties.BlockRunsInFreshChildFrame | com/craftinginterpreters/lox/Interpreter.java:261-264 | a block runs in a fresh empty environment enclosed by the current one |
| InterpreterProperties.ArgumentsLeftToRight | com/craftinginterpreters/lox/Interpreter.java:369-372 | arguments are evaluated left to right, each in the environments the previous one left |
| InterpreterProperties.CallChecks | com/craftinginterpreters/lox/Interpreter.java:374-387 | calling a non-function raises "Can only call functions and classes."; a wrong argument count raises the arity message |
| InterpreterProperties.ParamNames | com/craftinginterpreters/lox/LoxFunction.java:36-38 | every parameter's name is among the names bound |
| InterpreterProperties.BindParamsBindsPositionally | com/craftinginterpreters/lox/LoxFunction.java:35-39 | binding writes only the new environment, which gains exactly the parameter names, each bound to the argument at its position, the last one winning for a repeated name |
| InterpreterProperties.ParamNamesCons | com/craftinginterpreters/lox/LoxFunction.java:36-38 | the names of a parameter list are the first name and those of the rest |
| InterpreterProperties.LastOfNameTail | com/craftinginterpreters/lox/LoxFunction.java:36-38 | the last parameter of a name stays last in the tail |
| InterpreterProperties.CallRunsBodyInFreshFrame | com/craftinginterpreters/lox/LoxFunction.java:34-46 | a call runs the body in a fresh environment enclosed by the closure, with the parameters bound; a return gives its value, falling off the end gives nil |
| Classes.LoxInstance.constructor | com/craftinginterpreters/lox/LoxClass.java:32 | a fresh instance knows its class |
| Classes.LoxClass.constructor | com/craftinginterpreters/lox/LoxClass.java:12-16 | a class holds its name, instance methods and static methods |
| Classes.LoxClass.FindMethod | com/craftinginterpreters/lox/LoxClass.java:40-45 | findMethod finds exactly the class's own instance methods |
| Classes.LoxClass.Arity | com/craftinginterpreters/lox/LoxClass.java:24-28 | the initializer's parameter count, or 0 without one |
| Classes.LoxClass.Get | com/craftinginterpreters/lox/LoxClass.java:48-55 | get finds exactly the static methods, else "Undefined static method" |
| Classes.LoxClass.Set | com/craftinginterpreters/lox/LoxClass.java:58-81 | a function is stored as a static method, which get then finds; any other value is refused and nothing changes |
| Classes.LoxClass.Call | com/craftinginterpreters/lox/LoxClass.java:31-38 | call makes a fresh instance and runs the initializer, when there is one, with the arguments |
| Chunks.GrowCapacity | clox/chunk.c:32 | GROW_CAPACITY always gives room for one more slot, at least 8, and keeps an even capacity even |
| Chunks.StoredAfterWrite | clox/chunk.c:28-42 | a write as written either adds the pair (line, 1) or leaves the stored pairs as they were |
| Chunks.StopPair | clox/chunk.c:54-59 | the loop of indexToLine stops within the stored pairs or just past them |
| Chunks.LineAt | clox/chunk.c:48-61 | indexToLine reads a stored pair's line exactly when its loop stops before the last pair is passed |
| Chunks.LineArray.constructor | clox/chunk.c:7-11 | initLineArray leaves an empty, well-formed table |
| Chunks.LineArray.Free | clox/chunk.c:13-16 | freeLineArray leaves the table as initLineArray does |
| Chunks.LineArray.LastLine | clox/chunk.c:18-21 | lastLine reads slot 2·pair_count−1, which is the last pair's count and not its line |
| Chunks.LineArray.WriteLineArray | clox/chunk.c:23-43 | a new pair (line, 1) after the old ones, growing by GROW_CAPACITY when full, unless the last count equals index; then slot 2·pair_count is incremented, which lies past the stored pairs, and a write past a full buffer is reported |
| Chunks.LineArray.AppendPair | clox/chunk.c:28-38 | the stored pairs are followed by (line, 1), the old slots kept, and the buffer grown by GROW_CAPACITY when it has no room |
| Chunks.LineArray.Grow | clox/chunk.c:29-34 | the grown buffer is fresh, has GROW_CAPACITY slots and keeps the old ones |
| Chunks.LineArray.IndexToLine | clox/chunk.c:48-61 | indexToLine returns the line of the pair its loop stops at, or the slot past the last pair, or nothing when that slot is outside the buffer |
| Chunks.WriteFits | clox/chunk.c:24-41 | for the table a chunk builds, writeLineArray's monotonic-index assertion holds and the increment stays inside the buffer |
| Chunks.AsWrittenSnoc | clox/chunk.c:82 | writing one more byte is one more step of writeLineArray at that byte's index |
| Chunks.AsWrittenCounts | clox/chunk.c:28-42 | in a chunk's table every count is 1, no byte adds more than one pair, and a non-empty chunk has a pair |
| Chunks.AsWrittenDropsSecondLine | clox/chunk.c:28-42 | as written, the table holds the lines of bytes 0, 2, 3, … with count 1, so byte 1's line is lost and runs are never merged |
| Chunks.StopPairUnitCounts | clox/chunk.c:56-59 | with unit counts the loop of indexToLine passes min(index, pairs) pairs |
| Chunks.UnitCountsIndexToLine | clox/chunk.c:48-61 | with unit counts, index i below the number of pairs gives pair i's line |
| Chunks.GetLineAsWritten | clox/chunk.c:104-106 | after bytes on lines 1, 2, 3, getLine gives line 3 for byte 1 and reads past the stored pairs for byte 2 |
| Chunks.IndexToLineOneRunLate | clox/chunk.c:45-61 | indexToLine reads one run too far: for (123, 2) index 1 reads past the pairs, and for (1, 3), (2, 5) index 1 gives 2 |
| Chunks.Repeat | clox/chunk.c:41 | a run of count bytes stands for count copies of its line |
| Chunks.IntendedWrite | clox/chunk.c:23-43 | the intended write ends the table with a run on the byte's line |
| Chunks.Encode | clox/chunk.c:72-84 | the intended table has at most one run per byte written |
| Chunks.DecodeAppend | clox/chunk.c:36-38 | a run appended to the table appends its lines to the decoded lines |
| Chunks.IntendedWriteAppends | clox/chunk.c:23-43 | each intended write adds exactly the byte's line to the decoded lines |
| Chunks.RepeatOneMore | clox/chunk.c:41 | raising a run's count by one appends one copy of its line |
| Chunks.EncodeDecodes | clox/chunk.c:23-43 | the intended table decodes to exactly the lines written, in order |
| Chunks.IntendedLineAtDecodes | clox/chunk.c:48-61 | the intended lookup finds the decoded line of every index |
| Chunks.IntendedRoundTrip | clox/chunk.c:104-106 | with the intended table and lookup, getLine gives back the line of every byte written |
| Chunks.Chunk.constructor | clox/chunk.c:63-70 | initChunk leaves an empty chunk with an empty line table and no constants |
| Chunks.Chunk.Free | clox/chunk.c:86-92 | freeChunk releases every buffer and leaves the chunk as initChunk does |
| Chunks.Chunk.WriteChunk | clox/chunk.c:72-84 | the byte is appended to the code, the buffer grows by GROW_CAPACITY when full, the byte's line goes to the table at index count, and the constants are untouched |
| Chunks.Chunk.StoreByte | clox/chunk.c:73-80 | grow when full, then store the byte at code[count] and keep the earlier bytes |
| Chunks.Chunk.RecordLine | clox/chunk.c:82-83 | the table takes the as-written step for index count and the byte is counted |
| Chunks.Chunk.GrowCode | clox/chunk.c:73-78 | the grown code buffer is fresh, has GROW_CAPACITY bytes and keeps the bytes written |
| Chunks.Chunk.AddConstant | clox/chunk.c:99-102 | addConstant appends the value and returns its index, which holds that value |
| Chunks.Chunk.GetLine | clox/chunk.c:104-106 | getLine answers with indexToLine on the as-written table of the lines written so far |
| DoublyLinkedList.CStrLen | intro/challenges/doubly-linked-list/doubly-linked-list.c:166 | strlen: the index of the first NUL, or the whole length when there is none |
| DoublyLinkedList.CString | intro/challenges/doubly-linked-list/doubly-linked-list.c:166 | the C string a buffer holds is its NUL-free prefix |
| DoublyLinkedList.StrNCopy | intro/challenges/doubly-linked-list/doubly-linked-list.c:10 | strncpy fills exactly size chars: the string then NUL padding when it is shorter than size, else its first size chars |
| DoublyLinkedList.CopyHoldsString | intro/challenges/doubly-linked-list/doubly-linked-list.c:9-10 | the copy holds the input's string exactly when that string fits in size chars |
| DoublyLinkedList.Node.constructor | intro/challenges/doubly-linked-list/doubly-linked-list.c:6-18 | create_node copies size chars of input with strncpy, records size and leaves the node unlinked |
| DoublyLinkedList.ChainInsert | intro/challenges/doubly-linked-list/doubly-linked-list.c:106-133 | relinking the neighbours around a new node keeps every prev/next link consistent |
| DoublyLinkedList.ChainRemove | intro/challenges/doubly-linked-list/doubly-linked-list.c:188-204 | linking a node's neighbours to each other keeps the remaining links consistent |
| DoublyLinkedList.DistinctInsert | intro/challenges/doubly-linked-list/doubly-linked-list.c:106-133 | a new node inserted anywhere keeps the nodes distinct and sets the new ends |
| DoublyLinkedList.DistinctRemove | intro/challenges/doubly-linked-list/doubly-linked-list.c:188-204 | removing a node keeps the rest distinct, removes it, and sets the new ends |
| DoublyLinkedList.IndexOf | intro/challenges/doubly-linked-list/doubly-linked-list.c:106-133 | the position of a node in the list |
| DoublyLinkedList.IndexOfDistinct | intro/challenges/doubly-linked-list/doubly-linked-list.c:106-133 | in a list of distinct nodes a node's position is unique |
| DoublyLinkedList.InsertThenRemove | intro/challenges/doubly-linked-list/doubly-linked-list.c:188-204 | removing a node just inserted gives back the original list |
| DoublyLinkedList.FirstMatch | intro/challenges/doubly-linked-list/doubly-linked-list.c:163-172 | the first node whose string equals the key, and none before it matches |
| DoublyLinkedList.List.constructor | intro/challenges/doubly-linked-list/doubly-linked-list.c:21-26 | create_list makes first the head and the tail: an empty list for null, a one-node list for an unlinked node |
| DoublyLinkedList.LinkAfter | intro/challenges/doubly-linked-list/doubly-linked-list.c:107-115 | the pointer writes of insert_after turn a well-linked chain into the chain with the new node right after node, and hand back node's old successor |
| DoublyLinkedList.LinkBefore | intro/challenges/doubly-linked-list/doubly-linked-list.c:122-130 | the pointer writes of insert_before turn a well-linked chain into the chain with the new node right before node, and hand back node's old predecessor |
| DoublyLinkedList.List.InsertAfter | intro/challenges/doubly-linked-list/doubly-linked-list.c:106-118 | the new node goes right after node; the list stays well linked and the tail moves exactly when node was the tail |
| DoublyLinkedList.List.InsertBefore | intro/challenges/doubly-linked-list/doubly-linked-list.c:121-133 | the new node goes right before node; the list stays well linked and the head moves exactly when node was the head |
| DoublyLinkedList.List.InsertHead | intro/challenges/doubly-linked-list/doubly-linked-list.c:136-138 | the node becomes the new head in front of the old list |
| DoublyLinkedList.List.InsertTail | intro/challenges/doubly-linked-list/doubly-linked-list.c:149-151 | the node becomes the new tail after the old list |
| DoublyLinkedList.List.InsertStrHead | intro/challenges/doubly-linked-list/doubly-linked-list.c:142-146 | a fresh node holding the copied string becomes the head and is returned |
| DoublyLinkedList.List.InsertStrTail | intro/challenges/doubly-linked-list/doubly-linked-list.c:155-159 | a fresh node holding the copied string becomes the tail and is returned |
| DoublyLinkedList.List.Find | intro/challenges/doubly-linked-list/doubly-linked-list.c:163-172 | find returns the first node whose string equals the key, or null when none does |
| DoublyLinkedList.List.RemoveNodeFromList | intro/challenges/doubly-linked-list/doubly-linked-list.c:188-204 | the node leaves the list, which stays well linked in the same order, and comes back unlinked |
| DoublyLinkedList.List.RemoveNodeWithData | intro/challenges/doubly-linked-list/doubly-linked-list.c:177-185 | the first node matching the key is removed and returned; with none, null and nothing changes |

## Left out

- The `Lox.java` driver is not part of this model: argument handling, files and stdin, the REPL loop, exit codes, the `hadError` flags and the printing of diagnostics. Diagnostics are an accumulated sequence, and a runtime error is handed back to the caller.
- Console output: `print` evaluates its expression and nothing is written. The REPL echo path of `interpret` and the ANSI colour constants of `Util` are left out.
- Interpreter.Interpreter.Interpret: models the batch path only; the interactive echo of the last statement is console output.
- The `clock` native is left out: it reads the system clock.
- Numbers are `real`. IEEE-754 is not modelled: `Double.parseDouble`, `Double.toString`, NaN, infinities, `Math.rint` and `isFinite`.
- Scanner.ParseNumber: reads a lexeme of digits and one dot as the exact decimal it denotes; the rounding of `Double.parseDouble` to the nearest double is not modelled, as there is no floating point here. A lexeme with a second dot, which `Double.parseDouble` rejects with a NumberFormatException, is a Crash outcome.
- Util.Stringify: the text of a number is a parameter standing for `Double.toString`, so only the removal of a trailing `.0` is stated.
- Util.IsInteger: holds for the whole reals; finiteness is vacuous over `real`.
- Evaluation.Eval: a fuel argument bounds call depth and loop iterations, and running out is a completion of its own. A Lox program that does not terminate has no result in the model.
- Evaluation.Accept: node kinds with no visit method in `Interpreter.java`, the class, get, set, this and super nodes, give the NoVisitor completion.
- The distance table the resolver builds is returned, not consumed. The shown interpreter looks every variable up dynamically along the environment chain, and `Interpreter.resolve` is not part of this model.
- `LoxInstance` fields and `LoxFunction.bind` are not part of this model. An instance is a fresh object that knows its class.
- Classes.LoxClass.Get: returns the static method itself, not the method bound to the class.
- Classes.LoxClass.Call: calls the initializer with the closure it was declared in, not bound to the new instance.
- Classes.LoxClass.Set: the warning that `set` reports is not modelled.
- Resolver.Resolver.EndScope: the unused-variable warnings are a set, because `HashMap` iteration order is unspecified. A set also merges two identical warnings (the same token and message), which Java would print twice; their order and their multiplicity are not modelled.
- Evaluation.IsEqual: compares two function values by their declaration and closure environment, while Java compares `LoxFunction` objects by reference. Two closures made by the same declaration in the same environment are equal here and distinct in Java.
- InterpreterProperties.EqualityIsValueEquality: states structural equality of the model's values, so for function values it is weaker than Java's reference identity, as under Evaluation.IsEqual.
- Interpreter.Interpreter.VisitIncrement: the `default` branch of the operator switch cannot be reached from a parsed increment and is not modelled.
- `GenerateAst.java`, `clox/main.c` and the pure declaration files are not part of this model: they hold no behaviour of their own.
- `memory.h` and `value.h` are not part of this model. `GROW_CAPACITY` is taken as 8 below 8 and doubling above, `GROW_ARRAY` as a copy into a fresh buffer, and a clox `Value` as a `real`.
- Chunks.LineArray.WriteLineArray: the increment of slot 2·pair_count writes past the buffer when the buffer is full. That write is undefined behaviour in C; the model reports it as overflow and changes nothing. It never happens for a table built by `writeChunk`.
- Chunks.Chunk.GetLine: the line read when `indexToLine` stops past the stored pairs comes from a slot `realloc` leaves uninitialised, and is left unspecified.
- Chunks.Chunk.WriteChunk: split into StoreByte and RecordLine, with the same effect as the one C function.
- The printing functions of the linked list, `format_node_str`, `free_list`, `free_node` and `main` are left out: output formatting and deallocation.
- DoublyLinkedList.List.InsertHead: requires a non-empty list. On an empty list `insert_before` dereferences the NULL head.
- DoublyLinkedList.List.InsertTail: requires a non-empty list. On an empty list `insert_after` dereferences the NULL tail.
- DoublyLinkedList.List.constructor: a well-formed list is promised only for null or for an unlinked node, since `create_list` does not walk the links of `first`.
- DoublyLinkedList.FirstMatch: `strcmp` on a buffer with no NUL reads past it in C. The model reads the string as ending at the buffer's end.
- An unterminated block comment calls `advance` past the end of the source, which is a Crash outcome; the comment is not closed at end of input.
- A string literal with a bad escape keeps its raw text, and the error is reported on the line where the literal ends.
- The parser produces only var, print, block and expression statements; the other statement kinds reach the resolver and the interpreter only as trees built directly.
- A failed declaration leaves a null in the statement list, which the resolver and the interpreter reach as a NullPointerException outcome.

## Findings

| source | as written | input that shows it | evidently intended | confidence | as-written member | corrected member |
|---|---|---|---|---|---|---|
| clox/chunk.c:18-42 | `lastLine` reads the last pair's count, so `writeLineArray` compares a count with the byte index. It then increments slot 2·pair_count, past the stored pairs. | bytes on lines 1, 2, 3: the table holds (1, 1), (3, 1), and line 2 is lost | extend the last run when the byte is on that run's line, otherwise start a run (line, 1) | not executed | Chunks.AsWrittenDropsSecondLine | Chunks.EncodeDecodes |
| clox/chunk.c:48-61 | `indexToLine` adds counts while the running total is below the index, then reads the line of the next pair: one run too far | pairs (123, 2), index 1: reads past the stored pairs; pairs (1, 3), (2, 5), index 1: line 2 | the line of the run whose span covers the index | not executed | Chunks.IndexToLineOneRunLate | Chunks.IntendedRoundTrip |
