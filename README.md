# A Dafny model of the interpreeter Lox front end and evaluator

This project models the core of `interpreeter`, a tree-walking interpreter for a Lox-like
language written in TypeScript and run as compiled JavaScript. Where the TypeScript files and
the compiled `.js` files differ, the model follows the `.js` files, because those are what run.
The model covers six parts:

- **Scanner** (`Scanning.Scanner`, specified by `ScanSpec`). It turns source text into tokens.
  For text whose characters are each one UTF-16 code unit (the Basic Multilingual Plane), it
  follows the cursor arithmetic of `Scanner.js` exactly. That includes `!=`, which leaves
  the cursor where it was, and `/*` without a closing `*/`. The model reports both as
  "scanning never ends" instead of looping.
- **Keyword table** (`Keywords`). It maps reserved words to token kinds, including the
  misspelt entry `pring`.
- **Parser** (`Parsing.Parser`, specified by `ParseSpec`). It is a recursive-descent parser
  over the token list, with panic-mode recovery (`synchronize`). Its quirks are kept:
  - `=`, not `==`, is the equality operator;
  - `comparison` and `factor` read at most one operator;
  - a failed declaration leaves an empty slot in the statement list.
- **Resolver** (`Resolving.Resolver`, specified by `ResolveSpec`). It keeps a stack of scope
  maps, a function kind and a class kind, and records every (expression, depth) pair that
  `resolveLocal` hands to the interpreter.
- **Evaluator** (`Interpreting.Interpreter`, specified by `InterpSpec`). It works over an
  `Environments.Environment` map, with JavaScript values (`Values`) and the
  `LoxFunction`/`LoxCallable` objects (`Callables`).
- **AST printer** (`AstPrinting`), in both its TypeScript and its compiled variant.

Each class whose fields the source updates in place is a Dafny `class`. Its methods are proved
equal to a pure specification function of the old state. The properties the source promises or
exhibits are lemmas about those functions.

Statement visitors and the evaluator return `Completion<Value>`:

- `Ok(v)` is the visitor's own JavaScript return value;
- `Abrupt(signal)` is an exception: a runtime error, a JavaScript TypeError, or running out of
  fuel.

Diagnostics that the source prints through `Interpreter.js` (`error`, `signalError`,
`runtimeError`) are appended to a diagnostics sequence, and console output to an output
sequence.

## Model

| member | source | states |
|---|---|---|
| Keywords.Lookup | scanner/Scanner/Scanner.js:258-263 | a word found in the table is all lower-case letters; it is PRINT exactly for `print` and `pring` |
| Keywords.ReservedAreLowerCase | scanner/constants/keywords.js:5-23 | every reserved word is spelt in lower-case letters only |
| Keywords.NotableSpellings | scanner/constants/keywords.js:13-22 | `print` and the misspelling `pring` both map to PRINT; `function` (not `fun`) and `null` (not `nil`) are reserved; `super` and `this` are keywords |
| Keywords.CaseSensitive | scanner/constants/keywords.js:5-23 | a word with any upper-case letter is never a keyword |
| Tokens.DigitsRoundTrip | scanner/Scanner/Scanner.js:265-276 | the text of a natural number is all digits, and `Number()` of that text gives the number back |
| ScanSpec.RunEnd | scanner/Scanner/Scanner.js:290-301 | `readWhileMatching` stops at the first position where its pattern fails, and never past the end |
| ScanSpec.RunEndSkips | scanner/Scanner/Scanner.js:290-301 | every position the run passes over satisfies the pattern |
| ScanSpec.SlashStep | scanner/Scanner/Scanner.js:177-186 | the `/` case (comment or SLASH): the step either never ends, or moves the cursor forward (never past the end) and emits at most one token, never EOF |
| ScanSpec.StringStep | scanner/Scanner/Scanner.js:280-289 | a string literal always ends; the cursor moves forward within the text and at most one non-EOF token is emitted |
| ScanSpec.StringClose | scanner/Scanner/Scanner.js:284-288 | closing a string, whether terminated or not, always ends, with at most one non-EOF token |
| ScanSpec.NumberStep | scanner/Scanner/Scanner.js:265-276 | a number always ends, with the cursor forward and at most one non-EOF token |
| ScanSpec.WordStep | scanner/Scanner/Scanner.js:254-264 | a word always ends, with the cursor forward and at most one non-EOF token |
| ScanSpec.BangStep | scanner/Scanner/Scanner.js:135-145 | the `!` case always ends, emitting at most one non-EOF token; the cursor never moves back |
| ScanSpec.OperatorStep | scanner/Scanner/Scanner.js:146-175 | `=`, `<` and `>` always end, emitting at most one non-EOF token |
| ScanSpec.Step | scanner/Scanner/Scanner.js:88-225 | `recognizeToken`: the step either never ends, or moves the cursor forward (never past the end) and emits at most one token, never EOF |
| ScanSpec.TurnByStep | scanner/Scanner/Scanner.js:77-83 | one turn of the `scanTokens` loop is one `recognizeToken` step; the loop is stuck exactly when the step never ends or does not move the cursor |
| Scanning.Scanner.constructor | scanner/Scanner/Scanner.js:14-24 | a new scanner starts at cursor 0 and line 1, with no tokens |
| Scanning.Scanner.Eat | scanner/Scanner/Scanner.js:31-39 | `eat` advances by the symbol's length when the symbol is there; otherwise it reports "Unexpected token: " plus the symbol and leaves the cursor where it was |
| Scanning.Scanner.AddToken | scanner/Scanner/Scanner.js:302-307 | appends one token whose lexeme is the text from start to cursor, or empty for EOF |
| Scanning.Scanner.ReadWhileMatching | scanner/Scanner/Scanner.js:290-301 | the cursor lands on `RunEnd`, the line grows by the newlines the loop peeks at, and the returned text is exactly the skipped text |
| Scanning.Scanner.SkipInlineComment | scanner/Scanner/Scanner.js:245-250 | a `//` comment runs to the next newline or the end, and the line does not change |
| Scanning.Scanner.SkipCStyleComments | scanner/Scanner/Scanner.js:234-244 | a closed `/* */` comment is skipped whole; the call never ends exactly when no `*/` follows |
| Scanning.Scanner.ParseString | scanner/Scanner/Scanner.js:280-289 | the tokens, diagnostics, cursor and line after the call equal `StringStep` of the old state |
| Scanning.Scanner.CloseString | scanner/Scanner/Scanner.js:284-288 | the end of `parseString` equals `StringClose` |
| Scanning.Scanner.CloseUnterminated | scanner/Scanner/Scanner.js:284-288 | at the end of the text it reports "Unterminated string.", then the failed `eat` of the quote, and still emits the STRING token |
| Scanning.Scanner.EatClosingQuote | scanner/Scanner/Scanner.js:287-288 | a closing quote is consumed and the STRING token carries the content between the quotes |
| Scanning.Scanner.ReadStringBody | scanner/Scanner/Scanner.js:282-283 | the body runs from after the opening quote to the next matching quote or the end |
| Scanning.Scanner.ParseNumber | scanner/Scanner/Scanner.js:265-276 | equals `NumberStep`: one NUMBER token whose literal is the value of its digits |
| Scanning.Scanner.ReadNumber | scanner/Scanner/Scanner.js:267-274 | both `readWhileMatching` calls together stop at the end of the first digit run (the second reads nothing, because the `.` is never eaten) |
| Scanning.Scanner.ParseIdentifier | scanner/Scanner/Scanner.js:254-264 | equals `WordStep`: a keyword token when the word is reserved, an IDENTIFIER otherwise |
| Scanning.Scanner.RecognizeBang | scanner/Scanner/Scanner.js:135-145 | equals `BangStep` |
| Scanning.Scanner.RecognizeComparison | scanner/Scanner/Scanner.js:146-175 | equals `OperatorStep` |
| Scanning.Scanner.RecognizeSlash | scanner/Scanner/Scanner.js:177-186 | equals `SlashStep`, and reports when a comment never closes |
| Scanning.Scanner.RecognizeToken | scanner/Scanner/Scanner.js:88-225 | equals `Step` of the old cursor and line, and reports when the step never ends |
| Scanning.Scanner.ScanOne | scanner/Scanner/Scanner.js:78-83 | one loop turn moves the state as `Step` says, and says whether the loop is stuck |
| Scanning.Scanner.ScanTokens | scanner/Scanner/Scanner.js:77-87 | the tokens, diagnostics and the "ends" flag equal `ScanFrom` of the starting cursor |
| ScanProps.EofExactlyOnceAtEnd | scanner/Scanner/Scanner.js:77-87 | when scanning ends, the last token is EOF with an empty lexeme and no other token is EOF |
| ScanProps.LexemeIsConsumedText | scanner/Scanner/Scanner.js:302-307 | every emitted lexeme is the text the step consumed, except the empty lexemes of SLASH (added before its `eat`) and NOT_EQUAL |
| ScanProps.BangEqualNeverEnds | scanner/Scanner/Scanner.js:137-140 | `!=` emits NOT_EQUAL with an empty lexeme, reports "Unexpected token: =", leaves the cursor where it was, and scanning never ends |
| ScanProps.UnendingIffUnclosedComment | scanner/Scanner/Scanner.js:234-244 | a step never ends exactly when it starts a `/*` comment with no `*/` after it |
| ScanProps.UnclosedCommentNeverEnds | scanner/Scanner/Scanner.js:234-244 | an unclosed block comment makes the whole scan never end, emitting nothing |
| ScanProps.SingleCharacterToken | scanner/Scanner/Scanner.js:92-131 | each of `( ) { } , . - + ; *` is one token of its fixed kind with the character as lexeme; nothing is reported and the cursor moves by one |
| ScanProps.LoneSlash | scanner/Scanner/Scanner.js:182-185 | a `/` not followed by `/` or `*` is a SLASH token with an empty lexeme, one character long |
| ScanProps.LayoutIsSilent | scanner/Scanner/Scanner.js:187-198 | blanks and comments emit nothing, report nothing and move the cursor on; a blank keeps the line and a newline adds one |
| ScanProps.LineCommentStopsAtNewline | scanner/Scanner/Scanner.js:245-250 | a `//` comment stops on the newline, which it does not consume, or at the end |
| ScanProps.StringToken | scanner/Scanner/Scanner.js:199-204 | either quote starts one STRING token whose content holds no such quote; a closed string's lexeme includes both quotes, an unterminated one runs to the end with two diagnostics |
| ScanProps.StringStepShape | scanner/Scanner/Scanner.js:280-289 | the same shape, stated of `StringStep` itself |
| ScanProps.NumberToken | scanner/Scanner/Scanner.js:265-276 | a number token is a maximal digit run, its literal is the value of those digits, and no diagnostic is reported |
| ScanProps.FractionIsNotScanned | scanner/Scanner/Scanner.js:272-274 | `1.5` scans as NUMBER `1`, DOT, then a NUMBER |
| ScanProps.NewlineAfterNumberCountsTwice | scanner/Scanner/Scanner.js:297-298 | a newline right after a number is counted by `readWhileMatching` and again by the newline case: the line grows by two |
| ScanProps.WordToken | scanner/Scanner/Scanner.js:254-264 | a word token is a maximal alphanumeric run; its kind is the keyword's when reserved, IDENTIFIER otherwise, and its literal is its text |
| ScanProps.UnknownCharacter | scanner/Scanner/Scanner.js:216-220 | any other character is consumed and reported as "Unexpected token: " plus the character, with no token |
| ScanProps.ComparisonOperators | scanner/Scanner/Scanner.js:146-175 | `=`, `<`, `>` followed by `=` give the two-character kind, otherwise the one-character kind |
| ParseSpec.Expression | parser/Parser.js:96-98 | `expression` fails or returns a grammar tree and a later cursor, never past EOF |
| ParseSpec.Equality | parser/Parser.js:99-112 | the same, for `equality` |
| ParseSpec.EqualityTail | parser/Parser.js:105-111 | the `equality` loop keeps the cursor inside the tokens and builds only grammar trees |
| ParseSpec.Comparison | parser/Parser.js:113-121 | the same, for `comparison` |
| ParseSpec.ComparisonRest | parser/Parser.js:115-120 | the `comparison` loop, which returns after its first operator |
| ParseSpec.Term | parser/Parser.js:122-130 | the same, for `term` |
| ParseSpec.TermTail | parser/Parser.js:124-129 | the `term` loop keeps the cursor inside the tokens and builds only grammar trees |
| ParseSpec.Factor | parser/Parser.js:131-141 | the same, for `factor` |
| ParseSpec.FactorRest | parser/Parser.js:135-140 | the single `if` of `factor` |
| ParseSpec.Unary | parser/Parser.js:147-158 | the same, for `unary` |
| ParseSpec.Primary | parser/Parser.js:164-183 | the same, for `primary` |
| ParseSpec.Group | parser/Parser.js:177-181 | the same, for a parenthesised expression |
| ParseSpec.Semicolon | parser/Parser.js:239-245 | consuming the `;` keeps the value and moves one token on |
| ParseSpec.VarDeclaration | parser/Parser.js:58-68 | `varDeclaration` fails, or returns a Var statement and a later cursor |
| ParseSpec.VarRest | parser/Parser.js:61-67 | the optional initialiser and the `;` of a declaration |
| ParseSpec.PrintStatement | parser/Parser.js:80-88 | `printStatement` fails, or returns a Print statement |
| ParseSpec.ExpressionStatement | parser/Parser.js:89-95 | `expressionStatement` fails, or returns an Expression statement |
| ParseSpec.Statement | parser/Parser.js:69-74 | `statement` returns only statement forms |
| ParseSpec.Declaration | parser/Parser.js:46-52 | `declaration` returns only statement forms and never reads past EOF |
| ParseSpec.SyncFrom | parser/Parser.js:252-267 | the recovery loop stops at a position inside the tokens, no earlier than where it began |
| ParseSpec.DeclarationStep | parser/Parser.js:46-57 | one turn of the `parse` loop moves strictly forward when it goes on |
| Parsing.Parser.constructor | parser/Parser.js:26-29 | the parser starts at cursor 0, with no diagnostics |
| Parsing.Parser.Peek | parser/Parser.js:190-193 | `peek` returns the token at the cursor |
| Parsing.Parser.Previous | parser/Parser.js:187-189 | `previous` returns the token before the cursor |
| Parsing.Parser.IsAtEnd | parser/Parser.js:194-196 | `isAtEnd` holds exactly at EOF |
| Parsing.Parser.Advance | parser/Parser.js:184-186 | `advance` moves the cursor by one |
| Parsing.Parser.Check | parser/Parser.js:197-201 | `check` holds exactly when the token is of that kind and not EOF |
| Parsing.Parser.Match | parser/Parser.js:208-216 | `match` advances exactly when `check` holds |
| Parsing.Parser.MatchMany | parser/Parser.js:220-234 | `matchMany` advances by one exactly when the token is not EOF and is of one of the kinds |
| Parsing.Parser.Error | parser/Parser.js:246-249 | `error` reports the token with the message |
| Parsing.Parser.Consume | parser/Parser.js:239-245 | `consume` returns the expected token and advances, or fails at the cursor with the message, reported once |
| Parsing.Parser.Expression | parser/Parser.js:96-98 | the result equals `ParseSpec.Expression`, and every failure is reported |
| Parsing.Parser.Equality | parser/Parser.js:99-112 | the result equals `ParseSpec.Equality` |
| Parsing.Parser.EqualityTail | parser/Parser.js:105-111 | the `while` loop equals `ParseSpec.EqualityTail` (loop invariant: the tail from the current tree and cursor) |
| Parsing.Parser.Comparison | parser/Parser.js:113-121 | the result equals `ParseSpec.Comparison` |
| Parsing.Parser.ComparisonRest | parser/Parser.js:115-120 | equals `ParseSpec.ComparisonRest` |
| Parsing.Parser.Term | parser/Parser.js:122-130 | the result equals `ParseSpec.Term` |
| Parsing.Parser.TermTail | parser/Parser.js:124-129 | the `while` loop equals `ParseSpec.TermTail` |
| Parsing.Parser.Factor | parser/Parser.js:131-141 | the result equals `ParseSpec.Factor` |
| Parsing.Parser.FactorRest | parser/Parser.js:135-140 | equals `ParseSpec.FactorRest` |
| Parsing.Parser.Unary | parser/Parser.js:147-158 | the result equals `ParseSpec.Unary` |
| Parsing.Parser.Primary | parser/Parser.js:164-183 | the result equals `ParseSpec.Primary` |
| Parsing.Parser.MatchAtom | parser/Parser.js:165-176 | the one-token forms: `false`, `true`, `null`, a name, or a NUMBER or STRING lexeme |
| Parsing.Parser.MatchOperand | parser/Parser.js:171-176 | a name becomes a Variable; a NUMBER or STRING becomes a literal holding its lexeme |
| Parsing.Parser.Group | parser/Parser.js:177-181 | equals `ParseSpec.Group` |
| Parsing.Parser.VarDeclaration | parser/Parser.js:58-68 | equals `ParseSpec.VarDeclaration` |
| Parsing.Parser.VarRest | parser/Parser.js:61-67 | equals `ParseSpec.VarRest` |
| Parsing.Parser.PrintStatement | parser/Parser.js:80-88 | equals `ParseSpec.PrintStatement` |
| Parsing.Parser.ExpressionStatement | parser/Parser.js:89-95 | equals `ParseSpec.ExpressionStatement` |
| Parsing.Parser.Statement | parser/Parser.js:69-74 | equals `ParseSpec.Statement` |
| Parsing.Parser.Synchronize | parser/Parser.js:250-268 | the cursor lands where `ParseSpec.Synchronize` says; the call fails when recovery runs past EOF |
| Parsing.Parser.Declaration | parser/Parser.js:46-57 | one declaration is `DeclarationStep`; on success the parse from the old cursor is this statement prepended to the parse from the new cursor, otherwise the whole parse fails with this step's diagnostics |
| Parsing.Parser.Parse | parser/Parser.js:30-43 | the statements and diagnostics equal `ParseFrom` of the starting cursor |
| ParseProps.TightParses | parser/Parser.js:147-183 | `unary` reads back a literal, a name, a group or a prefix operator from its tokens |
| ParseProps.GroupingParses | parser/Parser.js:177-181 | `(e)` is read back as Grouping(e) |
| ParseProps.UnaryToFactor | parser/Parser.js:131-141 | when no `*` or `/` follows, `factor` returns what `unary` read |
| ParseProps.FactorToTerm | parser/Parser.js:122-130 | when no `+` or `-` follows, `term` returns what `factor` read |
| ParseProps.TermToComparison | parser/Parser.js:113-121 | when no comparison operator follows, `comparison` returns what `term` read |
| ParseProps.CanonicalParses | parser/Parser.js:96-183 | the tokens of a canonical expression (at most one binary operator at the top) parse back to it |
| ParseProps.BinaryCanonicalParses | parser/Parser.js:99-141 | a binary tree of any operator level parses back from its tokens |
| ParseProps.OperandsRead | parser/Parser.js:147-183 | the left operand, the operator and the right operand sit where the rendering puts them |
| ParseProps.BinaryFromOperands | parser/Parser.js:99-141 | once `unary` reads both operands, `expression` returns the binary tree, whatever the operator's level |
| ParseProps.BinaryFromFactors | parser/Parser.js:99-130 | the same, for the levels above `factor` |
| ParseProps.BinaryFromTerms | parser/Parser.js:99-121 | the same, for the levels above `term` |
| ParseProps.FactorBinary | parser/Parser.js:131-141 | `l * r` is built by `factor` and passed up unchanged |
| ParseProps.ClosedAboveFactor | parser/Parser.js:96-130 | what `factor` reads before a closing token is what `expression` returns |
| ParseProps.ClosedAboveTerm | parser/Parser.js:96-121 | what `term` reads before a closing token is what `expression` returns |
| ParseProps.ClosedAboveComparison | parser/Parser.js:96-112 | what `comparison` reads before a closing token is what `expression` returns |
| ParseProps.TermBinary | parser/Parser.js:122-130 | `l + r` is built by the `term` loop |
| ParseProps.ComparisonBinary | parser/Parser.js:113-121 | `l < r` is built by `comparison` |
| ParseProps.EqualityBinary | parser/Parser.js:99-112 | `l = r` is built by the `equality` loop |
| ParseProps.PrintParses | parser/Parser.js:80-88 | `print e;` is read back as Print(e) |
| ParseProps.PrintPartsRead | parser/Parser.js:80-88 | the keyword, the expression and the `;` of a print statement are read in turn |
| ParseProps.StatementFromParts | parser/Parser.js:46-95 | a print or expression statement is read whole once its expression and `;` are |
| ParseProps.ExpressionStatementParses | parser/Parser.js:89-95 | `e;` is read back as Expression(e) |
| ParseProps.VarParses | parser/Parser.js:58-68 | `var x;` and `var x = e;` are read back as Var statements |
| ParseProps.StatementParses | parser/Parser.js:46-95 | every canonical statement is read back from its tokens |
| ParseProps.StatementStep | parser/Parser.js:30-57 | one turn of the `parse` loop reads a canonical statement with no diagnostic |
| ParseProps.ProgramParses | parser/Parser.js:30-43 | a sequence of canonical statements followed by EOF parses back to exactly those statements |
| ParseProps.ParseStepOk | parser/Parser.js:33-35 | the `parse` loop pushes each declaration in front of the rest |
| ParseProps.ProgramHead | parser/Parser.js:33-35 | the first statement of a program is read by the first declaration |
| ParseProps.ParseInvertsEmit | parser/Parser.js:30-43 | parsing is a left inverse of the token rendering of canonical programs, with no diagnostics |
| ParseQuirks.DoubleEqualsEndsExpression | parser/Parser.js:105 | `a == b` stops the expression at `==` (the loop matches EQUAL and NOT_EQUAL), so the statement fails for lack of `;` |
| ParseQuirks.SingleEqualsIsEquality | parser/Parser.js:105-110 | `a = b` parses as a binary equality |
| ParseQuirks.NameAtTerm | parser/Parser.js:122-141 | a lone name followed by no arithmetic operator is what `term` returns |
| ParseQuirks.ComparisonTakesOne | parser/Parser.js:115-118 | `a < b < c` reads only `a < b` (the loop returns inside its body), and the statement then fails |
| ParseQuirks.FactorTakesOne | parser/Parser.js:135-139 | `a * b * c` reads only `a * b` (an `if`, not a loop) |
| ParseQuirks.TermIsLeftAssociative | parser/Parser.js:122-130 | a chain of names joined by `+`/`-`, of any length and ended by a closer, parses as the left fold of its operands: `a - b - c` is `(a - b) - c` |
| ParseQuirks.TermTailFolds | parser/Parser.js:124-129 | the `term` loop over a run of operator–name pairs ending at a closer folds them onto the left operand, one pair per turn |
| ParseQuirks.EqualityIsLeftAssociative | parser/Parser.js:99-112 | a chain of names joined by `=`/`!=`, of any length and ended by a closer, parses as the left fold of its operands |
| ParseQuirks.EqualityTailFolds | parser/Parser.js:105-111 | the `equality` loop folds a run of operator–name pairs onto the left operand, one pair per turn |
| ParseQuirks.SyncFromFirstBoundary | parser/Parser.js:252-267 | recovery stops at the first statement boundary: after a `;` or before a statement keyword |
| ParseQuirks.SynchronizeStopsAtFirstBoundary | parser/Parser.js:250-268 | `synchronize` first advances, then stops at the first boundary; it fails only when it starts on the last token |
| ParseQuirks.OneErrorPerSkippedDeclaration | parser/Parser.js:46-57 | a finished parse reports exactly one diagnostic per empty slot in its statement list |
| ParseQuirks.ParsedStatementForms | parser/Parser.js:30-43 | a parse yields only var, print and expression statements |
| ParseQuirks.MissingFinalSemicolon | parser/Parser.js:30-57 | a lone name without `;` fails the whole parse, because recovery runs past EOF |
| ParseQuirks.LoneNameLacksSemicolon | parser/Parser.js:89-95 | the declaration of a lone name fails at EOF for lack of `;` |
| ParseQuirks.StraySemicolonSkipped | parser/Parser.js:46-57 | a leading `;` is reported as "Expect expression.", and recovery resumes right after it |
| ParseQuirks.PrintNameParses | parser/Parser.js:80-88 | `print x;` is one declaration |
| ParseQuirks.PrintAfterStraySemicolon | parser/Parser.js:30-43 | after recovery, `print x;` parses alone |
| ParseQuirks.RecoveryAfterStraySemicolon | parser/Parser.js:30-57 | `; print x;` gives an empty slot, then Print(x), with one diagnostic |
| ResolveSpec.SetTop | AST/resolver/resolver.js:219 | setting an entry of the innermost map leaves the maps below it alone |
| ResolveSpec.Declare | AST/resolver/resolver.js:204-220 | `declare` touches only the innermost scope, keeps both kinds, and only adds diagnostics and resolutions |
| ResolveSpec.Define | AST/resolver/resolver.js:224-228 | the same, for `define` |
| ResolveSpec.ResolveExpr | AST/resolver/resolver.js:78-94 | an expression visitor keeps the scope stack and both kinds, only adds diagnostics and resolutions, and never overflows |
| ResolveSpec.ResolveExprs | AST/resolver/resolver.js:159-166 | the same, for the arguments of a call |
| ResolveSpec.ResolveStmt | AST/resolver/resolver.js:262-265 | a statement that finishes keeps the stack depth and every scope below the innermost, puts back the function and class kinds, and only adds diagnostics and resolutions |
| ResolveSpec.ResolveFunctionStmt | AST/resolver/resolver.js:111-115 | the same, for a function statement |
| ResolveSpec.ResolveReturn | AST/resolver/resolver.js:146-153 | the same, for `return` |
| ResolveSpec.ResolveWhile | AST/resolver/resolver.js:154-158 | the same, for `while` |
| ResolveSpec.ResolveBlock | AST/resolver/resolver.js:50-55 | the same, for a block |
| ResolveSpec.ResolveVar | AST/resolver/resolver.js:64-70 | the same, for `var` |
| ResolveSpec.ResolveClass | AST/resolver/resolver.js:95-110 | the same, for a class |
| ResolveSpec.OpenClass | AST/resolver/resolver.js:96-101 | entering a class pushes exactly one scope, keeps those below it, and sets the class kind |
| ResolveSpec.ResolveIf | AST/resolver/resolver.js:135-141 | the same, for `if` |
| ResolveSpec.ResolveAll | AST/resolver/resolver.js:256-261 | the same, for a statement list |
| ResolveSpec.DeclareParams | AST/resolver/resolver.js:235-239 | declaring the parameters touches only the innermost scope |
| ResolveSpec.ResolveFunction | AST/resolver/resolver.js:229-244 | a function that finishes leaves the scope stack and both kinds exactly as before |
| ResolveSpec.ResolveMethods | AST/resolver/resolver.js:102-106 | the same, for the methods of a class |
| Resolving.Resolver.constructor | AST/resolver/resolver.js:26-49 | the resolver starts from the initial state: no scopes, outside every function and class |
| Resolving.Resolver.BeginScope | AST/resolver/resolver.js:275-277 | equals `ResolveSpec.BeginScope` |
| Resolving.Resolver.EndScope | AST/resolver/resolver.js:281-283 | equals `ResolveSpec.EndScope` |
| Resolving.Resolver.Declare | AST/resolver/resolver.js:204-220 | equals `ResolveSpec.Declare` |
| Resolving.Resolver.Define | AST/resolver/resolver.js:224-228 | equals `ResolveSpec.Define` |
| Resolving.Resolver.ResolveLocal | AST/resolver/resolver.js:249-255 | the loop over the scopes equals `ResolveSpec.ResolveLocal` |
| Resolving.Resolver.ResolveExpr | AST/resolver/resolver.js:78-94 | equals `ResolveSpec.ResolveExpr` |
| Resolving.Resolver.ResolveCall | AST/resolver/resolver.js:159-166 | equals `ResolveSpec.ResolveExpr` of the call: the callee, then each argument |
| Resolving.Resolver.ResolveStmt | AST/resolver/resolver.js:262-265 | equals `ResolveSpec.ResolveStmt` |
| Resolving.Resolver.ResolveFunctionStmt | AST/resolver/resolver.js:111-115 | equals `ResolveSpec.ResolveFunctionStmt` |
| Resolving.Resolver.ResolveReturn | AST/resolver/resolver.js:146-153 | equals `ResolveSpec.ResolveReturn` |
| Resolving.Resolver.ResolveWhile | AST/resolver/resolver.js:154-158 | equals `ResolveSpec.ResolveWhile` |
| Resolving.Resolver.ResolveBlock | AST/resolver/resolver.js:50-55 | equals `ResolveSpec.ResolveBlock` |
| Resolving.Resolver.ResolveVar | AST/resolver/resolver.js:64-70 | equals `ResolveSpec.ResolveVar` |
| Resolving.Resolver.ResolveClass | AST/resolver/resolver.js:95-110 | equals `ResolveSpec.ResolveClass` |
| Resolving.Resolver.OpenClass | AST/resolver/resolver.js:96-101 | equals `ResolveSpec.OpenClass` |
| Resolving.Resolver.ResolveMethods | AST/resolver/resolver.js:102-106 | the loop over the methods equals `ResolveSpec.ResolveMethods` |
| Resolving.Resolver.ResolveIf | AST/resolver/resolver.js:135-141 | equals `ResolveSpec.ResolveIf` |
| Resolving.Resolver.ResolveAll | AST/resolver/resolver.js:256-261 | the loop equals `ResolveSpec.ResolveAll` |
| Resolving.Resolver.ResolveFunction | AST/resolver/resolver.js:229-244 | equals `ResolveSpec.ResolveFunction` |
| ResolveProps.BlockNeverEnds | AST/resolver/resolver.js:50-55 | resolving any block never finishes: it recurses into itself (a stack overflow in the source) |
| ResolveProps.HopsExact | AST/resolver/resolver.js:249-255 | `resolveLocal` records a depth for every scope that holds the name, and only for those |
| ResolveProps.HopsInnermostFirst | AST/resolver/resolver.js:250 | the recorded depths are in increasing order: innermost scope first |
| ResolveProps.UnboundNameNotResolved | AST/resolver/resolver.js:249-255 | a name in no scope is not resolved (it is left to the globals) |
| ResolveProps.SetTopTwice | AST/resolver/resolver.js:219-227 | declaring and then defining a name leaves only the definition |
| ResolveProps.DuplicateLocalDeclaration | AST/resolver/resolver.js:216-218 | declaring a name twice in one scope reports "Already a variable with this name in this scope." once |
| ResolveProps.GlobalDeclarationsUntracked | AST/resolver/resolver.js:205-206 | with no scope open, a declaration changes nothing |
| ResolveProps.OwnInitializerReported | AST/resolver/resolver.js:79-81 | `var a = a;` in a local scope is reported, and `a` still resolves to that scope |
| ResolveProps.OwnInitializerAtGlobalScope | AST/resolver/resolver.js:79 | at the top level the same declaration is accepted silently |
| ResolveProps.ReturnOutsideFunction | AST/resolver/resolver.js:147-149 | a return outside every function is reported; inside one it is accepted |
| ResolveProps.ParameterResolvesToFunctionScope | AST/resolver/resolver.js:229-244 | a parameter used in its function body resolves at depth 0 |
| ResolveProps.ParameterBody | AST/resolver/resolver.js:234-240 | the body of that function, resolved inside the parameter scope |
| ResolveProps.ThisInsideMethod | AST/resolver/resolver.js:95-110 | `this` inside a method resolves at depth 1, to the class scope |
| ResolveProps.OpenClassOnEmpty | AST/resolver/resolver.js:96-101 | a top-level class opens one scope holding only `this` |
| ResolveProps.OneMethod | AST/resolver/resolver.js:102-106 | resolving a single method whose body uses `this` records depth 1 and changes nothing else |
| ResolveProps.MethodBody | AST/resolver/resolver.js:193-199 | `this` in a method body is found one scope out |
| ResolveProps.ThisOutsideClass | AST/resolver/resolver.js:194-196 | `this` outside every class is reported |
| ResolveProps.DeadBranchResolved | AST/resolver/resolver.js:135-141 | the branch of `if (false)` is resolved anyway |
| ResolveProps.AssignmentWithoutValueCrashes | AST/resolver/resolver.js:85-94 | an assignment with no value crashes on the missing node |
| ResolveProps.ProgramLeavesStackEmpty | AST/resolver/resolver.js:256-261 | a program that finishes leaves no scope open and is outside every function and class |
| Values.ToNumber | AST/interpreeter/index.js:62 | `Number()` of a modelled value is a number |
| Values.Negative | AST/interpreeter/index.js:118-120 | unary minus yields a number |
| Values.BinaryOp | AST/interpreeter/index.js:56-104 | a binary operator either yields a value or throws a runtime error |
| Values.IsTruthy | AST/interpreeter/index.js:136-140 | a value is falsy exactly when it is `undefined`, `null`, `false`, `0`, `NaN` or `""` |
| Values.IsEqual | AST/interpreeter/index.js:131-135 | two values are equal exactly when they are identical and not `NaN` |
| Values.TruthinessTable | AST/interpreeter/index.js:136-140 | exactly `undefined`, `null`, `false`, `0`, `NaN` and `""` are falsy |
| Values.IsEqualIffIdentical | AST/interpreeter/index.js:131-135 | `isEqual` is strict identity, except that `NaN` equals nothing |
| Values.NotEqualNegatesEqual | AST/interpreeter/index.js:74-77 | `!=` is the negation of `==` for every pair of values |
| Values.NumericOperatorsNeedNumbers | AST/interpreeter/index.js:47-55 | `*`, `-` and the comparisons throw "Operand must be a number." exactly when an operand is not a number |
| Values.ZeroDivisorCheckedFirst | AST/interpreeter/index.js:67-68 | dividing by 0 throws before the operand types are checked |
| Values.ZeroDividendGivesZero | AST/interpreeter/index.js:70-72 | 0 divided by any other number is 0 |
| Values.DivisionInvertsMultiplication | AST/interpreeter/index.js:60-73 | `(x / y) * y == x` for every nonzero `y` |
| Values.SubtractionInvertsAddition | AST/interpreeter/index.js:63-65 | `(x + y) - y == x` |
| Values.PlusOperandTypes | AST/interpreeter/index.js:90-101 | `+` throws exactly when an operand is neither a string nor a number |
| Values.PlusOnText | AST/interpreeter/index.js:91-97 | `+` concatenates two strings, or a string and the decimal text of a number |
| Values.QuotedTextIsNaN | AST/interpreeter/index.js:118-120 | `Number` of text holding a quote, such as a string literal's lexeme, is NaN, and so is its negation |
| Values.NumTextRoundTrip | AST/interpreeter/index.js:93 | the text of a natural number reads back as that number |
| Values.ComparisonsMirror | AST/interpreeter/index.js:78-89 | `x < y` is `y > x`, `x <= y` is `y >= x`, and two numbers are ordered or equal |
| Values.NaNIsUnordered | AST/interpreeter/index.js:78-89 | comparing NaN with any number is false |
| Values.NegationInvolutive | AST/interpreeter/index.js:118-120 | negating twice gives `Number()` of the value |
| Values.OtherOperatorsGiveNull | AST/interpreeter/index.js:102 | any other operator token yields `null` |
| Environments.Environment.constructor | Enviroment/index.js:6-8 | a new environment is empty (the enclosing one passed in is ignored) |
| Environments.Environment.Define | Enviroment/index.js:9-12 | `define` binds the name, replacing any earlier binding |
| Environments.Environment.Delete | Enviroment/index.js:13-15 | `delete` removes the name |
| Environments.Environment.Get | Enviroment/index.js:16-22 | `get` returns the binding, or throws "Undefined variable " plus the name |
| Environments.Environment.Assign | Enviroment/index.ts:24-30 | `assign` returns the current binding and stores nothing, or throws when the name is unbound |
| Environments.ReadAfterDefine | Enviroment/index.js:9-22 | a name reads back what was last defined for it; other names are unaffected |
| Environments.ReadAfterDelete | Enviroment/index.js:13-22 | a deleted name throws on read; other names are unaffected |
| Environments.ReadFailsIffAbsent | Enviroment/index.js:16-22 | a read throws exactly when the name is unbound |
| Environments.DeleteUndoesDefine | Enviroment/index.js:9-15 | deleting a name after defining it gives the map without that name |
| Callables.DescribeNamesFunction | loxCallable.js:8-10 | `<fn name>` holds the function's name, and differs from the native `<native> fn` |
| Callables.Arity | loxCallable.js:60-62 | `arity()` always throws a TypeError, because `declaration.args` is undefined |
| Callables.Invoke | loxCallable.js:41-59 | `call` throws a TypeError before it binds any parameter or runs the body |
| Callables.Describe | loxCallable.js:63-65 | the text of a function is `<fn ` + its name + `>`, and differs from the native `<native> fn` |
| Callables.FunctionsNeverRun | loxCallable.js:41-62 | `arity` and `call` both throw a TypeError, because `declaration.args` is undefined |
| InterpSpec.Evaluate | AST/interpreeter/index.js:39-46 | evaluation changes nothing but the diagnostics log, and no runtime error escapes it |
| InterpSpec.Visit | AST/interpreeter/index.js:105-162 | an expression visitor changes nothing but the diagnostics log (environment and output stay) |
| InterpSpec.VisitBinary | AST/interpreeter/index.js:56-104 | the same, for a binary expression |
| InterpSpec.VisitUnary | AST/interpreeter/index.js:113-123 | the same, for a unary expression |
| InterpSpec.VisitAssignment | AST/interpreeter/index.js:125-130 | the same, for an assignment |
| InterpSpec.VisitLogical | AST/interpreeter/index.js:207-214 | the same, for `and` and `or` |
| InterpSpec.VisitCall | AST/interpreeter/index.js:228-243 | the same, for a call |
| InterpSpec.EvaluateArgs | AST/interpreeter/index.js:231-235 | the arguments are evaluated in order, one value each |
| InterpSpec.Execute | AST/interpreeter/index.js:35-37 | a statement only appends to the output and the diagnostics, and no runtime error escapes it (it is caught in `evaluate`) |
| InterpSpec.ExecuteVar | AST/interpreeter/index.js:141-154 | the same, for `var` |
| InterpSpec.ExecuteIf | AST/interpreeter/index.js:195-206 | the same, for `if` |
| InterpSpec.ExecuteBlock | AST/interpreeter/index.js:176-194 | the same, for a block |
| InterpSpec.ExecuteAll | AST/interpreeter/index.js:181-184 | the statements of a list run in order, and a finished list yields `undefined` |
| InterpSpec.Loop | AST/interpreeter/index.js:215-220 | the same, for `while` |
| Interpreting.Interpreter.constructor | AST/interpreeter/index.js:19-23 | the globals are the given environment, with `clock` defined |
| Interpreting.Interpreter.Evaluate | AST/interpreeter/index.js:39-46 | equals `InterpSpec.Evaluate` |
| Interpreting.Interpreter.Visit | AST/interpreeter/index.js:105-162 | equals `InterpSpec.Visit` |
| Interpreting.Interpreter.VisitBinary | AST/interpreeter/index.js:56-104 | equals `InterpSpec.VisitBinary` |
| Interpreting.Interpreter.VisitUnary | AST/interpreeter/index.js:113-123 | equals `InterpSpec.VisitUnary` |
| Interpreting.Interpreter.VisitAssignment | AST/interpreeter/index.js:125-130 | equals `InterpSpec.VisitAssignment` |
| Interpreting.Interpreter.VisitLogical | AST/interpreeter/index.js:207-214 | equals `InterpSpec.VisitLogical` |
| Interpreting.Interpreter.VisitCall | AST/interpreeter/index.js:228-243 | equals `InterpSpec.VisitCall` |
| Interpreting.Interpreter.Execute | AST/interpreeter/index.js:35-37 | equals `InterpSpec.Execute` |
| Interpreting.Interpreter.ExecuteVar | AST/interpreeter/index.js:141-154 | equals `InterpSpec.ExecuteVar` |
| Interpreting.Interpreter.ExecuteIf | AST/interpreeter/index.js:195-206 | equals `InterpSpec.ExecuteIf` |
| Interpreting.Interpreter.ExecuteBlock | AST/interpreeter/index.js:176-190 | runs the list in the given environment and restores the current one afterwards, even on a throw |
| Interpreting.Interpreter.ExecuteAll | AST/interpreeter/index.js:181-184 | the loop equals `InterpSpec.ExecuteAll` |
| Interpreting.Interpreter.Loop | AST/interpreeter/index.js:215-220 | the `while` loop equals `InterpSpec.Loop` |
| Interpreting.Interpreter.Interpret | AST/interpreeter/index.js:24-34 | equals `InterpSpec.Interpret` |
| InterpProps.VariableLookup | AST/interpreeter/index.js:159-162 | a bound name evaluates to its value; an unbound one is reported and yields `undefined` |
| InterpProps.BlockHidesOuterNames | AST/interpreeter/index.js:191-194 | a block starts from an empty environment, so outer names are unknown inside it |
| InterpProps.BlockRestoresEnvironment | AST/interpreeter/index.js:186-189 | after a block, the environment is the one before it |
| InterpProps.BlockDeclarationsAreLocal | AST/interpreeter/index.js:176-194 | a name declared in a block is not bound after it |
| InterpProps.OrShortCircuits | AST/interpreeter/index.js:208-210 | `or` returns a truthy left value without evaluating the right |
| InterpProps.AndShortCircuits | AST/interpreeter/index.js:211-213 | `and` returns a falsy left value without evaluating the right |
| InterpProps.OrYieldsOperand | AST/interpreeter/index.js:209 | `or` yields the operand itself, not a boolean |
| InterpProps.NegatingUnknownNameGivesNaN | AST/interpreeter/index.js:118-120 | `-x` for an unbound `x` reports the error and yields NaN |
| InterpProps.NumberLiteralsConcatenate | AST/interpreeter/index.js:95-96 | `+` on two string literals concatenates them; since the parser stores a NUMBER literal as its lexeme text, `1 + 2` gives `"12"` |
| InterpProps.SingleEqualsGivesNull | AST/interpreeter/index.js:102 | a binary `=` (the parser's equality) yields `null` |
| InterpProps.AssignmentStoresNothing | AST/interpreeter/index.js:125-130 | an assignment returns the value but leaves the environment as it was |
| InterpProps.CallOfNonFunction | AST/interpreeter/index.js:236-238 | calling a non-function reports "Can only call functions and classes." |
| InterpProps.CallOfFunctionCrashes | AST/interpreeter/index.js:239 | calling a declared function throws a TypeError from `arity` |
| InterpProps.ClockIsNotCallable | AST/interpreeter/index.js:236-238 | `clock()` is reported, because the native clock is not a LoxFunction |
| InterpProps.DeclaredFunctionCallCrashes | AST/interpreeter/index.js:221-243 | a program that declares a function and calls it ends in a TypeError |
| InterpProps.VarDefines | AST/interpreeter/index.js:141-154 | `var` binds the initialiser's value, or `null` when it is missing or `undefined`, and returns it |
| InterpProps.WhileFalseSkips | AST/interpreeter/index.js:215-220 | a falsy condition skips the body |
| InterpProps.WhileTrueNeverEnds | AST/interpreeter/index.js:215-220 | `while (true)` over a body that changes nothing never ends |
| InterpProps.ExecuteMoreFuel | AST/interpreeter/index.js:35-37 | more fuel never changes a result that did not run out |
| InterpProps.IfMoreFuel | AST/interpreeter/index.js:195-206 | the same, for `if` |
| InterpProps.ExecuteAllMoreFuel | AST/interpreeter/index.js:181-184 | the same, for a statement list |
| InterpProps.LoopMoreFuel | AST/interpreeter/index.js:215-220 | the same, for `while` |
| InterpProps.TopLevelCatchIsIdle | AST/interpreeter/index.js:24-34 | the top-level `catch` never sees an error, because `evaluate` already caught it |
| AstPrinting.Parenthesize | AST/printer/ASTprinter.js:15-30 | the loop builds `(name`, then each child printed after a space, then `)`; it fails exactly when a child cannot be printed |
| AstPrinting.Show | AST/printer/ASTprinter.js:31-46 | printing yields a text exactly on printable trees, and that text is never empty |
| AstPrinting.ShowDefinedIffPrintable | AST/printer/ASTprinter.js:31-46 | printing succeeds exactly on trees made of binary, grouping, literal and unary nodes |
| AstPrinting.VariantsAgreeWithoutNull | AST/printer/ASTprinter.ts:37-41 | both printers agree on every tree without a null literal |
| AstPrinting.NullLiteralDiffers | AST/printer/ASTprinter.js:38-39 | null prints as `null` in TypeScript and `nil` in the compiled JavaScript |
| AstPrinting.ShowIsBalanced | AST/printer/ASTprinter.js:15-46 | the printed text has balanced parentheses when no lexeme or string holds one |
| AstPrinting.ShowQuoted | AST/printer/ASTprinter.js:40-41 | a string literal prints between double quotes |
| AstPrinting.ShowUnary | AST/printer/ASTprinter.js:44-46 | a unary node prints as `(op operand)` |
| AstPrinting.ShowGrouping | AST/printer/ASTprinter.js:34-36 | a grouping prints as `(group inner)` |
| AstPrinting.ShowBinary | AST/printer/ASTprinter.js:31-33 | a binary node prints as `(op left right)` |
| AstPrinting.MinusRendering | tests/astPrinterTest.ts:8 | `-123` prints as `(- (123))` |
| AstPrinting.GroupRendering | tests/astPrinterTest.ts:10 | the grouped concatenation prints as `(group (+ "Hello " "World!"))` |
| AstPrinting.TestExpressionRendering | tests/astPrinterTest.ts:7-16 | the test expression prints as `(* (- (123)) (group (+ "Hello " "World!")))` in both printers |

## Left out

- I/O is not modelled. Console output and the `console.log` traces are left out, except that
  `print` appends the printed value to an output sequence. The ANSI formatting of error lines
  is left out too. The driver's `hadError` flags and its calls between phases
  (`Interpreter.js`) are not part of this model.
- The driver never calls the resolver. The resolver is modelled on its own, and its
  `interpreeter.resolve(expr, depth)` calls become a `resolved` sequence of (expression, depth)
  pairs. The interpreter's side table is not part of this model.
- `clock` is defined in the globals as a native value. Its body (`Date.now`) is not modelled,
  because calling it is reported before it runs.
- Numbers are reals. Number-to-text conversion covers integers of magnitude below 10^21, and
  `Number()` of text covers the empty string, runs of digits and text holding a quote
  character (NaN, as for a string literal's lexeme). Other cases yield an `Unmodelled` signal
  instead of a guessed value. Floating-point rounding is not modelled.
- Source text is a sequence of Unicode scalar values here, while `Scanner.js` indexes UTF-16
  code units. A character outside the Basic Multilingual Plane (such as U+1F600) is one
  character in the model. The source sees it as two surrogate halves: it reports
  "Unexpected token: " twice, and cursor positions inside strings and identifiers differ.
- Property names inherited from `Object.prototype` (such as `toString` or `constructor`) are
  not looked up in the keyword table or in the scope maps.
- Loops run on fuel, and a run that exhausts it ends with `OutOfFuel`. This covers the
  interpreter's `while`. Calls need no fuel: they stop at the `LoxFunction` check or at
  `arity()` before running any body. Fuel also covers the resolver's block visitor, whose endless
  self-recursion is a stack overflow in the source. Endless scanning is reported as a result
  (`ends == false`), not run.
- `ParseSpec` and `Parsing.Parser` require the token list to end with EOF, as the scanner
  always produces it.
- The body of `LoxFunction.call` after its parameter loop (binding the arguments, running the
  body in a new environment) is not modelled. The loop header always throws first, because
  `declaration.args` is undefined.
- The `.ts` files that differ from the compiled `.js` files are not modelled, except for:
  - `assign` in `Enviroment/index.ts`, which the evaluator calls and `index.js` lacks;
  - the null text of `ASTprinter.ts`.

