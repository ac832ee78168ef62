# A verified model of the blue interpreter

This project models the core of **blue**, a small dynamically typed
scripting language with an interpreter written in Go. It covers the whole
pipeline and proves properties of each stage.

- **Front end.** The byte scanner is a `Scanner` class whose loops are proved
  against pure specification functions (longest-match operators, words and
  keywords, numbers, strings, comments, newlines). The recursive-descent
  parser is a `Parser` class; each of its methods is proved equal to a
  grammar function over the token sequence, and lemmas give the tree shapes
  the evaluator relies on (left-associative levels, `COMP_OP` wrapping, the
  layout of `if`, assignment targets, the star parameter). The AST node
  (`Node`, with `Add`, `GiveRootTo` and `ListTree`) is a class whose tree
  value is tracked by a ghost field. The literal decoders (`parseInt`,
  `parseHex`, `parseString`) are loops proved against their specifications.
- **Objects and dispatch.** Values live on an explicit heap: a sequence of
  objects tagged by type, addressed by references. Each type's hook table is
  a function from the type tag to its optional operations. The dispatch
  helpers (member get and set, item get and set, the number operations with
  coercion, three-way comparison, truthiness) are functions, with lemmas
  tying each dispatch to the table.
- **Concrete types.** The model covers:
  - ints, with 64-bit wrap-around, truncating division and bit indexing;
  - strings, with repeat, compare and ASCII case mapping;
  - lists, with in-place methods, repeat and compare;
  - bool, nil and range;
  - functions, methods and builtin methods;
  - classes, instances and modules, with base-chain lookup.
  The source's loops (string repeat and compare, case mapping, list repeat
  and reverse, list comparison) are methods proved against these functions.
- **Evaluator.** `Eval` is a class holding the heap, the open class, the
  frame's locals, the jump flags, `inFunction` and `loopCount`. Its methods
  follow `exec` node by node. Pure specifications state the rules behind
  them: scope resolution, argument binding with a receiver and a starred
  parameter, the `if` stride, the loop flags and the call result.
- **Modules and file modes.** Path joining and the module search are a loop
  proved against a specification function. The search reads files through
  an oracle. `setModeBits` is a loop proved against the flag word a mode
  string stands for.

Errors are explicit. Every fallible operation returns an `Outcome` with
these cases:
- `Done(value)`;
- `Error(message)`: the interpreter's own error (`goto err`, an error
  message set and nil returned);
- `Fault(message)`: a Go runtime panic, such as a nil dereference or an
  index out of range;
- `Returned`: the unwinding of a `return`;
- `Diverged`: an exhausted fuel bound.

Integers are `int` constrained to the int64 range, and wrap-around is
written out explicitly. Strings are sequences of characters, one per byte.

The repository is in the middle of a refactor, and several call sites do
not match their callees' signatures. The model takes the obvious
signatures:
- `evalCode` takes the locals map;
- `NewBlFunction` takes the star flag;
- `New` takes the globals;
- `Run` takes no argument, while `blExecModule` passes the module's locals
  as globals.

In three places the code behaves differently from what the names and
messages of the system suggest. The model follows the code:
- Negative indices are not counted from the end: `blGetSeqItem` passes the
  key unchanged, so a negative index fails on every sequence
  (`Protocol.NegativeIndexFails`).
- Modules are not cached once per import path. `blLocateModule` looks the
  map up by path, but `blAddModule` files a module under its base name, so
  a module imported by a path of several components is searched for and
  loaded again on every import (`Loader.CacheByPathAddByName`).
- `int(x)`, `list(...)` and `bool(...)` do not look at their arguments.
  `blParseArguments` stores nothing for the format characters `o` and `|`:
  - `int(x)` always fails with "expected number";
  - `list(a, b)` is always an empty list;
  - `bool(a, b)` is always false;
  - any other argument count is an argument mismatch.

## Model

| member | source | states |
|---|---|---|
| Common.Wrap64 | objects/intobject.go:84-100 | int64 arithmetic wraps: the result differs from the exact one by a multiple of 2^64 and equals it when the exact result fits |
| Common.GoDivision | objects/intobject.go:102-120 | Go's `/` and `%` truncate toward zero: quotient times divisor plus remainder is the dividend, the remainder is smaller than the divisor in magnitude and takes the dividend's sign |
| Interm.Leaf | interm/node.go:23-31 | a new node has no children and no flags and keeps its text, line, kind and line number |
| Interm.AddChild | interm/node.go:33-36 | adding a child appends it as the last child and changes nothing else |
| Interm.Node.constructor | interm/node.go:23-31 | `New` gives a valid childless node with zero flags whose tree value is the leaf |
| Interm.Node.Add | interm/node.go:33-36 | `Add` appends the node to the children, counts it, and leaves text, line, kind and flags alone |
| Interm.Node.GiveRootTo | interm/node.go:38-42 | `GiveRootTo` makes the receiver the last child of the argument and returns the argument |
| Interm.Node.SetFlags | interm/node.go:9-19 | setting the flags word changes only the flags |
| Interm.Node.ListTree | interm/node.go:48-65 | the buffer loop yields exactly the Lisp-like rendering: a leaf's text, or "(" text, the children's renderings separated by spaces, ")" |
| Interm.TreeTextBalanced | interm/node.go:48-65 | when no node text holds a parenthesis, the rendering opens as many parentheses as it closes |
| Literals.ParseInt | blue/parse.go:14-32 | the decimal loop equals the specification: a `0x`/`0X` second byte hands over to hexadecimal, and a final sum below the previous one is "number overflow" |
| Literals.ParseHex | blue/parse.go:34-55 | the hexadecimal loop equals the specification, with the same overflow test |
| Literals.DecimalInRange | blue/parse.go:21-27 | a decimal literal whose value fits in int64 decodes to that value |
| Literals.HexInRange | blue/parse.go:16-19 | a `0x` literal whose digits fit in int64 decodes to that value |
| Literals.ScanExact | blue/parse.go:21-25 | while the value stays in range the accumulator is exactly the value of the digits read |
| Literals.ScanTo | blue/parse.go:22-25 | the loop reaches any in-range prefix holding that prefix's value, with the previous prefix as previous sum |
| Literals.LastStep | blue/parse.go:22-25 | before the last digit the state is exact; the last step gives the wrapped value |
| Literals.OverflowDetected | blue/parse.go:26-31 | a last digit that wraps the sum below the previous sum is reported as "number overflow" |
| Literals.OverflowUndetected | blue/parse.go:22-27 | a literal beyond int64 whose wrapped value is not below the previous sum is accepted with the wrapped, wrong value |
| Literals.ParseString | blue/parse.go:66-124 | the decoding loop equals the specification of `parseString` |
| Literals.DecodeAt | blue/parse.go:76-120 | one turn of the loop appends a plain byte, a simple escape's byte, nothing for an unknown escape, or a `\x` byte, or stops with the bad-escape or index-panic outcome |
| Literals.StepPlain | blue/parse.go:118-120 | a byte other than a backslash is copied |
| Literals.StepEscape | blue/parse.go:77-84 | a simple escape yields its byte and an unknown escape yields nothing |
| Literals.StepHex | blue/parse.go:85-116 | `\x` needs two hex digits: a non-digit is "invalid \x escape", running off the end panics |
| Literals.HexEscape | blue/parse.go:85-116 | `\xHH` yields 16*H1+H2, and a non-hex digit in either place is a bad escape |
| Literals.UnescapePlain | blue/parse.go:76-121 | without backslashes the bytes before the closing quote are kept as they are |
| Literals.NoBackslashLiteral | blue/parse.go:66-124 | a quoted literal without backslashes decodes to the bytes between its quotes |
| Literals.RawLiteral | blue/parse.go:71-74 | a raw literal keeps every byte after the `r`, so its opening quote stays in the value |
| Literals.UnescapeOneByte | blue/parse.go:76-121 | the quoted spelling of any byte decodes back to that byte |
| Literals.QuoteRoundTrip | blue/parse.go:66-124 | decoding the quoted spelling of any byte string gives the byte string back |
| Scanning.At | parser/scanner.go:93-99 | `peekChar`: the byte at a position inside the text, NUL (the scanner's EOF byte) anywhere else |
| Scanning.RunEnd | parser/scanner.go:297-299 | a run of one byte class ends at the first byte outside the class, and every byte before it is in the class |
| Scanning.LongCommentEnd | parser/scanner.go:358-375 | a long comment ends just after the first `===` after its opening, counting the newlines inside; with none the error is "unterminated long comment" |
| Scanning.SkipOne | parser/scanner.go:111-116 | one turn of the skipping loop passes over a long comment, blanks, a `#` comment or a line continuation and moves forward, or stops where none starts |
| Scanning.SkipSpec | parser/scanner.go:111-162 | the skipping loop stops at a byte that starts no comment, blank or continuation, never moving back |
| Scanning.StringLexeme | parser/scanner.go:335-356 | a string token runs from its optional raw prefix to the matching quote, and without one the error is "unterminated string literal" |
| Scanning.StrEnd | parser/scanner.go:344-349 | the closing quote found is a byte equal to the opening quote, skipping a byte after each backslash |
| Scanning.StrEndEscaped | parser/scanner.go:344-349 | every quote byte inside a string body is preceded by a backslash |
| Scanning.HexLexeme | parser/scanner.go:325-333 | a hex token is `0x`/`0X` followed by the longest run of hex digits, as an INTEGER |
| Scanning.WordLexeme | parser/scanner.go:296-306 | a word is the longest run of letters, digits and underscores; a reserved word gets its keyword kind, anything else is a NAME |
| Scanning.NumberLexeme | parser/scanner.go:309-323 | a number is INTEGER, or FLOAT when a '.' not followed by another '.' follows the digits |
| Scanning.TokenAt | parser/scanner.go:117-262 | the token chosen at a byte is non-empty and lies inside the text |
| Scanning.LiteralAt | parser/scanner.go:253-261 | after the symbols: a word, a number, a string, or "unrecognized character" |
| Scanning.LineEnd | parser/scanner.go:74-80 | a line ends at the first newline or at the end of the text |
| Scanning.ReadLineSpec | parser/scanner.go:63-81 | the line buffer holds the rest of the line, with no newline and no leading blank or tab |
| Scanning.SymbolSpelled | parser/scanner.go:117-251 | the symbol chosen at a position is spelled there, except the colon, whose token text is "(" |
| Scanning.SymbolLongest | parser/scanner.go:163-251 | longest match: no operator spelled at the position is longer than the one chosen |
| Scanning.NumberBeforeRange | parser/scanner.go:315 | digits followed by `..` stay an INTEGER and the `..` becomes one DOTDOT |
| Scanning.RangeLiteral | parser/scanner.go:164-168 | `1..3` is INTEGER, DOTDOT, INTEGER |
| Scanning.CommentEndsLine | parser/scanner.go:142-145 | a `#` comment runs to its line's end, so the next token is a NEWLINE or EOF |
| Scanning.UnterminatedLongComment | parser/scanner.go:371-373 | a long comment with no closing `===` makes the token read fail |
| Scanning.NextTokenProgress | parser/scanner.go:109-266 | reading a token never moves back, and every token except EOF consumes input |
| Scanning.Scanner.constructor | parser/scanner.go:21-34 | `newScanner` starts on line 1 at position 0 with the first line loaded |
| Scanning.Scanner.ReadLine | parser/scanner.go:63-81 | `readLine` reloads the buffer from the byte after the position and changes nothing else |
| Scanning.Scanner.NextChar | parser/scanner.go:83-91 | `nextChar` advances one byte and returns the byte now current, NUL past the end |
| Scanning.Scanner.PeekChar | parser/scanner.go:93-99 | `peekChar` reads ahead without moving |
| Scanning.Scanner.NextCharx | parser/scanner.go:101-103 | `nextCharx` advances exactly `num` bytes |
| Scanning.Scanner.GetSlice | parser/scanner.go:105-107 | `getSlice` is the text from the start up to the current position |
| Scanning.Scanner.MakeToken | parser/scanner.go:57-61 | a token carries the current line buffer and line number |
| Scanning.Scanner.MakeSymToken | parser/scanner.go:43-55 | a symbol token advances by its length when that is 1 to 3 bytes, and not at all otherwise |
| Scanning.Scanner.SkipRun | parser/scanner.go:137-140 | the blank loop stops at the end of the run |
| Scanning.Scanner.NextToken | parser/scanner.go:109-266 | `nextToken` returns exactly the specified token or error and leaves the specified state |
| Scanning.Scanner.TokenHere | parser/scanner.go:117-262 | the switch on the byte where skipping stopped agrees with the specification |
| Scanning.Scanner.NewLine | parser/scanner.go:129-135 | a newline gives an "NL" token on the old line, then loads the next line and counts it |
| Scanning.Scanner.Skip | parser/scanner.go:111-162 | the skipping part of the loop ends in the state the specification gives |
| Scanning.Scanner.SkipOnce | parser/scanner.go:112-162 | one turn of the skipping loop agrees with the specification |
| Scanning.Scanner.LexToken | parser/scanner.go:119-251 | the symbol cases produce the specified token and stop after it |
| Scanning.Scanner.LexLiteral | parser/scanner.go:146-155 | the number, string and word cases produce the specified token |
| Scanning.Scanner.ParseWord | parser/scanner.go:290-307 | `parseWord` gives a raw string when `r`/`R` precedes a quote, else a keyword or a NAME |
| Scanning.Scanner.ParseNumber | parser/scanner.go:309-323 | `parseNumber` gives the specified INTEGER or FLOAT token and stops at its end |
| Scanning.Scanner.ParseHex | parser/scanner.go:325-333 | `parseHex` gives the specified INTEGER token and stops at its end |
| Scanning.Scanner.ParseString | parser/scanner.go:335-356 | `parseString` gives the specified STRING token or the unterminated error |
| Scanning.Scanner.StringBody | parser/scanner.go:344-352 | the string loop stops at the closing quote, or at the end with an error |
| Scanning.Scanner.LongComment | parser/scanner.go:358-375 | `longComment` ends after the closing `===` with the newlines inside counted, or fails at the end of input |
| Syntax.Lex | parser/scanner.go:109-266 | the token stream the scanner delivers from a state, up to the EOF past the end of the text, is a well-formed stream |
| Syntax.EofRepeats | parser/scanner.go:265 | past the end of the text the scanner gives the same EOF token again |
| Syntax.LexStep | parser/parser.go:100-103 | one pull from the scanner yields the next token of the stream and leaves the rest of the stream |
| Syntax.Advance | parser/parser.go:100-103 | `nextToken` moves one token on, strictly unless the current token is EOF, and fails exactly when the scanner fails on the token it pulls |
| Syntax.MatchToken | parser/parser.go:92-98 | `matchToken` passes the current token only when it has the expected kind |
| Syntax.SkipNL | parser/parser.go:113-117 | `skipNL` stops at the first token that is not a NEWLINE |
| Syntax.NextAndSkipNL | parser/parser.go:119-122 | `nextAndSkipNL` moves past a non-EOF token and any newlines |
| Syntax.MatchNewline | parser/parser.go:124-127 | `matchNewline` needs a NEWLINE and passes it and the newlines after it |
| Syntax.StmtTrailer | parser/parser.go:137-145 | `stmtTrailer`: ';' or newlines end a statement, otherwise only the end of input |
| Syntax.Program | parser/parser.go:147-164 | `Program` stops only at EOF and keeps the root's kind |
| Syntax.StmtBlock | parser/parser.go:326-339 | `stmtBlock` yields a BLOCK node |
| Syntax.BlockBody | parser/parser.go:330-337 | a block's loop stops at 'elif', 'else', 'end' or EOF |
| Syntax.CheckLHS | parser/parser.go:503-525 | `checkLHS` accepts exactly NAME, SUBSCRIPT and MEMBER targets |
| Syntax.Binary | parser/parser.go:531-713 | every binary level consumes input on success |
| SyntaxFacts.LevelOpKinds | parser/parser.go:531-713 | each level's operator tokens build nodes of that level's kinds |
| SyntaxFacts.ShiftDirectionLost | parser/parser.go:656-670 | both `<<` and `>>` build a LEFTSHIFT node, so the shift direction is lost |
| SyntaxFacts.BinaryLoopLeftFold | parser/parser.go:531-713 | each level's loop folds to the left: the tree so far becomes the first child of the next operator node |
| SyntaxFacts.BinaryLeftAssoc | parser/parser.go:531-713 | a whole level is a left fold of its first operand |
| SyntaxFacts.ComparisonsWrapped | parser/parser.go:567-618 | at the equality and comparison levels every operator node is the only child of a COMP_OP node |
| SyntaxFacts.IfRestLayout | parser/parser.go:389-404 | the elif loop appends (ELIF, condition, BLOCK) triples and then at most one else BLOCK |
| SyntaxFacts.IfLayout | parser/parser.go:381-405 | an `if` node's children are the condition, a BLOCK, then the elif triples and the optional else BLOCK |
| SyntaxFacts.DefParamsShape | parser/parser.go:289-310 | the parameter loop adds only NAME nodes, stops at a token other than ',', and fails with "star parameter must be the last param" past a starred one |
| SyntaxFacts.StarSetsFlag | parser/parser.go:295-298 | a starred parameter sets the star flag of the PARAMETERS node |
| SyntaxFacts.AugKindInjective | parser/parser.go:471-492 | different compound assignment tokens give different node kinds |
| SyntaxFacts.AugAssignShape | parser/parser.go:468-501 | `augAssign` builds AUGASSIGN over one ASS_* node whose children are the target and the value |
| SyntaxFacts.ConstructorTargetIsOperator | parser/parser.go:511-523 | `new C(...)` builds MAKE_INSTANCE, which `checkLHS` reports as an operator: its NEW case cannot be reached |
| Parsing.PullStep | parser/parser.go:100-103 | one pull moves the parser one token along the stream or fails as the stream does |
| Parsing.Parser.constructor | parser/parser.go:28-52 | a parser holds the first two tokens and the scanner positioned after them |
| Parsing.Parser.NextToken | parser/parser.go:100-103 | `nextToken` equals the grammar's one-token advance |
| Parsing.Parser.MatchToken | parser/parser.go:92-98 | `matchToken` equals the grammar's token match, failing with the given message |
| Parsing.Parser.SkipNL | parser/parser.go:113-117 | the newline loop equals the grammar's `skipNL` |
| Parsing.Parser.NextAndSkipNL | parser/parser.go:119-122 | equals the grammar's `nextAndSkipNL` |
| Parsing.Parser.MatchNewline | parser/parser.go:124-127 | equals the grammar's `matchNewline` |
| Parsing.Parser.StmtTrailer | parser/parser.go:137-145 | equals the grammar's `stmtTrailer` |
| Parsing.Parser.Program | parser/parser.go:147-164 | the statement loop builds exactly the tree and position of the grammar's `Program` |
| Parsing.Parser.Stmt | parser/parser.go:166-201 | the statement switch equals the grammar's `stmt` |
| Parsing.Parser.ImportStmt | parser/parser.go:183-191 | the import loop adds one PATH per comma-separated path |
| Parsing.Parser.ImportPath | parser/parser.go:420-443 | `importPath` equals the grammar: one NAME child per dotted component |
| Parsing.Parser.ClassStmt | parser/parser.go:203-222 | `classStmt` equals the grammar: MAKE_CLASS over name, EXTENDS and class block |
| Parsing.Parser.BaseClass | parser/parser.go:224-232 | `baseClass` equals the grammar |
| Parsing.Parser.ClassBlock | parser/parser.go:234-256 | `classBlock` equals the grammar |
| Parsing.Parser.DefStmt | parser/parser.go:258-287 | `defStmt` equals the grammar: MAKE_FUNC over name, PARAMETERS and body |
| Parsing.Parser.ParamList | parser/parser.go:269-281 | the parameter list is `()` directly, or `defParams` and ')' |
| Parsing.Parser.DefParams | parser/parser.go:289-310 | `defParams` equals the grammar, star flag included |
| Parsing.Parser.StmtBlock | parser/parser.go:326-339 | `stmtBlock` equals the grammar |
| Parsing.Parser.ControlStmt | parser/parser.go:341-352 | `controlStmt` equals the grammar |
| Parsing.Parser.ForStmt | parser/parser.go:354-379 | `forStmt` equals the grammar |
| Parsing.Parser.LoopVariables | parser/parser.go:358-370 | the two-turn name loop equals the grammar |
| Parsing.Parser.IfStmt | parser/parser.go:381-405 | `ifStmt` equals the grammar |
| Parsing.Parser.ElifClause | parser/parser.go:389-397 | one elif turn moves on, leaving the rest of the if as the grammar gives it |
| Parsing.Parser.IfEnd | parser/parser.go:398-404 | the else block and 'end' equal the grammar |
| Parsing.Parser.ReturnStmt | parser/parser.go:407-418 | `returnStmt` equals the grammar |
| Parsing.Parser.ExprStmt | parser/parser.go:451-466 | `exprStmt` equals the grammar |
| Parsing.Parser.AugAssign | parser/parser.go:468-501 | `augAssign` equals the grammar |
| Parsing.Parser.CheckLHS | parser/parser.go:503-525 | `checkLHS` fails with the grammar's message exactly when the target is not a NAME, SUBSCRIPT or MEMBER |
| Parsing.Parser.Expr | parser/parser.go:527-529 | `expr` equals the grammar |
| Parsing.Parser.Binary | parser/parser.go:531-713 | each precedence level equals the grammar |
| Parsing.Parser.Operand | parser/parser.go:531-713 | an operand of a level equals the grammar |
| Parsing.Parser.BinaryStep | parser/parser.go:531-713 | one operator turn moves on, leaving the rest of the level as the grammar gives it |
| Parsing.Parser.Factor | parser/parser.go:715-736 | `factorExpr` equals the grammar |
| Parsing.Parser.Trailer | parser/parser.go:738-754 | `trailerExpr` equals the grammar |
| Parsing.Parser.Atom | parser/parser.go:756-778 | `atom` equals the grammar |
| Parsing.Parser.ArrayLiteral | parser/parser.go:780-788 | `arrayLiteral` equals the grammar |
| Parsing.Parser.HashLiteral | parser/parser.go:790-816 | `hashLiteral` equals the grammar |
| Parsing.Parser.HashElem | parser/parser.go:798-809 | one key-value turn equals the grammar |
| Parsing.Parser.HashKey | parser/parser.go:799-805 | the key and '=>' equal the grammar |
| Parsing.Parser.NewStmt | parser/parser.go:818-837 | `newStmt` equals the grammar |
| Parsing.Parser.Subscript | parser/parser.go:839-849 | `subscript` equals the grammar |
| Parsing.Parser.CallFunction | parser/parser.go:851-864 | `callFunction` equals the grammar |
| Parsing.Parser.InstanceAttr | parser/parser.go:866-880 | `instanceAttr` equals the grammar |
| Parsing.Parser.ExpressionList | parser/parser.go:882-896 | `expressionList` equals the grammar |
| Parsing.Parse | parser/parser.go:28-52 | parsing a text yields exactly the grammar's tree under a FILE_INPUT or INTERACTIVE root, or the first scanner or parser error |
| Values.NewGFunction | objects/gfunctionobject.go:32-40 | a builtin function object keeps its name, callback and flags, with no parameter count |
| Values.FlagsIndependent | objects/gfunctionobject.go:15-18 | the no-arguments and variadic flags are separate bits, each answered by its own test |
| Values.TypeOfModule | objects/moduleobject.go:1-63 | only a module object has the module type |
| Values.Alloc | objects/listobject.go:28-40 | a new object gets the next address and can be read back there |
| Values.AllocKeeps | objects/listobject.go:28-40 | allocation leaves every existing object and its type unchanged |
| Values.PassOn | blue/eval.go:153-529 | an outcome that is not a value passes on unchanged: a return stays a return, an error keeps its message |
| Values.FinishSpec | objects/object.go:130-138 | after `blTypeFinish` a name is a member exactly when some method bears it |
| Values.FinishLastWins | objects/object.go:133-136 | when two methods share a name, the later one is the member |
| Values.TypeFinish | objects/object.go:130-138 | the `blTypeFinish` loop builds a fresh members map equal to the specification |
| Values.TypeTable | objects/object.go:140-169 | every type but the module type is its declared table with finished members; the module type is never initialised and keeps an empty table; no built-in type has a base |
| Values.MembersAreMethods | objects/object.go:130-138 | every member of a built-in type is its own method of the same name |
| Bits.Unsigned | objects/intobject.go:72-82 | the unsigned reading of an int64 bit pattern adds 2^64 to negative values |
| Bits.Signed | objects/intobject.go:54-70 | every 64-bit pattern reads back as exactly one int64 |
| Bits.BitwiseBit | objects/intobject.go:54-70 | each bit of `|`, `&` or `^` is that operation on the operands' bits |
| Bits.Bitwise64Bit | objects/intobject.go:54-70 | bit `n` of an int64 `a op b` is `op` of bit `n` of `a` and `b` |
| Bits.BitIsQuotientParity | objects/intobject.go:122-129 | bit `n` of a number is the parity of the number divided by 2^n |
| Bits.PowerBit | objects/intobject.go:131-154 | the only set bit of 2^m is bit m |
| Bits.ComplementBits | objects/intobject.go:49-52 | subtracting from 2^k - 1 inverts each of the low `k` bits |
| Bits.ShiftedParity | objects/intobject.go:78-82 | shifting a negative int64 right gives the same low bit as its unsigned pattern would |
| IntObjects.Div | objects/intobject.go:102-110 | integer division fails with "int division by zero" exactly for a zero divisor and otherwise succeeds |
| IntObjects.Mod | objects/intobject.go:112-120 | the remainder fails with "int modulo by zero" exactly for a zero divisor and otherwise succeeds |
| IntObjects.ArithmeticWraps | objects/intobject.go:84-100 | add, sub and mul give the exact result when it fits and otherwise the one congruent to it modulo 2^64 |
| IntObjects.NegWraps | objects/intobject.go:44-47 | negation is exact except on the most negative value, which it maps to itself |
| IntObjects.QuotientFits | objects/intobject.go:109 | the truncated quotient fits in int64 except for the most negative value divided by -1 |
| IntObjects.DivModIdentity | objects/intobject.go:102-120 | for a non-zero divisor quotient times divisor plus remainder is the dividend (modulo 2^64 for MIN / -1), and the remainder is smaller than the divisor and has the dividend's sign |
| IntObjects.ComplInvertsBits | objects/intobject.go:49-52 | `^a` inverts every bit of the pattern |
| IntObjects.BitwisePerBit | objects/intobject.go:54-70 | or, and and xor act on each bit position independently |
| IntObjects.ShiftOutOfRange | objects/intobject.go:72-82 | a shift count outside 0..63, negative included, shifts every bit out: 0 to the left, the sign to the right |
| IntObjects.ShiftInRange | objects/intobject.go:72-82 | a left shift multiplies by 2^s when the product fits; a right shift keeps the sign |
| IntObjects.Item | objects/intobject.go:122-129 | a bit index outside 0..63 is "subscript position out of bounds"; any other index succeeds |
| IntObjects.ItemIsBit | objects/intobject.go:128 | the value read is bit `num` of the pattern, so 0 or 1 |
| IntObjects.BitMaskBits | objects/intobject.go:147 | the mask `2^num` has exactly bit `num` set, 2^63 included |
| IntObjects.AssItem | objects/intobject.go:131-154 | a bit assignment succeeds exactly for an index in 0..63 and an Int value of 0 or 1 |
| IntObjects.AssItemErrors | objects/intobject.go:134-146 | the index, the value's type and the value's range are checked in that order, each with its own message |
| IntObjects.AssItemBits | objects/intobject.go:147-152 | after a bit assignment bit `num` holds the value and every other bit is unchanged |
| IntObjects.ItemAfterAssItem | objects/intobject.go:122-154 | reading back a bit just assigned gives the value assigned |
| IntObjects.CompareOrder | objects/intobject.go:171-182 | int comparison is a total order: antisymmetric, zero exactly on equal values, in -1..1 |
| IntObjects.Init | objects/intobject.go:184-198 | `int(...)` always fails, because format "o" fills nothing |
| IntObjects.InitMeaning | objects/intobject.go:184-198 | with one argument the error is "expected number", otherwise the argument-count message |
| Arguments.ParseArgumentsMeaning | objects/object.go:99-128 | parsing succeeds exactly when the counts agree and every `i`/`s` position holds an Int/String, and then stores one value per position; a count mismatch gives "argument mismatch. Expected (n) , got (m)" |
| Arguments.FirstFailureReported | objects/object.go:107-126 | the error raised is that of the first position that fails its check |
| Arguments.ParseArguments | objects/object.go:99-128 | the loop over the format string equals the specification, stopping at the first failure |
| StringObjects.RuneText | objects/stringobject.go:44 | Go's `string(rune)` gives one to four bytes, each below 256 |
| StringObjects.Decode | objects/stringobject.go:154 | the `for range` decoding of one rune consumes at least one byte and never runs past the end, and yields a code point below 0x110000 |
| StringObjects.RuneRoundTrip | objects/stringobject.go:44 | decoding the UTF-8 encoding of a code point gives back that code point and consumes exactly its encoding |
| StringObjects.Item | objects/stringobject.go:38-45 | indexing fails with "subscript position out of bounds" exactly when the position is negative or not below the length |
| StringObjects.ItemBytes | objects/stringobject.go:38-45 | an ASCII byte comes back as itself; a byte 0x80..0xFF comes back as two bytes that decode to that byte's value |
| StringObjects.Concat | objects/stringobject.go:47-56 | `+` succeeds exactly when the right operand is a string, and then yields the two values joined |
| StringObjects.RepeatCopies | objects/stringobject.go:58-84 | without wrap-around, `s * n` is `n` copies of `s`, empty for `n <= 0`, and fails with "repeated string became too large" past `STRING_MAX` |
| StringObjects.RepeatWraps | objects/stringobject.go:69 | the 64-bit product wraps, so a huge multiplier can yield a single copy |
| StringObjects.Repeat | objects/stringobject.go:58-84 | the buffer loop computes the repetition function |
| StringObjects.CompareOrder | objects/stringobject.go:103-120 | swapping the operands negates the result, and the result is 0 exactly for equal strings |
| StringObjects.CompareCollidesWithSentinel | objects/stringobject.go:107-109 | the raw byte difference can be -2, the value that also means "cannot be ordered" |
| StringObjects.Compare | objects/stringobject.go:103-120 | the loop over the common prefix followed by the length test computes the comparison function |
| StringObjects.InitMeaning | objects/stringobject.go:122-129 | `string(x)` succeeds exactly with one string argument, whose value it copies |
| StringObjects.ConcatMethodMeaning | objects/stringobject.go:134-145 | the `concat` method succeeds exactly with one string argument and yields the receiver's value followed by it |
| StringObjects.ToUpperAscii | objects/stringobject.go:147-162 | on ASCII text `toupper` maps a-z to A-Z, keeps every other byte and keeps the length |
| StringObjects.ToLowerAscii | objects/stringobject.go:164-179 | on ASCII text `tolower` maps A-Z to a-z, keeps every other byte and keeps the length |
| StringObjects.CaseMappingShrinks | objects/stringobject.go:154-159 | outside ASCII each rune is written as one truncated byte, so the length changes |
| StringObjects.MapCase | objects/stringobject.go:153-161 | the loop over runes computes the case-mapping function |
| StringObjects.ToUpper | objects/stringobject.go:147-162 | a string receiver gets its upper-cased value; any other receiver is an error |
| StringObjects.ToLower | objects/stringobject.go:164-179 | a string receiver gets its lower-cased value; any other receiver is an error |
| ListObjects.NewList | objects/listobject.go:40-46 | a list of `n` nil slots with size `n`, and a panic for negative `n` |
| ListObjects.AppendPlacesLast | objects/listobject.go:18-21 | `Append` keeps the list consistent, adds one slot holding the value and keeps every earlier slot |
| ListObjects.ItemBounds | objects/listobject.go:48-55 | indices below the size read their slot, the index equal to the size passes the bounds test and panics, all others are rejected |
| ListObjects.AssItemOverwrites | objects/listobject.go:57-65 | an accepted store replaces exactly one slot; the same bounds as the read |
| ListObjects.ItemAfterAssItem | objects/listobject.go:48-65 | a read after a store at the same accepted index gives the stored value |
| ListObjects.Cycle | objects/listobject.go:83-86 | slot `k` of the repeated list holds element `k mod len` |
| ListObjects.Repeat | objects/listobject.go:67-88 | a successful repetition yields a consistent list |
| ListObjects.RepeatMeaning | objects/listobject.go:67-88 | without wrap-around: `n` copies within `LIST_MAX`, a panic for a negative multiplier on a non-empty list, the size error past `LIST_MAX` |
| ListObjects.CopyInto | objects/listobject.go:85 | `copy` writes as many elements as fit and leaves the rest of the destination as it was |
| ListObjects.RepeatLoop | objects/listobject.go:83-86 | the copying loop fills the new list with the cycled elements |
| ListObjects.InitMeaning | objects/listobject.go:152-175 | `list(...)` succeeds exactly with two arguments and always yields an empty list |
| ListObjects.TruncMethod | objects/listobject.go:220-225 | `trunc` leaves an empty, consistent list |
| ListObjects.Reversed | objects/listobject.go:227-237 | element `k` of the reversed list is element `len-1-k` of the original |
| ListObjects.ReversedTwice | objects/listobject.go:227-237 | reversing twice gives the list back |
| ListObjects.ReverseLoop | objects/listobject.go:230-234 | the two-index loop computes the reversal |
| ListObjects.MethodsKeepSize | objects/listobject.go:180-237 | the list methods keep the size equal to the slice length; append and prepend succeed exactly with one argument |
| ListObjects.InsertMeaning | objects/listobject.go:204-218 | `insert` succeeds exactly with two arguments, the second an in-range int, and then overwrites that slot with nil |
| SmallTypes.BoolRepr | objects/boolobject.go:22-28 | a boolean prints as "true" exactly when it is true and as "false" exactly when it is false |
| SmallTypes.BoolCompare | objects/boolobject.go:38-49 | 0 exactly for equal booleans, -1 exactly for false against true, 1 exactly for true against false |
| SmallTypes.BoolCompareAntisymmetric | objects/boolobject.go:38-49 | swapping the operands negates the comparison |
| SmallTypes.BoolInit | objects/boolobject.go:56-77 | `bool(...)` either fails or gives false |
| SmallTypes.BoolInitMeaning | objects/boolobject.go:56-77 | `bool(...)` succeeds exactly with two arguments and otherwise reports the argument-count mismatch |
| SmallTypes.NilRepr | objects/nilobject.go:21-23 | nil prints as a three-letter word starting with 'n' |
| SmallTypes.NilHasNoHooks | objects/nilobject.go:29-36 | the nil type has only a printer and a truth test |
| SmallTypes.NewRange | objects/rangeobject.go:22-28 | a range keeps both ends as given |
| SmallTypes.RangeItem | objects/rangeobject.go:30-37 | indexing a range succeeds exactly for `0 <= num < E - S` |
| SmallTypes.RangeItems | objects/rangeobject.go:30-42 | when `E - S` fits, item `num` is `S + num` and lies between the two ends |
| SmallTypes.RangeReprShape | objects/rangeobject.go:44-48 | a range prints as its two ends separated by `..` |
| SmallTypes.NewFunction | objects/functionobject.go:23-44 | a function object keeps every field as given, except that a starred parameter is not counted |
| SmallTypes.StarredFunctionTruth | objects/functionobject.go:23-59 | a function with a starred parameter is true exactly when it has more than one written parameter |
| SmallTypes.NewMethod | objects/methodobject.go:18-26 | a method object keeps its class, receiver and function |
| SmallTypes.MethodEvalCond | objects/methodobject.go:36-39 | a method's truth is its function's, and a method whose function field is not a function panics |
| SmallTypes.MethodRepr | objects/methodobject.go:28-34 | printing a method succeeds exactly when its class field is a class |
| SmallTypes.BuiltinMethodTruth | objects/gfunctionobject.go:49-55 | of the list and string methods exactly the three variadic list methods are true |
| SmallTypes.NewGMethod | objects/gmethodobject.go:18-26 | a builtin method keeps its owning type, receiver and function |
| SmallTypes.GMethodEvalCond | objects/gmethodobject.go:42-53 | a builtin method's truth is defined exactly when its function exists, and is then a positive parameter count |
| SmallTypes.GMethodRepr | objects/gmethodobject.go:28-40 | printing a builtin method gets through exactly when its function exists and its class is a type object; a missing function panics on the nil dereference, a class that is not a type fails the type assertion; the text starts with the type's name, a dot and the function's name |
| SmallTypes.GMethodCounts | objects/gmethodobject.go:28-53 | the unbound method prints one parameter more than the bound one, while only the bound one counts the receiver for truth |
| SmallTypes.MethodTableTruth | objects/gmethodobject.go:42-53 | a string or list method is true exactly when it is bound to a receiver |
| Members.TypeChain | objects/object.go:91-97 | the chain starts with the type itself |
| Members.Locate | objects/object.go:91-97 | a name the type itself holds is found there |
| Members.LocateNearest | objects/object.go:91-97 | `locate` finds the entry of the nearest type in the base chain that holds the name |
| Members.LocateMissing | objects/object.go:91-97 | a name no type in the chain holds is not found |
| Members.GenericGetMember | objects/object.go:76-89 | the lookup fails with the type's "no member" message exactly when `locate` finds nothing; a builtin function found comes back bound to the receiver |
| Members.TypeGetMember | objects/typeobject.go:23-37 | a member looked up on a type object succeeds or fails, and a new object it makes is a builtin method |
| Members.TypeGetMemberUnbound | objects/typeobject.go:23-37 | looking a member up on the type object is the generic lookup with no receiver |
| Members.MethodLookup | objects/object.go:76-97 | a string or list member succeeds exactly for the name of one of the type's methods, which comes back bound to the receiver |
| Members.NewClass | objects/classobject.go:22-31 | a new class has the given name and base and no members |
| Members.ClassChain | objects/classobject.go:40-64 | the base chain starts at the class and holds only classes |
| Members.ClassGetMember | objects/classobject.go:40-64 | failures name the class asked; a success is never nil and never a bare function; new objects are methods |
| Members.ClassLookupNearest | objects/classobject.go:40-64 | the lookup stops at the nearest class holding the name; a user function becomes a method of the class that defines it |
| Members.ClassLookupMissing | objects/classobject.go:40-64 | a name no class in the chain holds fails naming the class asked, unless a builtin type at the end of the chain answers |
| Members.ClassLookupAtEnd | objects/classobject.go:44-53 | the last class of the chain hands the lookup to its base |
| Members.ClassLookupAtType | objects/classobject.go:49-50 | a class whose base is a builtin type asks that type |
| Members.AtChainEndMeaning | objects/classobject.go:49-57 | a type at the end of the chain answers with one of its methods, unbound, or fails naming the class |
| Members.ClassSetMember | objects/classobject.go:66-86 | a store adds or replaces exactly one member; `__init__` that is not a function or method is refused |
| Members.ClassSetMemberRefuses | objects/classobject.go:66-86 | the empty name and `_` panic, and `__init__` bound to a non-function is refused; nothing else is |
| Members.ClassSetThenGet | objects/classobject.go:40-86 | a stored member reads back, hiding whatever the bases hold |
| Members.NewInstance | objects/instanceobject.go:19-27 | a new instance points at its class and has no members |
| Members.InstanceLookup | objects/instanceobject.go:35-53 | the lookup before binding never returns a return signal |
| Members.InstanceGetMember | objects/instanceobject.go:35-53 | the heap keeps its size and only a method object found is changed; a failed lookup is passed on |
| Members.Rebind | objects/instanceobject.go:48-50 | the method keeps its class and function and gets the new receiver |
| Members.InstanceSetMember | objects/instanceobject.go:55-60 | a store on an instance adds or replaces exactly one member |
| Members.InstanceGetsClassFunction | objects/instanceobject.go:35-53 | a function defined in the class comes back as a method bound to the class and the instance, and the heap is unchanged |
| Members.InstanceDropsPlainValues | objects/instanceobject.go:35-60 | a value stored on an instance reads back as nil unless it is a function or a method |
| Members.SharedMethodRebound | objects/instanceobject.go:48-50 | a method stored on a class is shared: a read through a second instance rebinds the object the first read returned |
| Members.NewModule | objects/moduleobject.go:23-30 | a new module has the given name and path and no locals |
| Members.ModuleGetMember | objects/moduleobject.go:38-47 | a module member is found exactly when it is among the locals, and otherwise fails naming the module |
| Members.ModuleSetMember | objects/moduleobject.go:49-53 | a store on a module keeps its name and path |
| Members.ModuleGetAfterSet | objects/moduleobject.go:38-53 | a read after a store of the same name gives the stored value, and other names are untouched |
| Protocol.GetMemberOwners | objects/object.go:140-169 | exactly strings, lists, classes, instances and type objects have a member getter |
| Protocol.SetMemberOwners | objects/object.go:140-169 | exactly classes and instances have a member setter |
| Protocol.EvalCondOwners | objects/object.go:140-169 | every type except ranges, type objects and modules has a truth hook |
| Protocol.CompareOwners | objects/object.go:140-169 | exactly strings, ints, floats, lists and booleans can be compared |
| Protocol.InitOwners | objects/object.go:140-169 | exactly strings, ints, lists, booleans and type objects have a constructor |
| Protocol.ReprOwners | objects/object.go:140-169 | every type except modules has a printer |
| Protocol.SeqOwners | objects/object.go:140-169 | exactly strings, ints, lists and ranges are sequences, and every sequence can be indexed |
| Protocol.AssItemOwners | objects/object.go:140-169 | exactly ints and lists support item stores |
| Protocol.ConcatOwners | objects/object.go:140-169 | only strings have concatenation |
| Protocol.RepeatOwners | objects/object.go:140-169 | exactly strings and lists have repetition |
| Protocol.NumberOwners | objects/object.go:140-169 | exactly ints and floats are numbers, and only floats coerce |
| Protocol.NumOpOwners | objects/object.go:140-169 | ints have every number operation; floats have the arithmetic ones and negation |
| Protocol.GetMemberOf | blue/objects.go:11-20 | member access keeps the heap well formed; the heap grows only by new objects and keeps its size |
| Protocol.LookupMember | blue/objects.go:11-20 | the getters of classes, type objects, strings and lists only yield values that fit the heap |
| Protocol.InstanceGetMemberKeeps | objects/instanceobject.go:35-53 | an instance lookup keeps the heap well formed |
| Protocol.GetMemberNeedsHook | blue/objects.go:11-20 | member access panics on nil, fails on every type without a getter, and fails on modules |
| Protocol.GetMemberOfSequence | objects/object.go:76-89 | on a string or a list, member access is the generic lookup and leaves the heap unchanged |
| Protocol.SequenceMembers | objects/object.go:76-97 | a string or a list has exactly its type's methods as members |
| Protocol.SetMemberOf | blue/objects.go:22-31 | a member store keeps the heap well formed and its size |
| Protocol.SetMemberNeedsHook | blue/objects.go:22-31 | a member store fails with the generic message exactly when the type has no setter |
| Protocol.SetThenGetMember | blue/objects.go:11-31 | a member stored on an instance is in its slot, and no other object changes |
| Protocol.GetSeqItem | blue/objects.go:33-54 | subscripting yields only values that fit the heap |
| Protocol.GetSeqItemOrder | blue/objects.go:33-54 | subscripting checks the type's table first, then that the key is an int, and passes the key's value on unchanged |
| Protocol.NegativeIndexFails | blue/objects.go:33-54 | a negative index is not counted from the end: it fails on every sequence |
| Protocol.SetSeqItem | blue/objects.go:56-76 | a subscript store changes at most the object stored into |
| Protocol.SetSeqItemKeepsShape | blue/objects.go:56-76 | a subscript store keeps the heap well formed |
| Protocol.ReplaceScalar | blue/objects.go:56-76 | replacing an object by one of its own type keeps the heap well formed |
| Protocol.SetThenGetBit | objects/intobject.go:122-154 | a bit stored into an int reads back through the same dispatch |
| Protocol.Negate | blue/objects.go:90-99 | unary minus yields a new object or fails |
| Protocol.Complement | blue/objects.go:101-110 | bitwise complement yields a new object or fails |
| Protocol.UnaryNeedsOp | blue/objects.go:90-110 | unary minus and complement succeed exactly when the type has the operation, and otherwise fail naming the operator |
| Protocol.NumCoerce | objects/object.go:177-196 | coercion either panics on nil or yields two numbers of the same type, or refuses |
| Protocol.CoerceMeaning | objects/object.go:177-196 | coercion succeeds exactly for two numbers; an int mixed with a float becomes a float, whichever side it is on |
| Protocol.Binary | blue/objects.go:112-302 | a binary operator yields only values that fit the heap |
| Protocol.AddTriesConcatFirst | blue/objects.go:202-224 | `+` on a string is concatenation whatever the right operand |
| Protocol.MulTriesRepeatFirst | blue/objects.go:244-266 | `*` on a string or list is repetition, and a multiplier of 1 gives the same object back |
| Protocol.BinaryNeedsNumbers | blue/objects.go:112-302 | a left operand without a number table, or a pair coercion cannot join, fails naming the operator |
| Protocol.MixedArithmeticIsFloat | blue/objects.go:202-266 | int with float, in either order, is computed as a float |
| Protocol.IntDivisionByZero | blue/objects.go:268-302 | a zero int divisor fails with the int type's own message |
| Protocol.CompareMismatch | objects/object.go:203-227 | two values of different, not both numeric, types cannot be ordered and the message names both types |
| Protocol.CompareMixedNumbers | objects/object.go:203-227 | an int and a float compare as two floats, whichever side the int is on |
| Protocol.ListFirstDifference | objects/listobject.go:122-144 | lists compare as their first pair of elements that do not compare equal |
| Protocol.ListPrefixSmaller | objects/listobject.go:122-144 | a list equal to a prefix of a longer list is smaller |
| Protocol.CompareObjects | objects/object.go:203-227 | identity, then the type test, then the hook, with the list loop calling back, computes the comparison function |
| Protocol.StringDifferenceIsOrdered | objects/stringobject.go:103-120 | a string comparison that gives -2 is an ordinary order value |
| Protocol.Cmp | blue/objects.go:304-322 | a comparison operator yields true or false, or fails |
| Protocol.CmpSentinel | blue/objects.go:304-322 | -2 makes `==` false and every other operator fail, with a stale message when -2 was a byte difference |
| Protocol.CmpSign | blue/objects.go:304-322 | away from -2 each operator reads the sign of the comparison |
| Protocol.EvalCondDefault | blue/objects.go:328-334 | the default-true helper agrees with the type's hook where the hook exists; where it does not, the evaluator's direct call panics |
| Protocol.FalseValues | blue/eval.go:258 | false, nil, non-positive ints, empty strings and empty lists are false |
| Protocol.TypeInit | objects/typeobject.go:39-47 | a constructor call yields only values that fit the heap |
| Protocol.TypeInitRefuses | objects/typeobject.go:39-47 | float and nil have no constructor, and `int(...)` always fails |
| Protocol.ListOfTwo | objects/listobject.go:152-175 | `list(x, y)` is an empty list |
| Protocol.BoolOfTwo | objects/boolobject.go:56-77 | `bool(x, y)` is false |
| Heaps.InsertFunctions | blue/module.go:31 | every builtin function is filed under its name, and every name filed comes from the table |
| Heaps.Heap.constructor | blue/eval.go:35-42 | initialisation leaves one module, `system`, with `path` and `argv` lists of strings |
| Heaps.Heap.AddSystemLists | blue/sysmod.go:54-62 | the `path` and `argv` lists are stored into the system module |
| Heaps.Heap.MakeStrings | blue/sysmod.go:38-52 | a new list holding the strings in order |
| Heaps.Heap.InitModule | blue/module.go:16-36 | a module already present is returned unchanged; otherwise a builtin module holding the functions is created and filed |
| Heaps.Heap.AddModule | blue/module.go:138-144 | a new module is filed under its name, replacing any earlier one |
| Heaps.Heap.Strip | blue/eval.go:430 | one more leading argument child is removed for good |
| Semantics.Fallback | blue/eval.go:541-546 | after the first place, a name is found in globals or builtins, or fails as unresolved |
| Semantics.Resolve | blue/eval.go:531-552 | a failed name lookup reports the name as unresolved, and a lookup keeps the heap well formed |
| Semantics.ResolveOutsideClass | blue/eval.go:531-552 | outside a class body a name fails exactly when it is bound nowhere: not in the frame, not in globals, not among builtins; the nearest binding wins |
| Semantics.ClassBodySkipsLocals | blue/eval.go:531-552 | inside a class body the frame's locals are never consulted, and a member of the class shadows every global |
| Semantics.ResolveAfterBind | blue/eval.go:531-564 | a lookup right after an assignment finds the value assigned, and other names resolve as before |
| Semantics.ArityRule | blue/eval.go:143-151 | the count check passes exactly when a plain function gets one value per parameter and a starred one at least that many, the receiver counting as a value |
| Semantics.ApplyKeys | blue/eval.go:89-135 | writing the locals adds exactly the names written |
| Semantics.ApplyHolds | blue/eval.go:89-135 | with no name written twice, each name holds the value written to it |
| Semantics.WritesSnoc | blue/eval.go:89-135 | one more fixed argument adds its write at the end |
| Semantics.ApplyWritesSnoc | blue/eval.go:89-135 | binding one more fixed argument adds exactly that parameter to the locals |
| Semantics.WritesStar | blue/eval.go:89-135 | a starred function's writes end with the list bound to the starred name |
| Semantics.WritesPrefix | blue/eval.go:89-135 | values past the fixed parameters are not written to the locals |
| Semantics.WritesLayout | blue/eval.go:89-135 | the writes go one per parameter slot, up to the starred one |
| Semantics.LayoutMeaning | blue/eval.go:89-135 | writes laid out slot by slot leave the receiver, the fixed arguments and the star list under their parameters |
| Semantics.LayoutKeys | blue/eval.go:89-135 | the names such writes leave are exactly the slots' parameters |
| Semantics.BindingMeaning | blue/eval.go:89-135 | with distinct parameters: the receiver goes to the first parameter, the fixed arguments to the following ones in order, the starred name gets the list, and nothing else is bound |
| Semantics.FirstTrue | blue/eval.go:600-606 | the first true condition, every earlier one false |
| Semantics.LoopExitIndex | blue/eval.go:600-607 | the loop's exit index equals the child count exactly when the count is a multiple of three |
| Semantics.IfTaken | blue/eval.go:600-605 | the first true condition selects the block after it |
| Semantics.IfExhausted | blue/eval.go:600-609 | with every condition false the else block runs exactly when the index lands on the child count |
| Semantics.IfTailStride | parser/parser.go:381-405 | the parsed children of an `if` alternate condition and block, with an optional trailing else block |
| Semantics.IfChoiceOnParsedTree | blue/eval.go:598-610 | on parsed trees every index tested is a condition followed by a block, and the else runs exactly when it exists and every condition was false |
| Semantics.IfBlocks | blue/eval.go:598-610 | on parsed trees a block follows every condition, and a child count that is a multiple of three ends in the else block |
| Semantics.AfterStatement | blue/eval.go:624-631 | a pending break leaves the loop and a pending continue starts the next round, and nothing else does |
| Semantics.Consumed | blue/eval.go:624-631 | a break or continue is cleared once the loop has acted on it; any other flag is left as it is |
| Semantics.CallValue | blue/eval.go:732-756 | a call's value is the recorded return value after a `return`, and nil when the body ran to its end |
| Semantics.BinOp | blue/eval.go:277-360 | the binary operator nodes map to two-operand number operations |
| Semantics.AugOpIsBinOp | blue/eval.go:665-711 | `x op= y` computes what `x op y` does, reporting the operator with `=`, and exactly the ten compound kinds have an operation |
| Semantics.IntLiteral | blue/eval.go:502-507 | an integer literal gives its parsed value, except that -1 is taken as the failure value |
| Semantics.StringLiteral | blue/eval.go:496-501 | a string literal gives its decoded text exactly when decoding succeeds |
| Semantics.RangeOf | blue/eval.go:478-495 | a range literal succeeds exactly when both bounds are ints, and keeps them as its ends |
| Semantics.PrintStatus | blue/objects.go:336-345 | a value whose type has no representation is the printer's error; otherwise printing gets through, panics or does not end, exactly as the representation walk says |
| Semantics.FlatReprStatus | objects/methodobject.go:28-40 | the representation of a value that is not a list gets through or panics, never fails with a message |
| Semantics.ReprStatus | objects/listobject.go:94-107 | a nil element or one whose type has no representation panics; a list already being printed recurses without end; any other list walks its elements |
| Semantics.ElemsStatus | objects/listobject.go:99-105 | the element walk gets through, panics or does not end, never fails with a message |
| Semantics.ElemsAllShown | objects/listobject.go:99-105 | the walk over a list's elements gets through exactly when every element's representation does |
| Semantics.ElemsStopAt | objects/listobject.go:99-105 | the walk ends with the outcome of the first element whose representation does not get through |
| Semantics.ListReprWalks | blue/objects.go:336-345 | printing a list walks its elements with the list itself on the path |
| Semantics.PrintNilElementFaults | objects/listobject.go:103 | printing a list that holds Go nil panics at that element |
| Semantics.PrintSelfContainingDiverges | objects/listobject.go:103 | printing a list that holds itself recurses without end |
| Semantics.PrintRefusesModules | blue/objects.go:336-345 | printing is refused only for modules, with an empty type name in the message |
| Semantics.ListCall | objects/listobject.go:180-237 | a list method succeeds only on a list and leaves the size equal to the slice length |
| Evaluation.ArgView | blue/eval.go:430-431 | the argument children still present after leading ones were cut off, in order |
| Evaluation.ChildTexts | blue/eval.go:582-596 | the texts of a node's children, one per child, in order |
| Evaluation.StringCall | objects/stringobject.go:134-179 | a string method gives a text or a blue error, never a panic; a receiver that is not a string is an error |
| Evaluation.CallbackSpec | objects/listobject.go:180-237 | a callback that completes leaves a well-formed heap that only grew: a string method appends one string and gives it, a list method rewrites its list receiver and gives nil |
| Evaluation.Eval.constructor | blue/eval.go:48-58 | a new context has no frame, no open class, no pending jump, and is outside any function and loop |
| Evaluation.Eval.Get | blue/eval.go:531-552 | a name is resolved as the lookup function says, and the heap keeps its shape |
| Evaluation.Eval.SetGlobal | blue/eval.go:561 | a global store updates exactly that name of the globals and nothing else in the context |
| Evaluation.Eval.Set | blue/eval.go:554-564 | an assignment goes to the open class's member hook, else to the frame's locals, else to the globals, as the binding function says |
| Evaluation.Eval.Run | blue/eval.go:64-75 | the root runs in a frame without locals and the caller's frame comes back |
| Evaluation.Eval.Exec | blue/eval.go:153-529 | evaluating any node keeps the heap well formed and only extends it |
| Evaluation.Eval.ExecExpr | blue/eval.go:230-529 | evaluating any expression node keeps the heap well formed and only extends it; an unknown kind is fatal |
| Evaluation.Eval.Operand | blue/eval.go:153-529 | a missing child is an index panic |
| Evaluation.Eval.Block | blue/eval.go:137-141 | the children run in order; the block completes with no value exactly when every child completes, and otherwise ends with the first outcome that does not complete |
| Evaluation.Eval.Interactive | blue/eval.go:156-162 | the children run in order, and each non-nil result is printed as the print function says; a print refused with a message is passed over, a panic while printing ends the root |
| Evaluation.Eval.Print | blue/eval.go:458-463 | the value is printed as the print function says: a type without a representation is the printer's error, a panic passes on, and otherwise the statement completes with no value |
| Evaluation.Eval.Import | blue/eval.go:169-176 | the paths are imported in order; the statement completes with no value exactly when every path does, and otherwise ends with the first failure |
| Evaluation.Eval.ImportOne | blue/module.go:47-59 | the path, joined with the separator, is located as the locate function says; a cached module is bound under the path's base name, and a module found on the search path becomes a new module object bound under that name |
| Evaluation.Eval.LoadModule | blue/module.go:112-117 | loading a module yields a new module object |
| Evaluation.Eval.ExecModule | blue/module.go:119-144 | the new module object is appended to the heap and filed under its name in the module map before the body runs; the heap then only grows, and without fuel the run stops right there |
| Evaluation.Eval.MakeClass | blue/eval.go:177-185 | a class definition makes a new class and closes the class body |
| Evaluation.Eval.OpenClass | blue/eval.go:566-580 | the class is a new class object at the end of the heap; on completion the class body is closed and the class is bound under its name |
| Evaluation.Eval.MakeFunc | blue/eval.go:582-596 | a function definition makes a new function over the parameter names and block and binds it under its name |
| Evaluation.Eval.IfStmt | blue/eval.go:598-610 | the child run is the one the if-choice function picks from the conditions tested |
| Evaluation.Eval.WhileStmt | blue/eval.go:612-635 | a completed loop ran one round per true condition, and left when the condition turned false or when the last round broke out; no earlier round broke out, and the loop count ends one below its value at the loop's end |
| Evaluation.Eval.LoopTest | blue/eval.go:617-618 | a round's condition counts as true or false exactly as the condition hook says for its value |
| Evaluation.Eval.RunBody | blue/eval.go:622-632 | a break or continue ends the round and is cleared; otherwise every statement runs |
| Evaluation.Eval.Jump | blue/eval.go:198-219 | return outside a function and break or continue outside a loop are errors; a return unwinds; break and continue set the flag |
| Evaluation.Eval.Assign | blue/eval.go:637-654 | a name, member or subscript target receives the value as the binding, member-store or item-store function says; any other left-hand side stores nothing and leaves the heap unchanged |
| Evaluation.Eval.AssignMember | blue/eval.go:643-646 | the member named on the left of the evaluated object receives the value as the member-store function says |
| Evaluation.Eval.AssignItem | blue/eval.go:647-651 | the item at the evaluated key of the evaluated object receives the value as the item-store function says |
| Evaluation.Eval.StoreMember | blue/objects.go:22-31 | the heap becomes what the member-store function gives |
| Evaluation.Eval.StoreItem | blue/objects.go:56-76 | the heap becomes what the item-store function gives |
| Evaluation.Eval.AugAssign | blue/eval.go:665-711 | the target and the operand are combined by the binary operation of the compound operator; the combined value is stored where the target names, and a failed operation stores nothing |
| Evaluation.Eval.StoreResult | blue/eval.go:697-710 | the combined value is stored through the binding, member-store or item-store function for the target's kind; any other target stores nothing |
| Evaluation.Eval.StoreThrough | blue/eval.go:701-708 | a member or subscript target evaluates its object and key again and stores the combined value through the member-store or item-store function |
| Evaluation.Eval.Logic | blue/eval.go:230-262 | `&&`, `||` and `!` give true or false from the operands' truth, the right operand evaluated only when needed |
| Evaluation.Eval.Arithmetic | blue/eval.go:263-360 | the result is the negation, complement or binary operation of the evaluated operands, made a reference on the heap; a failure passes on with the heap unchanged |
| Evaluation.Eval.Comparison | blue/eval.go:361-369 | a comparison yields what the comparison and the operator check give |
| Evaluation.Eval.Member | blue/eval.go:376-382 | the result is the member lookup on the evaluated object, made a reference on the heap; a lookup that gives nil is an error and a failed one passes on |
| Evaluation.Eval.Subscript | blue/eval.go:464-471 | the result is the item lookup on the evaluated object and key, made a reference on the heap; a failure passes on with the heap unchanged |
| Evaluation.Eval.ListNode | blue/eval.go:472-477 | a list literal holds exactly the element values in order, with its size their count |
| Evaluation.Eval.RangeNode | blue/eval.go:478-495 | a new range object is appended to the heap exactly as the range function builds it from the two evaluated bounds; a failure passes on |
| Evaluation.Eval.Literal | blue/eval.go:496-519 | literals give their decoded value, and true, false and nil give the singletons |
| Evaluation.Eval.Call | blue/eval.go:399-457 | a callee that is not callable is refused with its type's name, and Go nil panics; a builtin gives what its callback gives on the evaluated arguments; a user function gives the returned value or nil; a nil result is an error |
| Evaluation.Eval.CallGMethod | blue/eval.go:406-435 | an unbound builtin method needs a first argument of its type, which becomes the receiver; the result is what the method's callback gives on that receiver |
| Evaluation.Eval.EvalArgs | blue/eval.go:713-730 | one value per argument node present at the start |
| Evaluation.Eval.CallBuiltin | blue/eval.go:713-730 | a builtin flagged as taking no arguments refuses any before evaluating them; otherwise its callback runs on one value per argument node, as the callback function says |
| Evaluation.Eval.RunCallback | objects/listobject.go:180-237 | the new heap and the result are what the callback function says: string methods allocate their result; list methods store the receiver's new contents and give nil; other modules' callbacks give what the host gives |
| Evaluation.Eval.BuildLocals | blue/eval.go:89-135 | the arity check comes first; then the locals hold what the binding writes say and the star list holds the extra values |
| Evaluation.Eval.FillLocals | blue/eval.go:89-135 | the receiver, the fixed arguments and the star arguments are bound in that order |
| Evaluation.Eval.FinishLocals | blue/eval.go:114-133 | the star parameter is bound to the list, which receives the receiver and the extra arguments |
| Evaluation.Eval.FixedArgs | blue/eval.go:123-127 | each fixed argument is evaluated once, in order, and written under its parameter |
| Evaluation.Eval.StarArgs | blue/eval.go:129-131 | each remaining argument is evaluated once, in order |
| Evaluation.Eval.Invoke | blue/eval.go:448-457 | a user function call yields the recorded return value or nil, leaving the function and loop state cleared |
| Evaluation.Eval.CallFunction | blue/eval.go:732-756 | the call leaves the frame and yields the return value or nil, and a blue error passes on |
| Evaluation.Eval.MakeInstance | blue/eval.go:383-398 | a class makes a new instance at the end of the heap; a type object calls its constructor as the type's init function says; any other value gives nil and leaves the heap unchanged |
| Evaluation.Eval.NewInstanceOf | blue/eval.go:758-774 | the new instance is the result; a class with no `__init__` runs nothing |
| Evaluation.Eval.RunInit | blue/eval.go:758-774 | no `__init__` means nothing runs and the heap is left as it was |
| Evaluation.Eval.CallType | blue/eval.go:776-782 | the type's init function runs on one value per argument node and its value is made a reference; a nil result is an error |
| Loader.JoinSnoc | blue/module.go:50-55 | joining one more name appends the separator and the name |
| Loader.JoinPath | blue/module.go:48-56 | the loop writes the names joined by the separator |
| Loader.TrimSeparators | blue/module.go:57 | a prefix of the path with no trailing separator |
| Loader.Base | blue/module.go:57 | the base name is never empty |
| Loader.BaseOfImportPath | blue/module.go:47-58 | the module name of an import is its last component |
| Loader.PathLongerThanName | blue/module.go:47-58 | a path of several components differs from its last component |
| Loader.SearchSpec | blue/module.go:76-109 | the search either finds a module or fails with the "failed to load module" message |
| Loader.SearchSkips | blue/module.go:83-87 | entries that hold nothing for this import are passed over |
| Loader.DirectoryStopsSearch | blue/module.go:92-98 | a directory without the module file ends the search with the failure, even when a later entry holds the module |
| Loader.LocateModule | blue/module.go:61-110 | the loop over the search path computes the locate function |
| Loader.LocateMissesUncached | blue/module.go:65-68 | a path that is not a key of the module map is never answered from it |
| Loader.CacheByPathAddByName | blue/module.go:65-141 | modules are looked up by path but filed by name, so only a one-name import is found again |
| FileModes.FirstBad | objects/fileobject.go:47-72 | the first character outside "rwat" from a position on, every earlier one being a mode character |
| FileModes.SetModeBits | objects/fileobject.go:47-72 | the one-pass loop with its two adjustments computes the mode's flag word, or the error for the first bad character |
| FileModes.ModeRefused | objects/fileobject.go:47-72 | a mode is refused exactly when a character is outside "rwat", and the message names the first such character |
| FileModes.ModeFlags | objects/fileobject.go:47-72 | creation follows 'w', append 'a', truncate 't', read-write 'w' with 'r', write-only 'w' without 'r' |
| FileModes.CommonModes | objects/fileobject.go:47-72 | "r" is read-only with no flag, "w" creates for writing, "rw" creates for reading and writing, "x" is refused |
| FileModes.ModeIsCharacterSet | objects/fileobject.go:50-72 | an accepted mode gives the same flags as any mode holding the same characters, whatever their order or repetition |

## Left out

- Float arithmetic: a float is an opaque term. Its comparison, zero test and conversion to int come from a `FloatSem` parameter, and the int-to-float conversion of coercion is an uninterpreted constructor. IEEE-754 rounding and `%f` formatting are not modelled.
- `parseFloat` and the FLOAT literal: a float literal is kept as its text.
- Printed text: `blPrint` is modelled for its outcome (`Semantics.PrintStatus`). It can get through, fail with a message, panic, or recurse without end on a list that holds itself. The text written to standard output, and the decimal rendering of numbers inside `repr`, are not modelled.
- The file, socket and time types, the `system` module's streams, `exit`, and the REPL: these are host I/O. Builtin callbacks of modules other than strings and lists are a host parameter that gives a value or an error message and touches no object.
- File opening: only `setModeBits` of objects/fileobject.go is modelled. `blFileInit` and the file methods are operating-system calls.
- The filesystem: `blLocateModule` reads files through an oracle from a path to an optional source text. A directory is a path the oracle marks as one. `os.Stat` errors other than "not found" are not modelled.
- Trace output: the trace function called at `err:` renders the frame and has no effect the model needs.
- objects/mapobject.go, objects/rangeobjects.go and `blGetSlice`: they are not registered in the type table or do not compile against the declared types, so they are not part of this model.
- Evaluator fuel: `Eval.WhileStmt`, nested calls, list comparison (`Protocol.CompareSpec`) and module loading carry a fuel bound. An exhausted bound gives `Diverged`, so a program that does not terminate is not modelled beyond the bound.
- Evaluation.Eval.Exec: states that the heap stays well formed and only grows. It does not compare the result of a whole evaluation with a separate big-step semantics. Each node kind's own method ties its result and its new heap to the specification function for that kind. For example, `Eval.Member` is tied to `Protocol.GetMemberOf`, `Eval.Assign` to `Protocol.SetMemberOf` and `Protocol.SetSeqItem`, and `Eval.Call` to `Evaluation.CallbackSpec` and `Semantics.CallValue`.
- Parsing.Parser: builds immutable tree values instead of mutating `Node` objects. The `Node` class and its in-place `Add`/`GiveRootTo` are modelled separately (module Interm).
- Evaluation.Eval.CallGMethod: the in-place stripping of the receiver from an argument node (`args.Children = args.Children[1:]`) is recorded in a side table keyed by node identity (`Heaps.Heap.Strip`), not as an update of a shared `Node`.
- Evaluation.Eval.ExecModule: `blExecModule` ignores the result of running the module and returns the module. The model returns the module when the body completes. It passes on an error raised while running the body, which the source reports through its trace function.
- Evaluation.Eval.OpenClass: the result of binding the class name through `set` is ignored, as in `exec`.
- Evaluation.Eval.BuildLocals: a function whose `ParamLen` exceeds its parameter names cannot come from the parser. For such a function the model gives `Fault` before evaluating any argument (`Semantics.Bindable`). The source would panic inside the binding loop, after evaluating the arguments bound before the missing slot.
- Loader.LocateModule: a missing `system` module is an internal error in the source. It prints to standard error and exits the process with status 0. The model gives an ordinary `Error` with the same message.
- StringObjects.ConcatMethod: a receiver that is not a string is an internal error in the source (print and exit). The model gives an ordinary `Error`.
- StringObjects.ToUpper: as for `ConcatMethod`, a receiver that is not a string exits the process in the source. The model gives an ordinary `Error`.
- StringObjects.ToLower: as for `ConcatMethod`, a receiver that is not a string exits the process in the source. The model gives an ordinary `Error`.
- ListObjects: `lsize == len(list)` is stated as a predicate (`ListObjects.IsList`) that every operation preserves. A list that breaks it cannot be built through the modelled operations.
- IntObjects.AssItem: the mask for bit 63 comes from `math.Pow` through a float conversion. The model takes the amd64 result, the most negative int64.
- Scanning: the colon token is given the text "(" as the scanner writes it. The model keeps that text.
- SmallTypes.NilRepr: states the shape of the text ("nil" has three letters and starts with 'n') rather than repeating the literal.
- Values.TypeTable: the module type is never initialised by `blInitModule` (objects/moduleobject.go), so its table is empty: no hooks and an empty name.
