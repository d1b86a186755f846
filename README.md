# jpath query pipeline in Dafny

This project models the core of jpath, a JSON path query language. It covers the four stages a query goes through, each with contracts and proofs:

- **Tokenizer** (`src/tokenizer.js`). A character scanner with a mutable position, line and column. It trims the query and runs thirteen readers in a fixed order to produce nineteen kinds of tokens. It is wrapped in a lazily filled cursor with `next`, `peek`, `prev`, `eof`, `readAll` and `remaining`.
  - Module `Scan` (scan.dfy) states every reader, the whole token stream and the cursor as functions.
  - Class `Tokenizing.Tokenizer` (tokenizer.dfy) keeps the closure's state in fields. Its methods are proved to compute those functions.
- **Parser** (`src/lexer.js`). `scanStatement` is recursive descent over the cursor.
  - Module `LexSpec` (lexspec.dfy) states it as mutually recursive functions over the token stream.
  - Module `Lexer` (lexer.dfy) holds the imperative `while (next())` loop and its helpers, working over the `Tokenizer` object and a mutable `Ast.StatementNode`. They are proved equal to `LexSpec`.
  - `LexExamples` holds the operator error cases, proved on concrete token streams.
- **Evaluator** (`src/taxonomy.js`). Each node's `build()` returns a function from a context `{root, scope, current, key, index}` to a list of values.
  - `Taxonomy.Eval` states those functions.
  - The loops and walkers of module `Evaluator` (the statement loop, the union and filter accumulators, and the two `Recursive` walkers as classes holding `seen` and `results`) are proved to compute `Eval`.
  - `Slicing` holds the slice arithmetic and the stepping loops.
- **Operator table** (`src/operators.js`). `parseOperators` splits names into words and symbols and sorts the symbols. The sequence-logic entries are functions in module `Operators`.

Data values are `Undefined | Null | Bool | Num(real) | Str | Ref(address)` over a store of array and object nodes (`Values`). Object identity is the address, so the `seen` set of `Recursive` is a `set<nat>`, and walks end on cyclic data. Operators the model does not interpret are applied through a `Foreign` oracle that the caller passes in. A compiled query applied to data starts from the context `{root: data, scope: data, current: [data]}` (`src/index.js:22`), which is `Taxonomy.Start`.

## Model

| member | source | states |
|---|---|---|
| Tokens.TrimCutsSpace | src/tokenizer.js:99 | The trimmed query is one contiguous piece of the input. Only white space and line terminators are cut from either end, and the piece neither starts nor ends with one. |
| Tokens.TrimAllSpace | src/tokenizer.js:99 | An input made only of white space trims to the empty string. |
| Tokens.TrimStartCuts | src/tokenizer.js:99 | Trimming the front drops exactly the leading run of white space. |
| Tokens.TrimEndCuts | src/tokenizer.js:99 | Trimming the back drops exactly the trailing run of white space. |
| Scan.Advance | src/tokenizer.js:156-161 | `move` advances by the requested amount but never past the end of the input, and never moves the line and column back. |
| Scan.Track | src/tokenizer.js:143-161 | Reading a stretch never moves the line and column back: an earlier line, or the same line and a column not before. |
| Scan.TrackCountsLineBreaks | src/tokenizer.js:143-161 | After moving across a stretch of input, the line number has grown by the number of CR, LF and CRLF breaks in it, with CRLF counting once. This is the corrected `parseChar`. |
| Scan.TrackCompose | src/tokenizer.js:156-161 | Moving k characters and then the rest tracks lines and columns the same as one move across all of them. |
| Scan.CrLfCountsTwiceAsWritten | src/tokenizer.js:143-154 | As written, `a\r\nb` ends on line 3: the CRLF counts as two breaks. |
| Scan.CrLfCountsOnce | src/tokenizer.js:143-154 | With the corrected line tracking, `a\r\nb` ends on line 2, column 2. |
| Scan.WsEnd | src/tokenizer.js:167-173 | The whitespace loop stops at the first character that is not code 1-14, a space or a no-break space, and everything it skipped is such a character. |
| Scan.ReadWhitespace | src/tokenizer.js:167-177 | Never raises. When it produces a token, it consumed at least one character and the token carries the start line and column. |
| Scan.ReadSingle | src/tokenizer.js:179-220 | A bracket, parenthesis or brace reader accepts exactly when the current character is its character. |
| Scan.IdentEnd | src/tokenizer.js:290-293 | The identifier loop consumes identifier characters up to the first other character. |
| Scan.ClassifyWord | src/tokenizer.js:295-301 | `true`, `false` and `null` give a primitive-literal token with that value. `$` gives a target token. A name in WORDS gives an operator token. Every other word gives an identifier token. Each case holds if and only if its condition does. |
| Scan.ReadIdentifier | src/tokenizer.js:285-303 | Accepts exactly when the current character is an identifier character and not a digit, and never raises. |
| Scan.ReadNumber | src/tokenizer.js:305-336 | The corrected number reader never raises. It declines exactly when the character is neither a digit nor a minus or period followed by a digit, or is a minus that may not start a number. A minus may start one only when no token precedes it or the previous token's kind is in NUMBERS_CAN_FOLLOW. An accepted token is a number token whose text is the input from the position up to `NumberEnd`, and the scanner moves just past it. |
| Scan.NumberEndExtent | src/tokenizer.js:312-331 | Every character the number loop takes is a digit, a period, or a minus at the start, and at most one is a period. It stops at the end of the input, at a minus after the start, at a second period, or at any other character. |
| Scan.NumberDroppedAsWritten | src/tokenizer.js:312-321 | As written, in `#2-1` the digit `2` is consumed without any token. The corrected reader yields the token `2`. |
| Scan.UnescapeEscape | src/tokenizer.js:345-350 | Removing every backslash escape undoes escaping a string's backslashes and fence. |
| Scan.UnescapeFirstKeepsLaterEscapes | src/tokenizer.js:350 | As written, `replace` without `/g` leaves the second escape of `a\'b\'c` in place. Removing every escape yields `a'b'c`. |
| Scan.StringEnd | src/tokenizer.js:344-355 | The closing fence the string loop finds is a fence character inside the input, at or after the start. |
| Scan.ReadString | src/tokenizer.js:338-357 | Declines exactly when the current character is not a quote. It raises only for an unterminated string, and the error carries the string's start line and column. |
| Scan.StringRoundTrip | src/tokenizer.js:338-357 | A quoted, escaped string is read back as exactly its contents and consumes exactly its quoted length. |
| Scan.StringEndEscaped | src/tokenizer.js:344-355 | An escaped fence inside a string never ends it. The first unescaped fence does. |
| Scan.Split | src/tokenizer.js:387 | `split('/')` gives at least one piece, and no piece contains the separator. |
| Scan.JoinSplit | src/tokenizer.js:387 | Joining the pieces of a split gives back the text. |
| Scan.RegexEnd | src/tokenizer.js:366-385 | The regular-expression loop ends inside the input. Once the closing slash is seen, the expression stays closed while flag letters are read. |
| Scan.RegexGuardAsWrittenMisreads | src/tokenizer.js:361 | As written, the guard looks two characters ahead: `/a/` is refused and `//` is taken as a regular expression. |
| Scan.ReadRegularExpression | src/tokenizer.js:359-396 | Declines exactly when the input is not at a slash or the slash is followed by another slash (the corrected guard). Raises exactly for an unterminated expression, at the start line and column. An accepted token is a RegExp pattern whose source and flags contain no slash, and the position moves to where `Scan.RegexEnd` stops. |
| Scan.RegexEndPattern | src/tokenizer.js:375-384 | Pattern characters other than slash, backslash and NUL leave the expression open. |
| Scan.RegexEndFlags | src/tokenizer.js:367-374 | After the closing slash, the loop reads the letters of the flags and stops at the first other character. |
| Scan.SplitAt | src/tokenizer.js:387 | `split` ends the first piece at the first separator. |
| Scan.SplitNone | src/tokenizer.js:387 | Text without the separator splits into one piece. |
| Scan.RegexRoundTrip | src/tokenizer.js:359-396 | `/p/f` reads as the pattern `p` with flags `f` and consumes exactly `|p| + |f| + 2` characters. Here `p` is non-empty and has no slash, backslash or NUL, and `f` is letters followed by a non-letter or the end. |
| Scan.FirstMatch | src/tokenizer.js:273-280 | The first SYMBOLS row, in order, whose character codes match at the position, or none when no row matches. |
| Scan.ReadOperator | src/tokenizer.js:223-282 | Never raises. An accepted token starts at the current position and consumes at least one character. |
| Scan.LongestOperatorWins | src/tokenizer.js:273-279 | With SYMBOLS sorted, any matching symbol makes the reader produce an operator token. The token spells exactly the input it covers and is at least as long as every matching symbol, and the position moves past exactly that many characters. |
| Scan.RunReader | src/tokenizer.js:405-419 | Every reader in `read.order` either declines, consumes input and produces a token at the start position, or raises. |
| Scan.ReadFrom | src/tokenizer.js:398-404 | Trying the readers in order never declines: some reader takes the character, one raises, or the scan raises an unknown token. An accepted token starts at the current position and moves forward. |
| Scan.ReadToken | src/tokenizer.js:398-404 | A `read()` before the end produces a token starting at the current line and column and moves forward, or raises. |
| Scan.ScanTokensOrdered | src/tokenizer.js:398-404 | A scan makes at most one token per character. The first token starts at the scan's start position, and every token starts at or after the one before it by line and column. |
| Scan.EmptyInputNoTokens | src/tokenizer.js:99-100 | An empty or all-white-space query gives no tokens and no error. |
| Scan.NoReaderUnknownToken | src/tokenizer.js:400-403 | When every reader declines at a position, the scan raises "Unknown token" at that line and column. |
| Scan.UnknownCharacter | src/tokenizer.js:403 | `^` is refused by every reader: the stream has no tokens and stops with an unknown-token error at 1:1. |
| Scan.CursorNext | src/tokenizer.js:446-451 | `next` returns the first non-whitespace token after the cursor and skips only whitespace tokens. It returns nothing past the end and propagates a scan error. |
| Scan.CursorPeek | src/tokenizer.js:459-464 | `peek(delta)` returns the first non-whitespace token at or after `tindex + delta`, skipping only whitespace. |
| Scan.CursorPrev | src/tokenizer.js:452-458 | From `tindex >= 0`, `prev` never goes below 0; from -1 it moves to -2, since the `!tindex` test does not stop it there. It steps back over whitespace only and stops on a non-whitespace token. |
| Scan.PrevUndoesNext | src/tokenizer.js:452-458 | `prev` from a position separated from a non-whitespace token by whitespace only lands on that token, so it undoes `next`. |
| Tokenizing.SliceFrom | src/tokenizer.js:440 | `tokens.slice(tindex)`, including JavaScript's reading of a negative start. |
| Tokenizing.Tokenizer.constructor | src/tokenizer.js:92-107 | The input is trimmed. WORDS and SYMBOLS come from `parseOperators`. The scanner starts at position 0, line 1, column 1 with no tokens, `tindex` -1 and no previous token. The tokens it will produce are those of the pure scan of the trimmed input. |
| Tokenizing.Tokenizer.TokensSoFar | src/tokenizer.js:109-114 | The tokens pushed so far are a prefix of the whole token stream. |
| Tokenizing.Tokenizer.PeekChar | src/tokenizer.js:137-141 | `peek(delta)` is the character at `pos + delta`, or nothing outside the input. |
| Tokenizing.Tokenizer.ParseChar | src/tokenizer.js:143-154 | Updates line and column for one character as the corrected line tracking does. |
| Tokenizing.Tokenizer.Move | src/tokenizer.js:156-161 | Moves the position, line and column exactly as `Scan.Advance` says. |
| Tokenizing.Tokenizer.PushToken | src/tokenizer.js:109-114 | `token()` appends the token and records it as the previous one. |
| Tokenizing.Tokenizer.ReadWhitespace | src/tokenizer.js:167-177 | The loop's outcome, new position and pushed token are those of `Scan.ReadWhitespace`. |
| Tokenizing.Tokenizer.ReadSingle | src/tokenizer.js:179-220 | As `Scan.ReadSingle`. |
| Tokenizing.Tokenizer.ScanIdentifier | src/tokenizer.js:290-293 | The loop stops at `Scan.IdentEnd`. |
| Tokenizing.Tokenizer.ReadIdentifier | src/tokenizer.js:285-303 | As `Scan.ReadIdentifier`. |
| Tokenizing.Tokenizer.ScanNumber | src/tokenizer.js:312-331 | The `do` loop stops at `Scan.NumberEnd`. |
| Tokenizing.Tokenizer.ReadNumber | src/tokenizer.js:305-336 | As `Scan.ReadNumber`. |
| Tokenizing.Tokenizer.ScanString | src/tokenizer.js:343-355 | The loop finds the closing fence exactly when `Scan.StringEnd` does, and stops there. |
| Tokenizing.Tokenizer.ReadString | src/tokenizer.js:338-357 | As `Scan.ReadString`. |
| Tokenizing.Tokenizer.ScanRegex | src/tokenizer.js:364-385 | The loop ends where `Scan.RegexEnd` says, closed or not. |
| Tokenizing.Tokenizer.ReadRegularExpression | src/tokenizer.js:359-396 | Equal to `Scan.ReadRegularExpression`. It declines exactly off a lone slash, raises exactly for an unterminated expression, and pushes a slash-free pattern and flags. By `Scan.RegexRoundTrip`, `/p/f` is read back as `p` and `f`. |
| Tokenizing.Tokenizer.MatchChars | src/tokenizer.js:129-135 | True exactly when the input at the position continues with the given character codes. |
| Tokenizing.Tokenizer.ReadOperator | src/tokenizer.js:223-282 | As `Scan.ReadOperator`. |
| Tokenizing.Tokenizer.RunReader | src/tokenizer.js:405-419 | Running one reader of the order behaves as `Scan.RunReader`. |
| Tokenizing.Tokenizer.Read | src/tokenizer.js:398-404 | At the end, `read()` changes nothing. Otherwise it behaves as `Scan.ReadToken`. A raised error is the stream's error, and the tokens read so far are the whole stream. |
| Tokenizing.Tokenizer.AtEnd | src/tokenizer.js:427-429 | `eof` holds exactly when the scan ended cleanly and `tindex` is at or past the last token. |
| Tokenizing.Tokenizer.Fill | src/tokenizer.js:448 | Reading on until the token at `idx` exists either succeeds or ends at the end of the input with every token read. An error is the stream's error. |
| Tokenizing.Tokenizer.Next | src/tokenizer.js:446-451 | The token returned and the new `tindex` are those of `Scan.CursorNext`. |
| Tokenizing.Tokenizer.Peek | src/tokenizer.js:459-464 | The token returned is that of `Scan.CursorPeek`, and `tindex` does not move. |
| Tokenizing.Tokenizer.Prev | src/tokenizer.js:452-458 | The new `tindex` is `Scan.CursorPrev`, and the token returned is the one there. |
| Tokenizing.Tokenizer.ReadAll | src/tokenizer.js:434-437 | Returns the whole token stream, or the scan error. |
| Tokenizing.Tokenizer.Remaining | src/tokenizer.js:438-441 | Returns the stream from `tindex` on, or the scan error. |
| Ast.StatementNode.constructor | src/taxonomy.js:91-93 | A new statement has no units. This is the corrected behaviour; see Findings for `src/lexer.js:122`. |
| Ast.StatementTypeAsUnitsAsWritten | src/lexer.js:122 | As written, `units` holds the statement type's text: a fresh root statement has length 4, and `push` on it throws. Only a statement that was reset holds a list. |
| Ast.StatementNode.Push | src/taxonomy.js:95-97 | `push` appends the unit at the end and increases `length` by one. |
| Ast.StatementNode.Length | src/taxonomy.js:99-101 | `length` is the number of units. |
| Ast.StatementNode.Reset | src/taxonomy.js:103-105 | `reset` empties the statement, so `length` is 0. |
| Ast.StatementNode.Node | src/lexer.js:353 | The statement as a tree node holds exactly its units. |
| LexSpec.PeekTok | src/lexer.js:104-108 | `peek()` from the cursor is the next non-whitespace token with its index. It is nothing only when the scan ended cleanly with only whitespace left, and otherwise it is the scan's error. |
| LexSpec.NextRequired | src/lexer.js:85-98 | `next(kind, true)` raises BAD_TOKEN exactly when a next token exists with another kind. Otherwise it moves onto the token, or stays put at the end. |
| LexSpec.PeekBack | src/lexer.js:235 | `peek(type, -1)` sees the token just before the current one when that token is not whitespace. A token of another kind than the current one can only be that token. |
| LexSpec.LiteralValue | src/lexer.js:145-146 | Number tokens become `Number(contents)`. Strings, `true`, `false` and `null` become their values. |
| LexSpec.LiteralUnit | src/lexer.js:148-151 | A literal stands for itself exactly when the statement is still empty and the next token is neither an identifier nor a literal. Otherwise it becomes `Descend(value)`. |
| LexSpec.TargetUnit | src/lexer.js:217-224 | `$ @ # %` map to Root, Scope, Key and Index, and no other text is a target. |
| LexSpec.TargetStep | src/lexer.js:210-226 | Later in a statement a target character becomes `Descend(char)`. At the start one of `$ @ # %` becomes a single unit that is not a Descend, and any other target raises BAD_TOKEN. |
| LexSpec.Bracketed | src/lexer.js:356-366 | The contents of `[...]`: a Slice is kept as is, a Literal becomes `Descend(value)`, anything else becomes `Descend(subtree)`. |
| LexSpec.Collapse | src/lexer.js:376-378 | At the end of input, one unit collapses to itself, several form a Statement, and none raises UNEXPECTED_EOL. |
| LexSpec.Raise | src/lexer.js:111-119 | `wtf` reads `peek(1)` before it throws. If that token has a scan error, that error is raised; otherwise the syntax error is. |
| LexSpec.Close | src/lexer.js:348-354 | At a close delimiter, one unit collapses to itself. An empty statement fails exactly at depth 0. The error is UNEXPECTED_CLOSE, or the scan error of the next token if it has one. |
| LexSpec.DescentUnit | src/lexer.js:233-238 | The corrected rule: a word operator after `.` is the property of that name, and after `..` a recursive search for it. |
| LexSpec.DescentAsWrittenDropsName | src/lexer.js:235-238 | As written, the test looks at the operator token itself, so after `.` nothing is pushed. The corrected rule pushes `Descend(name)`. |
| LexSpec.AfterOperator | src/lexer.js:247-264 | After a non-postfix operator, end of input, `]` or `)` raises UNEXPECTED_EOL. `,`, `:` and `.` raise BAD_OPERATOR. Another operator raises BAD_OPERATOR exactly when it is infix. |
| LexSpec.Stmt | src/lexer.js:121-124 | `scanStatement` ends at or after its start on a token boundary. Its result is collapsed: never a one-unit statement, and never an empty one at depth 0. |
| LexSpec.Loop | src/lexer.js:124-378 | The `while (next())` loop keeps every pushed unit collapsed and returns a collapsed unit. |
| LexSpec.StepFrom | src/lexer.js:126-373 | One token of the loop either continues with collapsed units or returns a collapsed unit, never moving the cursor backwards. |
| LexSpec.OpenStep | src/lexer.js:130-138 | `(`, `{` and `[` never end the statement. The loop continues past the group with collapsed units. |
| LexSpec.CloseStep | src/lexer.js:348-354 | A close delimiter returns the single unit or the statement, and fails exactly for an empty statement at depth 0. |
| LexExamples.CloseBeforeBadString | src/lexer.js:348-354 | `)'a` raises the unterminated string, not UNEXPECTED_CLOSE. |
| LexSpec.LiteralStep | src/lexer.js:145-153 | A literal appends one non-statement unit after the existing ones, `Descend(value)` when units exist. A scan error from looking ahead is propagated. |
| LexSpec.RecurseStep | src/lexer.js:155-208 | `..` appends exactly one Recursive unit and moves past what it consumed. A symbol operator after `..` that is not postfix raises BAD_OPERATOR, or the scan error of the token after it. |
| LexSpec.RecurseOperator | src/lexer.js:178-191 | An operator after `..` appends one Recursive unit without moving the cursor. A word is searched for by name. A symbol that is not postfix raises BAD_OPERATOR, or the scan error of the token after it. |
| LexSpec.FilterBody | src/lexer.js:340-346 | `?` needs `(`: another token raises BAD_TOKEN. Otherwise the result is a Filter node. |
| LexSpec.RecurseBracket | src/lexer.js:161-171 | `..[` yields a recursive Filter for `?(...)` and a recursive Descend otherwise. |
| LexSpec.OperatorStep | src/lexer.js:229-292 | An unknown operator raises BAD_TOKEN, or the scan error of the token after it. An infix operator returns an Operand whose left operand is the non-empty statement so far and whose right operand is the rest. |
| LexSpec.GroupPass | src/lexer.js:310-336 | One round of the `do...while` loop adds a member and grows the group as `Grew` says, then continues only at a `,` or `:`. |
| LexSpec.GroupStep | src/lexer.js:293-337 | A `:` or `,` ends the statement with a Slice or Union whose first member is the statement so far; the unit returned has grown from that one-member group as `LexSpec.GroupFrom` says. |
| LexSpec.GroupFrom | src/lexer.js:294-338 | The returned node is built from the group it started with. A Slice or Union keeps the members so far, starting with the statement before the first separator, and adds at least one after them in order. A Slice turned Hashmap keeps all its members as `from`. A Union turned Hashmap keeps all but its last member as `from`, and the last one is the key of the first two-segment entry. A Hashmap keeps `from` and its entries and adds more after them. |
| LexSpec.Regroup | src/lexer.js:311-320 | A `,` inside a slice, or a `:` inside a union, turns the group into a hashmap, which takes the union's last member as the first segment. |
| LexSpec.GroupMember | src/lexer.js:322-334 | Scanning a member keeps the group's kind. A Slice or Union gets exactly one more member at its end. A Hashmap keeps `from` and gets one more entry that extends the pending segments, with at most two segments. |
| LexSpec.RewindReturns | src/lexer.js:100-102 | `rewind()` after a `next()` returns the cursor to where it stood. |
| LexSpec.Lex | src/lexer.js:381-386 | A successful parse is a collapsed tree. |
| Lexer.PeekIsNext | src/lexer.js:85-98 | `peek()` followed by `next()` yields the same token. |
| Lexer.NextOf | src/lexer.js:85-98 | `next(type, required)` moves onto the next token when it has the kind. Otherwise it raises when required, or leaves the cursor where it was. |
| Lexer.PeekNext | src/lexer.js:104-108 | `peek()` returns `LexSpec.PeekTok` and leaves `tindex` alone. |
| Lexer.PeekBefore | src/lexer.js:235 | `peek(type, -1)` returns `LexSpec.PeekBack` and leaves `tindex` alone. |
| Lexer.ScanStatement | src/lexer.js:121-379 | The imperative loop computes `LexSpec.Stmt`. |
| Lexer.Dispatch | src/lexer.js:124-373 | One iteration of the loop computes `LexSpec.StepFrom`. |
| Lexer.OpenStatement | src/lexer.js:130-138 | As `LexSpec.OpenStep`. |
| Lexer.CloseStatement | src/lexer.js:348-354 | As `LexSpec.Close`. For an empty statement at depth 0 it peeks the next token and raises that token's scan error, if any, before UNEXPECTED_CLOSE. |
| Lexer.ScanLiteral | src/lexer.js:145-153 | As `LexSpec.LiteralStep`. |
| Lexer.ScanRecurse | src/lexer.js:155-208 | As `LexSpec.RecurseStep`, including the peek before BAD_OPERATOR. |
| Lexer.ScanRecurseOperator | src/lexer.js:178-191 | As `LexSpec.RecurseOperator`, including the peek before BAD_OPERATOR. |
| Lexer.ScanFilter | src/lexer.js:340-346 | As `LexSpec.FilterBody`. |
| Lexer.ScanRecurseBracket | src/lexer.js:161-171 | As `LexSpec.RecurseBracket`. |
| Lexer.ScanOperator | src/lexer.js:229-292 | As `LexSpec.OperatorStep`, including the peek before BAD_TOKEN. |
| Lexer.ScanGroup | src/lexer.js:294-338 | As `LexSpec.GroupFrom`, so the node it returns keeps the statement so far as its first member and the members in order, or hands them to the Hashmap as that row says. |
| Lexer.GroupRound | src/lexer.js:310-336 | As `LexSpec.GroupPass`. |
| Lexer.NextSeparator | src/lexer.js:336 | `next(T_SLICE) \|\| next(T_UNION)` moves onto a separator and returns it, or leaves the cursor where it was. |
| Lexer.ScanMember | src/lexer.js:322-334 | As `LexSpec.GroupMember`. |
| Lexer.Lex | src/lexer.js:381-386 | Lexing a fresh tokenizer computes `LexSpec.Lex` over its whole token stream. That includes the leftover-token test, which raises THATS_A_BUG. |
| LexExamples.InfixWithoutLeft | src/lexer.js:267-270 | `in 5` raises BAD_OPERATOR. |
| LexExamples.InfixNeedsLeft | src/lexer.js:267-270 | An infix operator at the start of a statement raises BAD_OPERATOR. |
| LexExamples.InfixWithoutRight | src/lexer.js:247-249 | `5 in` raises UNEXPECTED_EOL. |
| LexExamples.InfixAtEnd | src/lexer.js:247-249 | After the literal `5`, an infix operator at the end of input raises UNEXPECTED_EOL. |
| LexExamples.InfixNeedsRight | src/lexer.js:247-249 | Any non-postfix operator at the end of input raises UNEXPECTED_EOL. |
| LexExamples.LiteralBeforeInfix | src/lexer.js:145-151 | `5` followed by an operator is a Literal. |
| LexExamples.LiteralLooksAhead | src/lexer.js:149-151 | The literal rule looks past whitespace to the operator. |
| Operators.Lookup | src/lexer.js:230-231 | `operators[name]` finds an entry with that name, and finds none exactly when no entry has it. |
| Operators.ParseOperators | src/operators.js:105-126 | WORDS is exactly the letter-initial names, in table order. SYMBOLS is sorted by `symbolsort` and is a permutation of the other names' rows. |
| Operators.ParsedSymbols | src/operators.js:119-123 | The sorted SYMBOLS is the one sorted arrangement of the rows, whatever sort algorithm the host uses. Each row is a non-empty name with its character codes. |
| Operators.Partition | src/operators.js:111-121 | Every name of the table is in WORDS exactly when `operatorIsWord` holds, and has a SYMBOLS row exactly when it does not. Every row's codes are its name's codes. |
| Operators.WordNamesMembers | src/operators.js:133-136 | A name is in WORDS exactly when it is in the table and `operatorIsWord` holds for it. |
| Operators.SymbolRowsMembers | src/operators.js:119 | The unsorted SYMBOLS rows are exactly `[name, ...charCodes]` for the names that are not words. |
| Operators.SymbolRowsDistinct | src/operators.js:111-121 | Distinct table names give SYMBOLS rows with distinct names. |
| Operators.LongestFirst | src/operators.js:128-131 | In sorted SYMBOLS a longer name never follows a shorter one, and equal lengths are in descending string order. |
| Operators.SortRowsCorrect | src/operators.js:123 | Sorting yields a sorted permutation. |
| Operators.SortedUnique | src/operators.js:123-131 | Two sorted permutations of the same rows are equal. |
| Operators.PrecedesTotal | src/operators.js:128-131 | `symbolsort` puts any two distinct names in exactly one order. |
| Operators.PrecedesTransitive | src/operators.js:128-131 | The `symbolsort` order is transitive. |
| Operators.PrecedesIrreflexive | src/operators.js:128-131 | No row precedes itself. |
| Operators.LexLessTotal | src/operators.js:130 | String comparison orders any two distinct names. |
| Operators.LexLessTransitive | src/operators.js:130 | String comparison is transitive. |
| Operators.InsertRowPermutes | src/operators.js:123 | One step of the sort keeps the rows. |
| Operators.InsertRowSorted | src/operators.js:123 | One step of the sort keeps the rows sorted. |
| Operators.BoolOf | src/operators.js:34 | `bool(x)` is `[true]` exactly when `x` is truthy, and `[]` otherwise. |
| Operators.SetLogic | src/operators.js:54-56 | `&&` returns the second set when the first holds a truthy element, otherwise the first; read as truth values it is conjunction. `\|\|` is the reverse and acts as disjunction. `??` returns the first set unless it is empty. |
| Operators.First | src/operators.js:93 | A singleton holding the first element, undefined for an empty set. |
| Operators.Last | src/operators.js:94 | A singleton holding the last element, undefined for an empty set. |
| Operators.EmptyAsWrittenInverted | src/operators.js:101 | As written, `empty` gives `[]` for the empty set and `[true]` for a non-empty one. |
| Operators.Empty | src/operators.js:101 | The corrected `empty`: `[true]` exactly for the empty set. |
| Operators.SpreadAppend | src/operators.js:40-41 | `*` and `~` work item by item and keep the items' order. |
| Operators.SpreadPassesScalars | src/operators.js:40-41 | Items that are not arrays or objects pass through unchanged. |
| Operators.SpreadOne | src/operators.js:40-41 | A mappable item is replaced by exactly its values (`*`) or keys (`~`). |
| Operators.Apply | src/operators.js:100 | `count` yields the size of its one operand set. Entries the model does not interpret are answered by the oracle. |
| Operators.Normalise | src/taxonomy.js:379 | After `ensureArray`, an operator's result never holds null or undefined. |
| Values.Entries | src/taxonomy.js:214-219 | `map` over an item visits array elements keyed by index and object fields keyed by name, in order. It visits nothing for other values. |
| Values.KeysOf | src/taxonomy.js:189 | `keys(item)` lists the entry keys in order. |
| Values.ValuesOf | src/operators.js:40 | `values(item)` lists the entry values in order. |
| Values.Compact | src/taxonomy.js:18 | `filter(isNotUndefinedOrNull)` keeps exactly the values that are not null or undefined, and no more of them. |
| Values.CompactAppend | src/taxonomy.js:291 | The filter distributes over concatenation. |
| Values.CompactIdle | src/taxonomy.js:18 | Filtering a list without null or undefined leaves it unchanged. |
| Values.EnsureArray | src/taxonomy.js:17-19 | An array gives its elements without null and undefined. Any other value gives itself alone, or nothing when it is null or undefined. |
| Values.Lookup | src/taxonomy.js:27 | A field lookup gives a value the object holds under that key, or undefined when no field has it. |
| Values.Select | src/taxonomy.js:26-29 | `select` on a value that is not an array or object is undefined. On an array, `length` is its length, an index number in range is that element, and the result is always undefined, the length or an element. On an object, a name is looked up as it is, an integral number by its decimal spelling, and any other number is undefined. |
| Values.SelectIndexAgrees | src/taxonomy.js:27 | On an array, key `"3"` and key `3` both select element 3. |
| Values.NumberValueOfInt | src/lexer.js:146 | `Number` of an integer's decimal spelling is that integer. |
| Values.IndexNameRoundTrip | src/taxonomy.js:27 | The decimal name of an index reads back as that index. |
| Values.NatToString | src/taxonomy.js:27 | The decimal spelling of an index: digits, with no leading zero unless it is 0. |
| Slicing.Clamp | src/taxonomy.js:269 | `slice` reads a negative index from the end and clamps to [0, length]. |
| Slicing.JsSlice | src/taxonomy.js:269 | `item.slice(start, stop)` is a contiguous run of the array. |
| Slicing.SliceBoundaryLaws | src/taxonomy.js:263-269 | Absent bounds take the whole array, `[-1:]` takes the last element, and `[k:]` and `[:k]` take the suffix and prefix. |
| Slicing.OpenSliceEmptyAsWritten | src/taxonomy.js:264-269 | As written, a null stop reaches `slice` and is read as 0, so a three-part `[-1:null:0]` yields nothing. The corrected slice yields the last element. A two-part `[-1:]` throws earlier, at `src/taxonomy.js:262`. |
| Slicing.FirstIndex | src/taxonomy.js:276 | `first = max(0, start < 0 ? start + len : start)`, and 0 for an absent start. |
| Slicing.LastIndex | src/taxonomy.js:277 | `last = min(stop < 0 ? stop + len : stop, len - 1)`, and `len - 1` for an absent stop. |
| Slicing.UpIndices | src/taxonomy.js:280-282 | The upward loop visits indexes from `first` in steps, all within [first, last]. The last one visited is within one step of `last`. |
| Slicing.DownIndices | src/taxonomy.js:284-286 | The downward loop visits indexes from `last`, all within [first, last]. The last one visited is within one step of `first`. |
| Slicing.SteppedIndices | src/taxonomy.js:275-287 | Every index a stepped slice visits lies within [first, last] and within the array. |
| Slicing.SteppedDirections | src/taxonomy.js:279-287 | A stepped slice is empty exactly when `first > last`. A positive step starts at `first` and a negative one at `last`. |
| Slicing.UnitStepUpCovers | src/taxonomy.js:280-282 | Step 1 with absent bounds yields the whole array. |
| Slicing.UnitStepDownReverses | src/taxonomy.js:284-286 | Step -1 with absent bounds yields the array reversed. |
| Slicing.PlainSlices | src/taxonomy.js:268-270 | Every array under `slice(start, stop)`. |
| Slicing.SteppedSlices | src/taxonomy.js:273-291 | Every array under the stepping loops. |
| Slicing.SliceEach | src/taxonomy.js:268-270 | The accumulating loop concatenates every array's `slice(start, stop)` in order. |
| Slicing.StepEach | src/taxonomy.js:273-291 | The accumulating loop concatenates every array's stepped slice in order. |
| Slicing.StepThrough | src/taxonomy.js:275-287 | The stepping loops over one array compute `Stepped`, the array read at the indexes `SteppedIndices` lists. |
| Slicing.StepUp | src/taxonomy.js:280-282 | The upward `for` loop pushes exactly the elements `UpFrom` lists. |
| Slicing.StepDown | src/taxonomy.js:284-286 | The downward `for` loop pushes exactly the elements `DownFrom` lists. |
| Slicing.UpFromPicks | src/taxonomy.js:280-282 | What the upward loop pushes is the array read at the indexes it visits. |
| Slicing.DownFromPicks | src/taxonomy.js:284-286 | What the downward loop pushes is the array read at the indexes it visits. |
| Taxonomy.Present | src/taxonomy.js:120-150 | A context field or literal gives `[]` exactly when it is null or undefined, and otherwise the value alone. |
| Taxonomy.TargetsAndLiterals | src/taxonomy.js:120-163 | Root, Scope, Key and Index return their context field, or nothing when it is null or undefined. A Literal returns its value whatever the context, and a null Literal returns nothing. |
| Taxonomy.KeyOf | src/taxonomy.js:175 | Only a string or number key builds a named Descend. |
| Taxonomy.OnlyUndefined | src/taxonomy.js:177 | `filter(isUndefined)` keeps only undefined entries, and keeps some exactly when there is one. |
| Taxonomy.Defined | src/taxonomy.js:177 | Keeps exactly the entries that are not undefined. |
| Taxonomy.DefinedAppend | src/taxonomy.js:177 | Filtering out undefined works entry by entry: the result for `a + b` is the result for `a` followed by the result for `b`. |
| Taxonomy.DescendKey | src/taxonomy.js:173-179 | The corrected named Descend yields exactly the defined values that some current item holds under the key. |
| Taxonomy.DescendKeyPerItem | src/taxonomy.js:173-179 | The corrected named Descend goes item by item, in order: one value for an item that holds the key and none for one that does not. |
| Taxonomy.DescendKeyAsWrittenInverted | src/taxonomy.js:177 | As written, on `{a: 1}` the name `a` yields nothing and the name `b` yields `[undefined]`. The corrected Descend yields `[1]` and nothing. |
| Taxonomy.DescendSkipsScalars | src/taxonomy.js:186-192 | A computed Descend skips every item that is not an array or object. |
| Taxonomy.FilterUpTo | src/taxonomy.js:334-341 | A filter keeps only scopes of the callbacks it made, and at most one per callback. |
| Taxonomy.FilterKeeps | src/taxonomy.js:334-341 | A predicate that always passes keeps every entry value of every current item, in order. One that never passes keeps nothing. |
| Taxonomy.KeptWhere | src/taxonomy.js:334-341 | The reference filter: an entry is kept exactly when its mark is set. |
| Taxonomy.KeptWhereAppend | src/taxonomy.js:334-341 | The reference filter works piece by piece, so it keeps the entries' order. |
| Taxonomy.FilterKeepsPassing | src/taxonomy.js:334-341 | For any predicate, the filter over its first n callbacks succeeds exactly when the predicate runs on each of them. It then keeps exactly the scopes of the callbacks whose predicate result passes, in callback order. |
| Taxonomy.FilterKeepsPassingEntries | src/taxonomy.js:329-342 | The same for a whole filter node: the entry values of the current items on which the predicate passes, in order. |
| Taxonomy.BoundOf | src/taxonomy.js:262-265 | A missing or empty part, or a null or undefined first result, is an absent bound. A present bound is the integral number the part produced. |
| Taxonomy.EmptyBoundReadsCurrentAsWritten | src/taxonomy.js:262-265 | `[:2:1]` parses to a Slice whose first part is the empty statement, which returns the current items. As written the start is read from the first of them (1 here), while the corrected bound is absent. |
| Taxonomy.TwoPartSliceThrowsAsWritten | src/taxonomy.js:262 | As written, `[1:2]` cannot be destructured into three parts and throws. The corrected reading slices the array from 1 to 2. |
| Taxonomy.SliceReduceAsWrittenLosesItems | src/taxonomy.js:268-291 | As written, both reducers return `push`'s length. In the plain one, one array yields a length and a second array makes `push` throw. The stepped one then calls `.filter` on that length, so it throws even for one array. |
| Taxonomy.WholeSlice | src/taxonomy.js:257-270 | `[:]` slices every current array whole and drops the other items. |
| Taxonomy.StatementSplits | src/taxonomy.js:110-116 | A statement runs its units in order, each on the previous unit's output: running `a + b` is running `a`, then `b` on its result. |
| Taxonomy.StatementUnits | src/taxonomy.js:110-116 | An empty statement returns its input `current`, and a one-unit statement computes what the unit computes. |
| Taxonomy.ChainIgnoresCurrent | src/taxonomy.js:110-116 | The statement loop reads `current` only through the value it threads. |
| Taxonomy.UnionConcatenates | src/taxonomy.js:312-318 | A union gives every member the same context and concatenates their outputs in member order. The empty union yields nothing, and a one-member union is that member. |
| Taxonomy.NameWalk | src/taxonomy.js:210-220 | `walk(item)` only grows `seen`, and enters nothing exactly when the item is not mappable or was already seen. |
| Taxonomy.NameEntries | src/taxonomy.js:214-219 | The entry callbacks only grow `seen`. |
| Taxonomy.NameWalkAll | src/taxonomy.js:221 | `current.map(walk)` with one shared `seen` only grows it. |
| Taxonomy.NameWalkOnce | src/taxonomy.js:210-221 | A named walk enters each object at most once, never one already seen, and adds exactly the objects it entered to `seen`. It never collects null or undefined. |
| Taxonomy.NameEntriesOnce | src/taxonomy.js:214-219 | The same, for the walk through one object's entries. |
| Taxonomy.NameWalkAllOnce | src/taxonomy.js:221 | The same, for the walks from every current item. |
| Taxonomy.WalkedCompose | src/taxonomy.js:210-221 | Two such walks in sequence form one. |
| Taxonomy.RecursiveNameSound | src/taxonomy.js:207-223 | A named Recursive never fails. Every value it collects is not null or undefined and is held under that name by some object of the data. |
| Taxonomy.NameWalkComplete | src/taxonomy.js:210-220 | `walk(item)` deals with every object it enters: every array or object among its entry values ends up seen, and every match it holds is collected. The item itself ends up seen when it is an array or object. |
| Taxonomy.NameEntriesComplete | src/taxonomy.js:214-219 | The same for the entry callbacks: each entry's array or object value ends up seen, and each match is collected. |
| Taxonomy.NameWalkAllComplete | src/taxonomy.js:221 | `current.map(walk)`: every current array or object ends up seen, and every entered object is dealt with. |
| Taxonomy.PathEntered | src/taxonomy.js:206-223 | A seen set that holds the current items and every array or object held by one of its objects holds every object reachable from a current item. |
| Taxonomy.NameWalkAllFinds | src/taxonomy.js:206-223 | The walk from nothing seen collects every value, other than null or undefined, that an object reachable from a current item holds under the name. |
| Taxonomy.RecursiveNameComplete | src/taxonomy.js:206-223 | A named Recursive misses nothing: it collects every such value. |
| Taxonomy.CycleEnteredOnce | src/taxonomy.js:211-212 | A self-containing array is entered once, and the walk ends. |
| Taxonomy.PatternWalk | src/taxonomy.js:230-239 | A walk with a sub-query only grows `seen`. |
| Taxonomy.PatternEntries | src/taxonomy.js:234-238 | The entry callbacks with a sub-query only grow `seen`. |
| Taxonomy.PatternWalkAll | src/taxonomy.js:241 | The walks from every current item only grow `seen`. |
| Taxonomy.PatternWalkOnce | src/taxonomy.js:230-239 | A successful walk with a sub-query enters each object at most once and never one already seen. It collects no null or undefined. |
| Taxonomy.PatternEntriesOnce | src/taxonomy.js:234-238 | The same, for one object's entries. |
| Taxonomy.PatternWalkAllOnce | src/taxonomy.js:241 | The same, for the walks from every current item. |
| Taxonomy.RecursivePatternSound | src/taxonomy.js:226-243 | A Recursive with a sub-query collects only values that are not null or undefined. |
| Taxonomy.OperandOnCurrent | src/taxonomy.js:377-381 | An Operand without operands applies its function to `current`, then `ensureArray`. |
| Taxonomy.OperandOnBoth | src/taxonomy.js:393-397 | With both operands, it runs left, then right, then applies the function to both results. |
| Taxonomy.OperandOnOne | src/taxonomy.js:399-410 | With one operand on either side, it applies the function to that operand's result. |
| Taxonomy.CountOperand | src/operators.js:100 | The prefix `count` yields the size of its operand's node-set. |
| Taxonomy.AndOperand | src/operators.js:54 | `a && b` yields `b`'s output when `a`'s holds a truthy value, and otherwise `a`'s, with null and undefined removed. |
| Taxonomy.OperandAsLexedFails | src/taxonomy.js:369-375 | Built with the lexer's arguments `(name, opType, fn)`, every operator node fails: infix ones when built, the others when called. |
| Evaluator.Run | src/taxonomy.js:107-411 | Running a node's built function computes `Taxonomy.Eval`. |
| Evaluator.RunStatement | src/taxonomy.js:107-117 | The `for` loop that reassigns `current` computes the statement's `Eval`. |
| Evaluator.RunUnion | src/taxonomy.js:307-319 | The push loop computes the union's `Eval`. |
| Evaluator.RunDescend | src/taxonomy.js:183-192 | The reduce of a computed Descend computes its `Eval`. |
| Evaluator.RunFilter | src/taxonomy.js:329-342 | The filter's callbacks compute its `Eval`. By `Taxonomy.FilterKeepsPassingEntries`, that is exactly the entry values on which the predicate passes, in order. |
| Evaluator.RunOperand | src/taxonomy.js:373-411 | The Operand's build computes its `Eval`. |
| Evaluator.RunSlice | src/taxonomy.js:257-292 | The parts and the slicing loops compute the Slice's `Eval`. |
| Evaluator.SliceArrays | src/taxonomy.js:267-291 | The two reducers compute `Taxonomy.SliceOf`. |
| Evaluator.RunPattern | src/taxonomy.js:226-243 | One walker shared by all current items computes the Recursive's `Eval`. |
| Evaluator.PatternWalker.constructor | src/taxonomy.js:228-229 | `results` and `seen` start empty. |
| Evaluator.PatternWalker.Walk | src/taxonomy.js:230-233 | `walk(item)` updates `seen` and appends to `results` as `Taxonomy.PatternWalk` says, or stops with its error. |
| Evaluator.PatternWalker.WalkEntries | src/taxonomy.js:234-238 | The entry callbacks update the state as `Taxonomy.PatternEntries` says. |
| Evaluator.NameWalker.constructor | src/taxonomy.js:208-209 | `results` and `seen` start empty. |
| Evaluator.NameWalker.Walk | src/taxonomy.js:210-213 | `walk(item)` leaves `seen` as `Taxonomy.NameWalk` says and appends what it collects. |
| Evaluator.NameWalker.WalkEntries | src/taxonomy.js:214-219 | The entry callbacks update the state as `Taxonomy.NameEntries` says. |
| Evaluator.NameWalker.WalkAll | src/taxonomy.js:221 | `current.map(walk)` updates the state as `Taxonomy.NameWalkAll` says. |

These definitions carry no contract of their own. They are the reference functions that the members above are stated against, or one-line character tests:
- `Taxonomy.Eval` (`src/taxonomy.js:107-411`) and `Taxonomy.Query` (`src/index.js:22`).
- `Scan.ScanFrom` and `Scan.Scan` (`src/tokenizer.js:398-437`).
- `Scan.TrackChar` (`src/tokenizer.js:143-154`).
- `Scan.NumberEnd` (`src/tokenizer.js:312-331`), whose extent is stated by `Scan.NumberEndExtent`.
- `Operators.Count` (`src/operators.js:100`).
- `Operators.OperatorIsWord` (`src/operators.js:133-136`).
- `Operators.SymbolSort` and `Operators.Precedes` (`src/operators.js:128-131`).
- `Tokens.IsAlpha`, `Tokens.IsNumeric`, `Tokens.IsIdent`, `Tokens.IsMinusPeriod` and `Tokens.IsQuot` (`src/tokenizer.js:86-90`).

## Left out

- Regular-expression compilation (`new RegExp`, `src/tokenizer.js:387-393`) calls into the host. The token keeps the pattern source and flags, and an invalid pattern's error is not raised.
- The Mapper, RegularExpression and Hashmap nodes: `src/lexer.js:39-41` imports them from `src/taxonomy.js`, which defines none of them. The source therefore cannot build them: loaded as an ES module the import itself fails, and where the names come out undefined, parsing throws when it meets `{...}` (`src/lexer.js:136`), a Hashmap switch (`src/lexer.js:315`, `319`) or a regular expression (`src/lexer.js:369`). The parser model follows the evident intent and builds these nodes. Evaluating them is a build error, and `Hashmap.from`/`add` are kept only as the pieces a Hashmap node records.
- The Script node (`src/taxonomy.js:345-365`) is never produced by the parser and is not modelled.
- The `Debugger` tracer, the build wrapper in the `Unit` constructor and `named` only trace or name functions, and do not change results.
- `src/index.js`, apart from its seed context, and `src/observable.js` are left out. `src/wtf.js` becomes the error codes alone. Error message texts, the line and column in parse errors, the `debug` flag and the `console` output are left out.
- The numeric, statistical, comparison, typeof, set (`is`, `in`, `not`, `subset`), string (`join`, `split`), `sort`, `random`, `unique` and truthiness (`!`, `!!`, `any`, `all`, `none`) operators depend on floating point, JavaScript coercion, locale collation, randomness or helpers that are not shown. They go to the `Foreign` oracle the caller supplies.
- Numbers are exact reals. `Number` is interpreted on decimal texts only, and `parseFloat` of a slice bound that is not an integral number is reported as `Unmodelled`.
- The `isMap` branch of `select` is left out: the model's data has arrays and objects only.
- Values.Select: own, canonically spelled properties only. An object's property is found only under its own key, spelled as a number's decimal form when the key is a number, so a non-integral number key on an object gives undefined, and inherited properties such as `toString` are absent.
- Values.Truthy, Values.Entries, Values.KeysOf, Values.ValuesOf, Values.IsMappable: the helpers `truthy`, `map`, `keys`, `values` and `isMappable` come from a utility module that is not part of this model. They are given JavaScript's meaning: `truthy` is JavaScript truthiness; `isMappable` holds for arrays and for plain objects (`isObject(x, true)`); `map`, `keys` and `values` visit an array's elements keyed by their index as a number and an object's own fields keyed by name, in order.
- Scan.Track, Scan.Advance, Tokenizing.Tokenizer.ParseChar, Tokenizing.Tokenizer.Move: the input is a sequence of Unicode scalar values, while the source counts UTF-16 code units (`input.length`, `charCodeAt`, one `col++` per unit in `src/tokenizer.js:99`, `137-154`). A character outside the Basic Multilingual Plane is one position and one column here and two in the source, so positions and columns after it on the same line (token and error positions alike) are smaller by one per such character, and a lone surrogate cannot be represented at all.
- The cursor's `reset`, `current` and `debug` members are left out.
- Tokenizing.Tokenizer.constructor: requires every operator name to be non-empty. An empty name would give a zero-width symbol that matches everywhere without moving, so the source's scan would never end. Distinct names are required because they are the keys of a JavaScript object.
- Lexer.Lex: runs over the token stream the tokenizer produces, read in full. The source reads lazily. The lexer's proof goes through the cursor methods, which are proved equal to the pure cursor, so a scan error is raised when the first token past the good prefix is needed: when it is read, or when a syntax error's `wtf` looks at it with `peek(1)` (`LexSpec.Raise`).
- Taxonomy.FilterUpTo: follows the evident intent of collecting the passing scopes. As written, the reducer's accumulator becomes whatever the `map` helper returns from callbacks that return `push`'s length. That helper's result is not shown, so the written behaviour is not modelled.
- Taxonomy.Eval: the named `Recursive` compares keys with the name only. The source also tests `Number(k) === unit`, but the parser always passes a string, so that test never holds.
- Operators.Apply: a modelled entry called with a number of operand sets it is not written for is passed to the oracle.

## Findings

| source | as written | input that shows it | evidently intended | confidence | as-written member | corrected member |
|---|---|---|---|---|---|---|
| src/tokenizer.js:143-154 | The CRLF test reads `input[pos]`, but `move` has not advanced `pos` yet, so CR and LF each count as a line break | `a\r\nb` ends on line 3 | a CRLF is one line break | high; not executed | Scan.CrLfCountsTwiceAsWritten | Scan.TrackCountsLineBreaks |
| src/tokenizer.js:312-321 | A minus met after digits runs the previous-token test, which returns without a token after the digits were consumed | `#2-1`: the `2` is lost | a later minus ends the number | high; not executed | Scan.NumberDroppedAsWritten | Scan.ReadNumber |
| src/tokenizer.js:350 | `replace(/\\(.)/, '$1')` lacks `/g`, so only the first escape is removed | `'a\'b\'c'` reads as `a'b\'c` | every escape removed | high; not executed | Scan.UnescapeFirstKeepsLaterEscapes | Scan.UnescapeEscape |
| src/tokenizer.js:361 | The "skip //" guard tests `peek(2)` instead of `peek(1)` | `/a/` is not read as a regular expression, and `//` is | refuse only a slash followed by a slash | high; not executed | Scan.RegexGuardAsWrittenMisreads | Scan.ReadRegularExpression |
| src/lexer.js:235-238 | `isChild()`/`isRecurse()` test the operator token itself rather than the token before it, so nothing is pushed | `a.count` with `count` a word operator drops the property `count` | push `Descend(name)` after `.` and `Recursive(name)` after `..` | high; not executed | LexSpec.DescentAsWrittenDropsName | LexSpec.DescentUnit |
| src/operators.js:101 | `empty` returns `bool(set.length)`, which is true for a non-empty set | `empty` of an empty set gives `[]` | `[true]` exactly for the empty set | medium; not executed | Operators.EmptyAsWrittenInverted | Operators.Empty |
| src/taxonomy.js:177 | A named Descend filters with `isUndefined`, keeping only the missing values | `a` on `{a: 1}` gives nothing, and `b` gives `[undefined]` | keep the values that are present | high; not executed | Taxonomy.DescendKeyAsWrittenInverted | Taxonomy.DescendKey |
| src/taxonomy.js:262 | Destructuring three parts throws when the slice has fewer | `[1:2]` throws a TypeError | missing parts are absent bounds | medium; not executed | Taxonomy.TwoPartSliceThrowsAsWritten | Taxonomy.BoundOf |
| src/taxonomy.js:262-265 | An empty part's statement returns `current`, whose first item is then read as the bound | `[:2:1]` over the items `1` and an array takes start 1 | an empty part is an absent bound | medium; not executed | Taxonomy.EmptyBoundReadsCurrentAsWritten | Taxonomy.BoundOf |
| src/taxonomy.js:264-269 | A null stop reaches `slice(start, null)`, which reads it as 0 | `[-1:null:0]` on a non-empty array gives nothing | a null stop slices to the end | medium; not executed | Slicing.OpenSliceEmptyAsWritten | Slicing.SliceBoundaryLaws |
| src/taxonomy.js:268-291 | The reducers return `items.push(...)`, which is a length, not the list. The stepped reducer then calls `.filter` on it | a plain slice over one array yields a number, and over two it throws. A stepped slice such as `[0:1:1]` over one array throws | return the accumulated list | high; not executed | Taxonomy.SliceReduceAsWrittenLosesItems | Slicing.SliceEach |
| src/lexer.js:122 | `new Statement(statementType)` passes the type where `constructor (units = [])` (`src/taxonomy.js:91-93`) takes the units, so `units` is the type's text | `a`: pushing its Descend calls `push` on the text `root` and throws a TypeError | a new statement has no units | high; not executed | Ast.StatementTypeAsUnitsAsWritten | Ast.StatementNode.constructor |
| src/taxonomy.js:369-375 | The parser calls `new Operand(name, opType, fn)`, so the arity lands in `fn` and the function in `left` | `a && b` fails when built, and `count a` fails when called | pass the function as `fn` and keep the arity apart | high; not executed | Taxonomy.OperandAsLexedFails | Taxonomy.OperandOnBoth |
