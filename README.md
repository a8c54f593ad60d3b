# Facette's expression, label and template core in Dafny

Facette is a time-series visualisation tool. Its back end (Go) and its web UI
(TypeScript) share a small language for selecting series, for example
`avg(sample(cpu{host="a", dc=~"eu-.*"} with max))`, together with text
templates (`$host`, `${dc}`) that charts and dashboards fill in from their
variables. This project models the parts of both code bases that read,
check and transform those texts, and proves what they promise.

Back end (Go):

- `Tokens`, `Lexing`, `GoParser`: the scanner of `pkg/parser`. Each step
  (`read`, `unread`, `run`, `scanIdent`, `scanNumber`, `scanString`, `Scan`,
  `Peek`, `Expect`) is a function on a cursor, and the `GoParser.Parser`
  class runs the same steps as methods on its fields, each proved to match
  its function.
- `LabelPair`, `LabelList`, `Matchers`: labels and label matchers
  (`pkg/labels`): their parsing, their text forms and the round trips
  between the two, validation, sorting, and what a matcher accepts.
- `Exprs`: series expressions (`pkg/series`): the recursive-descent parser,
  the alias, aggregate, sample and scale calls, and the matchers an
  expression uses.
- `RelTime`: `ParseTime`, the relative times such as `-1h30m` or `+2d`.
  `ParseTime` computes the intended time with exact arithmetic, and
  `ParseTimeAsWritten` writes out Go's 64-bit duration arithmetic.
- `GoTemplate`: the `pkg/template` text templates, as functions and as a
  `Template` class.
- `Catalog`, `Sets`, `Sorting`: the in-memory catalog of metrics and
  providers, and the string-set helpers it uses.
- `ApiObjects`, `ApiOptions`, `Pagination`: object validation, enumerations,
  and the variables of charts and dashboards in `pkg/api`. Also the list
  options and catalog pagination of the HTTP API.

UI (TypeScript):

- `UiLexer`: the tokenizer of `ui/src/lib/parser.ts`, as functions and as a
  `Parser` class. An `Outcome` separates a result, a thrown error and a loop
  that never returns.
- `UiLabels`: `parseLabels` and the `Labels` class of `ui/src/lib/labels.ts`.
- `UiTemplate`: `ui/src/helpers/template.ts`, with rendering proved equal to
  a one-pass substitution.
- `UiObjects`: the chart and dashboard variables and rendering of
  `ui/src/lib/objects.ts`, and `cleanupChart`.

`Quoting`, `Text` and `Wrappers` hold the shared pieces: Go and JSON string
quoting, digits, and `Option`/`Result`.

Where the source mutates state it is modelled imperatively. The cursors of
both scanners and both template engines are classes whose methods are proved
against pure functions, and `applyCatalogPagination` is a method on a
listing. The recursive-descent parsers and validators, which only compute,
are functions, and their properties are lemmas.

## Model

| member | source | states |
|---|---|---|
| Tokens.TypeStringTable | pkg/parser/token.go:35-68 | `Type.String` is "token" exactly for a value outside the sixteen-entry table, and the sixteen descriptions are pairwise different |
| Tokens.TypeStringsDiffer | pkg/parser/token.go:35-55 | two different token types of the table never share a description, so an error message names the type unambiguously |
| Tokens.IsOperatorExactly | pkg/parser/token.go:91-93 | among the sixteen real types, `IsOperator` holds exactly for EQ, NEQ, EQREGEXP and NEQREGEXP |
| Tokens.TokenString | pkg/parser/token.go:86-88 | `Token.String` is the token's text unchanged |
| Tokens.PositionStringParts | pkg/parser/token.go:102-104 | `Position.String` is the decimal line, one colon, the decimal column, and both numbers read back from the two halves |
| Lexing.Start | pkg/parser/parser.go:26-31 | a new parser stands at offset 0, position 1:1, with its positions in step with the text |
| Lexing.PosAtIsPosAfter | pkg/parser/parser.go:77-93 | the position `read` reaches step by step is line 1 plus the newlines read, and column 1 plus the characters since the last newline |
| Lexing.PosOnFirstLine | pkg/parser/parser.go:77-93 | before any newline the position after i characters is 1:(i+1) |
| Lexing.Read | pkg/parser/parser.go:77-93 | `read` returns the next character and the position it was read at, advances one character and records the old position for `unread`; at end of input it returns eof and the current position and changes nothing else (an unread is then refused) |
| Lexing.Unread | pkg/parser/parser.go:273-278 | `unread` steps back one character and restores the position from before the last read, once; a second `unread` changes nothing |
| Lexing.Run | pkg/parser/parser.go:95-110 | `run` returns the longest run of characters from the set at the cursor and leaves the cursor right after it |
| Lexing.RunLoopSpan | pkg/parser/parser.go:98-107 | the loop of `run` stops after reading the first character outside the set, which is then unread |
| Lexing.RunLoopText | pkg/parser/parser.go:98-105 | the loop of `run` appends exactly the characters it skipped |
| Lexing.SkipSpaces | pkg/parser/parser.go:113-116 | the blank loop of `scan` skips only space, tab and newline and reads the first other character (or eof) |
| Lexing.SpaceEndUnique | pkg/parser/parser.go:113-116 | the end of a run of blanks is the one index before which all characters are blank and at which none is |
| Lexing.ScanIdent | pkg/parser/parser.go:173-195 | `scanIdent` returns an IDENT holding the maximal run of identifier characters at the cursor, stamped with the position where it starts |
| Lexing.IdentLoopSpan | pkg/parser/parser.go:178-192 | the loop of `scanIdent` ends at the end of the identifier run, unreading the character that ends it (eof is not unread) |
| Lexing.IdentLoopText | pkg/parser/parser.go:178-192 | the loop of `scanIdent` appends exactly the identifier characters it read |
| Lexing.Accept | pkg/parser/parser.go:203-208 | one step of `scanNumber`: the next character is kept when it is one of the allowed ones and unread otherwise; what it keeps is exactly the text it consumed (one character or none) |
| Lexing.ScanNumber | pkg/parser/parser.go:197-237 | `scanNumber` returns a NUMBER stamped with its start position, and consumes at least one character when a `-` or a digit is at the cursor |
| Lexing.ScanNumberText | pkg/parser/parser.go:197-237 | the text of the NUMBER `scanNumber` returns is exactly the characters it consumed, sign, digits, fraction and exponent |
| Lexing.NumberFraction | pkg/parser/parser.go:212-218 | the optional fraction only moves forward on the same text, and what it keeps is exactly the characters it consumed |
| Lexing.NumberExponent | pkg/parser/parser.go:220-234 | the optional exponent only moves forward on the same text, and what it keeps is exactly the characters it consumed |
| Lexing.ScanString | pkg/parser/parser.go:239-271 | `scanString` consumes the opening quote and ends with STRING, EOF, NEWLINE or BADESCAPE; a STRING carries the position of its opening quote |
| Lexing.Scan | pkg/parser/parser.go:112-171 | `scan` returns one of the sixteen real token types and consumes at least one character unless it returns EOF |
| Lexing.ScanAfter | pkg/parser/parser.go:118-170 | the switch of `scan`: eof gives EOF at the current position without consuming anything |
| Lexing.ScanSymbol | pkg/parser/parser.go:134-170 | the operator, punctuation and invalid cases of the switch return a real token type and never move the reader back |
| Lexing.ScanTracks | pkg/parser/parser.go:77-93 | every scan leaves the position equal to the line:column of the text consumed |
| Lexing.Next | pkg/parser/parser.go:44-55 | `Next` returns the peeked token and clears it when there is one, and otherwise scans a new token; it consumes input unless it returns EOF |
| Lexing.Peek | pkg/parser/parser.go:58-65 | `Peek` keeps the token it returns; a token already peeked is returned unchanged without scanning, and the token is the one `Next` would return |
| Lexing.PeekThenNext | pkg/parser/parser.go:44-65 | `Peek` is memoised, and `Next` after `Peek` returns the same token and leaves the same state as `Next` alone |
| Lexing.Expect | pkg/parser/parser.go:34-41 | `Expect` returns the next token, with the error "expected <want> but got <got> at <line>:<char>" exactly when its type differs from the one wanted |
| Lexing.PeekRune | pkg/parser/parser.go:70-75 | `PeekRune` returns the character after the last consumed one (eof at the end) and leaves the offset, the position and the peeked token unchanged |
| Lexing.AfterOperatorType | pkg/parser/parser.go:134-152 | `=` gives EQ, `=~` EQREGEXP, `!=` NEQ, `!~` NEQREGEXP, and a lone `!` an INVALID token whose text is "!" |
| Lexing.AfterPunctuationType | pkg/parser/parser.go:154-167 | `{ } ( ) ,` give LBRACE, RBRACE, LPAREN, RPAREN and COMMA |
| Lexing.AfterOther | pkg/parser/parser.go:119-170 | eof gives EOF with empty text; a character that starts no token gives INVALID holding that character |
| Lexing.ScanDispatch | pkg/parser/parser.go:112-170 | the token `scan` returns is decided by the first character after the blanks (and, for `=` and `!`, the one after it), with the cases above |
| Lexing.ScanNumberOrString | pkg/parser/parser.go:122-132 | after the blanks a `-` or a digit always gives NUMBER, and a quote gives STRING or one of EOF, NEWLINE and BADESCAPE |
| Lexing.ScanAtIdent | pkg/parser/parser.go:126-128 | a letter or underscore after the blanks is unread and handed to `scanIdent`, which starts at that character |
| Lexing.ScanIdentStart | pkg/parser/parser.go:122-128 | a letter or underscore starts an IDENT made of the longest run of identifier characters from there, so no IDENT starts with a digit |
| Lexing.ScanPosition | pkg/parser/parser.go:113-120 | every token except the EOF, NEWLINE and BADESCAPE ending a string carries the line:column of its first character; EOF at the end carries the position just past the input |
| Lexing.StringLoopQuoted | pkg/parser/parser.go:244-270 | a double-quoted body with `\\` and `\"` escapes and no newline reads back as the unescaped text, ending right after the closing quote |
| Lexing.ScanQuoted | pkg/parser/parser.go:239-271 | after the blanks, a quoted body followed by `"` scans as STRING holding the unescaped text and stops after the closing quote |
| Lexing.ScanGoQuoted | pkg/parser/parser.go:239-271 | scanning what `strconv.Quote` writes for a printable string gives back a STRING holding that string |
| Lexing.ScanAtQuote | pkg/parser/parser.go:130-132 | a double quote after the blanks hands the rest to the string loop, which starts right after it |
| Lexing.ScanPunctuation | pkg/parser/parser.go:154-167 | braces, parentheses and the comma consume exactly one character |
| Lexing.ScanOperatorLength | pkg/parser/parser.go:134-152 | `=` alone consumes one character, and `=~`, `!=` and `!~` consume two |
| Lexing.ScanAtEnd | pkg/parser/parser.go:119-120 | with only blanks left, `scan` returns EOF and stays at the end |
| Lexing.ScanIdentifier | pkg/parser/parser.go:173-195 | an identifier followed by the end or by a non-identifier character scans as exactly that IDENT and stops right after it |
| GoParser.Parser.New | pkg/parser/parser.go:26-31 | a new parser reads the given input from 1:1 with nothing peeked |
| GoParser.Parser.Read | pkg/parser/parser.go:77-93 | `read` changes the reader state as `Lexing.Read` says and keeps the peeked token |
| GoParser.Parser.Unread | pkg/parser/parser.go:273-278 | `unread` changes the reader state as `Lexing.Unread` says |
| GoParser.Parser.Run | pkg/parser/parser.go:95-110 | the loop of `run` returns and leaves what `Lexing.Run` says |
| GoParser.Parser.Scan | pkg/parser/parser.go:112-171 | the blank loop then the switch return the token and the state `Lexing.Scan` gives |
| GoParser.Parser.ScanAfter | pkg/parser/parser.go:118-133 | the literal cases of the switch unread the character and call the matching scanner, as `Lexing.ScanAfter` |
| GoParser.Parser.ScanSymbol | pkg/parser/parser.go:134-170 | the operator, punctuation and invalid cases, as `Lexing.ScanSymbol` |
| GoParser.Parser.ScanIdent | pkg/parser/parser.go:173-195 | the loop of `scanIdent`, as `Lexing.ScanIdent` |
| GoParser.Parser.ScanNumber | pkg/parser/parser.go:197-237 | sign, digits, fraction and exponent, as `Lexing.ScanNumber` |
| GoParser.Parser.Accept | pkg/parser/parser.go:203-208 | one read kept or unread, as `Lexing.Accept` |
| GoParser.Parser.ScanFraction | pkg/parser/parser.go:212-218 | the optional `.` and digits, as `Lexing.NumberFraction` |
| GoParser.Parser.ScanExponent | pkg/parser/parser.go:220-234 | the optional `e`/`E`, sign and digits, as `Lexing.NumberExponent` |
| GoParser.Parser.ScanString | pkg/parser/parser.go:239-271 | the loop of `scanString`, as `Lexing.ScanString` |
| GoParser.Parser.Next | pkg/parser/parser.go:44-55 | `Next` returns the token and leaves the state `Lexing.Next` gives |
| GoParser.Parser.Peek | pkg/parser/parser.go:58-65 | `Peek` returns the token and leaves the state `Lexing.Peek` gives |
| GoParser.Parser.PeekRune | pkg/parser/parser.go:70-75 | read then unread, as `Lexing.PeekRune` |
| GoParser.Parser.Expect | pkg/parser/parser.go:34-41 | `Expect` returns the token, the error and the state `Lexing.Expect` gives |
| Lexing.RunLoop | pkg/parser/parser.go:98-105 | the loop of `run` keeps the cursor in the text it reads |
| Lexing.IdentLoop | pkg/parser/parser.go:178-192 | the loop of `scanIdent` keeps the cursor in the text it reads |
| Lexing.StringLoop | pkg/parser/parser.go:245-270 | the loop of `scanString` only moves forward and ends with STRING, EOF, NEWLINE or BADESCAPE; a STRING carries the position of its opening quote |
| Tokens.TypeString | pkg/parser/token.go:35-68 | the definition of `Type.String`: the table entry, or "token"; stated by `TypeStringTable`, `TypeStringsDiffer` |
| Tokens.IsOperator | pkg/parser/token.go:91-93 | the definition of `Token.IsOperator`; stated by `IsOperatorExactly` |
| Tokens.PositionString | pkg/parser/token.go:102-104 | the definition of `Position.String`; stated by `PositionStringParts` |
| Exprs.UnmarshalFunc | pkg/series/func.go:14-31 | `Func.UnmarshalText` succeeds exactly for alias, avg, sample, scale and sum and stores the name; otherwise the receiver keeps its value and the error is "unsupported function: <text>" |
| Exprs.UnmarshalSampleMode | pkg/series/expr.go:245-274 | `SampleMode.UnmarshalText` succeeds exactly for a key of the sampleModes table and stores the mode that key names; otherwise the receiver is unchanged and the error is "unsupported sample mode: <text>" |
| Exprs.SampleModeRoundTrip | pkg/series/expr.go:245-274 | each of the six sample modes is read back from its table key, whatever the receiver held |
| Exprs.MatcherExprFrom | pkg/series/expr.go:55-60 | a matcher in expression position gives a MatcherExpr when it parses; the parser stays valid on the same text and never moves back |
| Exprs.ExprFrom | pkg/series/expr.go:45-119 | `parseExpr` keeps the parser valid on the same text and never moves it back; what each call returns, token by token, is stated by `CallKinds` and the grammar lemmas below |
| Exprs.CallEnd | pkg/series/expr.go:99-107 | after a call's arguments, one extra comma is skipped and ')' is expected; the parser never moves back; `CallEndGrammar` states the result for every next token |
| Exprs.CallFrom | pkg/series/expr.go:81-97 | after `fn(`, the switch hands alias, avg/sum, sample and scale to their own parsers; the parser never moves back; `CallKinds` states which expression each gives |
| Exprs.AggregateFrom | pkg/series/expr.go:127-136 | `parseAggregateExpr` sets the operator from the name (avg averages, sum sums) and parses the list; the parser never moves back; `AggregateCall` and the aggregate lemmas below state the list |
| Exprs.AggregateLoop | pkg/series/expr.go:138-158 | the loop of `parseAggregateExpr` collects expressions separated by commas and stops at a comma followed by ')'; the parser never moves back; `AggregateGrammar`, `AggregateKeeps` and `AggregatePrefix` state what it collects |
| Exprs.AliasFrom | pkg/series/expr.go:177-194 | `parseAliasExpr` keeps the parser valid and never moves it back; `AliasGrammar` states its result |
| Exprs.SampleFrom | pkg/series/expr.go:207-239 | `parseSampleExpr` keeps the parser valid and never moves it back; `SampleGrammar` states its result in every case and its error texts |
| Exprs.ScaleFrom | pkg/series/expr.go:282-304 | `parseScaleExpr` keeps the parser valid and never moves it back; `ScaleGrammar` states its result and the conversion error |
| Exprs.ParseExpr | pkg/series/expr.go:29-43 | `ParseExpr` returns `ExprOfText`: the parsed expression when it runs to EOF, and otherwise the first error |
| Exprs.ParseExprFrom | pkg/series/expr.go:45-119 | `parseExpr` on the parser returns the result and leaves the state `ExprFrom` gives |
| Exprs.ParseAggregate | pkg/series/expr.go:127-159 | `parseAggregateExpr` on the parser, as `AggregateFrom` |
| Exprs.ParseAlias | pkg/series/expr.go:177-194 | `parseAliasExpr` on the parser, as `AliasFrom` |
| Exprs.ParseSample | pkg/series/expr.go:207-239 | `parseSampleExpr` on the parser, as `SampleFrom` |
| Exprs.ParseScale | pkg/series/expr.go:282-304 | `parseScaleExpr` on the parser, as `ScaleFrom` |
| Exprs.Children | pkg/series/expr.go:316-339 | the expressions the walk pushes for a node (the list of an aggregate, the inner expression of alias, sample and scale, none for a matcher) are smaller than the node, so the walk ends |
| Exprs.HashKey | pkg/labels/matcher.go:99-108 | what `Matcher.Hash` reads is the name and the value of each condition, in order, and not the operator |
| Exprs.MatchersFromExprs | pkg/series/expr.go:307-343 | the worklist loop with its set of seen hashes returns the matchers met in the walk, each kept the first time its key is met |
| Exprs.VisitMeetsNested | pkg/series/expr.go:311-340 | the walk (front of the queue taken, children pushed at the back) meets exactly the matchers nested in the expressions |
| Exprs.NestedChildren | pkg/series/expr.go:316-339 | the matchers nested in an expression are its own matcher plus those nested in the children the walk pushes |
| Exprs.FirstWithKey | pkg/series/expr.go:325-332 | the index of the first matcher with a given key, and no earlier matcher has that key |
| Exprs.DedupUnseen | pkg/series/expr.go:325-332 | no matcher is kept whose hash was already seen |
| Exprs.DedupDistinct | pkg/series/expr.go:325-332 | no two kept matchers have the same hash key |
| Exprs.DedupFirst | pkg/series/expr.go:325-332 | each kept matcher is the first one met with its key |
| Exprs.DedupCovers | pkg/series/expr.go:325-332 | a matcher is dropped only when its key was seen before or is kept |
| Exprs.MatchersFromExprsMeaning | pkg/series/expr.go:306-343 | `MatchersFromExprs` returns no two matchers with the same names and values; every matcher nested in the expressions has its key among them; each one returned is nested there and is the first the walk meets with its key |
| Exprs.PlainName | pkg/series/expr.go:62-75 | a name alone, even a function name, parses as the metric matcher of that name, because a call needs '(' right after the name |
| Exprs.NameRead | pkg/series/expr.go:51-66 | for a lone name, the state after the IDENT is peeked (and `PeekRune` is read, for a function name) holds that name with only the end of input after it |
| Exprs.PlainNameStep | pkg/series/expr.go:62-75 | a leading IDENT not followed by '(' goes to `MatcherFromParser` from the state after the peek |
| Exprs.NoExpression | pkg/series/expr.go:109-116 | where neither '{' nor a name is peeked, `parseExpr` fails with "expected { but got ..." for the peeked token |
| Exprs.NotACall | pkg/series/expr.go:37-40 | a name that is no function, followed by "()", parses as a metric, and `ParseExpr` then fails because it expects EOF but gets '(' at 1:(n+1) |
| Exprs.NotACallAt | pkg/series/expr.go:62-75 | the same for any text that holds such a name then '(' |
| Exprs.CallStart | pkg/series/expr.go:77-107 | for `fn(` at the start, both tokens are skipped, the arguments are parsed from right after '(' and the end of the call follows when they parse |
| Exprs.FuncNameIdentifier | pkg/series/func.go:14-20 | each function name is an identifier without a newline |
| Exprs.ArgumentName | pkg/series/expr.go:62-75 | a non-function name followed by ')' or ',' parses as that metric and leaves the mark after it peeked at 1:(k+1) |
| Exprs.NameBeforeArgumentEnd | pkg/labels/matcher.go:23-43 | a peeked name before ')' or ',' is a matcher of one name condition |
| Exprs.NamePeeked | pkg/parser/parser.go:58-65 | peeking a name moves the cursor to just after it and keeps the IDENT token |
| Exprs.NonFunctionName | pkg/series/expr.go:65-75 | an IDENT that names no function is the start of a matcher |
| Exprs.AggregateOfName | pkg/series/expr.go:85-86 | `avg(name)` and `sum(name)`, name no function, parse as the aggregate of that one metric with the average or the sum operator |
| Exprs.OneArgument | pkg/series/expr.go:138-158 | the argument list of avg or sum made of one name before a final ')' is that one metric, with ')' left peeked |
| Exprs.AggregateCall | pkg/series/expr.go:127-138 | avg and sum start the loop of `parseAggregateExpr` with an empty list and their own operator |
| Exprs.AggregateLast | pkg/series/expr.go:144-148 | an expression not followed by a comma is the last of the list |
| Exprs.CallEndClose | pkg/series/expr.go:99-107 | a call whose ')' is the last character closes, and `ParseExpr` then finds EOF |
| Exprs.CloseAtEnd | pkg/series/expr.go:104-107 | a ')' peeked at the end of input passes `Expect(RPAREN)` and then `Expect(EOF)` |
| Exprs.ExprOfText | pkg/series/expr.go:29-43 | the definition of `ParseExpr`: the expression when the parse ends at EOF, otherwise the first error; stated by `PlainName`, `NotACall`, `AggregateOfName`, `SampleOfName` |
| Exprs.Visit | pkg/series/expr.go:311-340 | the definition of the walk: front of the queue taken, children pushed at the back; stated by `VisitMeetsNested` |
| Exprs.Dedup | pkg/series/expr.go:325-332 | the definition of the seen-set filter; stated by `DedupUnseen`, `DedupDistinct`, `DedupFirst`, `DedupCovers` |
| Exprs.Nested | pkg/series/expr.go:316-339 | the reference definition of the matchers inside an expression, by structure, against which the walk is proved (`VisitMeetsNested`) |
| Exprs.CallEndGrammar | pkg/series/expr.go:99-107 | for every token after the arguments: ')' closes the call; a comma then ')' closes it too; a comma then anything else, or any other token, fails with "expected right parenthesis but got ..."; an argument error passes through |
| Exprs.AliasGrammar | pkg/series/expr.go:177-194 | `parseAliasExpr` succeeds exactly when an expression, a comma and a STRING follow, and then gives the alias of that expression with the string's text; otherwise the expression's error, "expected comma ..." or "expected string ..." for the token found |
| Exprs.ScaleGrammar | pkg/series/expr.go:282-304 | `parseScaleExpr` succeeds exactly when an expression, a comma and a NUMBER whose text converts follow, and then gives the scale of that expression by that value; otherwise the expression's error, "expected comma ...", "expected number ..." or the conversion error |
| Exprs.SampleGrammar | pkg/series/expr.go:207-239 | `parseSampleExpr` gives the average mode when ',' or ')' follows the expression; otherwise it needs IDENT `with` ("expected with keyword ..." for another name, "expected identifier ..." for another token) and then a mode name ("expected sample mode but got "<text>" at L:C" for an unknown one); `with` then the name of a mode gives the sample in that mode, and a success carries the mode its name denotes |
| Exprs.SampleWithMode | pkg/series/expr.go:220-239 | after an expression, `with` then the name of a sample mode parses as the sample of that expression in that mode, with the parser after the mode name |
| Exprs.CallKinds | pkg/series/expr.go:81-97 | a call that succeeds gives the expression of its function: an alias exactly for alias, a sample exactly for sample, a scale exactly for scale, an aggregate with the average operator exactly for avg and with the sum operator exactly for sum |
| Exprs.AggregateGrammar | pkg/series/expr.go:138-158 | one turn of the loop: an argument error ends it with that error; no comma ends the list with the expression appended; a comma then ')' ends it the same way (trailing comma); a comma then anything else goes on with the expression appended |
| Exprs.AggregateKeeps | pkg/series/expr.go:138-158 | a loop that succeeds returns an aggregate with the operator it was given, and the list it returns extends the list collected so far by at least one expression |
| Exprs.AggregatePrefix | pkg/series/expr.go:138-158 | the list collected so far only goes in front: the loop from a list acc returns acc followed by what the loop from the empty list returns, and fails exactly when that one fails |
| Exprs.AggregateCons | pkg/series/expr.go:138-158 | when an argument is followed by a comma and not by ')', the aggregate is that argument followed by the aggregate the rest of the list gives, so the arguments are kept in order |
| Exprs.SampleOfName | pkg/series/expr.go:207-239 | `sample(name)`, name no function, parses as the sample of that metric in the average mode |
| Matchers.NewMatchCond | pkg/labels/matcher.go:137-152 | `NewMatchCond` succeeds unless the operator is =~ or !~ and the value does not compile; then the compile error is the result |
| Matchers.MatchMeaning | pkg/labels/matcher.go:154-176 | a condition never matches a label of another name; = matches exactly the label (name, value); != and !~ match exactly the labels of that name that = and =~ do not |
| Matchers.OpTypeInverse | pkg/labels/matcher.go:215-229 | the switch from operator tokens to operators is a bijection onto the four operators, and each operator's token is one `IsOperator` accepts |
| Matchers.CondStrings | pkg/labels/matcher.go:116-122 | one printed condition per condition |
| Matchers.String | pkg/labels/matcher.go:110-127 | the buffer loop of `Matcher.String` writes `Format(m)`: '{', the conditions comma-separated in order, '}' |
| Matchers.FilledStep | pkg/labels/matcher.go:116-122 | a turn of the loop writes a comma unless it is the first, then the next condition |
| Matchers.CondFrom | pkg/labels/matcher.go:202-239 | `parseMatchCond` keeps the parser valid and consumes input when it succeeds; its results are stated by `CondFromPeeked` |
| Matchers.CondLoop | pkg/labels/matcher.go:53-71 | the condition loop keeps the parser valid and never moves it back |
| Matchers.AfterCond | pkg/labels/matcher.go:59-70 | after a condition, a comma continues the list and a comma then '}' ends it; the parser never moves back |
| Matchers.MatcherFrom | pkg/labels/matcher.go:23-80 | `MatcherFromParser` keeps the parser valid and never moves it back; its results are stated by the lemmas below |
| Matchers.BracedFrom | pkg/labels/matcher.go:45-79 | the braced part keeps the parser valid and never moves it back |
| Matchers.ParseMatchCond | pkg/labels/matcher.go:202-239 | `parseMatchCond` on the parser returns the condition and the state `CondFrom` gives |
| Matchers.CondsFromParser | pkg/labels/matcher.go:52-72 | the condition loop on the parser, as `CondLoop` |
| Matchers.MatcherFromParser | pkg/labels/matcher.go:23-80 | `MatcherFromParser` on the parser, as `MatcherFrom` |
| Matchers.BracedFromParser | pkg/labels/matcher.go:45-79 | the braced part on the parser, as `BracedFrom` |
| Matchers.ParseMatcher | pkg/labels/matcher.go:82-97 | `ParseMatcher` returns `MatcherOfText`: the matcher when it runs to EOF, and otherwise the first error |
| Matchers.ValidNameIsIdentifier | pkg/labels/labels.go:198-210 | a valid label name is exactly a lexer identifier with no digit first |
| Matchers.ScanOperatorText | pkg/labels/matcher.go:179-199 | the text `MatchCond.String` writes for an operator, followed by a quote, scans as that operator's token and nothing more |
| Matchers.CondText | pkg/labels/matcher.go:179-199 | a printed condition is the name, the operator and the value as %q writes it, at those offsets |
| Matchers.CondFromPeeked | pkg/labels/matcher.go:202-239 | once the name is peeked, `parseMatchCond` fails with "expected operator but got <type> at <pos>" unless an operator follows, then with "expected string" unless a STRING follows, and otherwise returns `NewMatchCond` of the three |
| Matchers.QuotedHere | pkg/labels/matcher.go:199 | a %q value starts with its quote, which ends any blank run |
| Matchers.CondAt | pkg/labels/matcher.go:210-238 | an operator and a quoted value after the peeked name parse as that condition and stop after the closing quote |
| Matchers.CondRoundTrip | pkg/labels/matcher.go:179-239 | a printed condition parses back to itself and stops at its end |
| Matchers.ScanMark | pkg/parser/parser.go:154-167 | a brace or a comma scans as one character of its type |
| Matchers.PrintedNameAt | pkg/labels/matcher.go:199 | a printed condition starts with its name, followed by an operator's first character |
| Matchers.ScanName | pkg/parser/parser.go:173-195 | a name followed by an operator scans as that identifier |
| Matchers.ListText | pkg/labels/matcher.go:116-122 | a comma-joined list is its first part, then the tail or a comma and the rest |
| Matchers.AfterCondCloses | pkg/labels/matcher.go:61-64 | after a condition, '}' ends the list and is left peeked |
| Matchers.AfterCondTrailing | pkg/labels/matcher.go:66-70 | after a condition, a comma then '}' ends the list, with '}' peeked |
| Matchers.AfterCondContinues | pkg/labels/matcher.go:62-66 | after a condition, a comma and a name continue the list, with that name peeked |
| Matchers.ListHead | pkg/labels/matcher.go:116-122 | a printed list starts with its first condition |
| Matchers.ListOne | pkg/labels/matcher.go:116-124 | a printed list of one condition is that condition, then the tail |
| Matchers.ListMore | pkg/labels/matcher.go:116-122 | a printed list of several conditions is the first, a comma, and the printed rest |
| Matchers.ListAtName | pkg/labels/matcher.go:116-122 | a printed list starts with its first name, followed by an operator |
| Matchers.TailText | pkg/labels/matcher.go:124 | the characters of the closing tail |
| Matchers.CondLoopTurn | pkg/labels/matcher.go:53-59 | one turn of the loop is `parseMatchCond` then the rest of the turn |
| Matchers.AfterCondTail | pkg/labels/matcher.go:61-70 | the last condition followed by the tail ends the list |
| Matchers.CondBeforeTail | pkg/labels/matcher.go:54-59 | the last printed condition parses and the tail follows it |
| Matchers.CondLoopLast | pkg/labels/matcher.go:53-71 | the last printed condition ends the loop after the tail |
| Matchers.CondLoopMore | pkg/labels/matcher.go:53-71 | any other turn adds the first condition and leads to the start of the rest of the printed list |
| Matchers.CondLoopRoundTrip | pkg/labels/matcher.go:53-71 | the loop reads back a whole printed list of conditions and stops at its end with the closing brace peeked |
| Matchers.AllPrintableTail | pkg/labels/matcher.go:116-122 | the conditions after the first of a printable list are printable |
| Matchers.PrintedFormat | pkg/labels/matcher.go:112-127 | the printed form without a trailing comma is what `Matcher.String` writes |
| Matchers.PrintedText | pkg/labels/matcher.go:112-127 | a printed matcher is '{', the joined conditions and the tail, and "{}" when empty |
| Matchers.OpeningBrace | pkg/labels/matcher.go:26-27 | the opening brace is the first token peeked |
| Matchers.MatcherFromOpen | pkg/labels/matcher.go:26-50 | a text starting with '{' has no leading name and is parsed as the braced list from offset 1 |
| Matchers.BracedEmpty | pkg/labels/matcher.go:52-79 | "{}" has no conditions |
| Matchers.BracedPrinted | pkg/labels/matcher.go:47-79 | a printed list and its tail after the brace parse back to that list |
| Matchers.MatcherFromPrinted | pkg/labels/matcher.go:23-80 | the braces and conditions of a printed matcher parse back to it and the parse stops after the closing brace |
| Matchers.ParsePrinted | pkg/labels/matcher.go:82-127 | `ParseMatcher` of what `String` writes gives back the matcher, for every matcher whose names are valid, whose values hold no control characters and whose patterns compile; a comma before the closing brace changes nothing |
| Matchers.ParseFormat | pkg/labels/matcher.go:82-127 | `ParseMatcher(m.String()) == m` for the same matchers |
| Matchers.LeadingName | pkg/labels/matcher.go:26-37 | a leading name is peeked as an IDENT and consumed |
| Matchers.LoneName | pkg/labels/matcher.go:29-43 | a name not followed by '{' is the whole matcher: the one condition `__name__ = name` |
| Matchers.NameAtEnd | pkg/labels/matcher.go:39-43 | a name with only blanks after it is the matcher, and the end of input follows |
| Matchers.NameBeforeMark | pkg/labels/matcher.go:39-43 | a name followed by a mark other than '{' is the matcher, and the mark is left peeked |
| Matchers.BareName | pkg/labels/matcher.go:82-97 | `ParseMatcher(name)` is the one condition `__name__ = name` |
| Matchers.NameEmptyBracesAt | pkg/labels/matcher.go:47-79 | a name then "{}" in text is the same matcher as the name alone |
| Matchers.NameEmptyBraces | pkg/labels/matcher.go:47-79 | `ParseMatcher(name + "{}")` is the name condition alone |
| Matchers.NameThenClosingBrace | pkg/labels/matcher.go:91-94 | `ParseMatcher(name + "}")` fails because it expects EOF but gets '}' at 1:(n+1) |
| Matchers.NameThenMark | pkg/labels/matcher.go:39-43 | the same for any text with '}' right after the name |
| Matchers.EmptyInput | pkg/labels/matcher.go:45-50 | empty input has no name and fails with "expected { but got EOF at 1:1" |
| Matchers.MarkOnFirstLine | pkg/parser/parser.go:154-167 | a brace, parenthesis or comma on the first line is the next token, at the column after the characters before it |
| Matchers.BracedKeyText | pkg/labels/matcher.go:202-212 | the layout of `name{key}` |
| Matchers.SameOperatorMessage | pkg/labels/matcher.go:211-213 | the "expected operator" message names only the token's type and position |
| Matchers.KeyWithoutOperator | pkg/labels/matcher.go:210-213 | a label name followed by '}' inside the braces fails on the brace where the operator should be |
| Matchers.MissingOperatorAt | pkg/labels/matcher.go:202-213 | `name{key}` laid out in text fails with "expected operator but got } at 1:(n+k+2)" |
| Matchers.MissingOperator | pkg/labels/matcher.go:202-213 | `ParseMatcher(name + "{" + key + "}")` fails on the closing brace where the operator should be |
| Matchers.MatcherOfText | pkg/labels/matcher.go:83-97 | the definition of `ParseMatcher`: the matcher when the parse ends at EOF, otherwise the first error; stated by `ParseFormat`, `ParsePrinted`, `BareName` |
| Matchers.Format | pkg/labels/matcher.go:112-127 | the definition of the text `Matcher.String` writes; stated by `String` and `ParseFormat` |
| Matchers.Match | pkg/labels/matcher.go:156-176 | the definition of `MatchCond.Match` for each operator, with the regular expression a parameter |
| Matchers.OpOf | pkg/labels/matcher.go:217-229 | the definition of the operator switch of `parseMatchCond`; stated by `ScanOperatorText` |
| LabelPair.NameValid | pkg/labels/labels.go:198-210 | the loop of `NameValid` accepts exactly the non-empty names of ASCII letters, digits and underscores with no digit first |
| LabelPair.Validate | pkg/labels/labels.go:174-192 | `Label.Validate` succeeds exactly for a valid name and value; the name is checked first, with "empty label name" or "invalid label name: <name>", then "empty label value" |
| LabelPair.String | pkg/labels/labels.go:168-170 | `Label.String` is the name, '=', then the value as %q writes it, which unquotes back to the value |
| LabelList.FirstIndex | pkg/labels/labels.go:43-51 | the index of the first label of the name, or the length when there is none; no earlier label has the name |
| LabelList.EqConds | pkg/labels/labels.go:113-128 | the equality conditions name = value, one per label, in order |
| LabelList.LabelStrings | pkg/labels/labels.go:117-123 | one printed label per label |
| LabelList.Labels.New | pkg/labels/labels.go:26-29 | `New` holds exactly the given labels |
| LabelList.Labels.Append | pkg/labels/labels.go:31-34 | `Append` adds the labels at the end and changes nothing before them |
| LabelList.Labels.Copy | pkg/labels/labels.go:36-39 | `Copy` returns a new list with the same labels that shares nothing with the original |
| LabelList.Labels.Get | pkg/labels/labels.go:41-51 | `Get` returns the value of the first label of the name, and "" when there is none |
| LabelList.Labels.Len | pkg/labels/labels.go:53-56 | `Len` is the number of labels |
| LabelList.Labels.Swap | pkg/labels/labels.go:130-133 | `Swap` exchanges two labels and keeps the multiset of labels |
| LabelList.Labels.Match | pkg/labels/labels.go:63-87 | the double loop of `Match`, with its early return when the count reaches the number of conditions, returns `Matches`: true for a nil matcher, and otherwise whether the matching (condition, label) pairs reach the number of conditions |
| LabelList.Labels.Pop | pkg/labels/labels.go:89-109 | `Pop` returns the value of the first label of the name ("" if none) and removes exactly that label |
| LabelList.Labels.String | pkg/labels/labels.go:111-128 | the buffer loop of `Labels.String` writes '{', each label as name="value" comma-separated, then '}' |
| LabelList.Labels.Validate | pkg/labels/labels.go:139-159 | the loop of `Validate` as written, `last` starting as "", returns `ValidateAsWritten(items, "")`, and it refuses exactly the lists the intended check `ValidateList` refuses |
| LabelList.FirstIndexAt | pkg/labels/labels.go:43-51 | the first index of a name is the one index before which no label has the name and at which one has it |
| LabelList.PopKeepsOthers | pkg/labels/labels.go:89-109 | after `Pop`, every other name still finds the value it found before |
| LabelList.ConsValue | pkg/labels/labels.go:44-48 | `Get` on a list with a label in front looks at that label first |
| LabelList.ConsRemoved | pkg/labels/labels.go:96-106 | `Pop` keeps a front label of another name in front |
| LabelList.PopShortens | pkg/labels/labels.go:103-106 | `Pop` makes the list one shorter exactly when a label of the name is present, and leaves only labels that were there |
| LabelList.LabelStringsAreConds | pkg/labels/labels.go:168-170 | a label printed by `Labels.String` is the condition name = "value" printed by `Matcher.String` |
| LabelList.ListStringIsFormat | pkg/labels/labels.go:113-128 | `Labels.String` writes what `Matcher.String` writes for the equality conditions of the labels |
| LabelList.ParseListString | pkg/labels/labels.go:113-128 | `ParseMatcher` reads what `Labels.String` writes back as the equality conditions of the labels, when every name is valid and no value holds a control character |
| LabelList.LessIsStrictOrder | pkg/labels/labels.go:58-61 | `Less` is a strict total order on names: irreflexive, transitive, and of two different names exactly one is less |
| LabelList.HitsPrefix | pkg/labels/labels.go:74-78 | the count over a prefix of the labels is at most the count over all of them |
| LabelList.PairsPrefix | pkg/labels/labels.go:73-84 | the count over a prefix of the conditions is at most the count over all of them |
| LabelList.PairsReached | pkg/labels/labels.go:73-84 | the count the loop of `Match` has reached is at most the total |
| LabelList.HitsDistinct | pkg/labels/labels.go:73-84 | with distinct names a condition matches at most one label, and matches one exactly when some label satisfies it |
| LabelList.PairsDistinct | pkg/labels/labels.go:73-84 | with distinct names the count is at most the number of conditions, and equals it exactly when every condition matches a label |
| LabelList.MatchesMeaning | pkg/labels/labels.go:63-87 | on a list with distinct names, `Match` with a non-nil matcher holds exactly when the matcher is non-empty and each condition matches some label |
| LabelList.ValidateListMeaning | pkg/labels/labels.go:139-159 | the intended `Validate` accepts exactly the lists whose labels are all valid and whose neighbours have different names |
| LabelList.SortedValidate | pkg/labels/labels.go:135-159 | on a list sorted by name, the intended `Validate` accepts exactly the lists of valid labels with distinct names |
| LabelList.SameVerdict | pkg/labels/labels.go:139-159 | the loop as written and the intended check refuse the same lists; only the message for a first label with an empty name differs |
| LabelList.ValidateAgrees | pkg/labels/labels.go:139-159 | the loop as written and the intended one agree whenever the first name is not empty |
| LabelList.ValidateEmptyFirstName | pkg/labels/labels.go:140-148 | as written, `[Label("", "value")]` is reported as "duplicate label name: " because the first name is compared with the initial empty `last`; the intended loop reports "empty label name" |
| LabelList.ValidateList | pkg/labels/labels.go:139-159 | the definition of `Validate` as intended (no previous name for the first label); stated by `ValidateListMeaning` |
| LabelList.ValidateAsWritten | pkg/labels/labels.go:139-159 | the definition of the `Validate` loop as written (previous name "" at the start); stated by `ValidateAgrees`, `ValidateEmptyFirstName` |
| LabelList.ListString | pkg/labels/labels.go:113-128 | the definition of `Labels.String`: each label as name=%q, comma-separated, in braces; stated by `ListStringIsFormat` and `ParseListString` |
| LabelList.Matches | pkg/labels/labels.go:64-87 | the definition of `Labels.Match`; stated by `MatchesMeaning` |
| Catalog.ConnectorOf | pkg/catalog/metric.go:18-26 | `Metric.Connector` is none exactly when the metric belongs to no section, and otherwise the section's connector |
| Catalog.MetricString | pkg/catalog/metric.go:28-32 | `Metric.String` pops `__name__` from a copy of the labels (the metric keeps its own) and writes its value before the remaining labels in braces |
| Catalog.NamelessText | pkg/catalog/metric.go:28-32 | without a `__name__` label the string of a metric is the braces part alone |
| Catalog.NamedText | pkg/catalog/metric.go:28-32 | with `__name__` first and only once, the string is its value followed by the other labels in braces |
| Catalog.Sorted | pkg/catalog/section.go:30 | the labels `Insert` stores are sorted by name and a permutation of the given ones |
| Catalog.Section.New | pkg/catalog/section.go:20-26 | `NewSection` keeps the connector and holds no metric |
| Catalog.Section.Insert | pkg/catalog/section.go:28-41 | `Insert` sorts the labels by name and validates them with the loop as written; a metric is refused exactly when some label is invalid or two labels share a name, with the validation error, and nothing changes; a valid one is appended, linked to this section; every stored metric stays valid, sorted and linked |
| Catalog.Section.Query | pkg/catalog/section.go:43-59 | `Query` returns a copy of all metrics for a nil matcher, and otherwise the matching ones in insertion order |
| Catalog.InsertAccepts | pkg/catalog/section.go:28-41 | a metric is accepted exactly when every label is valid and no two labels share a name, whatever order they come in |
| Catalog.SelectedAll | pkg/catalog/section.go:46-48 | a nil matcher selects every metric |
| Catalog.SelectedCount | pkg/catalog/section.go:50-58 | `Query` keeps each matching metric as often as it is stored, and no other metric |
| Catalog.SelectedAppend | pkg/catalog/section.go:52-56 | querying two lists one after the other is querying their concatenation |
| Catalog.Catalog.New | pkg/catalog/catalog.go:23-28 | `New` has no sections |
| Catalog.Catalog.Link | pkg/catalog/catalog.go:30-36 | `Link` stores the section under its name, replacing any other |
| Catalog.Catalog.Unlink | pkg/catalog/catalog.go:70-76 | `Unlink` removes only that name |
| Catalog.Catalog.Metrics | pkg/catalog/catalog.go:55-68 | `Metrics` returns every section's query result, sorted by their string forms, as a permutation of the results gathered section by section |
| Catalog.Catalog.Labels | pkg/catalog/catalog.go:38-53 | `Labels` returns the names of the labels of the matching metrics, each once, in ascending order |
| Catalog.Catalog.Values | pkg/catalog/catalog.go:78-95 | `Values` returns the values of the label among the matching metrics, each once, in ascending order |
| Catalog.NamesSorted | pkg/catalog/catalog.go:41-52 | the loops of `Labels`: the label names of the metrics, each once, sorted |
| Catalog.ValuesSorted | pkg/catalog/catalog.go:81-94 | the loops of `Values`: the values of the labels of that name, each once, sorted |
| Catalog.AddNames | pkg/catalog/catalog.go:44-46 | the inner loop of `Labels` adds every label name to the set |
| Catalog.AddValues | pkg/catalog/catalog.go:84-88 | the inner loop of `Values` adds the value of every label of that name to the set |
| Catalog.SortedMembers | pkg/catalog/catalog.go:49-50 | `set.StringSlice` then `sort.Strings` list each member once in strictly ascending order |
| Catalog.NamesInMeaning | pkg/catalog/catalog.go:44-46 | a name is collected exactly when some label has it |
| Catalog.ValuesInMeaning | pkg/catalog/catalog.go:84-88 | a value is collected exactly when the label (key, value) is present |
| Catalog.LabelNamesMeaning | pkg/catalog/catalog.go:43-47 | a name is listed exactly when some matching metric has a label of it |
| Catalog.LabelValuesMeaning | pkg/catalog/catalog.go:83-89 | a value is listed exactly when some matching metric has the label (key, value) |
| Catalog.SameLabelNames | pkg/catalog/catalog.go:43-47 | the names listed do not depend on the order of the metrics |
| Catalog.SameLabelValues | pkg/catalog/catalog.go:83-89 | the values listed do not depend on the order of the metrics |
| Catalog.GatherAppend | pkg/catalog/catalog.go:59-61 | gathering two lists of sections is gathering one then the other |
| Catalog.GatherMeaning | pkg/catalog/catalog.go:57-68 | a metric is gathered exactly when it matches and is stored in a visited section |
| Catalog.GatherAnyOrder | pkg/catalog/catalog.go:59-61 | the metrics gathered do not depend on the order Go visits the sections map in: any two orders give the same metrics, as often each |
| Catalog.PermutedGather | pkg/catalog/catalog.go:59-61 | two orders listing the same distinct section names gather the same multiset of metrics |
| Catalog.GatherSplit | pkg/catalog/catalog.go:59-61 | visiting one more section adds its query result to the metrics gathered |
| Catalog.UnmarshalAction | pkg/catalog/filter.go:28-49 | `FilterAction.UnmarshalText` stores one of discard, relabel, rewrite and sieve; empty text gives "invalid filter action", other text "invalid filter action: <text>", and the receiver keeps its value |
| Catalog.UnmarshalPattern | pkg/catalog/filter.go:51-81 | `FilterPattern.UnmarshalText` keeps the text even when compilation fails, so `MarshalText` gives it back; a syntax error is reported as "invalid filter pattern: <code>: `<expr>`" and any other compile error as it is |
| Sets.Set.New | pkg/set/set.go:20-31 | `New` holds exactly the given values |
| Sets.Set.Add | pkg/set/set.go:33-41 | `Add` makes every given value a member and keeps the others |
| Sets.Set.Has | pkg/set/set.go:43-57 | `Has` is true exactly when every given value is a member, and true for no values |
| Sets.Set.Len | pkg/set/set.go:59-65 | `Len` is the number of members |
| Sets.Set.Remove | pkg/set/set.go:67-75 | `Remove` drops exactly the given values and keeps the others |
| Sets.Set.Slice | pkg/set/set.go:77-88 | `Slice` lists each member exactly once, in some order, `Len` of them |
| Sets.StringSlice | pkg/set/set.go:90-98 | `StringSlice` lists each member of a set of strings once |
| Sets.AddIdempotent | pkg/set/set.go:38-40 | adding values already present changes nothing, so `Len` stays |
| Sets.RemoveAbsent | pkg/set/set.go:72-74 | removing absent values changes nothing |
| Sets.DistinctCardinality | pkg/set/set.go:77-88 | a list of distinct values has as many elements as the set of them |
| Sorting.SortBy | pkg/catalog/catalog.go:63-65 | the sort the Go code calls returns a sequence sorted by the key and a permutation of its input |
| Sorting.SortStrings | pkg/catalog/catalog.go:50 | `sort.Strings` returns the strings in ascending order, a permutation of its input |
| Sorting.DistinctPermutation | pkg/catalog/catalog.go:49-50 | a permutation of distinct values is distinct |
| Sorting.SortedDistinctIsStrict | pkg/catalog/catalog.go:49-50 | sorting distinct strings gives a strictly increasing sequence |
| Text.NatToString | pkg/parser/token.go:102-104 | the decimal digits of a number, with no leading zero |
| Text.DecimalValueOfNatToString | pkg/parser/token.go:102-104 | the decimal text of a number reads back as that number |
| Text.BelowIrreflexive | pkg/labels/labels.go:58-61 | Go's string `<` is irreflexive |
| Text.BelowTransitive | pkg/labels/labels.go:58-61 | Go's string `<` is transitive |
| Text.BelowTotal | pkg/labels/labels.go:58-61 | of two different strings one is less than the other |
| Text.BelowAsymmetric | pkg/labels/labels.go:58-61 | no two strings are each less than the other |
| Text.Split | pkg/api/options.go:22 | `strings.Split` with a one-character separator gives the maximal pieces holding no separator, at least one |
| Text.JoinSplit | pkg/api/options.go:22 | joining the pieces of `strings.Split` with the separator gives back the text |
| Text.SplitCount | pkg/api/options.go:22 | `strings.Split` gives one more piece than there are separators |
| Text.TrimLeftSpace | pkg/api/options.go:23 | the leading white space is removed and only it |
| Text.TrimRightSpace | pkg/api/options.go:23 | the trailing white space is removed and only it |
| Quoting.GoQuote | pkg/labels/labels.go:168-170 | what %q writes for a string starts and ends with a double quote |
| Quoting.GoQuoteRoundTrip | pkg/labels/labels.go:168-170 | unquoting what %q writes gives back the string, for every string |
| Quoting.GoUnescapeEscapeAll | pkg/labels/matcher.go:199 | decoding the escapes %q writes gives back the string |
| Quoting.GoUnescapeStep | pkg/labels/matcher.go:199 | each character %q writes decodes back to itself, whatever follows |
| Quoting.HexNumberOfHex | pkg/labels/matcher.go:199 | the fixed-width hexadecimal digits of a number read back as that number |
| Quoting.JsonQuote | ui/src/lib/labels.ts:43 | what `JSON.stringify` writes for a string starts and ends with a double quote |
| Quoting.JsonEscape | ui/src/lib/labels.ts:43 | `JSON.stringify` writes a printable character other than the quote and the backslash as itself, those two behind a backslash, and each control character as a backslash escape |
| Quoting.JsonQuoteRoundTrip | ui/src/lib/labels.ts:43 | `JSON.parse(JSON.stringify(s))` is s for every string s |
| Quoting.JsonUnescapeEscapeAll | ui/src/lib/labels.ts:43 | decoding the escapes `JSON.stringify` writes gives back the string |
| Catalog.Gather | pkg/catalog/catalog.go:57-68 | the definition of the metrics queried from the sections, one section after the other; stated by `Catalog.Catalog.Metrics` |
| Catalog.Selected | pkg/catalog/section.go:45-60 | the definition of `Section.Query`: the matching metrics in stored order, all of them for a nil matcher |
| Catalog.LabelNames | pkg/catalog/catalog.go:40-53 | the definition of the label names of the matching metrics; stated by `LabelNamesMeaning` |
| Catalog.LabelValues | pkg/catalog/catalog.go:80-89 | the definition of the values of one label among the matching metrics; stated by `LabelValuesMeaning` |
| Catalog.MetricText | pkg/catalog/metric.go:28-32 | the definition of `Metric.String`; stated by `MetricString` |
| Quoting.GoUnquote | pkg/labels/labels.go:168-170 | the inverse of what %q writes; stated by `GoQuoteRoundTrip` |
| Quoting.JsonUnquote | ui/src/lib/labels.ts:43 | `JSON.parse` of a string literal, the inverse of `JSON.stringify`; stated by `JsonQuoteRoundTrip` |
| ApiObjects.ValidateMeta | pkg/api/objects.go:58-74 | `ObjectMeta.Validate` succeeds exactly when the name matches the case-insensitive name pattern and the identifier is empty or a UUID; "missing field: name", "invalid name: <name>" and "invalid identifier: <id>" in that order |
| ApiObjects.NameExamples | pkg/api/objects.go:22 | the name pattern accepts "a", "A-b_9" and "K", the Kelvin sign, which (?i) folds to k and refuses "-a", "a_" and "a.b" |
| ApiObjects.ValidateChart | pkg/api/objects.go:112-128 | `Chart.Validate` returns the metadata error unchanged, then succeeds exactly when the chart has series or a link but not both, with "missing field: series or link" and "conflicting fields: series and link" |
| ApiObjects.TemplateVariables | pkg/api/objects.go:155-162 | parsing the template text gives the parse error, or the distinct variable names in ascending order |
| ApiObjects.ChartVariables | pkg/api/objects.go:132-163 | `Chart.Variables` is nothing for a chart that is no template, and otherwise the variables of its template text |
| ApiObjects.ChartText | pkg/api/objects.go:137-153 | the text `Chart.Variables` assembles: each non-empty one of the left label, right label and title, then every series expression, each after the separator |
| ApiObjects.SeriesDataStep | pkg/api/objects.go:151-153 | one more series adds its expression after a separator |
| ApiObjects.ValidateDashboard | pkg/api/objects.go:354-372 | `Dashboard.Validate`: the metadata error unchanged, then items or a link but not both, with "missing field: items or link" and "conflicting fields: items and link" |
| ApiObjects.DashboardVariables | pkg/api/objects.go:376-395 | `Dashboard.Variables` is nothing for a dashboard that is no template; otherwise only the title is template text |
| ApiObjects.DollarFree | pkg/template/template.go:38-81 | a template text with no dollar sign parses without error and has no variables |
| ApiObjects.DashboardOneVariable | pkg/api/objects.go:376-395 | a template dashboard whose title is `${name}` has exactly the variable name |
| ApiObjects.OnlyNames | pkg/template/template.go:84-97 | a strictly sorted list of at most one name is that name alone |
| ApiObjects.SeparatedVariable | pkg/api/objects.go:381-385 | the separator before `${name}` is a text node of its own, followed by the variable |
| ApiObjects.ShiftedVariable | pkg/template/template.go:38-81 | after the separator's text node, `${name}` is parsed as that variable |
| ApiObjects.ValidateProvider | pkg/api/objects.go:503-517 | `Provider.Validate`: the metadata error unchanged, then "missing field: connector.type", then "missing field: connector.settings"; it succeeds exactly when there is a type and at least one setting |
| ApiObjects.UnmarshalEnum | pkg/api/objects.go:213-221 | the `UnmarshalText` of a text enumeration stores a constant of the enumeration and otherwise leaves the receiver and reports "unsupported <what>: <text>" |
| ApiObjects.EmptyEnums | pkg/api/objects.go:224-277 | the empty text is a stack mode and a unit type (their defaults) but neither a chart type nor a dashboard item type |
| ApiObjects.Objects | pkg/api/objects.go:298-309 | `ChartList.Objects`, `DashboardList.Objects` and `ProviderList.Objects` return one object per entry, at the same index |
| ApiOptions.FieldOfMeaning | pkg/api/options.go:22-29 | a field is descending exactly when its trimmed part starts with '-', and its name is the trimmed part without that one '-' |
| ApiOptions.SortFields | pkg/api/options.go:18-33 | `SortFields` returns one field per comma-separated part, in order, each read by `FieldOf` |
| ApiOptions.EmptySort | pkg/api/options.go:18-33 | an empty specification gives one empty ascending field |
| ApiOptions.FieldTexts | pkg/api/options.go:18-33 | one written field per field |
| ApiOptions.SortFieldsRoundTrip | pkg/api/options.go:18-33 | writing fields comma-separated and reading them back with `SortFields` gives the same fields, for fields with no comma and no surrounding white space |
| ApiOptions.FieldTextRead | pkg/api/options.go:22-29 | a written field reads back as itself |
| ApiOptions.TrimmedAlready | pkg/api/options.go:23 | a text with no white space at either end is its own trimmed form |
| ApiOptions.SplitJoin | pkg/api/options.go:22 | splitting parts joined with a separator none of them holds gives them back |
| ApiOptions.SplitPlain | pkg/api/options.go:22 | a text without the separator splits into itself alone |
| ApiOptions.SplitAfter | pkg/api/options.go:22 | a piece without the separator, then the separator, splits off first |
| Pagination.Page | pkg/http/server/internal/api/catalog.go:89-100 | the page as intended: from min(offset, total), at most limit entries when limit is positive, all the rest otherwise |
| Pagination.Listing.Paginate | pkg/http/server/internal/api/catalog.go:89-100 | `applyCatalogPagination` replaces the listing by the intended page |
| Pagination.PageBounds | pkg/http/server/internal/api/catalog.go:89-100 | the page is the contiguous part of the listing from min(offset, total), of at most limit entries when limit is positive, empty when offset is past the end, the whole listing for offset 0 and no or a large enough limit |
| Pagination.PagesCover | pkg/http/server/internal/api/catalog.go:89-100 | paging limit by limit visits every entry once, in order: the page at offset followed by everything after it is the rest of the listing from offset |
| Pagination.AsWrittenWithoutWrap | pkg/http/server/internal/api/catalog.go:89-100 | without wrap-around the code as written computes the intended page |
| Pagination.WrappedLimit | pkg/http/server/internal/api/catalog.go:91-93 | with ten entries, offset 5 and limit 2^64-2, the sum wraps to 3 and the code slices [5:3] and panics, where the intended page is the last five entries |
| Pagination.PageAsWritten | pkg/http/server/internal/api/catalog.go:89-100 | the page as written, with the uint sum wrapping and a crossed slice panicking; stated by `AsWrittenWithoutWrap`, `WrappedLimit` |
| ApiObjects.ValidObjectName | pkg/api/objects.go:22 | the case-insensitive object name pattern; stated by `ValidateMeta`, `NameExamples` |
| ApiObjects.ChartData | pkg/api/objects.go:137-153 | the definition of the text `Chart.Variables` assembles; stated by `ChartText` |
| ApiObjects.SeriesData | pkg/api/objects.go:151-153 | the definition of the series part of that text; stated by `SeriesDataStep` |
| ApiObjects.UnmarshalStackMode | pkg/api/objects.go:213-221 | `StackMode.UnmarshalText` over the stack mode constants; stated by `UnmarshalEnum` |
| ApiObjects.UnmarshalChartType | pkg/api/objects.go:234-242 | `ChartType.UnmarshalText` over area, bar and line; stated by `UnmarshalEnum` |
| ApiObjects.UnmarshalUnitType | pkg/api/objects.go:261-269 | `UnitType.UnmarshalText` over the unit type constants; stated by `UnmarshalEnum` |
| ApiObjects.UnmarshalDashboardItemType | pkg/api/objects.go:419-427 | `DashboardItemType.UnmarshalText` over the item type constants; stated by `UnmarshalEnum` |
| ApiObjects.VariablesOf | pkg/api/objects.go:155-162 | the variables of a template text: the parse error, or the distinct names in ascending order; stated by `TemplateVariables`, `ChartVariables` |
| ApiOptions.FieldOf | pkg/api/options.go:22-29 | the definition of one part of `SortFields`; stated by `FieldOfMeaning` |
| ApiOptions.FieldText | pkg/api/options.go:25-29 | how a field is written so that `SortFields` reads it back; stated by `FieldTextRead`, `SortFieldsRoundTrip` |
| GoTemplate.TextEnd | pkg/template/template.go:124-153 | where readText stops: never before its start, and at its start only at the end of the text or before a variable whose dollar is not escaped |
| GoTemplate.NameEnd | pkg/template/template.go:169-190 | the end of the run of identifier characters: the byte there, if any, is no identifier character |
| GoTemplate.Template.New | pkg/template/template.go:27-30 | a new template has no nodes |
| GoTemplate.Template.Read | pkg/template/template.go:108-122 | `read` returns the next byte and moves past it, the line up by one after a newline, the column otherwise; at the end of the text it reports the end and changes nothing |
| GoTemplate.Template.Unread | pkg/template/template.go:199-204 | `unread` moves back over the byte just read, and does nothing when the reader refuses an unread |
| GoTemplate.Template.Peek | pkg/template/template.go:104-106 | `peek` returns the next n bytes, or what is left with the end reported, and consumes nothing |
| GoTemplate.Template.Discard | pkg/template/template.go:100-102 | `discard` skips one byte, if there is one |
| GoTemplate.Template.ReadText | pkg/template/template.go:124-153 | `readText` reads the text node up to `TextEnd` |
| GoTemplate.Template.DollarStops | pkg/template/template.go:137-146 | in `readText`, a dollar not after a backslash ends the text exactly when a variable starts there; it is put back in that case and kept otherwise |
| GoTemplate.Template.ReadVariable | pkg/template/template.go:155-197 | `readVariable` reads the variable `VariableAt` describes, or reports the unbalanced brace at the brace's line and column |
| GoTemplate.Template.ReadName | pkg/template/template.go:167-190 | the loop of `readVariable` reads the identifier characters up to `NameEnd`, then the closing brace if there was an opening one and it is there; any other byte is put back |
| GoTemplate.Template.Parse | pkg/template/template.go:37-81 | `Parse` replaces the nodes with those `NodesOf` gives the text, and returns its error |
| GoTemplate.Template.ParseNode | pkg/template/template.go:44-78 | one round of the loop of `Parse`: the last byte as a text node, or a variable, or a text run, or the unbalanced-brace error, as `RoundAt` says |
| GoTemplate.Template.Variables | pkg/template/template.go:83-98 | `Variables` lists the names of the variable nodes, each once, in ascending order |
| GoTemplate.NamesAppend | pkg/template/template.go:87-92 | one more node adds its name to the names exactly when it is a variable node |
| GoTemplate.TextNodesNonEmpty | pkg/template/template.go:44-78 | no text node `Parse` builds is empty |
| GoTemplate.TextToEnd | pkg/template/template.go:124-153 | with no dollar left, `readText` reads to the end |
| GoTemplate.TextToEndNoVariable | pkg/template/template.go:124-153 | where no variable starts, `readText` reads to the end |
| GoTemplate.ShortTexts | pkg/template/template.go:44-52 | the empty text has no nodes; a single byte is one text node |
| GoTemplate.PlainText | pkg/template/template.go:37-81 | a text in which no variable starts is one text node |
| GoTemplate.Dollar | pkg/template/template.go:155-197 | `$name` is the variable name |
| GoTemplate.Braced | pkg/template/template.go:155-197 | `${name}` is the variable name, even the empty one |
| GoTemplate.UnclosedBrace | pkg/template/template.go:192-194 | `${name` with no closing brace right after the identifier characters fails with "unbalanced brace at 1:2" and no nodes |
| GoTemplate.Escaped | pkg/template/template.go:137 | a backslash before the dollar keeps both in the text node |
| GoTemplate.LiteralDollar | pkg/template/template.go:137-146 | a dollar followed by a byte that starts neither a name nor a brace is literal text |
| GoTemplate.VariableAt | pkg/template/template.go:155-197 | what `readVariable` reads past the dollar stays in the text, and a name character or an opening brace is always consumed |
| GoTemplate.RoundAt | pkg/template/template.go:41-77 | a round of the loop of `Parse` that goes on always moves forward, so the loop ends |
| GoTemplate.NameEndAt | pkg/template/template.go:169-190 | a run of identifier characters followed by the end or by another character ends exactly there |
| GoTemplate.NodesFromTexts | pkg/template/template.go:124-153 | `readText` always consumes a byte, so no text node `Parse` builds is empty |
| RelTime.Wrap64 | pkg/series/time.go:74-89 | the value Go's int64 arithmetic keeps: always in the int64 range, and the exact value when that is in range |
| RelTime.DigitRun | pkg/series/time.go:50-56 | the inner loop collects the longest run of ASCII digits at the start of the text |
| RelTime.Atoi | pkg/series/time.go:63-66 | `strconv.Atoi` of a run of digits succeeds exactly when the run is not empty and its value fits in an int, and then gives that value |
| RelTime.ParseTime | pkg/series/time.go:17-103 | `ParseTime` computes the time the text denotes, with exact (corrected) arithmetic: a date the RFC 3339 parser accepts, "now", or now moved by the signed components, the calendar ones applied at the end and only when not all zero; "invalid time: <text>" otherwise |
| RelTime.ReadComponents | pkg/series/time.go:45-96 | the loop over the components fails exactly when `Components` does, and otherwise moves the time by the clock components and sums the calendar ones as `Components` says |
| RelTime.AddComponent | pkg/series/time.go:72-93 | the switch of the loop: s, m and h move the time by that many seconds, minutes or hours; d, M and y add to the days, months or years |
| RelTime.ScanDigits | pkg/series/time.go:48-58 | the inner loop stops at the end of the leading digit run |
| RelTime.EvaluateBody | pkg/series/time.go:33-43 | once the sign is taken off a non-empty body, the result is decided by the body's components alone |
| RelTime.ComponentsFail | pkg/series/time.go:58-92 | digits running to the end of the text, digits Atoi refuses, or an unknown unit make the whole text invalid |
| RelTime.ComponentsUnfold | pkg/series/time.go:47-96 | one well-formed component is added and reading goes on after its unit |
| RelTime.RunIsDigitRun | pkg/series/time.go:50-56 | digits up to a non-digit or the end are the leading digit run |
| RelTime.ComponentsFromAcc | pkg/series/time.go:45-96 | the running totals only add up: reading from a start value gives the start value plus what the text gives from zero |
| RelTime.MinusNegates | pkg/series/time.go:36-70 | a leading minus negates every component, the calendar ones included |
| RelTime.OneComponent | pkg/series/time.go:47-96 | digits then a unit letter is one component of that value, negated under a minus |
| RelTime.ComponentsConcat | pkg/series/time.go:47-96 | components are read one after another: the totals of a complete prefix carry on into the rest, so a repeated unit accumulates |
| RelTime.Malformed | pkg/series/time.go:27-43 | the empty text and a bare "+" or "-" are invalid times |
| RelTime.MalformedDigits | pkg/series/time.go:59-92 | digits without a unit, a text that starts with neither a digit nor a sign, and an unknown unit letter are invalid times |
| RelTime.Signed | pkg/series/time.go:33-39 | "+" reads as no sign and "-" as the negated offset; a body that is invalid is invalid under either sign |
| RelTime.Ago | pkg/series/time.go:72-80 | "-" then N of s, m or h is N seconds, minutes or hours before now, for every N that Atoi accepts |
| RelTime.ClockAgo | pkg/series/time.go:72-80 | a negated single clock component moves now back by its length |
| RelTime.ClockStep | pkg/series/time.go:72-80 | a clock component touches only the nanoseconds |
| RelTime.NanosOnly | pkg/series/time.go:98-100 | without calendar components AddDate is not called |
| RelTime.MinusText | pkg/series/time.go:35-43 | a text that starts with '-' is read as its body, negated, or is invalid with the whole text in the message |
| RelTime.HoursWrapAround | pkg/series/time.go:79-80 | "-3000000h" is read, as written, as 7 646 744 073 709 551 616 ns (about 242 years) after now, where it denotes 3 000 000 hours before now |
| RelTime.HoursAsWritten | pkg/series/time.go:79-80 | the code as written reads "-3000000h" as a time about 242 years after now |
| RelTime.ThreeMillion | pkg/series/time.go:63 | the digits "3000000" have the value 3 000 000 |
| RelTime.WrappedHours | pkg/series/time.go:79-80 | -3 000 000 hours in nanoseconds, wrapped to 64 bits, is 7 646 744 073 709 551 616 |
| RelTime.Step | pkg/series/time.go:72-93 | the definition of one turn of the switch, under exact or 64-bit arithmetic; stated by `AddComponent`, `ClockStep` |
| RelTime.Components | pkg/series/time.go:45-96 | the definition of the component loop; stated by `ComponentsFail`, `ComponentsUnfold`, `ComponentsConcat`, `ComponentsFromAcc`, `OneComponent` |
| RelTime.Evaluate | pkg/series/time.go:18-103 | the definition of `ParseTime` for a given arithmetic; stated by `Malformed`, `Signed`, `MinusText`, `EvaluateBody` |
| RelTime.ParseTimeAsWritten | pkg/series/time.go:18-103 | `ParseTime` as written, with each duration product and calendar sum wrapped to 64 bits; stated by `HoursAsWritten` |
| RelTime.TimeOfText | pkg/series/time.go:18-103 | `ParseTime` as intended, with exact arithmetic; stated by `Ago`, `ClockAgo`, `NanosOnly` |
| UiLexer.TypeOfDescription | ui/src/lib/parser.ts:34-54 | a description names at most one token type, the one whose string value it is |
| UiLexer.DescriptionNames | ui/src/lib/parser.ts:34-54 | distinct token types have distinct string values, so comparing the values compares the types |
| UiLexer.FormatPosition | ui/src/lib/parser.ts:12-14 | `formatPosition` writes the line in decimal, a colon, then the character in decimal |
| UiLexer.ReadChar | ui/src/lib/parser.ts:106-121 | `read` takes the first character, or "" at end of input, off the text and remembers it with the position it was read at; a newline moves to the start of the next line, anything else one character along |
| UiLexer.UnreadChar | ui/src/lib/parser.ts:288-295 | `unread` puts the remembered character back in front of the text and restores its position, then forgets it; with nothing remembered it changes nothing |
| UiLexer.ReadUnread | ui/src/lib/parser.ts:106-121 | a read followed by an unread gives back the state, with nothing remembered |
| UiLexer.UnreadOnce | ui/src/lib/parser.ts:288-295 | a second unread does nothing |
| UiLexer.EndOfInputForever | ui/src/lib/parser.ts:16-26 | at end of input every later read gives "", which `includes` finds in every character set, so a loop testing the character read never stops |
| UiLexer.Leading | ui/src/lib/parser.ts:123-136 | the number of leading characters of a class never exceeds the text's length |
| UiLexer.RunSet | ui/src/lib/parser.ts:123-136 | `run` only ever consumes text and returns at least what it was given; it never throws |
| UiLexer.RunStep | ui/src/lib/parser.ts:126-133 | a character of the class is taken and `run` goes on after it |
| UiLexer.RunStop | ui/src/lib/parser.ts:126-130 | `run` stops at the first character outside the class: as written it consumes it, and at end of input it never stops; corrected, it puts it back |
| UiLexer.RunCorrected | ui/src/lib/parser.ts:123-136 | the corrected `run` takes the longest prefix of characters of the class and leaves the rest of the text |
| UiLexer.RunAsWrittenStops | ui/src/lib/parser.ts:123-136 | `run` as written stops exactly when a character outside the class follows the prefix |
| UiLexer.RunAsWritten | ui/src/lib/parser.ts:123-136 | when it stops, `run` as written has taken the same prefix as the corrected one and also consumed the character after it |
| UiLexer.SkipBlanks | ui/src/lib/parser.ts:139-142 | the white-space loop of `scan` ends on one character, remembered for an unread, and never throws |
| UiLexer.IdentLoop | ui/src/lib/parser.ts:188-204 | the loop of `scanIdent` only consumes text and only adds characters |
| UiLexer.ScanIdentToken | ui/src/lib/parser.ts:188-204 | `scanIdent` consumes at least the text of its token |
| UiLexer.IdentStep | ui/src/lib/parser.ts:191-196 | an identifier character is taken and the loop goes on after it, one character along |
| UiLexer.IdentStop | ui/src/lib/parser.ts:192-200 | at end of input or at another character the loop stops without consuming it, the position one further at end of input only |
| UiLexer.IdentLoopText | ui/src/lib/parser.ts:188-204 | the identifier is the longest prefix of identifier characters |
| UiLexer.IdentLoopRest | ui/src/lib/parser.ts:188-204 | the text after the identifier stays |
| UiLexer.IdentLoopPosition | ui/src/lib/parser.ts:188-204 | the identifier is stamped just past its last character, or one further at end of input, where reading "" still moves the position |
| UiLexer.StringLoop | ui/src/lib/parser.ts:249-281 | the loop of `scanString` only consumes text |
| UiLexer.ScanStringToken | ui/src/lib/parser.ts:244-282 | `scanString` consumes at least the opening quote |
| UiLexer.NumberSign | ui/src/lib/parser.ts:209-214 | a leading '-' is kept; any other character is put back |
| UiLexer.NumberFraction | ui/src/lib/parser.ts:218-223 | the optional '.' and digits only add to the number and only consume text |
| UiLexer.NumberExponent | ui/src/lib/parser.ts:225-239 | the optional exponent only adds to the number and only consumes text |
| UiLexer.ScanNumberToken | ui/src/lib/parser.ts:206-242 | `scanNumber` consumes at least the text of its token and never throws |
| UiLexer.ScanOperator | ui/src/lib/parser.ts:155-185 | after '=' or '!' the next character is read and put back unless it completes the operator |
| UiLexer.ScanAfter | ui/src/lib/parser.ts:144-185 | every branch of `scan` after the white space consumes at least the character that chose it |
| UiLexer.NumberNotEmpty | ui/src/lib/parser.ts:146-148 | a number that starts with '-' or a digit consumes text |
| UiLexer.IdentNotEmpty | ui/src/lib/parser.ts:149-151 | an identifier chosen by its first character is not empty |
| UiLexer.ScanToken | ui/src/lib/parser.ts:138-186 | `scan` consumes text for every token but EOF and never throws |
| UiLexer.PeekToken | ui/src/lib/parser.ts:98-104 | `peek` remembers the token it returns |
| UiLexer.NextToken | ui/src/lib/parser.ts:85-96 | `next` clears the peeked token; a token other than EOF consumes text |
| UiLexer.ExpectToken | ui/src/lib/parser.ts:76-83 | `expect` returns the next token exactly when it has the wanted type, and otherwise throws "expected <want> but got <got> at <line>:<char>" |
| UiLexer.PeekThenNext | ui/src/lib/parser.ts:85-104 | peeking again gives the same token and state, and `next` after a `peek` gives what `next` alone would have |
| UiLexer.ScanAt | ui/src/lib/parser.ts:138-186 | a scan at a character other than white space dispatches on that character |
| UiLexer.BlanksSkipped | ui/src/lib/parser.ts:139-142 | leading white space is read past one character at a time |
| UiLexer.OnlyBlanksLeft | ui/src/lib/parser.ts:139-145 | with only white space left, `scan` as written never returns; the corrected scan gives EOF |
| UiLexer.LeadingExactly | ui/src/lib/parser.ts:123-136 | the leading characters of a class-only prefix followed by another character are that prefix |
| UiLexer.IdentToken | ui/src/lib/parser.ts:188-204 | a text starting with a name scans as that IDENT, stamped just past it (one further at end of input), leaving the rest |
| UiLexer.IdentScan | ui/src/lib/parser.ts:149-151 | a text starting with a letter or '_' goes to `scanIdent` |
| UiLexer.IdentRun | ui/src/lib/parser.ts:188-204 | `scanIdent` reads exactly the name and leaves the rest |
| UiLexer.OperatorTokens | ui/src/lib/parser.ts:155-185 | "=~" is EQREGEXP, "!=" NEQ, "!~" NEQREGEXP, '=' alone EQ and '!' alone INVALID with "!", the character after put back otherwise |
| UiLexer.OperatorDispatch | ui/src/lib/parser.ts:155-164 | '=' and '!' go to the operator branch |
| UiLexer.OperatorAfter | ui/src/lib/parser.ts:156-172 | the operator branch after '=' or '!' has been read |
| UiLexer.SingleTokens | ui/src/lib/parser.ts:173-185 | '{', '}', '(', ')' and ',' are tokens by themselves; any other character that starts no token is INVALID and carries it |
| UiLexer.StringStops | ui/src/lib/parser.ts:252-260 | inside quotes the closing quote gives STRING, end of input EOF and a newline NEWLINE, each with the text so far |
| UiLexer.StringEscaped | ui/src/lib/parser.ts:262-270 | a backslash before a backslash or either quote stands for that character |
| UiLexer.StringBadEscape | ui/src/lib/parser.ts:271-272 | a backslash before anything else gives BADESCAPE with both characters, or with itself alone at end of input |
| UiLexer.StringPlain | ui/src/lib/parser.ts:278-279 | any other character inside quotes is taken as it is |
| UiLexer.NumberToken | ui/src/lib/parser.ts:206-242 | the corrected scanner reads digits not followed by '.', 'e' or 'E' as a NUMBER and stops right after them |
| UiLexer.RunSwallows | ui/src/lib/parser.ts:123-136 | as written, the character that ends a run of digits is lost: "1)x" scans as the NUMBER "1" followed by "x" |
| UiLexer.SwallowScan | ui/src/lib/parser.ts:146-148 | the scan of "1)x" starts a number |
| UiLexer.SwallowRun | ui/src/lib/parser.ts:123-136 | as written, the digit run of "1)x" also reads the ')' |
| UiLexer.SwallowTail | ui/src/lib/parser.ts:218-239 | after that, neither a fraction nor an exponent follows and "x" is put back |
| UiLexer.CorrectedBlanksEnd | ui/src/lib/parser.ts:139-142 | the corrected white-space loop always ends |
| UiLexer.Parser.constructor | ui/src/lib/parser.ts:61-74 | a new parser holds the whole text at line 1, character 1, with nothing remembered and nothing peeked |
| UiLexer.Parser.Read | ui/src/lib/parser.ts:106-121 | `read` changes the state as `ReadChar` says |
| UiLexer.Parser.Unread | ui/src/lib/parser.ts:288-295 | `unread` changes the state as `UnreadChar` says |
| UiLexer.Parser.TokenAtPos | ui/src/lib/parser.ts:284-286 | `tokenAtPos` stamps the token with the current position |
| UiLexer.Parser.Run | ui/src/lib/parser.ts:123-136 | `run`, corrected to put back the character that ends it, as `RunSet` says in the corrected mode |
| UiLexer.Parser.ScanIdent | ui/src/lib/parser.ts:188-204 | `scanIdent` as `ScanIdentToken` says |
| UiLexer.Parser.Sign | ui/src/lib/parser.ts:209-214 | the sign of `scanNumber` as `NumberSign` says |
| UiLexer.Parser.Fraction | ui/src/lib/parser.ts:218-223 | the fraction of `scanNumber` as `NumberFraction` says in the corrected mode |
| UiLexer.Parser.Exponent | ui/src/lib/parser.ts:225-239 | the exponent of `scanNumber` as `NumberExponent` says in the corrected mode |
| UiLexer.Parser.ScanNumber | ui/src/lib/parser.ts:206-242 | `scanNumber` as `ScanNumberToken` says in the corrected mode, and it always returns |
| UiLexer.Parser.ScanString | ui/src/lib/parser.ts:244-282 | `scanString` as `ScanStringToken` says |
| UiLexer.Parser.Scan | ui/src/lib/parser.ts:138-186 | `scan` as `ScanToken` says in the corrected mode (end of input is not white space), and it always returns |
| UiLexer.Parser.Peek | ui/src/lib/parser.ts:98-104 | `peek` as `PeekToken` says in the corrected mode |
| UiLexer.Parser.Next | ui/src/lib/parser.ts:85-96 | `next` as `NextToken` says in the corrected mode |
| UiLexer.Parser.Expect | ui/src/lib/parser.ts:76-83 | `expect` returns the next token, and the message it throws exactly when `ExpectToken` throws, in the corrected mode |
| UiLabels.LookupFinds | ui/src/lib/labels.ts:35 | reading a record's key finds a value exactly when an entry has that key, and the value is that entry's |
| UiLabels.Put | ui/src/lib/labels.ts:79 | assigning a key gives it the new value and leaves every other key's value; a key already there keeps its place, a new key goes last |
| UiLabels.Without | ui/src/helpers/labels.ts:19-23 | `delete` removes the key and leaves every other key's value; a missing key changes nothing |
| UiLabels.EntryStep | ui/src/lib/labels.ts:73-90 | one turn of the entry loop (IDENT, '=', STRING, then what follows) leaves the next token peeked and consumes text |
| UiLabels.EntryEnd | ui/src/lib/labels.ts:81-90 | after an entry the loop goes on only after a comma not followed by '}', and the labels are unchanged |
| UiLabels.EntryLoop | ui/src/lib/labels.ts:72-91 | the entry loop ends with the token after the entries peeked |
| UiLabels.Heading | ui/src/lib/labels.ts:55-64 | a leading identifier is taken as the name, and the token after it is peeked |
| UiLabels.ParseHeading | ui/src/lib/labels.ts:51-64 | the start of `parseLabels` on a new Parser object, as `Heading` says in the corrected mode |
| UiLabels.ParseEntry | ui/src/lib/labels.ts:73-90 | one turn of the entry loop on the Parser object: the labels, or the message thrown, as `EntryStep` says in the corrected mode |
| UiLabels.ParseEntryEnd | ui/src/lib/labels.ts:81-90 | the end of a turn on the Parser object, as `EntryEnd` says in the corrected mode |
| UiLabels.ParseEntries | ui/src/lib/labels.ts:71-92 | the entry loop on the Parser object, as `EntryLoop` says in the corrected mode |
| UiLabels.Parse | ui/src/lib/labels.ts:50-97 | `parseLabels` on the Parser object gives the labels or the message thrown, as `ParseLabels` says with the corrected tokenizer |
| UiLabels.NewLabels | ui/src/lib/labels.ts:15-17 | `new Labels(input)`: the empty input gives no labels without being parsed; any other input gives what `parseLabels` gives, or throws what it throws |
| UiLabels.Entries | ui/src/lib/labels.ts:19-32 | `entries(true)` is the whole record; `entries(false)` has no name label and every other key's value |
| UiLabels.Name | ui/src/lib/labels.ts:34-36 | `name()` gives a value exactly when the record has the name label |
| UiLabels.Fields | ui/src/lib/labels.ts:43 | one printed field per entry |
| UiLabels.PutAllFresh | ui/src/lib/labels.ts:79 | assigning distinct keys the record lacks appends the entries in order |
| UiLabels.FreshAfterPut | ui/src/lib/labels.ts:79 | after the first fresh assignment the others are still fresh |
| UiLabels.PutNew | ui/src/lib/labels.ts:79 | assigning a key the record lacks appends it |
| UiLabels.ApartTail | ui/src/lib/labels.ts:79 | the entries after the first are still distinct and fresh |
| UiLabels.PutAllOther | ui/src/lib/labels.ts:79 | assignments of other keys leave a key's value alone |
| UiLabels.PutAllLast | ui/src/lib/labels.ts:79 | of several assignments to one key, the last one counts |
| UiLabels.StringBodyStep | ui/src/lib/parser.ts:249-281 | one character of a printed value is read back, an escaped quote or backslash as its two characters |
| UiLabels.EscapedStep | ui/src/lib/parser.ts:262-270 | a backslash and a quote or backslash are read back as that character |
| UiLabels.PlainStep | ui/src/lib/parser.ts:278-279 | any other printable character is read back as itself |
| UiLabels.PlainTail | ui/src/lib/labels.ts:43 | the rest of a value without control characters has none |
| UiLabels.StringClose | ui/src/lib/parser.ts:253-254 | the closing quote ends the string with the text so far |
| UiLabels.StringBody | ui/src/lib/parser.ts:249-281 | the inside of a printed value, up to its closing quote, is read back as the value |
| UiLabels.StringToken | ui/src/lib/labels.ts:43 | `JSON.stringify` of a value without control characters is scanned as one STRING token holding the value |
| UiLabels.QuoteScan | ui/src/lib/parser.ts:244-249 | a token starting with a double quote is read by the string loop from just past the quote |
| UiLabels.EntryValue | ui/src/lib/labels.ts:73-79 | an entry's '=' and printed value are read after its peeked key |
| UiLabels.EntryRead | ui/src/lib/labels.ts:73-79 | an entry is put into the labels and the rest is read as `EntryEnd` reads it |
| UiLabels.EndBrace | ui/src/lib/labels.ts:82-84 | '}' after an entry ends the loop, left peeked |
| UiLabels.CommaTaken | ui/src/lib/labels.ts:82-86 | a comma after an entry is peeked, then taken |
| UiLabels.EndComma | ui/src/lib/labels.ts:86-90 | a comma and '}' after an entry end the loop too |
| UiLabels.EndMore | ui/src/lib/labels.ts:86-90 | a comma and a key go on with the loop, the key peeked |
| UiLabels.JoinFirst | ui/src/lib/labels.ts:43 | the joined fields are the first key, then its value and the other fields |
| UiLabels.NextEntryText | ui/src/lib/labels.ts:43 | the text after an entry that another entry follows: its value, a comma, the next key |
| UiLabels.LastEntryText | ui/src/lib/labels.ts:43 | the text after the last entry: its value, then the closing |
| UiLabels.PrintableTail | ui/src/lib/labels.ts:43 | the entries after a printable first one are printable |
| UiLabels.EntriesParsed | ui/src/lib/labels.ts:72-91 | printed entries closed by '}' or ",}" are read by the entry loop as their assignments, in order, with '}' left peeked |
| UiLabels.HeadingParsed | ui/src/lib/labels.ts:55-64 | a name, or none, before a single-character token is taken as the name, and that token is peeked |
| UiLabels.HeadingBare | ui/src/lib/labels.ts:55-64 | no name: no labels yet, and the token is peeked |
| UiLabels.HeadingNamed | ui/src/lib/labels.ts:55-64 | a name: the name label, and the token after it is peeked |
| UiLabels.BracesParsed | ui/src/lib/labels.ts:69-94 | printed braces after a peeked '{' are read as the assignments of their entries; nothing after '}' is read |
| UiLabels.BracesEntries | ui/src/lib/labels.ts:71-94 | non-empty braces go through the entry loop, then the closing brace |
| UiLabels.PrintedParses | ui/src/lib/labels.ts:50-97 | a name or none, '{', entries with word keys and plain values, an optional trailing comma, '}' and anything after parse as the name followed by the entries' assignments |
| UiLabels.TailFacts | ui/src/lib/labels.ts:24-31 | after the name, the entries hold no name label and keep distinct keys |
| UiLabels.PrintedParts | ui/src/lib/labels.ts:38-47 | `toString` of a well-formed set is its name, or nothing, followed by the braces of the other entries |
| UiLabels.PrintedNamed | ui/src/lib/labels.ts:38-47 | the same for a set whose first entry is the name |
| UiLabels.NamedText | ui/src/lib/labels.ts:38-47 | a set that starts with its name prints the name, then the braces of the rest |
| UiLabels.PrintedBare | ui/src/lib/labels.ts:38-47 | a set without a name prints only braces |
| UiLabels.RoundTrip | ui/src/lib/labels.ts:38-97 | `toString` and `parseLabels` are inverse: a well-formed label set, printed and followed by anything, parses back to itself |
| UiLabels.NewLabelsRoundTrip | ui/src/lib/labels.ts:15-47 | `new Labels(l.toString())` holds the labels of l, for every well-formed l |
| UiLabels.PrintedText | ui/src/lib/labels.ts:43 | the printed braces are '{', the joined fields and '}' |
| UiLabels.NameStops | ui/src/lib/labels.ts:63-67 | a name followed by a token other than '{' is the whole label set, and what follows is not parsed |
| UiLabels.NameAloneHangs | ui/src/lib/labels.ts:63-67 | as written, parsing a name alone never returns: the peek after the name runs the white-space loop of `scan` at end of input |
| UiLabels.NameAlone | ui/src/lib/labels.ts:63-67 | with the corrected tokenizer a name alone gives the name label |
| UiLabels.OperatorRejected | ui/src/lib/labels.ts:76 | "!=", "=~" and "!~" after a key are rejected by the expectation of '=', with its message and position |
| UiLabels.FirstKey | ui/src/lib/labels.ts:69-73 | after '{' the first key is peeked and the entry loop starts |
| UiLabels.EntryRejected | ui/src/lib/labels.ts:76 | an operator after a key ends the parse with the mismatch |
| UiLabels.EqMissing | ui/src/lib/labels.ts:76 | a key followed by any token other than '=' ends the parse with the mismatch |
| UiLabels.WithoutCommutes | ui/src/helpers/labels.ts:19-23 | the two deletes of `labelsToString` can be done in either order |
| UiLabels.HashIgnored | ui/src/helpers/labels.ts:22-23 | `labelsToString` never shows a `_hash` key |
| UiLabels.SamePrinting | ui/src/helpers/labels.ts:12-30 | without a `_hash` key and an empty name, `labelsToString` prints what `toString` prints |
| UiLabels.ParseLabels | ui/src/lib/labels.ts:50-97 | the definition of `parseLabels` in either mode (as written or corrected); stated by `NameAlone`, `NameAloneHangs` and `BracesParsed` |
| UiLabels.LabelsToString | ui/src/lib/labels.ts:38-47 | the definition of `Labels.toString`: the name unquoted, then every other key as key=JSON string, comma-separated, in braces; stated by `HashIgnored` and `SamePrinting` |
| UiObjects.DataKeys | ui/src/lib/objects.ts:15-24 | `dataFromVariables` has a value for a name exactly when a variable that is not dynamic has that name |
| UiObjects.DataLast | ui/src/lib/objects.ts:15-24 | the value of a name is that of the last variable with that name that is not dynamic |
| UiObjects.SeriesExprs | ui/src/lib/objects.ts:29-31 | the series' expressions, one per series, in order |
| UiObjects.Static | ui/src/lib/objects.ts:45 | one variable per name, in order, each with dynamic false |
| UiObjects.SeparatedSnoc | ui/src/lib/objects.ts:29-43 | one more field adds the separator and the field |
| UiObjects.SeparatedIf | ui/src/lib/objects.ts:33-43 | a field is added, after the separator, only when it is not empty |
| UiObjects.SeriesText | ui/src/lib/objects.ts:29-31 | the loop over the series puts each expression after the separator |
| UiObjects.ChartText | ui/src/lib/objects.ts:27-43 | the text `parseChartVariables` builds: each series expression, then the left and right Y labels and the title when not empty, each after the separator |
| UiObjects.ParseChartVariables | ui/src/lib/objects.ts:26-46 | `parseChartVariables` lists the variables of that text, none dynamic, or throws the template's error |
| UiObjects.ParseDashboardVariables | ui/src/lib/objects.ts:48-56 | `parseDashboardVariables` lists the variables of the title alone |
| UiObjects.StaticVariablesOf | ui/src/lib/objects.ts:45 | the variables listed are those of the text, each once, in the order of first appearance, none dynamic; the list fails exactly when the template has an error |
| UiObjects.RenderedSeries | ui/src/lib/objects.ts:61-63 | rendering the series keeps their number |
| UiObjects.RenderChart | ui/src/lib/objects.ts:58-78 | `renderChart` renders the series expressions, then the Y labels and the title that are not empty, in that order, on a copy of the chart |
| UiObjects.RenderedSeriesErr | ui/src/lib/objects.ts:61-63 | rendering the series throws the error of the first expression that fails |
| UiObjects.RenderDashboard | ui/src/lib/objects.ts:80-88 | `renderDashboard` renders a title that is not empty and leaves the rest of the dashboard; an empty or absent title leaves it whole |
| UiObjects.BlankSeries | ui/src/lib/objects.ts:61-63 | the series with their expressions blanked, one per series |
| UiObjects.RenderedSeriesFields | ui/src/lib/objects.ts:61-63 | each expression is rendered in place and nothing else of a series changes; the series fail exactly when an expression does |
| UiObjects.RenderedSeriesOk | ui/src/lib/objects.ts:61-63 | each rendered series is its source series with the expression rendered |
| UiObjects.RenderedSeriesFailure | ui/src/lib/objects.ts:61-63 | rendering the series fails exactly when one expression fails |
| UiObjects.SeriesStepFields | ui/src/lib/objects.ts:61-63 | rendering the series leaves the options and every other field |
| UiObjects.LeftStepFields | ui/src/lib/objects.ts:65-67 | rendering the left label renders it when not empty and leaves every other field |
| UiObjects.RightStepFields | ui/src/lib/objects.ts:69-71 | rendering the right label renders it when not empty and leaves every other field |
| UiObjects.TitleStepFields | ui/src/lib/objects.ts:73-75 | rendering the title renders it when not empty and leaves every other field |
| UiObjects.RenderedChartSeries | ui/src/lib/objects.ts:58-78 | after `renderChart` every series expression holds its rendering |
| UiObjects.RenderedChartLabels | ui/src/lib/objects.ts:58-78 | after `renderChart` the Y labels and the title that were not empty hold their rendering; empty or absent ones are left as they are |
| UiObjects.SeriesStepFails | ui/src/lib/objects.ts:61-63 | the series fail exactly when one of their expressions fails |
| UiObjects.FieldsFail | ui/src/lib/objects.ts:26-43 | a templated field fails exactly when a series expression, a non-empty label or a non-empty title fails |
| UiObjects.RenderedChartFails | ui/src/lib/objects.ts:58-78 | `renderChart` throws exactly when one of the templated fields has an unbalanced brace |
| UiObjects.RenderPlainChart | ui/src/lib/objects.ts:58-78 | a chart whose templated fields hold no variable renders as itself |
| UiObjects.PlainSeries | ui/src/lib/objects.ts:61-63 | expressions without a variable render to themselves |
| UiObjects.PlainLabels | ui/src/lib/objects.ts:65-75 | labels and a title without a variable render to themselves |
| UiObjects.RenderKeepsShape | ui/src/lib/objects.ts:58-78 | `renderChart` changes no field but the templated ones |
| UiObjects.CleanupCleans | ui/src/helpers/chart.ts:12-26 | after `cleanupChart` every Y axis has no unit or a unit with a type, and the title is absent or not empty |
| UiObjects.CleanupKeeps | ui/src/helpers/chart.ts:12-26 | `cleanupChart` keeps the axes, the units that have a type and a title that is not empty, and touches nothing but the units and the title |
| UiObjects.CleanupIdempotent | ui/src/helpers/chart.ts:12-26 | cleaning a clean chart changes nothing |
| UiObjects.CleanupChart | ui/src/helpers/chart.ts:12-26 | the definition of `cleanupChart` on values; stated by `CleanupCleans`, `CleanupKeeps`, `CleanupIdempotent` |
| UiObjects.RenderedChart | ui/src/lib/objects.ts:58-78 | the definition of what `renderChart` returns; stated by `RenderChart`, `RenderedChartSeries`, `RenderedChartLabels`, `RenderedChartFails`, `RenderKeepsShape` |
| UiObjects.StaticVariables | ui/src/lib/objects.ts:45 | the variables of a text, none dynamic, or the thrown brace error; stated by `StaticVariablesOf` |
| UiTemplate.TextFrom | ui/src/helpers/template.ts:79-105 | `readText` stops at the end or where a variable starts; it consumes at least one character unless a variable whose dollar is not escaped starts at once |
| UiTemplate.NameRun | ui/src/helpers/template.ts:119-134 | the identifier characters at the front; the character after them, if any, is none |
| UiTemplate.VariableFrom | ui/src/helpers/template.ts:107-141 | `readVariable` never lengthens the text, and consumes a character when one starts a name or a brace |
| UiTemplate.RoundOf | ui/src/helpers/template.ts:26-39 | a round of `parse` that goes on consumes text |
| UiTemplate.Template.constructor | ui/src/helpers/template.ts:17-20 | a new template has no text and no nodes |
| UiTemplate.Template.Discard | ui/src/helpers/template.ts:65-67 | `discard` drops the first character, if any |
| UiTemplate.Template.Peek | ui/src/helpers/template.ts:69-71 | `peek` gives the first n characters, or the whole text if shorter |
| UiTemplate.Template.Read | ui/src/helpers/template.ts:73-77 | `read` gives and drops the first character, or "" at the end |
| UiTemplate.Template.Unread | ui/src/helpers/template.ts:143-145 | `unread` puts the character back in front |
| UiTemplate.Template.ReadText | ui/src/helpers/template.ts:79-105 | `readText` reads the text node `TextFrom` describes |
| UiTemplate.Template.ReadVariable | ui/src/helpers/template.ts:107-141 | `readVariable` reads the variable `VariableFrom` describes, or throws "unbalanced brace" |
| UiTemplate.Template.ReadName | ui/src/helpers/template.ts:117-134 | the loop of `readVariable` takes the identifier characters, then the closing brace if there was an opening one and it is there; any other character is put back |
| UiTemplate.Template.Parse | ui/src/helpers/template.ts:22-40 | `parse` leaves the nodes and throws the error `NodesOf` gives; the nodes read before an error stay |
| UiTemplate.Template.ParseRound | ui/src/helpers/template.ts:27-38 | one round of `parse`: the last character as a text node, or a variable and the text after it, or a text run, or the error |
| UiTemplate.RenderTemplate | ui/src/helpers/template.ts:148-152 | `renderTemplate` is the one-pass substitution `Expand`: each unescaped `$name` or `${name}` replaced by its value, every other character kept |
| UiTemplate.ParseVariables | ui/src/helpers/template.ts:154-158 | `parseVariables` lists the variables of the nodes, or throws "unbalanced brace" |
| UiTemplate.TextStep | ui/src/helpers/template.ts:83-101 | one character of a text run is added and the run goes on after it |
| UiTemplate.ThenThen | ui/src/helpers/template.ts:42-54 | rendered pieces concatenate |
| UiTemplate.RenderAppend | ui/src/helpers/template.ts:42-54 | rendering two node lists one after the other renders their concatenation |
| UiTemplate.TextExpand | ui/src/helpers/template.ts:79-105 | a text run renders as itself, in front of what follows it |
| UiTemplate.RenderOne | ui/src/helpers/template.ts:44-51 | a text node renders as its text, a variable as its value or "" |
| UiTemplate.RoundExpand | ui/src/helpers/template.ts:26-39 | one round of `parse` renders as `Expand` reads the text it consumes |
| UiTemplate.VariableRound | ui/src/helpers/template.ts:33-38 | a round that starts with a variable renders its value and then the text after it |
| UiTemplate.NodesExpand | ui/src/helpers/template.ts:22-54 | the nodes `parse` builds render as `Expand` reads the text, and `parse` throws exactly where `Expand` fails |
| UiTemplate.LastAgrees | ui/src/helpers/template.ts:28-31 | the last round agrees with `Expand` |
| UiTemplate.MoreAgrees | ui/src/helpers/template.ts:33-38 | a round that goes on agrees with `Expand` when the rest does |
| UiTemplate.ErrorIsBrace | ui/src/helpers/template.ts:136-138 | the only error `parse` throws is "unbalanced brace" |
| UiTemplate.RenderIsExpand | ui/src/helpers/template.ts:148-152 | rendering the parsed nodes is the one-pass substitution, and the parse fails exactly where it does |
| UiTemplate.PlainExpand | ui/src/helpers/template.ts:148-152 | where no variable starts, the text renders unchanged |
| UiTemplate.TextSplits | ui/src/helpers/template.ts:79-105 | the text node is the front of the text and the rest follows it |
| UiTemplate.NameRunAt | ui/src/helpers/template.ts:119-134 | the name is the run of identifier characters at the front |
| UiTemplate.TextToEnd | ui/src/helpers/template.ts:79-105 | with no dollar in it, the text is one text run to the end |
| UiTemplate.TextToEndNoVariable | ui/src/helpers/template.ts:79-105 | where no variable starts, the text is one text run to the end |
| UiTemplate.ShortTexts | ui/src/helpers/template.ts:26-31 | the empty text gives no nodes; a single character gives one text node |
| UiTemplate.OneRound | ui/src/helpers/template.ts:26-39 | a text read in one round gives that round's nodes |
| UiTemplate.PlainText | ui/src/helpers/template.ts:22-40 | a text in which no variable starts is one text node |
| UiTemplate.Dollar | ui/src/helpers/template.ts:33-38 | `$name` is a variable node followed by the empty text node of the `readText` after it |
| UiTemplate.Braced | ui/src/helpers/template.ts:107-141 | `${name}` is the variable too, the empty name included |
| UiTemplate.UnclosedBrace | ui/src/helpers/template.ts:136-138 | an opening brace with no closing one right after the identifier characters throws "unbalanced brace" |
| UiTemplate.Escaped | ui/src/helpers/template.ts:89 | a backslash before the dollar keeps both in the text node |
| UiTemplate.LiteralDollar | ui/src/helpers/template.ts:89-98 | a dollar before a character that starts neither a name nor a brace is literal text |
| UiTemplate.RenderDollar | ui/src/helpers/template.ts:49-50 | `$name` renders as its value; a missing name and an empty value both render as "" |
| UiTemplate.RenderEscaped | ui/src/helpers/template.ts:89 | `\$name` renders as written, the backslash included |
| UiTemplate.FirstIndexAppend | ui/src/helpers/template.ts:56-63 | a name's first index is not moved by what follows |
| UiTemplate.VariablesNames | ui/src/helpers/template.ts:56-63 | a name is among the variables exactly when some variable node holds it |
| UiTemplate.VariablesDistinct | ui/src/helpers/template.ts:56-63 | each name is listed once |
| UiTemplate.VariablesOrder | ui/src/helpers/template.ts:56-63 | the names are listed in the order of their first appearance |
| UiTemplate.PlainVariables | ui/src/helpers/template.ts:154-158 | a text without variables has none to list |
| UiTemplate.FirstIndex | ui/src/helpers/template.ts:56-63 | the index of the first occurrence of a name; it holds that name and no earlier entry does |
| UiTemplate.Render | ui/src/helpers/template.ts:42-54 | the definition of `render` over the nodes; stated by `RenderOne`, `RenderAppend`, `RenderIsExpand` |
| UiTemplate.Expand | ui/src/helpers/template.ts:148-152 | the reference one-pass substitution `renderTemplate` is proved equal to (`RenderIsExpand`, `RenderTemplate`) |
| UiTemplate.Variables | ui/src/helpers/template.ts:56-63 | the definition of `variables`; stated by `VariablesNames`, `VariablesDistinct`, `VariablesOrder` |

## Left out

- File and network I/O, the HTTP handlers, the storage back ends and the mutexes around the catalog are not modelled; `Catalog` and `Section` are classes whose methods are taken to run one at a time.
- Regular expressions (`regexp.Compile`, `MatchString`, `new RegExp`) are a parameter of the matcher operations: a compile-error function and a match predicate.
- `uuid.Parse`, behind the object identifier check, is a parameter; `xxhash` behind the catalog's hash keys is not part of this model.
- The wall clock: `time.Now`, the RFC 3339 parser and `AddDate` of `ParseTime` are fields of a clock parameter, so the calendar arithmetic of `d`, `M` and `y` is taken as given; overflow inside `time.Time.Add` and `Round` is not modelled.
- `strconv.ParseFloat` is not modelled: a number token is kept as its text, and its conversion error is a parameter.
- Strings are sequences of Unicode scalar values: Go's UTF-8 bytes and byte offsets, and the UTF-16 code units of the TypeScript strings, are not modelled. A template position counts characters, which is the same as counting bytes for ASCII text. Invalid UTF-8 cannot be written, so "invalid label value" is unreachable in the model.
- The escape `\xff` is decoded to U+00FF, and `strconv.IsPrint` is approximated by a fixed printable range.
- The Go scanner's end-of-input marker is the NUL character, so a NUL in the text ends it, as in the source.
- `sort.Strings`, `sort.Slice` and `sort.Sort` are modelled by one stable insertion sort. For `Catalog.Catalog.Metrics` the contracts promise only order and permutation; `Catalog.Section.Insert` is the one place where the order among equal keys shows, on its own line below.
- Catalog.Section.Insert: its error message is that of the labels in the order the stable sort leaves them. Go's `sort.Sort` is not guaranteed stable, so when two labels share a name and one of them is invalid, for instance ("a", "x") and ("a", ""), the source may report "empty label value" where the model reports "duplicate label name: a". Whether a metric is accepted does not depend on that order.
- Pagination.Listing.Paginate: `offset + limit` is computed without the uint wrap-around; the wrap and the panic on a crossed slice are `PageAsWritten` (see Findings).
- Error values carry their message only: `errors.Wrap` chains and the `ErrInvalid` sentinel are not modelled.
- Go map iteration order is not modelled; results built from maps are stated as sets or sorted lists.
- Metric attributes, object timestamps and creation and modification fields are not modelled, and neither is the formatting of `set.StringSlice`.
- The duplicated UI helpers are modelled once: `parseLabels` in `ui/src/helpers/labels.ts` is the one in `ui/src/lib/labels.ts`, and `parseChartVariables`/`renderChart` in `ui/src/helpers/chart.ts` are those in `ui/src/lib/objects.ts`.
- `Object.keys` lists integer-like keys first; the model keeps insertion order for every key. A variable named after an `Object.prototype` property is not distinguished.
- `resolveDashboardReferences` and `resolveVariables` in `ui/src/lib/objects.ts` call the HTTP API and are not modelled.
- UiObjects.CleanupChart: modelled on values, so the in-place `delete` and any aliasing of the chart's option objects are not captured.
- UiLexer.SkipBlanks: the hanging white-space loop of `scan` is modelled by the `Hang` outcome rather than by a loop, as is the loop of `run` in `UiLexer.RunSet`; the corrected tokenizer stops at end of input.
- Exprs.CallEnd: its own contract states only that the parser stays valid on the same text and never moves back; the result it gives is stated by the separate lemmas CallEndGrammar.
- Exprs.CallFrom: its own contract states only that the parser stays valid on the same text and never moves back; the result it gives is stated by the separate lemmas CallKinds.
- Exprs.AggregateFrom: its own contract states only that the parser stays valid on the same text and never moves back; the result it gives is stated by the separate lemmas AggregateCall, AggregateGrammar, AggregateKeeps, AggregatePrefix and AggregateCons.
- Exprs.AggregateLoop: its own contract states only that the parser stays valid on the same text and never moves back; the result it gives is stated by the separate lemmas AggregateGrammar, AggregateKeeps, AggregatePrefix and AggregateCons.
- Exprs.AliasFrom: its own contract states only that the parser stays valid on the same text and never moves back; the result it gives is stated by the separate lemmas AliasGrammar.
- Exprs.SampleFrom: its own contract states only that the parser stays valid on the same text and never moves back; the result it gives is stated by the separate lemmas SampleGrammar and SampleWithMode.
- Exprs.ScaleFrom: its own contract states only that the parser stays valid on the same text and never moves back; the result it gives is stated by the separate lemmas ScaleGrammar.
- Exprs.ParseExpr: the method is proved equal to the function `ExprOfText`; what that function returns is stated by the lemmas about it, not by the method's own contract.
- Exprs.ParseExprFrom: the method is proved equal to the function `ExprFrom`; what that function returns is stated by the lemmas about it, not by the method's own contract.
- Exprs.ParseAggregate: the method is proved equal to the function `AggregateFrom`; what that function returns is stated by the lemmas about it, not by the method's own contract.
- Exprs.ParseAlias: the method is proved equal to the function `AliasFrom`; what that function returns is stated by the lemmas about it, not by the method's own contract.
- Exprs.ParseSample: the method is proved equal to the function `SampleFrom`; what that function returns is stated by the lemmas about it, not by the method's own contract.
- Exprs.ParseScale: the method is proved equal to the function `ScaleFrom`; what that function returns is stated by the lemmas about it, not by the method's own contract.
- UiLexer.Parser.Run: proved against `RunSet` in the corrected mode (end of input is not white space, and `run` puts back the character that ends it); the code as written is `RunSet` in the as-written mode, whose hang and lost character are listed under Findings.
- UiLexer.Parser.Fraction: proved against `NumberFraction` in the corrected mode (end of input is not white space, and `run` puts back the character that ends it); the code as written is `NumberFraction` in the as-written mode, whose hang and lost character are listed under Findings.
- UiLexer.Parser.Exponent: proved against `NumberExponent` in the corrected mode (end of input is not white space, and `run` puts back the character that ends it); the code as written is `NumberExponent` in the as-written mode, whose hang and lost character are listed under Findings.
- UiLexer.Parser.ScanNumber: proved against `ScanNumberToken` in the corrected mode (end of input is not white space, and `run` puts back the character that ends it); the code as written is `ScanNumberToken` in the as-written mode, whose hang and lost character are listed under Findings.
- UiLexer.Parser.Scan: proved against `ScanToken` in the corrected mode (end of input is not white space, and `run` puts back the character that ends it); the code as written is `ScanToken` in the as-written mode, whose hang and lost character are listed under Findings.
- UiLexer.Parser.Peek: proved against `PeekToken` in the corrected mode (end of input is not white space, and `run` puts back the character that ends it); the code as written is `PeekToken` in the as-written mode, whose hang and lost character are listed under Findings.
- UiLexer.Parser.Next: proved against `NextToken` in the corrected mode (end of input is not white space, and `run` puts back the character that ends it); the code as written is `NextToken` in the as-written mode, whose hang and lost character are listed under Findings.
- UiLexer.Parser.Expect: proved against `ExpectToken` in the corrected mode (end of input is not white space, and `run` puts back the character that ends it); the code as written is `ExpectToken` in the as-written mode, whose hang and lost character are listed under Findings.
- UiLabels.ParseHeading: proved against `Heading` in the corrected mode; as written, a name alone hangs at end of input, which `Heading` in the as-written mode gives as `Hang` (see Findings).
- UiLabels.ParseEntry: proved against `EntryStep` in the corrected mode; as written, a name alone hangs at end of input, which `EntryStep` in the as-written mode gives as `Hang` (see Findings).
- UiLabels.ParseEntryEnd: proved against `EntryEnd` in the corrected mode; as written, a name alone hangs at end of input, which `EntryEnd` in the as-written mode gives as `Hang` (see Findings).
- UiLabels.ParseEntries: proved against `EntryLoop` in the corrected mode; as written, a name alone hangs at end of input, which `EntryLoop` in the as-written mode gives as `Hang` (see Findings).
- UiLabels.Parse: proved against `ParseLabels` in the corrected mode; as written, a name alone hangs at end of input, which `ParseLabels` in the as-written mode gives as `Hang` (see Findings).
- RelTime.ParseTime: computes the intended time with exact arithmetic; the 64-bit wrap-around of pkg/series/time.go:74-89 is `ParseTimeAsWritten` (see Findings).
- Exprs.HashKey: keys a matcher on its (name, value) pairs rather than on the xxhash of the names and values joined with "\x1e" (pkg/labels/matcher.go:99-108), so hash collisions, and two matchers whose joined texts coincide, are not modelled: the model keeps both where the source drops one.

## Findings

| source | as written | input that shows it | evidently intended | confidence | as-written member | corrected member |
|---|---|---|---|---|---|---|
| ui/src/lib/parser.ts:16-26 | `isSpace("")` is true because every string includes the empty string, so the white-space loop of `scan` never ends at end of input | `parseLabels("cpu")`: the peek after the name never returns | end of input stops the loop and gives EOF | high, not executed | UiLabels.NameAloneHangs | UiLabels.NameAlone |
| ui/src/lib/parser.ts:123-136 | `run` reads the character that ends the run and never puts it back | "1)x" scans as NUMBER "1" followed by IDENT "x"; the ")" is lost | the character after the run stays in the input | high, not executed | UiLexer.RunSwallows | UiLexer.RunCorrected |
| pkg/http/server/internal/api/catalog.go:89-100 | `offset+limit` is computed in `uint` and can wrap, so the slice bounds cross | ten entries, offset 5, limit 2^64-2: the code slices [5:3] and panics | the rest of the listing from offset 5 | medium, not executed | Pagination.WrappedLimit | Pagination.Page |
| pkg/labels/labels.go:139-159 | `last` starts as "", so a first label with an empty name is reported as a duplicate | `[Label("", "value")]` gives "duplicate label name: " | "empty label name", from the label's own check | medium, not executed | LabelList.ValidateEmptyFirstName | LabelList.ValidateListMeaning |
| pkg/series/time.go:17-103 | `time.Duration(v) * time.Hour` wraps around in 64 bits | "-3000000h" gives a time about 242 years after now | 3 000 000 hours before now | medium, not executed | RelTime.HoursWrapAround | RelTime.Ago |
