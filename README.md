# Jolie front end: scanner, parser token pipeline, diagnostics, doc writer

This project models, in Dafny, the core of the Jolie language front end and
one piece of its documentation tool:

* **The scanner** (`Scanner.getToken`). This is a character-level state
  machine with states 1 to 15. It skips separators and counts lines. It
  reads identifiers and resolves them against the keyword table. It reads
  integers with an optional leading `-` and string literals with four
  escapes, handles the two-character operators `++ == <= >= !=`, and
  skips block and line comments.
  * `ScannerSpec.Lex` is the reference semantics: one function per machine
    state, over the whole input as a `seq<char>`.
  * The class `Scanner.Scanner` has the fields of the Java object and the
    same `while` loop over `state`. `GetToken` is proved to return exactly
    `Lex` and to leave the current character where `Lex` says.
  * The module `ScannerProperties` states what a token read means.
    Examples: a keyword versus an identifier, a negative integer versus
    `MINUS`, an escape round trip for strings, comments being invisible,
    and `ERROR` when the input ends inside a token.
* **The parser token pipeline** (`AbstractParser`). It keeps a current
  token, a FIFO lookahead list, a backup/replay session and the
  `metNewline` flag. On top of these sit the consumption combinators
  (`assertToken`, `eat`, `eatKeyword`, `eatIdentifier`, `maybeEat`, …).
  * `TokenPipeline` defines every operation as a function on a `Pipeline`
    value. It proves the session round trip, the skipping of NEWLINE and
    the ordering of the lookahead list.
  * The class `Parser.AbstractParser` holds the same fields and runs the
    do-while loop of `nextToken`. Each method is proved to change the
    fields exactly as the matching function says, and to keep the class
    invariant `Valid`, so the lemmas about `TokenPipeline` that assume
    `Consistent` apply to every parser object.
  * The scanner the parser reads from is the token sequence `source`, read
    from the front; it yields `EOF` for ever once empty and may contain
    NEWLINE. `isIdentifier` is a function given to the constructor.
* **The parser's message builders**: `build`, `createHelpMessage`
  (edit distance ≤ 2 proposals and a caret line), `createHelpMessageWithScope`,
  `getWholeScope`, and the `CodeCheckMessage` that `throwException` composes.
  These are in the module `Diagnostics`.
  * Each builder is a method with the Java loops, proved to compute a
    reference function.
  * Java's index exceptions (`substring`, `List.get`) are the `Failure`
    case of a `Result`.
* **The doc writer's bookkeeping** (`JolieDocWriter`), in the module
  `JolieDoc`.
  * `addType` and `addLinkedType` keep a list of type names without
    duplicates; the class invariant is `Recorded`.
  * `addInterface` appends in order.
  * `getCardinalityString` and `indent` are covered, as is the text
    `writeType` builds for a type and its subtypes.

Where the Java code does something other than its plain description, the
model follows the code, and a lemma shows the difference:

* `UnknownStart` and `UnrecognisedCharacterSkipped`: a character that starts no token does
  not give an `ERROR` token. It is read past, and so is the next
  character, which becomes the start of the next token's text, even when it
  is a separator.
* `BlockCommentCutByEnd`, `EmptyBlockCommentNeverCloses` and
  `EmptyLineCommentSwallowsNextLine`: the character straight after `/*` or
  `//` is read past without being looked at. So `/**/` does not close, and
  nothing after it is scanned; and a `//` directly followed by its newline
  also swallows the next line.
* `IdentifierCutByEnd` and `OperatorCutByEnd`: an identifier or an operator
  cut off by the end of the input gives `ERROR`, not the token. The
  state machine's loop stops when the input is exhausted, before the
  state that would emit the token has run.
* `RecoverAfterLeftoverLookahead`: `recoverBackup` appends the recorded
  tokens after any lookahead tokens that are still queued. The round trip
  therefore holds only when the lookahead list was empty at
  `startBackup`.
* `ReplayForgetsNewlines`: a replayed session does not report
  `hasMetNewline()` again, because the NEWLINE tokens were never recorded.

## Model

| member | source | states |
|---|---|---|
| Tokens.Keyword | libjolie/src/jolie/lang/parse/Scanner.java:280-354 | the keyword table maps a word to a reserved token type, never to `ID`, `NEWLINE` or `EOF` |
| Tokens.KeywordOrId | libjolie/src/jolie/lang/parse/Scanner.java:279-355 | resolving an identifier's text never yields `NEWLINE` or `EOF` |
| Scanner.Scanner.constructor | libjolie/src/jolie/lang/parse/Scanner.java:156-163 | the scanner starts at the first character with `line` 1, or 2 when that character is a newline already read |
| Scanner.Scanner.ReadChar | libjolie/src/jolie/lang/parse/Scanner.java:191-200 | reading a character moves one position, stops at the end, and adds one to `line` exactly when the character is `'\n'`; the invariant `line == 1 + newlines read` is kept |
| Scanner.Scanner.GetToken | libjolie/src/jolie/lang/parse/Scanner.java:202-479 | `getToken` returns exactly the token (or the malformed-string failure) of the reference scan `Lex` and leaves the current character where `Lex` ends; it never moves backwards and keeps the line count |
| Scanner.Scanner.Step | libjolie/src/jolie/lang/parse/Scanner.java:213-473 | one turn of the state-machine loop continues the reference scan of the current state: the scan from the new state, position and text is the same as from the old |
| Scanner.Scanner.FirstChar | libjolie/src/jolie/lang/parse/Scanner.java:224-277 | state 1 picks the state for the first character, or emits a one-character token, as the reference scan does |
| Scanner.Scanner.StringChar | libjolie/src/jolie/lang/parse/Scanner.java:361-381 | state 4 closes the string, decodes one of the four escapes, or fails on any other escape, as the reference scan does |
| Scanner.Scanner.Operator | libjolie/src/jolie/lang/parse/Scanner.java:382-428 | states 5, 6, 9, 10 and 11 give the two-character operator when its second character follows and the one-character operator otherwise |
| Scanner.Scanner.AfterSlash | libjolie/src/jolie/lang/parse/Scanner.java:429-438 | state 12 opens a block comment, a line comment, or gives `DIVIDE` |
| Scanner.Scanner.BlockCommentChar | libjolie/src/jolie/lang/parse/Scanner.java:439-448 | state 13 stays in the comment until `*/` and then scans the next real token |
| Scanner.Scanner.LineCommentChar | libjolie/src/jolie/lang/parse/Scanner.java:455-460 | state 15 stays in the comment until a newline and then scans the next real token |
| ScannerProperties.LeadingSeparators | libjolie/src/jolie/lang/parse/Scanner.java:207-208 | a run of leading separators is skipped: the scan from its start is the scan from the first other character |
| ScannerProperties.OnlySeparators | libjolie/src/jolie/lang/parse/Scanner.java:207-211 | input of separators only gives `EOF` with empty content, with the whole input read |
| ScannerProperties.LexIdentifier | libjolie/src/jolie/lang/parse/Scanner.java:279-355 | a letter starts an identifier over the longest run of letters, digits and `_`; an exact keyword gives the keyword's token with empty content, any other text `ID` carrying it; the ending character is not consumed |
| ScannerProperties.KeywordPrefixIsIdentifier | libjolie/src/jolie/lang/parse/Scanner.java:279-355 | `persistent1` scans as `ID("persistent1")`, not as the keyword |
| ScannerProperties.KeywordIsKeyword | libjolie/src/jolie/lang/parse/Scanner.java:279-355 | `persistent` followed by a space scans as `PERSISTENT` |
| ScannerProperties.IdentifierCutByEnd | libjolie/src/jolie/lang/parse/Scanner.java:475-476 | an identifier still open when the input ends gives `ERROR`, never a partial `ID` |
| ScannerProperties.IntegerCutByEnd | libjolie/src/jolie/lang/parse/Scanner.java:357-360 | an integer still open when the input ends gives `ERROR`, never a partial `INT` |
| ScannerProperties.NegativeIntegerCutByEnd | libjolie/src/jolie/lang/parse/Scanner.java:449-454 | `-` followed by digits up to the end of the input gives `ERROR`, never a partial `INT` |
| ScannerProperties.LexInteger | libjolie/src/jolie/lang/parse/Scanner.java:357-360 | a run of digits gives `INT` with the digits as content, the next character unread |
| ScannerProperties.LexNegativeInteger | libjolie/src/jolie/lang/parse/Scanner.java:449-454 | `-` followed at once by digits gives `INT` whose content keeps the `-` |
| ScannerProperties.LexMinus | libjolie/src/jolie/lang/parse/Scanner.java:449-454 | `-` followed by a non-digit gives `MINUS` and leaves that character unread |
| ScannerProperties.LexString | libjolie/src/jolie/lang/parse/Scanner.java:361-381 | for every text `t`, the literal `"` + escaped `t` + `"` scans back to `STRING(t)`, the content excluding both quotes |
| ScannerProperties.EscapeDecodes | libjolie/src/jolie/lang/parse/Scanner.java:361-379 | every escaped text is read by state 4 without stopping and decodes back to that text: each of the four escapes stands for its one character |
| ScannerProperties.StringCutByEnd | libjolie/src/jolie/lang/parse/Scanner.java:361-381 | a string literal the input ends before closing gives `ERROR`, never a partial `STRING`, whatever characters and valid escapes it holds (`WellEscaped`) |
| ScannerProperties.LexBadEscape | libjolie/src/jolie/lang/parse/Scanner.java:361-379 | a backslash followed by anything but `\\`, `n`, `t` or `"` (or by the end) fails with "malformed string: bad \\ usage", whatever characters and valid escapes come before it in the literal |
| ScannerProperties.LexOperator | libjolie/src/jolie/lang/parse/Scanner.java:382-428 | `++ == <= >= !=` give CHOICE, EQUAL, MINOR_OR_EQUAL, MAJOR_OR_EQUAL, NOT_EQUAL; otherwise PLUS, ASSIGN, LANGLE, RANGLE, NOT with the next character unread |
| ScannerProperties.LexPunctuation | libjolie/src/jolie/lang/parse/Scanner.java:249-275 | a one-character token consumes exactly its character |
| ScannerProperties.UnrecognisedCharacterSkipped | libjolie/src/jolie/lang/parse/Scanner.java:248-276 | a character that starts no token is not reported: `#ab ` scans as `ID("ab")`, the `a` having joined the text |
| ScannerProperties.UnknownStart | libjolie/src/jolie/lang/parse/Scanner.java:248-276 | for every character that no transition of state 1 accepts (separators included, which reach state 1 when read past an unrecognised character), that character and the next are read past, the next joining the text, and scanning goes on in state 1; as the last character it gives `ERROR` |
| ScannerProperties.OperatorCutByEnd | libjolie/src/jolie/lang/parse/Scanner.java:475-476 | an operator, `-` or `/` as the last character of the input gives `ERROR` |
| ScannerProperties.LexDivide | libjolie/src/jolie/lang/parse/Scanner.java:429-437 | a slash not followed by `*` or `/` gives `DIVIDE`, the next character unread |
| ScannerProperties.BlockCommentSkipped | libjolie/src/jolie/lang/parse/Scanner.java:439-448 | a closed block comment produces no token: the scan from it is the scan from after `*/` |
| ScannerProperties.BlockCommentCutByEnd | libjolie/src/jolie/lang/parse/Scanner.java:439-448 | a block comment not closed before the end of the input gives `ERROR` |
| ScannerProperties.EmptyBlockCommentNeverCloses | libjolie/src/jolie/lang/parse/Scanner.java:429-448 | because the character after `/*` is read past unexamined, `/**/` does not close and everything after it is swallowed |
| ScannerProperties.LineCommentSkipped | libjolie/src/jolie/lang/parse/Scanner.java:455-460 | a line comment produces no token: the scan from it is the scan from after its newline |
| ScannerProperties.LineCommentCutByEnd | libjolie/src/jolie/lang/parse/Scanner.java:455-460 | a line comment the input ends before its newline gives `ERROR` |
| ScannerProperties.EmptyLineCommentSwallowsNextLine | libjolie/src/jolie/lang/parse/Scanner.java:429-438 | because the character after `//` is read past unexamined, `//` directly followed by a newline ends only at the next newline: the scan resumes after it |
| ScannerProperties.LexSound | libjolie/src/jolie/lang/parse/Scanner.java:202-479 | every scan ends within the input, never before its start, and never yields `NEWLINE` |
| TokenPipeline.ReadTakesFront | libjolie/src/main/java/jolie/lang/parse/AbstractParser.java:84-91 | `readToken` takes the front of the lookahead list when there is one, and asks the scanner only when the list is empty |
| TokenPipeline.NextTokenEffect | libjolie/src/main/java/jolie/lang/parse/AbstractParser.java:98-110 | `nextToken` makes current the first pending token that is not NEWLINE, consumes everything before it, sets `metNewline` iff at least one NEWLINE was skipped, and records the new token in an open session |
| TokenPipeline.NextNotNewline | libjolie/src/main/java/jolie/lang/parse/AbstractParser.java:98-106 | after `nextToken` the current token is never NEWLINE |
| TokenPipeline.ConsistentKept | libjolie/src/main/java/jolie/lang/parse/AbstractParser.java:71-150 | every pipeline operation keeps the invariant: nothing is recorded outside a session, and the current token is not NEWLINE |
| TokenPipeline.Recording | libjolie/src/main/java/jolie/lang/parse/AbstractParser.java:107-109 | while a session is open, every token that becomes current is appended to `backupTokens`, in order, whatever the lookahead list holds; when it is empty it stays empty |
| TokenPipeline.Replaying | libjolie/src/main/java/jolie/lang/parse/AbstractParser.java:84-91 | outside a session, `nextToken` replays queued tokens that are not NEWLINE in order without asking the scanner |
| TokenPipeline.BackupRoundTrip | libjolie/src/main/java/jolie/lang/parse/AbstractParser.java:129-150 | `startBackup`, N calls of `nextToken`, then `recoverBackup` make the token current at `startBackup` current again; the next N calls deliver the same N tokens in order and end where the session had left off, with the session closed |
| TokenPipeline.ReplayForgetsNewlines | libjolie/src/main/java/jolie/lang/parse/AbstractParser.java:98-137 | a NEWLINE skipped in a session sets `metNewline`, but the replay of the same token does not |
| TokenPipeline.RecoverAfterLeftoverLookahead | libjolie/src/main/java/jolie/lang/parse/AbstractParser.java:129-137 | with tokens still queued at `startBackup`, `recoverBackup` does not bring the starting token back, since the recorded tokens are queued after the leftovers |
| TokenPipeline.RecoverNothing | libjolie/src/main/java/jolie/lang/parse/AbstractParser.java:129-137 | `recoverBackup` with nothing recorded only closes the session |
| TokenPipeline.DiscardKeepsTokens | libjolie/src/main/java/jolie/lang/parse/AbstractParser.java:140-143 | `discardBackup` closes the session and empties the record, leaving the current token and the pending tokens unchanged |
| TokenPipeline.AddTokensOrder | libjolie/src/main/java/jolie/lang/parse/AbstractParser.java:71-77 | added tokens come after those already queued, in the given order, and before the scanner's; the current token is unchanged |
| TokenPipeline.PrependThenNext | libjolie/src/main/java/jolie/lang/parse/AbstractParser.java:79-82 | when the lookahead list is empty, no session is open and neither `t` nor the current token is NEWLINE, after `prependToken(t)` the next two tokens are `t` and then the old current token, with the scanner untouched (tokens already queued would come first, since both are appended at the end; a NEWLINE would be skipped) |
| Parser.AbstractParser.constructor | libjolie/src/main/java/jolie/lang/parse/AbstractParser.java:67-69 | a new parser has no current token, no lookahead, no session and has met no newline |
| Parser.AbstractParser.ReadToken | libjolie/src/main/java/jolie/lang/parse/AbstractParser.java:84-91 | the fields change as `readToken` is specified in `TokenPipeline.Read` (and so as `ReadTakesFront` states) |
| Parser.AbstractParser.NextToken | libjolie/src/main/java/jolie/lang/parse/AbstractParser.java:98-110 | the do-while loop leaves the fields exactly as `TokenPipeline.NextToken` says (and so as `NextTokenEffect` states), with a current token; the class invariant `Valid` (`TokenPipeline.Consistent`: nothing recorded outside a session, no NEWLINE current) is required and kept |
| Parser.AbstractParser.HasMetNewline | libjolie/src/main/java/jolie/lang/parse/AbstractParser.java:124-126 | reports the flag the last `nextToken` set |
| Parser.AbstractParser.RecoverBackup | libjolie/src/main/java/jolie/lang/parse/AbstractParser.java:129-137 | the fields change as `TokenPipeline.RecoverBackup` says; the class invariant `Valid` (`TokenPipeline.Consistent`: nothing recorded outside a session, no NEWLINE current) is required and kept |
| Parser.AbstractParser.DiscardBackup | libjolie/src/main/java/jolie/lang/parse/AbstractParser.java:140-143 | the fields change as `TokenPipeline.DiscardBackup` says; the class invariant `Valid` (`TokenPipeline.Consistent`: nothing recorded outside a session, no NEWLINE current) is required and kept |
| Parser.AbstractParser.StartBackup | libjolie/src/main/java/jolie/lang/parse/AbstractParser.java:145-150 | records the current token when there is one and opens the session; the class invariant `Valid` (`TokenPipeline.Consistent`: nothing recorded outside a session, no NEWLINE current) is required and kept |
| Parser.AbstractParser.AddTokens | libjolie/src/main/java/jolie/lang/parse/AbstractParser.java:71-73 | appends the tokens to the lookahead list; `Valid` holds afterwards exactly when it held before |
| Parser.AbstractParser.AddToken | libjolie/src/main/java/jolie/lang/parse/AbstractParser.java:75-77 | appends one token to the lookahead list; `Valid` holds afterwards exactly when it held before |
| Parser.AbstractParser.PrependToken | libjolie/src/main/java/jolie/lang/parse/AbstractParser.java:79-82 | appends the prefix and then the current token to the lookahead list; the class invariant `Valid` (`TokenPipeline.Consistent`: nothing recorded outside a session, no NEWLINE current) is required and kept |
| Parser.AbstractParser.NextTokenNotEOF | libjolie/src/main/java/jolie/lang/parse/AbstractParser.java:160-166 | advances as `nextToken` does and ends with the EOF exception exactly when the new token is EOF; the class invariant `Valid` (`TokenPipeline.Consistent`: nothing recorded outside a session, no NEWLINE current) is required and kept |
| Parser.AbstractParser.Thrown | libjolie/src/main/java/jolie/lang/parse/AbstractParser.java:433-454 | `throwException` always raises, with help exactly when the current token has content |
| Parser.AbstractParser.AssertToken | libjolie/src/main/java/jolie/lang/parse/AbstractParser.java:316-321 | passes iff the current token has the type, never advances, and otherwise raises the `throwException` message |
| Parser.AbstractParser.AssertTokenInScope | libjolie/src/main/java/jolie/lang/parse/AbstractParser.java:323-328 | passes iff the current token has the type, otherwise raises the scoped exception with its description |
| Parser.AbstractParser.AssertIdentifier | libjolie/src/main/java/jolie/lang/parse/AbstractParser.java:302-307 | passes iff the current token is an identifier, never advances |
| Parser.AbstractParser.Eat | libjolie/src/main/java/jolie/lang/parse/AbstractParser.java:248-252 | passes iff the current token has the type, and then advances by exactly one `nextToken`; on failure the parser's fields, the token source included, do not change; the class invariant `Valid` (`TokenPipeline.Consistent`: nothing recorded outside a session, no NEWLINE current) is required and kept |
| Parser.AbstractParser.EatInScope | libjolie/src/main/java/jolie/lang/parse/AbstractParser.java:254-258 | as `Eat` (on failure the parser's fields do not change), raising the scoped exception on failure; the class invariant `Valid` (`TokenPipeline.Consistent`: nothing recorded outside a session, no NEWLINE current) is required and kept |
| Parser.AbstractParser.EatKeyword | libjolie/src/main/java/jolie/lang/parse/AbstractParser.java:270-277 | passes iff the current token is an `ID` whose content is the keyword, then advances once; otherwise the parser's fields, the token source included, do not change; the class invariant `Valid` (`TokenPipeline.Consistent`: nothing recorded outside a session, no NEWLINE current) is required and kept |
| Parser.AbstractParser.EatIdentifier | libjolie/src/main/java/jolie/lang/parse/AbstractParser.java:289-293 | passes iff the current token is an identifier, then advances once; otherwise the parser's fields, the token source included, do not change; the class invariant `Valid` (`TokenPipeline.Consistent`: nothing recorded outside a session, no NEWLINE current) is required and kept |
| Parser.AbstractParser.MaybeEat | libjolie/src/main/java/jolie/lang/parse/AbstractParser.java:260-268 | advances by exactly one `nextToken` when the current type is in the list, and changes nothing otherwise; the class invariant `Valid` (`TokenPipeline.Consistent`: nothing recorded outside a session, no NEWLINE current) is required and kept |
| Diagnostics.ProposalsMembers | libjolie/src/main/java/jolie/lang/parse/AbstractParser.java:349-355 | a term is proposed iff it is a possible term within edit distance 2 of the content |
| Diagnostics.ProposalsNear | libjolie/src/main/java/jolie/lang/parse/AbstractParser.java:349-355 | the content itself is proposed when it is a possible term; proposals differ in length from the content by at most 2 |
| Diagnostics.Propose | libjolie/src/main/java/jolie/lang/parse/AbstractParser.java:349-355 | the loop collects exactly the proposals, in the order of the terms |
| Diagnostics.CreateHelpMessage | libjolie/src/main/java/jolie/lang/parse/AbstractParser.java:341-379 | the builder computes the reference help message, failing where `substring` or `get(0)` would throw |
| Diagnostics.Spaces | libjolie/src/main/java/jolie/lang/parse/AbstractParser.java:373-375 | the loop yields exactly n spaces |
| Diagnostics.HelpListsTerms | libjolie/src/main/java/jolie/lang/parse/AbstractParser.java:342-360 | empty content gives "You are missing a keyword…" and no proposals gives "The term did not match…", each followed by all terms joined by ", " |
| Diagnostics.HelpCaret | libjolie/src/main/java/jolie/lang/parse/AbstractParser.java:363-377 | with proposals, the help ends with `columnSpace` spaces and `^`, below the code line with the first proposal written at that column; a newline separates them whenever the replaced term ends before the code line does or the code line has no final newline (otherwise the caret follows the shown line directly, the newline being tested on the original line) |
| Diagnostics.HelpWithoutTerms | libjolie/src/main/java/jolie/lang/parse/AbstractParser.java:356-360 | with no possible terms, non-empty content always gives the bare "did not match" text |
| Diagnostics.RenderLine | libjolie/src/main/java/jolie/lang/parse/AbstractParser.java:406-416 | a code line with the `endline:` marker gets the proposal at column `numberSpaces` (failing iff `substring` would throw); any other line is copied and ends in a newline; a marked line gets a newline added only when the original line had none |
| Diagnostics.MarkedLineLosesNewline | libjolie/src/main/java/jolie/lang/parse/AbstractParser.java:406-416 | the newline test is made on the original line, so a marked line whose replaced term reaches its final newline is shown without one: `1:abc\n` with `abcd` replaced by `xy` at column 2 gives `1:xy` |
| Diagnostics.CreateHelpMessageWithScope | libjolie/src/main/java/jolie/lang/parse/AbstractParser.java:383-425 | the builder computes the reference scoped help message |
| Diagnostics.ListTerms | libjolie/src/main/java/jolie/lang/parse/AbstractParser.java:389-391 | each term followed by a newline |
| Diagnostics.ShowCode | libjolie/src/main/java/jolie/lang/parse/AbstractParser.java:406-417 | the loop shows the code lines in order, or fails as the first failing line does |
| Diagnostics.RenderLinesError | libjolie/src/main/java/jolie/lang/parse/AbstractParser.java:406-417 | the only way showing the code lines fails is the index error |
| Diagnostics.HelpWithScopeCases | libjolie/src/main/java/jolie/lang/parse/AbstractParser.java:387-401 | empty content lists each scope term followed by a newline; non-empty content with no proposals gives the empty string |
| Diagnostics.GetWholeScope | libjolie/src/main/java/jolie/lang/parse/AbstractParser.java:464-473 | the loop computes the reference list of numbered lines, failing where `get(i)` would throw |
| Diagnostics.WholeScopeLines | libjolie/src/main/java/jolie/lang/parse/AbstractParser.java:464-473 | fails iff some line from `startline` to `endline` does not exist; otherwise one line per number, each `i:` followed by line i, whose prefix before `:` reads back as i |
| Diagnostics.Build | libjolie/src/main/java/jolie/lang/parse/AbstractParser.java:54-60 | the arguments concatenated in order, with the sum of their lengths as length |
| Diagnostics.ExceptionMessage | libjolie/src/main/java/jolie/lang/parse/AbstractParser.java:437-452 | non-empty content: help present, description `mesg + ": " + content`, or `". Found term: " + content` for an empty message; empty content: no help, the given message, and the column moved one left |
| Diagnostics.ExceptionHelp | libjolie/src/main/java/jolie/lang/parse/AbstractParser.java:442-444 | the help `throwException` attaches is always the "did not match" text, since it passes no terms |
| Diagnostics.ScopedDescription | libjolie/src/main/java/jolie/lang/parse/AbstractParser.java:487-527 | the scoped description is the message with `". Found term: " + content` appended, except an empty service, whose description is exactly `"Service " + scopeName + " is empty and does not have an ending }"` |
| JolieDoc.CardinalityString | tools/joliedoc/src/jolie/doc/impl/html/JolieDocWriter.java:340-351 | `""` iff exactly one, `"?"` iff `[0,1]`, `"*"` iff `[0, MAX_VALUE]`, and otherwise `[`, the decimal `min`, `,`, the decimal `max` and `]` |
| JolieDoc.CardinalityInjective | tools/joliedoc/src/jolie/doc/impl/html/JolieDocWriter.java:340-351 | different ranges get different cardinality strings |
| JolieDoc.Indent | tools/joliedoc/src/jolie/doc/impl/html/JolieDocWriter.java:353-359 | `indent(n)` is n copies of `&nbsp;`, `6n` characters long |
| JolieDoc.IndentCopies | tools/joliedoc/src/jolie/doc/impl/html/JolieDocWriter.java:353-359 | every 6-character block of `indent(n)` is `&nbsp;` |
| JolieDoc.AppendRepeated | tools/joliedoc/src/jolie/doc/impl/html/JolieDocWriter.java:303-305 | the loop appends exactly n copies of the unit |
| JolieDoc.WriteType | tools/joliedoc/src/jolie/doc/impl/html/JolieDocWriter.java:298-333 | the recursive writer produces the reference text of the type |
| JolieDoc.WriteHeading | tools/joliedoc/src/jolie/doc/impl/html/JolieDocWriter.java:302-310 | the heading part of the writer produces the reference heading |
| JolieDoc.WriteBody | tools/joliedoc/src/jolie/doc/impl/html/JolieDocWriter.java:312-330 | the body part of the writer produces the reference body |
| JolieDoc.WriteNested | tools/joliedoc/src/jolie/doc/impl/html/JolieDocWriter.java:320-329 | the subtype block of the writer produces the reference block |
| JolieDoc.WriteSubTypes | tools/joliedoc/src/jolie/doc/impl/html/JolieDocWriter.java:322-324 | the subtype loop produces each subtype's text followed by `<br>`, in order |
| JolieDoc.SubTypeLine | tools/joliedoc/src/jolie/doc/impl/html/JolieDocWriter.java:302-306 | a subtype's text starts with `level` copies of `&nbsp`, then `.`, its id, its cardinality and `:` |
| JolieDoc.TopLevelLine | tools/joliedoc/src/jolie/doc/impl/html/JolieDocWriter.java:307-310 | a top-level type's text starts with `type `, its id and `:` |
| JolieDoc.ChildrenAppear | tools/joliedoc/src/jolie/doc/impl/html/JolieDocWriter.java:322-324 | every subtype's own text, followed by `<br>`, occurs in its parent's subtype block |
| JolieDoc.NestedLayout | tools/joliedoc/src/jolie/doc/impl/html/JolieDocWriter.java:319-328 | a type with subtypes is its opening, then its subtypes rendered at `level + 4`, then `level` copies of `&nbsp` and `}` |
| JolieDoc.SubTypesNested | tools/joliedoc/src/jolie/doc/impl/html/JolieDocWriter.java:322-324 | each subtype's text at `level + 4` occurs in the text of its parent |
| JolieDoc.SubTypesClosed | tools/joliedoc/src/jolie/doc/impl/html/JolieDocWriter.java:325-328 | a type with subtypes ends with `level` copies of `&nbsp` and `}` |
| JolieDoc.LinkBody | tools/joliedoc/src/jolie/doc/impl/html/JolieDocWriter.java:312-314 | a link ends with the anchor to the linked type's name |
| JolieDoc.UntypedBody | tools/joliedoc/src/jolie/doc/impl/html/JolieDocWriter.java:316-317 | a type with untyped subtypes ends with `:undefined` |
| JolieDoc.NativeLeafBody | tools/joliedoc/src/jolie/doc/impl/html/JolieDocWriter.java:318-319 | a type without subtypes ends with its native type in the `native` span |
| JolieDoc.RecordType | tools/joliedoc/src/jolie/doc/impl/html/JolieDocWriter.java:78-86 | recording a type that is neither native, nor `undefined`, nor named yet keeps the name list free of duplicates and as long as the two recorded lists together |
| JolieDoc.RecordLink | tools/joliedoc/src/jolie/doc/impl/html/JolieDocWriter.java:88-93 | recording a link to a name not yet listed keeps the same invariant |
| JolieDoc.JolieDocWriter.constructor | tools/joliedoc/src/jolie/doc/impl/html/JolieDocWriter.java:53-63 | all lists start empty and the invariant holds |
| JolieDoc.JolieDocWriter.AddPort | tools/joliedoc/src/jolie/doc/impl/html/JolieDocWriter.java:65-69 | the port is replaced |
| JolieDoc.JolieDocWriter.AddInterface | tools/joliedoc/src/jolie/doc/impl/html/JolieDocWriter.java:72-76 | the interface is appended, so interfaces stay in insertion order |
| JolieDoc.JolieDocWriter.AddType | tools/joliedoc/src/jolie/doc/impl/html/JolieDocWriter.java:78-86 | the type and its id are appended iff it is not native, not `undefined` and its id is in neither name list; otherwise nothing changes; the name list stays free of duplicates |
| JolieDoc.JolieDocWriter.AddLinkedType | tools/joliedoc/src/jolie/doc/impl/html/JolieDocWriter.java:88-93 | the link and its target name are appended iff the name is not listed yet; otherwise nothing changes; the invariant is kept |
| Strings.IntToStringRoundTrip | tools/joliedoc/src/jolie/doc/impl/html/JolieDocWriter.java:349 | the decimal rendering of `min` and `max` in a cardinality reads back as the same integer |

## Left out

- Stream I/O: `InputStream.read` becomes reading from a `seq<char>`. The `IOException` of a failed read is not modelled. The scanner the parser reads from is a `seq<Token>`, and its `IOException` is not modelled either.
- `ScannerSpec.IsLetter`: `Character.isLetter` is modelled only on the 256 values a byte can take (ISO 8859-1). Those are the only values `(char) read()` can produce here.
- `Scanner.addStringTerminator`: a static helper outside the state machine that appends `-1` to a string; it has no logic to state.
- The `line()` and `sourceName()` accessors, and the parser's `scanner()`, `setScanner`, `line`, `startline`, `endline` and their setters: these are plain accessors.
- `getContext`, `getContextDuringError` and `readLineAfterError`: they need scanner members that Scanner.java does not have. The context they return is the constant `errorContext` of the parser.
- `Parser.AbstractParser.AssertTokenInScope`, `Parser.AbstractParser.EatInScope`: only the description of the scoped exception is modelled (`ScopedDescription`). Its context, column heuristics and help are not modelled, because they rely on Java's regex `split` and on `KeywordClass`.
- `Parser.AbstractParser.AssertTokenInScope`, `Parser.AbstractParser.EatInScope`: the scoped failure is always `RaisedInScope`. In Java it is sometimes another exception: the `default` scope passes a `null` keyword list to `createHelpMessage`, which throws `NullPointerException`; the `inputPort`, `service` and `import` branches can throw index exceptions from `extralines.get`, `tempSplit[1]` and `tempSplit[2]`; and the scoped help builders can throw from `substring`. These outcomes are not modelled.
- `Parser.AbstractParser.Eat`, `Parser.AbstractParser.EatKeyword`, `Parser.AbstractParser.EatIdentifier`, `Parser.AbstractParser.EatInScope`, `Parser.AbstractParser.AssertToken`, `Parser.AbstractParser.AssertIdentifier`: before raising, Java's `throwException` calls `getContextDuringError`, which calls the scanner's `readLineAfterError` and so consumes the rest of the scanner's current line. The model leaves the token source unchanged on failure, because that scanner member is not part of this model.
- `Diagnostics.HelpMessage`, `Diagnostics.RenderLine`, `Diagnostics.HelpMessageWithScope`, `Diagnostics.ColumnSpace`: strings here are sequences of Unicode characters, while Java's `length` and `substring` count UTF-16 code units. The column arithmetic therefore differs from Java's on text holding characters outside the Basic Multilingual Plane.
- `throwException(Exception)`: it only wraps a message from a foreign exception.
- `KeywordClass.getKeywordsForScope` is a list passed in as a parameter. `NativeType.java`, `Range.java`, `TypeDefinition.java` and `KeywordClass.java` are not part of this model. `NativeType.isNative` is a set of ids given to the writer's constructor.
- `Diagnostics.Levenshtein`: commons-text `LevenshteinDistance` is a reference function of plain edit distance, not that library's code.
- `JolieDocWriter.write` and `writeHead`: they are HTML output to a `Writer`, which is I/O. The `writer` field is left out with them.
- `PortInfo` and `InterfaceDefinition` are reduced to their names. The writer only stores them.
- Whether `addType` and `addLinkedType` receive the same Java object twice is not modelled. Types are values here, and `Vector.contains` on names is string equality.
- `Range` equality in `getCardinalityString` is value equality of `min` and `max`.
- Null pointers: a combinator called with no current token would throw `NullPointerException` in Java. Here it requires a current token.
- `TokenPipeline.PrependToken`, `Parser.AbstractParser.PrependToken`: with no current token, Java's `prependToken` does not throw. It queues a `null` after the prefix, and the `NullPointerException` comes only at the `nextToken` that reads it. The model requires a current token instead, because its lookahead list holds tokens, not `null`.
- `CoapCodecHandler`, `NDChoiceStatement`, `PartnerLinkTypeInfo`, `RequestErrorCommMessage`: outside the front end. They are network codecs or plain data holders.
- Java's 32-bit `int` for columns, lines and cardinalities does not wrap here. No operation modelled adds enough to overflow, except the `+ 4` of indentation levels.
