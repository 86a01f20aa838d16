/**
 * Reference semantics of `Scanner.getToken` as functions over the whole input.
 *
 * The input is the byte stream read as characters, one per `InputStream.read()`.
 * A position `p` is the index of the current character `ch`; `p == |s|` is the
 * state in which `read()` has returned -1. `Lex(s, p)` is the token that
 * `getToken()` returns when called with the current character at `p`, together
 * with the position of the current character afterwards.
 *
 * Each multi-character state of the Java state machine has a function here that
 * says how scanning continues from the current character in that state; reaching
 * the end of the input in any of them gives an ERROR token, never a partial one.
 */
module ScannerSpec {

  import opened Wrappers
  import opened Tokens

  /** `isSeparator`. */
  predicate IsSeparator(c: char)
  {
    c == '\n' || c == '\r' || c == '\t' || c == ' '
  }

  /** `Character.isLetter` on the values a byte can take (ISO 8859-1). */
  predicate IsLetter(c: char)
  {
    ('A' <= c <= 'Z') || ('a' <= c <= 'z') || c == 'ª' || c == 'µ' || c == 'º'
    || ('À' <= c <= 'Ö') || ('Ø' <= c <= 'ö') || ('ø' <= c <= 'ÿ')
  }

  /** `Character.isDigit` on the values a byte can take. */
  predicate IsDigit(c: char)
  {
    '0' <= c <= '9'
  }

  /** Characters that extend an identifier: `isLetterOrDigit(ch) || ch == '_'`. */
  predicate IsIdentChar(c: char)
  {
    IsLetter(c) || IsDigit(c) || c == '_'
  }

  /** The tokens that one character makes on its own. */
  function Punctuation(c: char): Option<TokenType>
  {
    if c == '(' then Some(LPAREN)
    else if c == ')' then Some(RPAREN)
    else if c == '[' then Some(LSQUARE)
    else if c == ']' then Some(RSQUARE)
    else if c == '{' then Some(LCURLY)
    else if c == '}' then Some(RCURLY)
    else if c == '*' then Some(ASTERISK)
    else if c == '@' then Some(AT)
    else if c == ':' then Some(COLON)
    else if c == ',' then Some(COMMA)
    else if c == ';' then Some(SEQUENCE)
    else if c == '|' then Some(PARALLEL)
    else None
  }

  /** The four escapes a string literal accepts, by the character after the backslash. */
  function Unescape(c: char): Option<char>
  {
    if c == '\\' then Some('\\')
    else if c == 'n' then Some('\n')
    else if c == 't' then Some('\t')
    else if c == '"' then Some('"')
    else None
  }

  const BadEscape: string := "malformed string: bad \\ usage"

  /** A scan: what `getToken` returns (a token, or the exception it throws) and
      where the current character is afterwards. */
  datatype Lexed = Lexed(result: Result<Token>, next: nat)

  /** The input ran out inside a token, a string or a comment. */
  function Ended(s: seq<char>): Lexed
  {
    Lexed(Ok(Simple(ERROR)), |s|)
  }

  /** `readChar()`: the next position, which stays at the end once reached. */
  function Next(s: seq<char>, p: nat): nat
  {
    if p < |s| then p + 1 else p
  }

  /** `str.substring(1)` on the text of a string literal, whose first character is
      the opening quote. */
  function DropFirst(str: string): string
  {
    if |str| == 0 then str else str[1..]
  }

  /** Position of the first non-separator at or after `p`. */
  function SkipSeparators(s: seq<char>, p: nat): (q: nat)
    requires p <= |s|
    ensures p <= q <= |s|
    decreases |s| - p
  {
    if p < |s| && IsSeparator(s[p]) then SkipSeparators(s, p + 1) else p
  }

  /** `getToken()` with the current character at `p`. */
  function Lex(s: seq<char>, p: nat): Lexed
    requires p <= |s|
    decreases |s| - p, 1
  {
    var q := SkipSeparators(s, p);
    if q == |s| then Lexed(Ok(Simple(EOF)), q) else Start(s, q, "")
  }

  /** State 1: classify the first character. `str` is the text accumulated so far,
      which is non-empty only after an unrecognised character. */
  function Start(s: seq<char>, p: nat, str: string): Lexed
    requires p <= |s|
    decreases |s| - p, 0
  {
    if p == |s| then Ended(s)
    else
      var c := s[p];
      if IsLetter(c) then Ident(s, p + 1, str + [c])
      else if IsDigit(c) then Number(s, p + 1, str + [c])
      else if c == '"' then Str(s, p + 1, str + [c])
      else if c == '+' then Pair(s, p + 1, '+', CHOICE, PLUS)
      else if c == '=' then Pair(s, p + 1, '=', EQUAL, ASSIGN)
      else if c == '<' then Pair(s, p + 1, '=', MINOR_OR_EQUAL, LANGLE)
      else if c == '>' then Pair(s, p + 1, '=', MAJOR_OR_EQUAL, RANGLE)
      else if c == '!' then Pair(s, p + 1, '=', NOT_EQUAL, NOT)
      else if c == '/' then Slash(s, p + 1)
      else if c == '-' then Minus(s, p + 1, str + [c])
      else if Punctuation(c).Some? then Lexed(Ok(Simple(Punctuation(c).value)), p + 1)
      // An unrecognised character is read past, and so is the character after it,
      // which joins the accumulated text; scanning goes on in state 1.
      else if p + 1 == |s| then Ended(s)
      else Start(s, p + 2, str + [s[p + 1]])
  }

  /** State 2: identifier or keyword. */
  function Ident(s: seq<char>, p: nat, str: string): Lexed
    requires p <= |s|
    decreases |s| - p, 0
  {
    if p == |s| then Ended(s)
    else if !IsIdentChar(s[p]) then Lexed(Ok(KeywordOrId(str)), p)
    else Ident(s, p + 1, str + [s[p]])
  }

  /** State 3: integer literal. */
  function Number(s: seq<char>, p: nat, str: string): Lexed
    requires p <= |s|
    decreases |s| - p, 0
  {
    if p == |s| then Ended(s)
    else if !IsDigit(s[p]) then Lexed(Ok(Token(INT, str)), p)
    else Number(s, p + 1, str + [s[p]])
  }

  /** State 4: string literal; `str` holds the opening quote and the decoded text. */
  function Str(s: seq<char>, p: nat, str: string): Lexed
    requires p <= |s|
    decreases |s| - p, 0
  {
    if p == |s| then Ended(s)
    else if s[p] == '"' then Lexed(Ok(Token(STRING, DropFirst(str))), p + 1)
    else if s[p] == '\\' then
      if p + 1 == |s| then Lexed(Failure(BadEscape), p + 1)
      else if Unescape(s[p + 1]).None? then Lexed(Failure(BadEscape), p + 1)
      else Str(s, p + 2, str + [Unescape(s[p + 1]).value])
    else Str(s, p + 1, str + [s[p]])
  }

  /** States 5, 6, 9, 10 and 11: a one-character operator, or a two-character one
      when the current character is `second`. */
  function Pair(s: seq<char>, p: nat, second: char, two: TokenType, one: TokenType): Lexed
    requires p <= |s|
  {
    if p == |s| then Ended(s)
    else if s[p] == second then Lexed(Ok(Simple(two)), p + 1)
    else Lexed(Ok(Simple(one)), p)
  }

  /** State 12: after a slash. A slash followed by an asterisk opens a block
      comment, a second slash a line comment; in both cases the character right
      after the two-character opener is read past without being looked at. */
  function Slash(s: seq<char>, p: nat): Lexed
    requires p <= |s|
    decreases |s| - p, 0
  {
    if p == |s| then Ended(s)
    else if s[p] == '*' then Block(s, Next(s, p + 1))
    else if s[p] == '/' then Line(s, Next(s, p + 1))
    else Lexed(Ok(Simple(DIVIDE)), p)
  }

  /** State 13: inside a block comment; after an asterisk followed by a slash,
      scanning starts over. */
  function Block(s: seq<char>, p: nat): Lexed
    requires p <= |s|
    decreases |s| - p, 0
  {
    if p == |s| then Ended(s)
    else if s[p] == '*' then
      if p + 1 < |s| && s[p + 1] == '/' then Lex(s, p + 2) else Block(s, p + 1)
    else Block(s, p + 1)
  }

  /** State 14: after `-`. */
  function Minus(s: seq<char>, p: nat, str: string): Lexed
    requires p <= |s|
    decreases |s| - p, 0
  {
    if p == |s| then Ended(s)
    else if IsDigit(s[p]) then Number(s, p + 1, str + [s[p]])
    else Lexed(Ok(Simple(MINUS)), p)
  }

  /** State 15: inside a line comment; after the newline scanning starts over. */
  function Line(s: seq<char>, p: nat): Lexed
    requires p <= |s|
    decreases |s| - p, 0
  {
    if p == |s| then Ended(s)
    else if s[p] == '\n' then Lex(s, p + 1)
    else Line(s, p + 1)
  }

  /** How scanning continues from the current character at `p` in machine state
      `state` with accumulated text `str`; any other state gives ERROR at once. */
  function Continue(s: seq<char>, state: int, p: nat, str: string): Lexed
    requires p <= |s|
  {
    if state == 1 then Start(s, p, str)
    else if state == 2 then Ident(s, p, str)
    else if state == 3 then Number(s, p, str)
    else if state == 4 then Str(s, p, str)
    else if state == 5 then Pair(s, p, '+', CHOICE, PLUS)
    else if state == 6 then Pair(s, p, '=', EQUAL, ASSIGN)
    else if state == 9 then Pair(s, p, '=', MINOR_OR_EQUAL, LANGLE)
    else if state == 10 then Pair(s, p, '=', MAJOR_OR_EQUAL, RANGLE)
    else if state == 11 then Pair(s, p, '=', NOT_EQUAL, NOT)
    else if state == 12 then Slash(s, p)
    else if state == 13 then Block(s, p)
    else if state == 14 then Minus(s, p, str)
    else if state == 15 then Line(s, p)
    else Lexed(Ok(Simple(ERROR)), p)
  }

  /** Number of newline characters in `s`. */
  function Newlines(s: seq<char>): nat
  {
    if s == [] then 0 else Newlines(s[..|s| - 1]) + (if s[|s| - 1] == '\n' then 1 else 0)
  }

  /** The characters read from the stream so far when the current one is at `p`. */
  function Seen(s: seq<char>, p: nat): seq<char>
    requires p <= |s|
  {
    s[..if p < |s| then p + 1 else |s|]
  }
}
