/**
 * The scanner object: the state machine of `Scanner.getToken` over the fields
 * `ch`, `currByte`, `state` and `line`, proved to compute `ScannerSpec.Lex`.
 */
module Scanner {

  import opened Wrappers
  import opened Tokens
  import opened ScannerSpec

  /** What `(char) -1` gives once the stream is exhausted. */
  const EndChar: char := '\U{FFFF}'

  class Scanner {
    /** The characters the stream will deliver, in order. */
    const input: seq<char>
    const sourceName: string
    /** Index in `input` of the current character; `|input|` once `read()` gave -1. */
    var cur: nat
    var ch: char
    var currByte: int
    var state: int
    var line: int

    ghost predicate Valid()
      reads this
    {
      && cur <= |input|
      && currByte == (if cur < |input| then input[cur] as int else -1)
      && ch == (if cur < |input| then input[cur] else EndChar)
      && line == 1 + Newlines(Seen(input, cur))
    }

    /** Opens the scanner: `line` starts at 1 and the first character is read. */
    constructor (stream: seq<char>, sourceName: string)
      ensures Valid()
      ensures input == stream && this.sourceName == sourceName && cur == 0
      ensures line == if |stream| > 0 && stream[0] == '\n' then 2 else 1
    {
      input := stream;
      this.sourceName := sourceName;
      line := 1;
      cur := 0;
      currByte := if 0 < |stream| then stream[0] as int else -1;
      ch := if 0 < |stream| then stream[0] else EndChar;
      new;
      if ch == '\n' {
        line := line + 1;
      }
      assert Seen(input, 0) == if |input| > 0 then [input[0]] else [];
    }

    /** `readChar()`: take the next character; a newline read raises `line` by one. */
    method ReadChar()
      requires Valid()
      modifies this`cur, this`ch, this`currByte, this`line
      ensures Valid()
      ensures cur == Next(input, old(cur))
      ensures line == old(line) + (if ch == '\n' then 1 else 0)
    {
      if cur < |input| {
        cur := cur + 1;
      }
      currByte := if cur < |input| then input[cur] as int else -1;
      ch := if currByte == -1 then EndChar else input[cur];
      if ch == '\n' {
        line := line + 1;
      }
      if old(cur) < cur < |input| {
        assert Seen(input, cur)[..|Seen(input, cur)| - 1] == Seen(input, old(cur));
      } else {
        assert Seen(input, cur) == Seen(input, old(cur));
      }
    }

    /** The character at `p`, or what `ch` holds once the stream is exhausted. */
    ghost function CharAt(p: nat): char
      reads this
    {
      if p < |input| then input[p] else EndChar
    }

    /** How scanning continues after the current loop iteration's tail: without
        `stop`, the current character joins `str` and the next one is read. */
    ghost function Resume(st: int, p: nat, str: string, stop: bool): Lexed
      reads this
      requires p <= |input|
    {
      if stop then Continue(input, st, p, str) else Continue(input, st, Next(input, p), str + [CharAt(p)])
    }

    /** What one pass of the switch in state `st0` at `p0` with text `str0` must
        leave behind: either a result, or the state from which `Resume` goes on. */
    ghost predicate Stepped(st0: int, p0: nat, str0: string, retval: Option<Result<Token>>, str: string, stop: bool)
      reads this
      requires p0 <= |input|
    {
      && cur <= |input| && p0 <= cur
      && (retval.Some? ==> Continue(input, st0, p0, str0) == Lexed(retval.value, cur))
      && (retval.None? ==> Continue(input, st0, p0, str0) == Resume(state, cur, str, stop))
      && (retval.None? && stop ==> p0 < cur)
    }

    /** `getToken()`: the next token, or the failure for a bad escape in a string. */
    method GetToken() returns (r: Result<Token>)
      requires Valid()
      modifies this`cur, this`ch, this`currByte, this`line, this`state
      ensures Valid()
      ensures old(cur) <= cur
      ensures Lex(input, old(cur)) == Lexed(r, cur)
      decreases |input| - cur, 2
    {
      ghost var p0 := cur;
      state := 1;

      while currByte != -1 && IsSeparator(ch)
        invariant Valid() && p0 <= cur && state == 1
        invariant SkipSeparators(input, p0) == SkipSeparators(input, cur)
        decreases |input| - cur
      {
        ReadChar();
      }
      if currByte == -1 {
        return Ok(Simple(EOF));
      }
      assert SkipSeparators(input, cur) == cur;

      var stopOneChar := false;
      var retval: Option<Result<Token>> := None;
      var str: string := "";

      while currByte != -1 && retval.None?
        invariant Valid() && p0 <= cur
        invariant retval.None? ==> !stopOneChar
        invariant retval.None? ==> Lex(input, p0) == Continue(input, state, cur, str)
        invariant retval.Some? ==> Lex(input, p0) == Lexed(retval.value, cur)
        invariant retval.None? && (state == 13 || state == 15) ==> p0 < cur
        decreases |input| - cur, if retval.None? then 1 else 0
      {
        retval, str, stopOneChar := Step(str);
        if retval.Some? && retval.value.Failure? {
          return retval.value;
        }
        if retval.None? {
          if !stopOneChar {
            str := str + [ch];
            ReadChar();
          } else {
            stopOneChar := false;
          }
        }
      }

      if retval.None? {
        r := Ok(Simple(ERROR));
      } else {
        r := retval.value;
      }
    }

    /** One pass of the `switch` over `state`. A failure is returned as the result
        and ends the scan, as the Java exception does. */
    method Step(str0: string) returns (retval: Option<Result<Token>>, str: string, stop: bool)
      requires Valid() && cur < |input|
      modifies this`cur, this`ch, this`currByte, this`line, this`state
      ensures Valid()
      ensures Stepped(old(state), old(cur), str0, retval, str, stop)
      decreases |input| - cur, 1
    {
      str, stop, retval := str0, false, None;
      if state == 1 {
        retval, str := FirstChar(str);
      } else if state == 2 {
        if !IsIdentChar(ch) {
          retval := Some(Ok(KeywordOrId(str)));
        }
      } else if state == 3 {
        if !IsDigit(ch) {
          retval := Some(Ok(Token(INT, str)));
        }
      } else if state == 4 {
        retval, str, stop := StringChar(str);
      } else if state == 5 {
        retval := Operator('+', CHOICE, PLUS);
      } else if state == 6 {
        retval := Operator('=', EQUAL, ASSIGN);
      } else if state == 9 {
        retval := Operator('=', MINOR_OR_EQUAL, LANGLE);
      } else if state == 10 {
        retval := Operator('=', MAJOR_OR_EQUAL, RANGLE);
      } else if state == 11 {
        retval := Operator('=', NOT_EQUAL, NOT);
      } else if state == 12 {
        retval := AfterSlash();
      } else if state == 13 {
        retval, stop := BlockCommentChar();
      } else if state == 14 {
        if IsDigit(ch) {
          state := 3;
        } else {
          retval := Some(Ok(Simple(MINUS)));
        }
      } else if state == 15 {
        retval := LineCommentChar();
      } else {
        retval := Some(Ok(Simple(ERROR)));
      }
    }

    /** State 1 of the switch: pick the state for the first character, or emit a
        one-character token. */
    method FirstChar(str0: string) returns (retval: Option<Result<Token>>, str: string)
      requires Valid() && cur < |input| && state == 1
      modifies this`cur, this`ch, this`currByte, this`line, this`state
      ensures Valid()
      ensures Stepped(1, old(cur), str0, retval, str, false)
    {
      str := str0;
      retval := None;
      if IsLetter(ch) {
        state := 2;
      } else if IsDigit(ch) {
        state := 3;
      } else if ch == '"' {
        state := 4;
      } else if ch == '+' {
        state := 5;
      } else if ch == '=' {
        state := 6;
      } else if ch == '<' {
        state := 9;
      } else if ch == '>' {
        state := 10;
      } else if ch == '!' {
        state := 11;
      } else if ch == '/' {
        state := 12;
      } else if ch == '-' {
        state := 14;
      } else {
        // One-character token; any other character is read past.
        var single := Punctuation(ch);
        if single.Some? {
          retval := Some(Ok(Simple(single.value)));
        }
        ReadChar();
      }
    }

    /** State 4 of the switch: the closing quote, an escape, or a plain character.
        An escape other than the four accepted ones is the failure `BadEscape`. */
    method StringChar(str0: string) returns (retval: Option<Result<Token>>, str: string, stop: bool)
      requires Valid() && cur < |input| && state == 4
      modifies this`cur, this`ch, this`currByte, this`line
      ensures Valid() && state == 4
      ensures Stepped(4, old(cur), str0, retval, str, stop)
    {
      str, stop := str0, false;
      retval := None;
      if ch == '"' {
        retval := Some(Ok(Token(STRING, DropFirst(str))));
        ReadChar();
      } else if ch == '\\' {
        ReadChar();
        var decoded := Unescape(ch);
        if decoded.None? {
          retval := Some(Failure(BadEscape));
          return;
        }
        str := str + [decoded.value];
        stop := true;
        ReadChar();
      }
    }

    /** States 5, 6, 9, 10 and 11 of the switch. */
    method Operator(second: char, two: TokenType, one: TokenType) returns (retval: Option<Result<Token>>)
      requires Valid() && cur < |input|
      modifies this`cur, this`ch, this`currByte, this`line
      ensures Valid() && retval.Some?
      ensures Pair(input, old(cur), second, two, one) == Lexed(retval.value, cur)
    {
      if ch == second {
        retval := Some(Ok(Simple(two)));
        ReadChar();
      } else {
        retval := Some(Ok(Simple(one)));
      }
    }

    /** State 12 of the switch: division, or the start of a comment. */
    method AfterSlash() returns (retval: Option<Result<Token>>)
      requires Valid() && cur < |input| && state == 12
      modifies this`cur, this`ch, this`currByte, this`line, this`state
      ensures Valid()
      ensures Stepped(12, old(cur), "", retval, "", false)
      ensures retval.None? ==> state == 13 || state == 15
    {
      retval := None;
      if ch == '*' {
        state := 13;
        ReadChar();
      } else if ch == '/' {
        state := 15;
        ReadChar();
      } else {
        retval := Some(Ok(Simple(DIVIDE)));
      }
    }

    /** State 13 of the switch: inside a block comment; at its end the token after
        it is scanned by a recursive call. */
    method BlockCommentChar() returns (retval: Option<Result<Token>>, stop: bool)
      requires Valid() && cur < |input| && state == 13
      modifies this`cur, this`ch, this`currByte, this`line, this`state
      ensures Valid()
      ensures Stepped(13, old(cur), "", retval, "", stop)
      ensures retval.None? ==> state == 13
      decreases |input| - cur, 0
    {
      retval, stop := None, false;
      if ch == '*' {
        ReadChar();
        stop := true;
        if ch == '/' {
          ReadChar();
          var next := GetToken();
          retval := Some(next);
        }
      }
    }

    /** State 15 of the switch: inside a line comment; after the newline the next
        token is scanned by a recursive call. */
    method LineCommentChar() returns (retval: Option<Result<Token>>)
      requires Valid() && cur < |input| && state == 15
      modifies this`cur, this`ch, this`currByte, this`line, this`state
      ensures Valid()
      ensures Stepped(15, old(cur), "", retval, "", false)
      ensures retval.None? ==> state == 15
      decreases |input| - cur, 0
    {
      retval := None;
      if ch == '\n' {
        ReadChar();
        var next := GetToken();
        retval := Some(next);
      }
    }
  }
}
