/**
 * What `Scanner.getToken` promises, stated as lemmas about its reference
 * semantics `ScannerSpec.Lex`. `Scanner.Scanner.GetToken` is proved to compute
 * `Lex`, so each lemma is also a statement about the scanner object.
 */
module ScannerProperties {

  import opened Wrappers
  import opened Tokens
  import opened ScannerSpec

  /** A token result that is not the layout token `NEWLINE`. */
  predicate NotNewline(l: Lexed)
  {
    l.result.Ok? ==> l.result.value.ttype != NEWLINE
  }

  // ---------------------------------------------------------------------------
  // Separators

  /** A run of separators from `p` up to `q`, which ends the run, is skipped. */
  lemma {:induction false} SkipRun(s: seq<char>, p: nat, q: nat)
    requires p <= q <= |s|
    requires forall j :: p <= j < q ==> IsSeparator(s[j])
    requires q == |s| || !IsSeparator(s[q])
    ensures SkipSeparators(s, p) == q
    decreases q - p
  {
    if p < q {
      SkipRun(s, p + 1, q);
    }
  }

  /** Leading separators are skipped: scanning resumes at the first other character. */
  lemma LeadingSeparators(s: seq<char>, p: nat, q: nat)
    requires p <= q < |s|
    requires forall j :: p <= j < q ==> IsSeparator(s[j])
    requires !IsSeparator(s[q])
    ensures Lex(s, p) == Lex(s, q)
  {
    SkipRun(s, p, q);
    SkipRun(s, q, q);
  }

  /** Input made of separators only gives an EOF token with empty content, and the
      whole input has been read. */
  lemma OnlySeparators(s: seq<char>)
    requires forall j :: 0 <= j < |s| ==> IsSeparator(s[j])
    ensures Lex(s, 0) == Lexed(Ok(Token(EOF, "")), |s|)
  {
    SkipRun(s, 0, |s|);
  }

  /** At a character that is not a separator, scanning starts in state 1 there. */
  lemma LexAt(s: seq<char>, p: nat)
    requires p < |s| && !IsSeparator(s[p])
    ensures Lex(s, p) == Start(s, p, "")
  {
  }

  // ---------------------------------------------------------------------------
  // Identifiers and keywords

  lemma IdentTail(s: seq<char>, p: nat, i: nat, q: nat)
    requires p < i <= q < |s|
    requires forall j :: i <= j < q ==> IsIdentChar(s[j])
    requires !IsIdentChar(s[q])
    ensures Ident(s, i, s[p..i]) == Lexed(Ok(KeywordOrId(s[p..q])), q)
  {
    IdentRun(s, i, q, s[p..i]);
    assert s[p..i] + s[i..q] == s[p..q];
  }

  /** Identifier characters are appended to the text one by one. */
  lemma {:induction false} IdentRun(s: seq<char>, i: nat, q: nat, str: string)
    requires i <= q <= |s|
    requires forall j :: i <= j < q ==> IsIdentChar(s[j])
    ensures Ident(s, i, str) == Ident(s, q, str + s[i..q])
    decreases q - i
  {
    if i < q {
      assert str + [s[i]] + s[i + 1..q] == str + s[i..q];
      IdentRun(s, i + 1, q, str + [s[i]]);
    } else {
      assert str + s[i..q] == str;
    }
  }

  /** A letter starts an identifier that runs over the longest stretch of letters,
      digits and underscores; its first non-identifier character is not consumed.
      An exact keyword gives the keyword's token with empty content, any other
      text an `ID` token carrying the text. */
  lemma LexIdentifier(s: seq<char>, p: nat, q: nat)
    requires p < q < |s|
    requires IsLetter(s[p])
    requires forall j :: p < j < q ==> IsIdentChar(s[j])
    requires !IsIdentChar(s[q])
    ensures Keyword(s[p..q]).Some? ==> Lex(s, p) == Lexed(Ok(Token(Keyword(s[p..q]).value, "")), q)
    ensures Keyword(s[p..q]).None? ==> Lex(s, p) == Lexed(Ok(Token(ID, s[p..q])), q)
  {
    LexAt(s, p);
    assert "" + [s[p]] == s[p..p + 1];
    IdentTail(s, p, p + 1, q);
  }

  /** A keyword followed by an identifier character is not that keyword. */
  lemma KeywordPrefixIsIdentifier()
    ensures Lex("persistent1 ", 0) == Lexed(Ok(Token(ID, "persistent1")), 11)
  {
    var s := "persistent1 ";
    assert s[0..11] == "persistent1";
    assert Keyword("persistent1") == None;
    LexIdentifier(s, 0, 11);
  }

  /** The keyword itself, ended by a separator, is the keyword's token. */
  lemma KeywordIsKeyword()
    ensures Lex("persistent ", 0) == Lexed(Ok(Token(PERSISTENT, "")), 10)
  {
    var s := "persistent ";
    assert s[0..10] == "persistent";
    assert Keyword("persistent") == Some(PERSISTENT);
    LexIdentifier(s, 0, 10);
  }

  lemma {:induction false} IdentToEnd(s: seq<char>, i: nat, str: string)
    requires i <= |s|
    requires forall j :: i <= j < |s| ==> IsIdentChar(s[j])
    ensures Ident(s, i, str) == Ended(s)
    decreases |s| - i
  {
    if i < |s| {
      IdentToEnd(s, i + 1, str + [s[i]]);
    }
  }

  /** An identifier still open when the input ends gives ERROR, not a partial token. */
  lemma IdentifierCutByEnd(s: seq<char>, p: nat)
    requires p < |s| && IsLetter(s[p])
    requires forall j :: p < j < |s| ==> IsIdentChar(s[j])
    ensures Lex(s, p) == Lexed(Ok(Token(ERROR, "")), |s|)
  {
    LexAt(s, p);
    assert "" + [s[p]] == [s[p]];
    IdentToEnd(s, p + 1, [s[p]]);
  }

  // ---------------------------------------------------------------------------
  // Integers

  lemma {:induction false} NumberTail(s: seq<char>, p: nat, i: nat, q: nat)
    requires p < i <= q < |s|
    requires forall j :: i <= j < q ==> IsDigit(s[j])
    requires !IsDigit(s[q])
    ensures Number(s, i, s[p..i]) == Lexed(Ok(Token(INT, s[p..q])), q)
    decreases q - i
  {
    if i < q {
      assert s[p..i] + [s[i]] == s[p..i + 1];
      NumberTail(s, p, i + 1, q);
    }
  }

  /** A run of digits gives `INT` with the digits as content; the character after
      the run is not consumed. */
  lemma LexInteger(s: seq<char>, p: nat, q: nat)
    requires p < q < |s|
    requires forall j :: p <= j < q ==> IsDigit(s[j])
    requires !IsDigit(s[q])
    ensures Lex(s, p) == Lexed(Ok(Token(INT, s[p..q])), q)
  {
    LexAt(s, p);
    assert "" + [s[p]] == s[p..p + 1];
    NumberTail(s, p, p + 1, q);
  }

  /** `-` followed at once by digits gives `INT` whose content keeps the `-`. */
  lemma LexNegativeInteger(s: seq<char>, p: nat, q: nat)
    requires p + 1 < q < |s|
    requires s[p] == '-'
    requires forall j :: p < j < q ==> IsDigit(s[j])
    requires !IsDigit(s[q])
    ensures Lex(s, p) == Lexed(Ok(Token(INT, s[p..q])), q)
  {
    LexAt(s, p);
    assert "" + [s[p]] == s[p..p + 1];
    assert s[p..p + 1] + [s[p + 1]] == s[p..p + 2];
    NumberTail(s, p, p + 2, q);
  }

  lemma {:induction false} NumberToEnd(s: seq<char>, i: nat, str: string)
    requires i <= |s|
    requires forall j :: i <= j < |s| ==> IsDigit(s[j])
    ensures Number(s, i, str) == Ended(s)
    decreases |s| - i
  {
    if i < |s| {
      NumberToEnd(s, i + 1, str + [s[i]]);
    }
  }

  /** An integer still open when the input ends gives ERROR, not a partial `INT`. */
  lemma IntegerCutByEnd(s: seq<char>, p: nat)
    requires p < |s| && IsDigit(s[p])
    requires forall j :: p < j < |s| ==> IsDigit(s[j])
    ensures Lex(s, p) == Lexed(Ok(Token(ERROR, "")), |s|)
  {
    LexAt(s, p);
    NumberToEnd(s, p + 1, "" + [s[p]]);
  }

  /** A negative integer still open when the input ends gives ERROR as well. */
  lemma NegativeIntegerCutByEnd(s: seq<char>, p: nat)
    requires p + 1 < |s| && s[p] == '-'
    requires forall j :: p < j < |s| ==> IsDigit(s[j])
    ensures Lex(s, p) == Lexed(Ok(Token(ERROR, "")), |s|)
  {
    LexAt(s, p);
    NumberToEnd(s, p + 2, "" + [s[p]] + [s[p + 1]]);
  }

  /** `-` followed by anything but a digit gives `MINUS`, leaving that character unread. */
  lemma LexMinus(s: seq<char>, p: nat)
    requires p + 1 < |s| && s[p] == '-' && !IsDigit(s[p + 1])
    ensures Lex(s, p) == Lexed(Ok(Token(MINUS, "")), p + 1)
  {
    LexAt(s, p);
  }

  // ---------------------------------------------------------------------------
  // String literals

  /** How a character is written inside a string literal so that it reads back as
      itself: the four characters with an escape are escaped. */
  function EscapeChar(c: char): (e: string)
    ensures 1 <= |e| <= 2
  {
    if c == '\\' then "\\\\"
    else if c == '\n' then "\\n"
    else if c == '\t' then "\\t"
    else if c == '"' then "\\\""
    else [c]
  }

  /** The body of a string literal whose content is `t`. */
  function Escape(t: string): string
  {
    if t == [] then [] else EscapeChar(t[0]) + Escape(t[1..])
  }

  lemma {:induction false} StrTail(s: seq<char>, i: nat, acc: string, t: string)
    requires |acc| > 0
    requires i + |Escape(t)| < |s|
    requires s[i..i + |Escape(t)|] == Escape(t) && s[i + |Escape(t)|] == '"'
    ensures Str(s, i, acc) == Lexed(Ok(Token(STRING, acc[1..] + t)), i + |Escape(t)| + 1)
    decreases |t|
  {
    if t == [] {
      StrCloses(s, i, acc);
    } else {
      var e := EscapeChar(t[0]);
      var r := Escape(t[1..]);
      assert Escape(t) == e + r;
      SplitSlice(s, i, e, r);
      StrReadsChar(s, i, acc, t[0]);
      StrTail(s, i + |e|, acc + [t[0]], t[1..]);
      AccumulateOne(acc, t);
    }
  }

  /** The closing quote ends the literal. */
  lemma StrCloses(s: seq<char>, i: nat, acc: string)
    requires |acc| > 0 && i < |s| && s[i] == '"'
    ensures Str(s, i, acc) == Lexed(Ok(Token(STRING, acc[1..] + [])), i + 1)
  {
    assert acc[1..] + [] == acc[1..];
  }

  /** Moving one character of the text into the accumulated text. */
  lemma AccumulateOne(acc: string, t: string)
    requires |acc| > 0 && t != []
    ensures (acc + [t[0]])[1..] + t[1..] == acc[1..] + t
  {
    assert (acc + [t[0]])[1..] == acc[1..] + [t[0]];
  }

  /** A slice that spells `a + b` spells `a` and then `b`. */
  lemma SplitSlice(s: seq<char>, i: nat, a: seq<char>, b: seq<char>)
    requires i + |a| + |b| <= |s| && s[i..i + |a| + |b|] == a + b
    ensures s[i..i + |a|] == a && s[i + |a|..i + |a| + |b|] == b
  {
    assert s[i..i + |a|] == s[i..i + |a| + |b|][..|a|];
    assert s[i + |a|..i + |a| + |b|] == s[i..i + |a| + |b|][|a|..];
  }

  /** The string state reads one encoded character back. */
  lemma StrReadsChar(s: seq<char>, i: nat, acc: string, c: char)
    requires i + |EscapeChar(c)| <= |s| && s[i..i + |EscapeChar(c)|] == EscapeChar(c)
    ensures Str(s, i, acc) == Str(s, i + |EscapeChar(c)|, acc + [c])
  {
    var e := EscapeChar(c);
    assert s[i] == e[0];
    if |e| == 2 {
      assert s[i + 1] == e[1];
    }
  }

  /** A string literal reads back the text it encodes: the token content is the
      decoded text without either quote, and the character after the closing
      quote is the next one to be examined. */
  lemma LexString(t: string, rest: seq<char>)
    ensures Lex(['"'] + Escape(t) + ['"'] + rest, 0) == Lexed(Ok(Token(STRING, t)), |Escape(t)| + 2)
  {
    var s := ['"'] + Escape(t) + ['"'] + rest;
    var n := |Escape(t)|;
    LexAt(s, 0);
    assert "" + [s[0]] == ['"'];
    assert s[1..1 + n] == Escape(t);
    assert s[1 + n] == '"';
    StrTail(s, 1, ['"'], t);
    assert ['"'][1..] + t == t;
  }

  /** A piece of a string literal's body that state 4 reads without stopping:
      no quote, and every backslash followed by one of the four escapes. */
  predicate WellEscaped(b: seq<char>)
    decreases |b|
  {
    if b == [] then true
    else if b[0] == '"' then false
    else if b[0] == '\\' then |b| >= 2 && Unescape(b[1]).Some? && WellEscaped(b[2..])
    else WellEscaped(b[1..])
  }

  /** The text state 4 collects from a well-escaped piece of body. */
  function Decode(b: seq<char>): string
    requires WellEscaped(b)
    decreases |b|
  {
    if b == [] then []
    else if b[0] == '\\' then [Unescape(b[1]).value] + Decode(b[2..])
    else [b[0]] + Decode(b[1..])
  }

  /** Every encoded text is well escaped and decodes back to itself. */
  lemma {:induction false} EscapeDecodes(t: string)
    ensures WellEscaped(Escape(t)) && Decode(Escape(t)) == t
    decreases |t|
  {
    if t != [] {
      var e := EscapeChar(t[0]);
      var b := Escape(t);
      EscapeDecodes(t[1..]);
      assert b == e + Escape(t[1..]);
      if |e| == 2 {
        assert b[0] == '\\' && b[1] == e[1] && b[2..] == Escape(t[1..]);
      } else {
        assert b[0] == t[0] && b[1..] == Escape(t[1..]);
      }
      assert [t[0]] + t[1..] == t;
    }
  }

  /** State 4 reads across a well-escaped piece, collecting its decoded text. */
  lemma {:induction false} StrAcross(s: seq<char>, i: nat, j: nat, acc: string)
    requires i <= j <= |s| && WellEscaped(s[i..j])
    ensures Str(s, i, acc) == Str(s, j, acc + Decode(s[i..j]))
    decreases j - i
  {
    var b := s[i..j];
    if i == j {
      assert b == [];
      assert acc + Decode(b) == acc;
    } else if s[i] == '\\' {
      assert b[0] == s[i] && b[1] == s[i + 1] && b[2..] == s[i + 2..j];
      var c := Unescape(s[i + 1]).value;
      StrAcross(s, i + 2, j, acc + [c]);
      assert acc + [c] + Decode(b[2..]) == acc + Decode(b);
    } else {
      assert b[0] == s[i] && b[1..] == s[i + 1..j];
      StrAcross(s, i + 1, j, acc + [s[i]]);
      assert acc + [s[i]] + Decode(b[1..]) == acc + Decode(b);
    }
  }

  /** Inside a string, a backslash followed by anything but `\`, `n`, `t` or `"`
      (or by the end of the input) makes the scan fail with `BadEscape`, whatever
      characters and valid escapes come before it. */
  lemma LexBadEscape(s: seq<char>, p: nat, i: nat)
    requires p < i < |s| && s[p] == '"' && s[i] == '\\'
    requires WellEscaped(s[p + 1..i])
    requires i + 1 == |s| || Unescape(s[i + 1]).None?
    ensures Lex(s, p).result == Failure(BadEscape)
  {
    LexAt(s, p);
    StrAcross(s, p + 1, i, "" + [s[p]]);
  }

  /** A string literal that the input ends before closing gives ERROR, not a
      partial `STRING`, whatever valid escapes it holds. */
  lemma StringCutByEnd(s: seq<char>, p: nat)
    requires p < |s| && s[p] == '"'
    requires WellEscaped(s[p + 1..])
    ensures Lex(s, p) == Lexed(Ok(Token(ERROR, "")), |s|)
  {
    LexAt(s, p);
    assert s[p + 1..|s|] == s[p + 1..];
    StrAcross(s, p + 1, |s|, "" + [s[p]]);
  }

  // ---------------------------------------------------------------------------
  // Operators and punctuation

  /** The operators that may take a second character: the second character, the
      two-character token and the one-character token. */
  function TwoCharOperator(c: char): Option<(char, TokenType, TokenType)>
  {
    if c == '+' then Some(('+', CHOICE, PLUS))
    else if c == '=' then Some(('=', EQUAL, ASSIGN))
    else if c == '<' then Some(('=', MINOR_OR_EQUAL, LANGLE))
    else if c == '>' then Some(('=', MAJOR_OR_EQUAL, RANGLE))
    else if c == '!' then Some(('=', NOT_EQUAL, NOT))
    else None
  }

  /** `++ == <= >= !=` each give their two-character token; otherwise the first
      character alone gives `PLUS ASSIGN LANGLE RANGLE NOT` and the character after
      it is not consumed. */
  lemma LexOperator(s: seq<char>, p: nat)
    requires p + 1 < |s| && TwoCharOperator(s[p]).Some?
    ensures var (second, two, one) := TwoCharOperator(s[p]).value;
      Lex(s, p) == if s[p + 1] == second then Lexed(Ok(Token(two, "")), p + 2)
                   else Lexed(Ok(Token(one, "")), p + 1)
  {
    LexAt(s, p);
  }

  /** A one-character token consumes exactly its character. */
  lemma LexPunctuation(s: seq<char>, p: nat)
    requires p < |s| && Punctuation(s[p]).Some?
    ensures Lex(s, p) == Lexed(Ok(Token(Punctuation(s[p]).value, "")), p + 1)
  {
    LexAt(s, p);
  }

  /** A character that starts no token is not reported: it is read past
      together with the character after it, which then begins the text of the
      next token. */
  lemma UnrecognisedCharacterSkipped()
    ensures Lex("#ab ", 0) == Lexed(Ok(Token(ID, "ab")), 3)
  {
    var s := "#ab ";
    LexAt(s, 0);
    assert Unrecognised(s[0]);
    UnknownStart(s, 0, "");
    assert "" + [s[1]] == "a" && "a" + [s[2]] == "ab";
    assert Start(s, 2, "a") == Ident(s, 3, "ab");
    assert Keyword("ab") == None;
  }

  /** A character that no transition of state 1 accepts. Separators are among
      them: they are skipped before state 1 is entered, but one read past an
      unrecognised character reaches state 1. */
  predicate Unrecognised(c: char)
  {
    !IsLetter(c) && !IsDigit(c) && c != '"' && c != '/' && c != '-'
    && TwoCharOperator(c).None? && Punctuation(c).None?
  }

  /** State 1 on a character that no transition accepts: that character and the
      next are read past, the next one joining the text, or the input ends and
      the result is ERROR. */
  lemma UnknownStart(s: seq<char>, p: nat, str: string)
    requires p < |s| && Unrecognised(s[p])
    ensures p + 1 < |s| ==> Start(s, p, str) == Start(s, p + 2, str + [s[p + 1]])
    ensures p + 1 == |s| ==> Start(s, p, str) == Ended(s)
  {
  }

  /** An operator that is the last character of the input gives ERROR: the second
      character it waits for never comes. */
  lemma OperatorCutByEnd(s: seq<char>)
    requires |s| > 0 && (TwoCharOperator(s[|s| - 1]).Some? || s[|s| - 1] == '-' || s[|s| - 1] == '/')
    ensures Lex(s, |s| - 1) == Lexed(Ok(Token(ERROR, "")), |s|)
  {
    LexAt(s, |s| - 1);
    OperatorState(s, |s| - 1);
  }

  /** The state an operator character leads to. */
  lemma OperatorState(s: seq<char>, p: nat)
    requires p < |s| && (TwoCharOperator(s[p]).Some? || s[p] == '-' || s[p] == '/')
    ensures Start(s, p, "")
         == if s[p] == '-' then Minus(s, p + 1, "-")
            else if s[p] == '/' then Slash(s, p + 1)
            else Pair(s, p + 1, TwoCharOperator(s[p]).value.0, TwoCharOperator(s[p]).value.1,
                      TwoCharOperator(s[p]).value.2)
  {
    if s[p] == '-' {
      assert "" + [s[p]] == "-";
    }
  }

  // ---------------------------------------------------------------------------
  // Comments

  /** A slash not followed by `*` or `/` is `DIVIDE`. */
  lemma LexDivide(s: seq<char>, p: nat)
    requires p + 1 < |s| && s[p] == '/' && s[p + 1] != '*' && s[p + 1] != '/'
    ensures Lex(s, p) == Lexed(Ok(Token(DIVIDE, "")), p + 1)
  {
    LexAt(s, p);
  }

  lemma {:induction false} BlockTail(s: seq<char>, i: nat, e: nat)
    requires i <= e && e + 1 < |s| && s[e] == '*' && s[e + 1] == '/'
    requires forall j :: i <= j < e ==> !(s[j] == '*' && s[j + 1] == '/')
    ensures Block(s, i) == Lex(s, e + 2)
    decreases e - i
  {
    if i < e {
      BlockTail(s, i + 1, e);
    }
  }

  /** A block comment produces no token: the result is the token scanned after
      the closing `*` `/`. The character right after the opener is never examined,
      so the closing pair is searched for from three characters after the slash. */
  lemma BlockCommentSkipped(s: seq<char>, p: nat, e: nat)
    requires p + 3 <= e && e + 1 < |s|
    requires s[p] == '/' && s[p + 1] == '*' && s[e] == '*' && s[e + 1] == '/'
    requires forall j :: p + 3 <= j < e ==> !(s[j] == '*' && s[j + 1] == '/')
    ensures Lex(s, p) == Lex(s, e + 2)
  {
    LexAt(s, p);
    BlockTail(s, p + 3, e);
  }

  lemma {:induction false} BlockToEnd(s: seq<char>, i: nat)
    requires i <= |s|
    requires forall j :: i <= j < |s| - 1 ==> !(s[j] == '*' && s[j + 1] == '/')
    ensures Block(s, i) == Ended(s)
    decreases |s| - i
  {
    if i < |s| {
      BlockToEnd(s, i + 1);
    }
  }

  /** A block comment that is never closed gives ERROR. */
  lemma BlockCommentCutByEnd(s: seq<char>, p: nat)
    requires p + 1 < |s| && s[p] == '/' && s[p + 1] == '*'
    requires forall j :: p + 3 <= j < |s| - 1 ==> !(s[j] == '*' && s[j + 1] == '/')
    ensures Lex(s, p) == Lexed(Ok(Token(ERROR, "")), |s|)
  {
    LexAt(s, p);
    BlockToEnd(s, Next(s, p + 2));
  }

  /** Because the character after the opener is skipped, the empty comment
      `/` `*` `*` `/` does not close, and nothing after it is ever scanned. */
  lemma EmptyBlockCommentNeverCloses(rest: seq<char>)
    requires forall j :: 0 <= j < |rest| - 1 ==> !(rest[j] == '*' && rest[j + 1] == '/')
    ensures Lex("/**/" + rest, 0) == Lexed(Ok(Token(ERROR, "")), 4 + |rest|)
  {
    var s := "/**/" + rest;
    forall j | 3 <= j < |s| - 1
      ensures !(s[j] == '*' && s[j + 1] == '/')
    {
      if j > 3 {
        assert s[j] == rest[j - 4] && s[j + 1] == rest[j - 3];
      }
    }
    BlockCommentCutByEnd(s, 0);
  }

  lemma {:induction false} LineTail(s: seq<char>, i: nat, e: nat)
    requires i <= e < |s| && s[e] == '\n'
    requires forall j :: i <= j < e ==> s[j] != '\n'
    ensures Line(s, i) == Lex(s, e + 1)
    decreases e - i
  {
    if i < e {
      LineTail(s, i + 1, e);
    }
  }

  /** A line comment produces no token: the result is the token scanned after the
      newline that ends it, searched for from three characters after the first
      slash. */
  lemma LineCommentSkipped(s: seq<char>, p: nat, e: nat)
    requires p + 3 <= e < |s|
    requires s[p] == '/' && s[p + 1] == '/' && s[e] == '\n'
    requires forall j :: p + 3 <= j < e ==> s[j] != '\n'
    ensures Lex(s, p) == Lex(s, e + 1)
  {
    LexAt(s, p);
    LineTail(s, p + 3, e);
  }

  lemma {:induction false} LineToEnd(s: seq<char>, i: nat)
    requires i <= |s|
    requires forall j :: i <= j < |s| ==> s[j] != '\n'
    ensures Line(s, i) == Ended(s)
    decreases |s| - i
  {
    if i < |s| {
      LineToEnd(s, i + 1);
    }
  }

  /** A line comment that the input ends before its newline gives ERROR. */
  lemma LineCommentCutByEnd(s: seq<char>, p: nat)
    requires p + 1 < |s| && s[p] == '/' && s[p + 1] == '/'
    requires forall j :: p + 3 <= j < |s| ==> s[j] != '\n'
    ensures Lex(s, p) == Lexed(Ok(Token(ERROR, "")), |s|)
  {
    LexAt(s, p);
    LineToEnd(s, Next(s, p + 2));
  }

  /** Because the character after `//` is read past unexamined, a line comment
      whose newline comes right after the opener does not end there: it also
      swallows the whole following line, up to the next newline `e`. */
  lemma EmptyLineCommentSwallowsNextLine(s: seq<char>, e: nat)
    requires 3 <= e < |s| && s[..3] == "//\n" && s[e] == '\n'
    requires forall j :: 3 <= j < e ==> s[j] != '\n'
    ensures Lex(s, 0) == Lex(s, e + 1)
  {
    assert s[0] == s[..3][0] && s[1] == s[..3][1];
    LineCommentSkipped(s, 0, e);
  }

  // ---------------------------------------------------------------------------
  // Every scan

  /** A scan from `p` ends between `p` and the end of the input, and what it
      returns is not the layout token `NEWLINE`. */
  predicate Sound(s: seq<char>, p: nat, l: Lexed)
  {
    p <= l.next <= |s| && NotNewline(l)
  }

  /** Every call of `getToken` stays within the input, never moves backwards and
      never returns `NEWLINE` (newlines are separators to this scanner). */
  lemma {:induction false} LexSound(s: seq<char>, p: nat)
    requires p <= |s|
    ensures Sound(s, p, Lex(s, p))
    decreases |s| - p, 1
  {
    var q := SkipSeparators(s, p);
    if q < |s| {
      StartSound(s, q, "");
    }
  }

  lemma {:induction false} StartSound(s: seq<char>, p: nat, str: string)
    requires p <= |s|
    ensures Sound(s, p, Start(s, p, str))
    decreases |s| - p, 0
  {
    if p < |s| {
      var c := s[p];
      if IsLetter(c) { IdentSound(s, p + 1, str + [c]); }
      else if IsDigit(c) { NumberSound(s, p + 1, str + [c]); }
      else if c == '"' { StrSound(s, p + 1, str + [c]); }
      else if c == '/' { SlashSound(s, p + 1); }
      else if c == '-' { MinusSound(s, p + 1, str + [c]); }
      else if TwoCharOperator(c).Some? || Punctuation(c).Some? { }
      else if p + 1 < |s| { StartSound(s, p + 2, str + [s[p + 1]]); }
    }
  }

  lemma {:induction false} IdentSound(s: seq<char>, p: nat, str: string)
    requires p <= |s|
    ensures Sound(s, p, Ident(s, p, str))
    decreases |s| - p, 0
  {
    if p < |s| && IsIdentChar(s[p]) {
      IdentSound(s, p + 1, str + [s[p]]);
    }
  }

  lemma {:induction false} NumberSound(s: seq<char>, p: nat, str: string)
    requires p <= |s|
    ensures Sound(s, p, Number(s, p, str))
    decreases |s| - p, 0
  {
    if p < |s| && IsDigit(s[p]) {
      NumberSound(s, p + 1, str + [s[p]]);
    }
  }

  lemma {:induction false} StrSound(s: seq<char>, p: nat, str: string)
    requires p <= |s|
    ensures Sound(s, p, Str(s, p, str))
    decreases |s| - p, 0
  {
    if p < |s| {
      if s[p] == '\\' && p + 1 < |s| && Unescape(s[p + 1]).Some? {
        StrSound(s, p + 2, str + [Unescape(s[p + 1]).value]);
      } else if s[p] != '"' && s[p] != '\\' {
        StrSound(s, p + 1, str + [s[p]]);
      }
    }
  }

  lemma {:induction false} MinusSound(s: seq<char>, p: nat, str: string)
    requires p <= |s|
    ensures Sound(s, p, Minus(s, p, str))
    decreases |s| - p, 0
  {
    if p < |s| && IsDigit(s[p]) {
      NumberSound(s, p + 1, str + [s[p]]);
    }
  }

  lemma {:induction false} SlashSound(s: seq<char>, p: nat)
    requires p <= |s|
    ensures Sound(s, p, Slash(s, p))
    decreases |s| - p, 0
  {
    if p < |s| {
      if s[p] == '*' { BlockSound(s, Next(s, p + 1)); }
      else if s[p] == '/' { LineSound(s, Next(s, p + 1)); }
    }
  }

  lemma {:induction false} BlockSound(s: seq<char>, p: nat)
    requires p <= |s|
    ensures Sound(s, p, Block(s, p))
    decreases |s| - p, 0
  {
    if p < |s| {
      if s[p] == '*' && p + 1 < |s| && s[p + 1] == '/' {
        LexSound(s, p + 2);
      } else {
        BlockSound(s, p + 1);
      }
    }
  }

  lemma {:induction false} LineSound(s: seq<char>, p: nat)
    requires p <= |s|
    ensures Sound(s, p, Line(s, p))
    decreases |s| - p, 0
  {
    if p < |s| {
      if s[p] == '\n' {
        LexSound(s, p + 1);
      } else {
        LineSound(s, p + 1);
      }
    }
  }
}
