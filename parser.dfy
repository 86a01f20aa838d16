/**
 * The parser object: the fields of `AbstractParser` that its token operations
 * update in place, with one method per operation, each proved to leave the
 * fields as the matching `TokenPipeline` function says. The scanner is the
 * token sequence `source`, read from the front; the parsing context that the
 * error methods ask the scanner for is the fixed record `errorContext`.
 */
module Parser {

  import opened Wrappers
  import opened Strings
  import opened Tokens
  import opened Diagnostics
  import TP = TokenPipeline

  /** How a combinator ends: normally, with a `ParserException` carrying a
      code-check message, with the scoped variant of that exception, or with
      the `EOFException` of `nextTokenNotEOF`. */
  datatype Outcome =
    | Done
    | Raised(message: CodeCheckMessage)
    | RaisedInScope(description: string, scopeName: string, scope: string)
    | EndOfFile

  class AbstractParser {
    var token: Option<Token>
    var tokens: seq<Token>
    var backup: bool
    var backupTokens: seq<Token>
    var metNewline: bool
    /** What the scanner has still to deliver; EOF for ever once it is empty. */
    var source: seq<Token>
    /** `Token.isIdentifier()` of the scanner API the parser uses. */
    const isIdentifier: Token -> bool
    /** The context `getContextDuringError()` reports. */
    const errorContext: ParsingContext

    /** The fields as a `TokenPipeline.Pipeline` value. */
    function State(): TP.Pipeline
      reads this
    {
      TP.Pipeline(token, tokens, backup, backupTokens, metNewline, source)
    }

    ghost predicate Valid()
      reads this
    {
      TP.Consistent(State())
    }

    /** `AbstractParser(scanner)`: no current token, nothing queued. */
    constructor (scanned: seq<Token>, isIdentifier: Token -> bool, errorContext: ParsingContext)
      ensures Valid()
      ensures State() == TP.Pipeline(None, [], false, [], false, scanned)
      ensures this.isIdentifier == isIdentifier && this.errorContext == errorContext
    {
      token := None;
      tokens := [];
      backup := false;
      backupTokens := [];
      metNewline := false;
      source := scanned;
      this.isIdentifier := isIdentifier;
      this.errorContext := errorContext;
    }

    /** `readToken()`. */
    method ReadToken()
      modifies this
      ensures State() == TP.Read(old(State()))
    {
      if tokens == [] {
        token := Some(TP.Head(source));
        source := TP.Tail(source);
      } else {
        token := Some(tokens[0]);
        tokens := tokens[1..];
      }
    }

    /** `nextToken()`: the do-while loop that skips NEWLINE tokens, then the
        recording of the new current token in a backup session. */
    method NextToken()
      requires Valid()
      modifies this
      ensures State() == TP.NextToken(old(State()))
      ensures token.Some? && Valid()
    {
      ghost var start := State().(metNewline := false);
      metNewline := false;
      var run := true;
      while run
        invariant TP.SkipNewlines(start) == if run then TP.SkipNewlines(State()) else State()
        decreases |tokens| + |source|, if run then 1 else 0
      {
        ghost var q := State();
        ReadToken();
        run := token.value.Is(NEWLINE);
        metNewline := metNewline || run;
        TP.SkipNewlinesStep(q);
        assert State() == TP.Read(q).(metNewline := q.metNewline || run);
      }
      if backup {
        backupTokens := backupTokens + [token.value];
      }
      TP.NextConsistent(old(State()));
    }

    /** `hasMetNewline()`. */
    function HasMetNewline(): (b: bool)
      reads this
      ensures b == State().metNewline
    {
      metNewline
    }

    /** `recoverBackup()`. */
    method RecoverBackup()
      requires Valid()
      modifies this
      ensures State() == TP.RecoverBackup(old(State()))
      ensures Valid()
    {
      backup := false;
      if backupTokens != [] {
        AddTokens(backupTokens);
        backupTokens := [];
        NextToken();
      }
    }

    /** `discardBackup()`. */
    method DiscardBackup()
      requires Valid()
      modifies this
      ensures State() == TP.DiscardBackup(old(State()))
      ensures Valid()
    {
      backup := false;
      backupTokens := [];
    }

    /** `startBackup()`. */
    method StartBackup()
      requires Valid()
      modifies this
      ensures State() == TP.StartBackup(old(State()))
      ensures Valid()
    {
      if token.Some? {
        backupTokens := backupTokens + [token.value];
      }
      backup := true;
    }

    /** `addTokens(tokens)`. */
    method AddTokens(ts: seq<Token>)
      modifies this
      ensures State() == TP.AddTokens(old(State()), ts)
      ensures Valid() == old(Valid())
    {
      tokens := tokens + ts;
    }

    /** `addToken(token)`. */
    method AddToken(t: Token)
      modifies this
      ensures State() == TP.AddTokens(old(State()), [t])
      ensures Valid() == old(Valid())
    {
      tokens := tokens + [t];
    }

    /** `prependToken(prefixToken)`: two `addToken` calls. */
    method PrependToken(prefix: Token)
      requires token.Some? && Valid()
      modifies this
      ensures State() == TP.PrependToken(old(State()), prefix)
      ensures Valid()
    {
      AddToken(prefix);
      AddToken(token.value);
    }

    /** `nextTokenNotEOF()`. */
    method NextTokenNotEOF() returns (r: Outcome)
      requires Valid()
      modifies this
      ensures Valid()
      ensures State() == TP.NextToken(old(State()))
      ensures r == if token.value.IsEOF() then EndOfFile else Done
    {
      NextToken();
      r := if token.value.IsEOF() then EndOfFile else Done;
    }

    /** The exception `throwException(mesg)` raises for the current token. */
    function Thrown(mesg: string): (r: Outcome)
      reads this
      requires token.Some?
      ensures r.Raised? && r.message.help.Some? == (token.value.content != "")
    {
      Raised(ExceptionMessage(errorContext, token.value.content, mesg))
    }

    /** `assertToken(type, errorMessage)`: passes exactly when the current token
        has the type, and never advances. */
    method AssertToken(t: TokenType, errorMessage: string) returns (r: Outcome)
      requires token.Some?
      ensures r.Done? <==> token.value.Is(t)
      ensures !r.Done? ==> r == Thrown(errorMessage)
    {
      r := Done;
      if token.value.IsNot(t) {
        r := Thrown(errorMessage);
      }
    }

    /** `assertToken(type, errorMessage, scopeName, scope)`. */
    method AssertTokenInScope(t: TokenType, errorMessage: string, scopeName: string, scope: string)
      returns (r: Outcome)
      requires token.Some?
      ensures r.Done? <==> token.value.Is(t)
      ensures !r.Done? ==> r == RaisedInScope(ScopedDescription(errorMessage, token.value.content, scopeName, scope), scopeName, scope)
    {
      r := Done;
      if token.value.IsNot(t) {
        r := RaisedInScope(ScopedDescription(errorMessage, token.value.content, scopeName, scope), scopeName, scope);
      }
    }

    /** `assertIdentifier(errorMessage)`. */
    method AssertIdentifier(errorMessage: string) returns (r: Outcome)
      requires token.Some?
      ensures r.Done? <==> isIdentifier(token.value)
      ensures !r.Done? ==> r == Thrown(errorMessage)
    {
      r := Done;
      if !isIdentifier(token.value) {
        r := Thrown(errorMessage);
      }
    }

    /** `eat(type, errorMessage)`: `assertToken` and, when it passes, one
        `nextToken`; on failure nothing changes. */
    method Eat(t: TokenType, errorMessage: string) returns (r: Outcome)
      requires token.Some? && Valid()
      modifies this
      ensures Valid()
      ensures r.Done? <==> old(token).value.Is(t)
      ensures r.Done? ==> State() == TP.NextToken(old(State()))
      ensures !r.Done? ==> State() == old(State()) && r == Thrown(errorMessage)
    {
      r := AssertToken(t, errorMessage);
      if r.Done? {
        NextToken();
      }
    }

    /** `eat(type, errorMessage, scopeName, scope)`. */
    method EatInScope(t: TokenType, errorMessage: string, scopeName: string, scope: string)
      returns (r: Outcome)
      requires token.Some? && Valid()
      modifies this
      ensures Valid()
      ensures r.Done? <==> old(token).value.Is(t)
      ensures r.Done? ==> State() == TP.NextToken(old(State()))
      ensures !r.Done? ==> State() == old(State())
      ensures !r.Done? ==> r == RaisedInScope(ScopedDescription(errorMessage, token.value.content, scopeName, scope), scopeName, scope)
    {
      r := AssertTokenInScope(t, errorMessage, scopeName, scope);
      if r.Done? {
        NextToken();
      }
    }

    /** `eatKeyword(keyword, errorMessage)`: the current token must be an ID
        whose text is the keyword. */
    method EatKeyword(keyword: string, errorMessage: string) returns (r: Outcome)
      requires token.Some? && Valid()
      modifies this
      ensures Valid()
      ensures r.Done? <==> old(token).value.Is(ID) && old(token).value.content == keyword
      ensures r.Done? ==> State() == TP.NextToken(old(State()))
      ensures !r.Done? ==> State() == old(State()) && r == Thrown(errorMessage)
    {
      r := AssertToken(ID, errorMessage);
      if r.Done? && token.value.content != keyword {
        r := Thrown(errorMessage);
      }
      if r.Done? {
        NextToken();
      }
    }

    /** `eatIdentifier(errorMessage)`. */
    method EatIdentifier(errorMessage: string) returns (r: Outcome)
      requires token.Some? && Valid()
      modifies this
      ensures Valid()
      ensures r.Done? <==> isIdentifier(old(token).value)
      ensures r.Done? ==> State() == TP.NextToken(old(State()))
      ensures !r.Done? ==> State() == old(State()) && r == Thrown(errorMessage)
    {
      r := AssertIdentifier(errorMessage);
      if r.Done? {
        NextToken();
      }
    }

    /** `maybeEat(types...)`: one `nextToken` when the current token has one of
        the types, nothing otherwise. */
    method MaybeEat(types: seq<TokenType>)
      requires token.Some? && Valid()
      modifies this
      ensures Valid()
      ensures (exists i :: 0 <= i < |types| && old(token).value.Is(types[i])) ==> State() == TP.NextToken(old(State()))
      ensures (forall i :: 0 <= i < |types| ==> !old(token).value.Is(types[i])) ==> State() == old(State())
    {
      var i := 0;
      while i < |types|
        invariant 0 <= i <= |types|
        invariant State() == old(State())
        invariant forall j :: 0 <= j < i ==> !token.value.Is(types[j])
      {
        if token.value.Is(types[i]) {
          NextToken();
          return;
        }
        i := i + 1;
      }
    }
  }
}
