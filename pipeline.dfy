/**
 * Reference semantics of the token pipeline of `AbstractParser`: the current
 * token, the lookahead list `tokens`, the backup session and the `metNewline`
 * flag, as a value, with one function per operation. The scanner the parser
 * reads from is the sequence of tokens it has still to deliver; once that is
 * used up it delivers EOF on every call, as a scanner at the end of its input
 * does.
 */
module TokenPipeline {

  import opened Wrappers
  import opened Tokens

  /** The fields of `AbstractParser` that the token operations read and write;
      `token == None` is the `null` current token before the first `nextToken`. */
  datatype Pipeline = Pipeline(
    token: Option<Token>,
    tokens: seq<Token>,
    backup: bool,
    backupTokens: seq<Token>,
    metNewline: bool,
    source: seq<Token>)

  /** The token at the front of a token sequence, EOF when there is none. */
  function Head(ts: seq<Token>): Token
  {
    if ts == [] then Simple(EOF) else ts[0]
  }

  /** The token sequence without its front token. */
  function Tail(ts: seq<Token>): seq<Token>
  {
    if ts == [] then [] else ts[1..]
  }

  /** The tokens still to come, in the order `readToken` delivers them: first the
      lookahead list, then what the scanner has left. */
  function Pending(p: Pipeline): seq<Token>
  {
    p.tokens + p.source
  }

  predicate IsNewline(t: Option<Token>)
  {
    t.Some? && t.value.Is(NEWLINE)
  }

  /** What every public operation keeps: outside a backup session nothing is
      recorded, and the current token is never the layout token. */
  predicate Consistent(p: Pipeline)
  {
    (!p.backup ==> p.backupTokens == []) && !IsNewline(p.token)
  }

  /** `readToken`. */
  function Read(p: Pipeline): Pipeline
  {
    if p.tokens == [] then p.(token := Some(Head(p.source)), source := Tail(p.source))
    else p.(token := Some(p.tokens[0]), tokens := p.tokens[1..])
  }

  /** The do-while loop of `nextToken`: read, and read again while the token read
      is NEWLINE, setting `metNewline` when one is. */
  function SkipNewlines(p: Pipeline): (r: Pipeline)
    ensures r.token.Some?
    decreases |p.tokens| + |p.source|
  {
    var r := Read(p);
    var run := r.token.value.Is(NEWLINE);
    var r' := r.(metNewline := p.metNewline || run);
    if run then SkipNewlines(r') else r'
  }

  /** One turn of the loop in `SkipNewlines`; a NEWLINE is read only from a
      non-empty list or scanner, so a further turn has less to read. */
  lemma SkipNewlinesStep(p: Pipeline)
    ensures var r := Read(p);
      var run := r.token.value.Is(NEWLINE);
      var r' := r.(metNewline := p.metNewline || run);
      && SkipNewlines(p) == (if run then SkipNewlines(r') else r')
      && |r'.tokens| + |r'.source| <= |p.tokens| + |p.source|
      && (run ==> |r'.tokens| + |r'.source| < |p.tokens| + |p.source|)
  {
  }

  /** `nextToken`. */
  function NextToken(p: Pipeline): (r: Pipeline)
    ensures r.token.Some?
  {
    var r := SkipNewlines(p.(metNewline := false));
    if r.backup then r.(backupTokens := r.backupTokens + [r.token.value]) else r
  }

  /** `startBackup`. */
  function StartBackup(p: Pipeline): Pipeline
  {
    p.(backupTokens := if p.token.Some? then p.backupTokens + [p.token.value] else p.backupTokens,
       backup := true)
  }

  /** `recoverBackup`. */
  function RecoverBackup(p: Pipeline): Pipeline
  {
    var q := p.(backup := false);
    if q.backupTokens == [] then q
    else NextToken(q.(tokens := q.tokens + q.backupTokens, backupTokens := []))
  }

  /** `discardBackup`. */
  function DiscardBackup(p: Pipeline): Pipeline
  {
    p.(backup := false, backupTokens := [])
  }

  /** `addTokens`. */
  function AddTokens(p: Pipeline, ts: seq<Token>): Pipeline
  {
    p.(tokens := p.tokens + ts)
  }

  /** `prependToken`: the given token and then the current one go to the end of
      the lookahead list. */
  function PrependToken(p: Pipeline, t: Token): Pipeline
    requires p.token.Some?
  {
    p.(tokens := p.tokens + [t, p.token.value])
  }

  /** `n` calls of `nextToken`. */
  function Iterate(p: Pipeline, n: nat): Pipeline
    decreases n
  {
    if n == 0 then p else Iterate(NextToken(p), n - 1)
  }

  /** The tokens that become current during `n` calls of `nextToken`. */
  function Trace(p: Pipeline, n: nat): (r: seq<Token>)
    ensures |r| == n
    decreases n
  {
    if n == 0 then [] else [NextToken(p).token.value] + Trace(NextToken(p), n - 1)
  }

  /** Number of NEWLINE tokens at the front of `ts`. */
  function LeadingNewlines(ts: seq<Token>): (n: nat)
    ensures n <= |ts|
  {
    if ts != [] && ts[0].Is(NEWLINE) then 1 + LeadingNewlines(ts[1..]) else 0
  }

  // ---------------------------------------------------------------------------
  // readToken and nextToken

  /** `readToken` takes the front of the pending tokens: from the lookahead list
      when it is not empty, and only otherwise from the scanner. */
  lemma ReadTakesFront(p: Pipeline)
    ensures Read(p).token == Some(Head(Pending(p)))
    ensures Pending(Read(p)) == Tail(Pending(p))
    ensures p.tokens != [] ==> Read(p).source == p.source
    ensures p.tokens == [] ==> Read(p).tokens == []
  {
    if p.tokens != [] {
      assert Pending(p)[1..] == p.tokens[1..] + p.source;
    } else {
      assert Pending(p) == p.source;
    }
  }

  lemma {:induction false} SkipNewlinesEffect(p: Pipeline)
    ensures var n := LeadingNewlines(Pending(p));
      var r := SkipNewlines(p);
      && r.token == Some(Head(Pending(p)[n..]))
      && Pending(r) == Tail(Pending(p)[n..])
      && r.metNewline == (p.metNewline || n > 0)
      && r.backup == p.backup && r.backupTokens == p.backupTokens
      && (p.tokens == [] ==> r.tokens == [])
    decreases |p.tokens| + |p.source|
  {
    ReadTakesFront(p);
    SkipNewlinesStep(p);
    var r := Read(p);
    var run := r.token.value.Is(NEWLINE);
    if run {
      SkipNewlinesEffect(r.(metNewline := true));
      NewlineRun(Pending(p));
    } else {
      NoNewlineRun(Pending(p));
    }
  }

  /** A NEWLINE at the front adds one to the run of NEWLINEs. */
  lemma NewlineRun(ts: seq<Token>)
    requires Head(ts).Is(NEWLINE)
    ensures ts != [] && LeadingNewlines(ts) == 1 + LeadingNewlines(Tail(ts))
    ensures Tail(ts)[LeadingNewlines(Tail(ts))..] == ts[LeadingNewlines(ts)..]
  {
  }

  /** Without a NEWLINE at the front there is no run to skip. */
  lemma NoNewlineRun(ts: seq<Token>)
    requires !Head(ts).Is(NEWLINE)
    ensures LeadingNewlines(ts) == 0 && ts[LeadingNewlines(ts)..] == ts
  {
  }

  /** After `nextToken` the current token is the first pending token that is not
      NEWLINE (EOF when the scanner has nothing left), everything before it
      has been consumed, and `hasMetNewline()` holds exactly when at least one
      NEWLINE was skipped. A backup session records the new current token. */
  lemma NextTokenEffect(p: Pipeline)
    ensures var n := LeadingNewlines(Pending(p));
      var r := NextToken(p);
      && r.token == Some(Head(Pending(p)[n..]))
      && !IsNewline(r.token)
      && Pending(r) == Tail(Pending(p)[n..])
      && (r.metNewline <==> n > 0)
      && r.backup == p.backup
      && r.backupTokens == (if p.backup then p.backupTokens + [r.token.value] else p.backupTokens)
      && (p.tokens == [] ==> r.tokens == [])
  {
    var q := p.(metNewline := false);
    assert Pending(q) == Pending(p);
    SkipNewlinesEffect(q);
    var n := LeadingNewlines(Pending(p));
    if n < |Pending(p)| {
      NotNewlineAfterRun(Pending(p));
    }
  }

  /** One call of `nextToken`. */
  lemma IterateOnce(p: Pipeline)
    ensures Iterate(p, 1) == NextToken(p) && Trace(p, 1) == [NextToken(p).token.value]
  {
  }

  /** The token `nextToken` makes current is never NEWLINE. */
  lemma NextNotNewline(p: Pipeline)
    ensures !NextToken(p).token.value.Is(NEWLINE)
  {
    NextTokenEffect(p);
  }

  /** `nextToken` keeps the invariant. */
  lemma NextConsistent(p: Pipeline)
    requires Consistent(p)
    ensures Consistent(NextToken(p))
  {
    NextTokenEffect(p);
  }

  lemma {:induction false} NotNewlineAfterRun(ts: seq<Token>)
    requires LeadingNewlines(ts) < |ts|
    ensures !ts[LeadingNewlines(ts)].Is(NEWLINE)
  {
    if ts != [] && ts[0].Is(NEWLINE) {
      NotNewlineAfterRun(ts[1..]);
    }
  }

  /** From a lookahead list that starts with a real token, `nextToken` just
      moves that token in as the current one. */
  lemma NextFromLookahead(p: Pipeline)
    requires p.tokens != [] && !p.tokens[0].Is(NEWLINE)
    ensures var r := NextToken(p);
      && r.token == Some(p.tokens[0]) && r.tokens == p.tokens[1..] && r.source == p.source
      && !r.metNewline && r.backup == p.backup
      && r.backupTokens == (if p.backup then p.backupTokens + [p.tokens[0]] else p.backupTokens)
  {
  }

  /** Every operation keeps `Consistent`. */
  lemma ConsistentKept(p: Pipeline, t: Token, ts: seq<Token>)
    requires Consistent(p)
    ensures Consistent(NextToken(p)) && Consistent(StartBackup(p)) && Consistent(RecoverBackup(p))
    ensures Consistent(DiscardBackup(p)) && Consistent(AddTokens(p, ts))
    ensures p.token.Some? ==> Consistent(PrependToken(p, t))
  {
    NextTokenEffect(p);
    var q := p.(backup := false);
    if q.backupTokens != [] {
      NextTokenEffect(q.(tokens := q.tokens + q.backupTokens, backupTokens := []));
    }
  }

  // ---------------------------------------------------------------------------
  // Backup sessions

  /** Calls of `nextToken` in a session record every token that becomes
      current; with an empty lookahead list they read from the scanner only. */
  lemma {:induction false} Recording(p: Pipeline, n: nat)
    requires p.backup
    ensures var r := Iterate(p, n);
      && r.backup
      && r.backupTokens == p.backupTokens + Trace(p, n)
      && r.token == (if n == 0 then p.token else Some(Trace(p, n)[n - 1]))
    ensures p.tokens == [] ==> Iterate(p, n).tokens == []
    decreases n
  {
    if n > 0 {
      var q := NextToken(p);
      NextTokenEffect(p);
      Recording(q, n - 1);
      RecordingJoin(p.backupTokens, q.token.value, Trace(q, n - 1), Trace(p, n));
    }
  }

  /** The sequence step of `Recording`. */
  lemma RecordingJoin(recorded: seq<Token>, t: Token, rest: seq<Token>, trace: seq<Token>)
    requires trace == [t] + rest
    ensures recorded + trace == (recorded + [t]) + rest
    ensures rest != [] ==> trace[|trace| - 1] == rest[|rest| - 1]
  {
  }

  /** None of the tokens that become current is NEWLINE. */
  lemma {:induction false} TraceHasNoNewline(p: Pipeline, n: nat)
    ensures forall k :: 0 <= k < n ==> !Trace(p, n)[k].Is(NEWLINE)
    decreases n
  {
    if n > 0 {
      var q := NextToken(p);
      NextNotNewline(p);
      TraceHasNoNewline(q, n - 1);
      assert Trace(p, n) == [q.token.value] + Trace(q, n - 1);
    }
  }

  /** Outside a session, `nextToken` from a lookahead list of real tokens
      replays them in order without asking the scanner. */
  lemma {:induction false} Replaying(p: Pipeline, ts: seq<Token>)
    requires p.tokens == ts && !p.backup
    requires forall k :: 0 <= k < |ts| ==> !ts[k].Is(NEWLINE)
    ensures var r := Iterate(p, |ts|);
      && Trace(p, |ts|) == ts
      && r.tokens == [] && r.source == p.source && !r.backup && r.backupTokens == p.backupTokens
      && r.token == (if ts == [] then p.token else Some(ts[|ts| - 1]))
    decreases |ts|
  {
    if ts != [] {
      var q := NextToken(p);
      NextFromLookahead(p);
      IterateStep(p, |ts|);
      var rest := ts[1..];
      assert forall k :: 0 <= k < |rest| ==> !rest[k].Is(NEWLINE) by {
        forall k | 0 <= k < |rest| ensures !rest[k].Is(NEWLINE) {
          assert rest[k] == ts[k + 1];
        }
      }
      Replaying(q, rest);
      LastOfRest(ts);
    }
  }

  lemma RestHasNoNewline(ts: seq<Token>)
    requires ts != [] && forall k :: 0 <= k < |ts| ==> !ts[k].Is(NEWLINE)
    ensures forall k :: 0 <= k < |ts[1..]| ==> !ts[1..][k].Is(NEWLINE)
  {
    forall k | 0 <= k < |ts[1..]|
      ensures !ts[1..][k].Is(NEWLINE)
    {
      assert ts[1..][k] == ts[k + 1];
    }
  }

  lemma LastOfRest(ts: seq<Token>)
    requires ts != []
    ensures [ts[0]] + ts[1..] == ts
    ensures ts[1..] != [] ==> ts[1..][|ts[1..]| - 1] == ts[|ts| - 1]
  {
  }

  /** While a lookahead list of real tokens is replayed, `hasMetNewline()`
      stays false. */
  lemma {:induction false} ReplayingMeetsNoNewline(p: Pipeline, ts: seq<Token>, k: nat)
    requires p.tokens == ts
    requires forall j :: 0 <= j < |ts| ==> !ts[j].Is(NEWLINE)
    requires 1 <= k <= |ts|
    ensures !Iterate(p, k).metNewline
    decreases k
  {
    var q := NextToken(p);
    NextFromLookahead(p);
    IterateStep(p, k);
    if k > 1 {
      RestHasNoNewline(ts);
      ReplayingMeetsNoNewline(q, ts[1..], k - 1);
    }
  }

  /** One call of `nextToken` at the front of `n`. */
  lemma IterateStep(p: Pipeline, n: nat)
    requires n > 0
    ensures Iterate(p, n) == Iterate(NextToken(p), n - 1)
    ensures Trace(p, n) == [NextToken(p).token.value] + Trace(NextToken(p), n - 1)
  {
  }

  /** The backup round trip. With an empty lookahead list and a current token,
      `startBackup`, `n` calls of `nextToken` and `recoverBackup` bring the token
      current at `startBackup` back; the next `n` calls of `nextToken` deliver
      the same `n` tokens in the same order, and leave the parser where the
      session had left it, with the session closed. */
  lemma BackupRoundTrip(p: Pipeline, n: nat)
    requires Consistent(p) && p.tokens == [] && p.token.Some? && !p.backup
    ensures var s1 := StartBackup(p);
      var s2 := Iterate(s1, n);
      var s3 := RecoverBackup(s2);
      var s4 := Iterate(s3, n);
      && s3.token == p.token
      && Trace(s3, n) == Trace(s1, n)
      && s4.token == s2.token && s4.tokens == s2.tokens && s4.source == s2.source
      && !s4.backup && s4.backupTokens == []
  {
    var s1 := StartBackup(p);
    var s2 := Iterate(s1, n);
    Recording(s1, n);
    TraceHasNoNewline(s1, n);
    var ts := Trace(s1, n);
    RecoverRecorded(s2, p.token.value, ts);
    Replaying(RecoverBackup(s2), ts);
  }

  /** `recoverBackup` after a session that recorded `t0` and then `ts`, with
      nothing left in the lookahead list, makes `t0` current again and queues
      `ts`. */
  lemma RecoverRecorded(s2: Pipeline, t0: Token, ts: seq<Token>)
    requires s2.tokens == [] && s2.backupTokens == [t0] + ts && !t0.Is(NEWLINE)
    ensures var s3 := RecoverBackup(s2);
      && s3.token == Some(t0) && s3.tokens == ts && s3.source == s2.source
      && !s3.backup && s3.backupTokens == []
  {
    var q := s2.(backup := false, tokens := [t0] + ts, backupTokens := []);
    assert RecoverBackup(s2) == NextToken(q);
    NextFromLookahead(q);
  }

  /** While replaying a recovered session, `hasMetNewline()` is always false,
      even for tokens that had NEWLINEs before them when they were first read:
      the NEWLINEs were never recorded. */
  lemma ReplayForgetsNewlines(p: Pipeline)
    requires p == Pipeline(Some(Simple(LPAREN)), [], false, [], false, [Simple(NEWLINE), Simple(RPAREN)])
    ensures Iterate(StartBackup(p), 1).metNewline
    ensures !Iterate(RecoverBackup(Iterate(StartBackup(p), 1)), 1).metNewline
    ensures Trace(RecoverBackup(Iterate(StartBackup(p), 1)), 1) == Trace(StartBackup(p), 1)
  {
    var s1 := Pipeline(Some(Simple(LPAREN)), [], true, [Simple(LPAREN)], false, [Simple(NEWLINE), Simple(RPAREN)]);
    var s2 := Pipeline(Some(Simple(RPAREN)), [], true, [Simple(LPAREN), Simple(RPAREN)], true, []);
    var s3 := Pipeline(Some(Simple(LPAREN)), [Simple(RPAREN)], false, [], false, []);
    assert StartBackup(p) == s1;
    SkipOneNewline(s1, s2);
    RecoverTwo(s2, s3);
    NextFromLookahead(s3);
    assert Iterate(s3, 1) == NextToken(s3);
    assert Trace(s3, 1) == [NextToken(s3).token.value];
  }

  /** The first step of `ReplayForgetsNewlines`: a NEWLINE is skipped. */
  lemma SkipOneNewline(s1: Pipeline, s2: Pipeline)
    requires s1 == Pipeline(Some(Simple(LPAREN)), [], true, [Simple(LPAREN)], false, [Simple(NEWLINE), Simple(RPAREN)])
    requires s2 == Pipeline(Some(Simple(RPAREN)), [], true, [Simple(LPAREN), Simple(RPAREN)], true, [])
    ensures Iterate(s1, 1) == s2 && Trace(s1, 1) == [Simple(RPAREN)]
  {
    var a := Read(s1.(metNewline := false));
    assert a.token == Some(Simple(NEWLINE)) && a.source == [Simple(RPAREN)];
    var b := Read(a.(metNewline := true));
    assert b.token == Some(Simple(RPAREN)) && b.source == [];
    assert NextToken(s1) == s2;
  }

  /** The second step of `ReplayForgetsNewlines`: the two recorded tokens go back. */
  lemma RecoverTwo(s2: Pipeline, s3: Pipeline)
    requires s2 == Pipeline(Some(Simple(RPAREN)), [], true, [Simple(LPAREN), Simple(RPAREN)], true, [])
    requires s3 == Pipeline(Some(Simple(LPAREN)), [Simple(RPAREN)], false, [], false, [])
    ensures RecoverBackup(s2) == s3
  {
    var q := Pipeline(Some(Simple(RPAREN)), [Simple(LPAREN), Simple(RPAREN)], false, [], true, []);
    assert RecoverBackup(s2) == NextToken(q);
    NextFromLookahead(q);
  }

  /** The round trip needs the empty lookahead list: `recoverBackup` appends the
      recorded tokens after what is left in the list, so that leftover comes back
      first instead of the token current at `startBackup`. */
  lemma RecoverAfterLeftoverLookahead(p: Pipeline)
    requires p == Pipeline(Some(Simple(LPAREN)), [Simple(ID), Simple(RPAREN)], false, [], false, [])
    ensures RecoverBackup(Iterate(StartBackup(p), 1)).token == Some(Simple(RPAREN)) != p.token
  {
    var s1 := Pipeline(Some(Simple(LPAREN)), [Simple(ID), Simple(RPAREN)], true, [Simple(LPAREN)], false, []);
    var s2 := Pipeline(Some(Simple(ID)), [Simple(RPAREN)], true, [Simple(LPAREN), Simple(ID)], false, []);
    assert StartBackup(p) == s1;
    ReadLookahead(s1, s2);
    RecoverLeftover(s2);
  }

  /** The first step of `RecoverAfterLeftoverLookahead`: `ID` comes from the list. */
  lemma ReadLookahead(s1: Pipeline, s2: Pipeline)
    requires s1 == Pipeline(Some(Simple(LPAREN)), [Simple(ID), Simple(RPAREN)], true, [Simple(LPAREN)], false, [])
    requires s2 == Pipeline(Some(Simple(ID)), [Simple(RPAREN)], true, [Simple(LPAREN), Simple(ID)], false, [])
    ensures Iterate(s1, 1) == s2
  {
    IterateOnce(s1);
    NextFromLookahead(s1);
  }

  /** The second step: the leftover `RPAREN` is ahead of the recorded tokens. */
  lemma RecoverLeftover(s2: Pipeline)
    requires s2 == Pipeline(Some(Simple(ID)), [Simple(RPAREN)], true, [Simple(LPAREN), Simple(ID)], false, [])
    ensures RecoverBackup(s2).token == Some(Simple(RPAREN))
  {
    var q := Pipeline(Some(Simple(ID)), [Simple(RPAREN), Simple(LPAREN), Simple(ID)], false, [], false, []);
    assert RecoverBackup(s2) == NextToken(q);
    NextFromLookahead(q);
  }

  /** `recoverBackup` with nothing recorded only closes the session. */
  lemma RecoverNothing(p: Pipeline)
    requires p.backupTokens == []
    ensures RecoverBackup(p) == p.(backup := false)
  {
  }

  /** `discardBackup` closes the session and forgets what it recorded, leaving the
      current token and the pending tokens as they were. */
  lemma DiscardKeepsTokens(p: Pipeline)
    ensures var r := DiscardBackup(p);
      !r.backup && r.backupTokens == [] && r.token == p.token && Pending(r) == Pending(p)
  {
  }

  // ---------------------------------------------------------------------------
  // The lookahead list

  /** Tokens added to the lookahead list come after those already there, in the
      order given, and before the scanner's. */
  lemma AddTokensOrder(p: Pipeline, ts: seq<Token>)
    ensures Pending(AddTokens(p, ts)) == p.tokens + ts + p.source
    ensures AddTokens(p, ts).token == p.token
  {
  }

  /** `prependToken(t)` with an empty lookahead list makes the next two calls of
      `nextToken` deliver `t` and then the token that was current. */
  lemma PrependThenNext(p: Pipeline, t: Token)
    requires p.token.Some? && !IsNewline(p.token) && !t.Is(NEWLINE) && p.tokens == [] && !p.backup
    ensures Trace(PrependToken(p, t), 2) == [t, p.token.value]
    ensures Iterate(PrependToken(p, t), 2).token == p.token
    ensures Iterate(PrependToken(p, t), 2).source == p.source
  {
    var q := PrependToken(p, t);
    assert q.tokens == [t, p.token.value];
    Replaying(q, [t, p.token.value]);
  }
}
