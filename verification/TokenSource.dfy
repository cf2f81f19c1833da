/**
 The client's cached bearer token and its refresh. A mutex serializes the calls,
 so a run is a sequence of them. Times are nanoseconds; expiries are seconds.
 */
module TokenSource {
  import opened Wrappers

  const SECOND := 1_000_000_000
  const SKEW := 30
  const CMD_STALENESS := 300 * SECOND

  function Unix(ns: int): int {
    ns / SECOND
  }

  datatype Entry = Entry(url: string, access: string, expiresAt: int, refresh: string, tokenUrl: string,
                         client: string, cmd: string)

  /** The token endpoint's answer. */
  datatype Reply =
    | Unreachable
    | Rejected(status: nat)
    | Malformed
    | Granted(access: string, expiresIn: int, refresh: string)

  /** One refresh request and its answer. */
  datatype Exchange = Exchange(sent: string, reply: Reply)

  datatype Error = NotRefreshable | RefreshFailed | SaveFailed | CmdFailed

  /** The source, the entry file it writes, and the requests it has made. */
  datatype Source = Source(entry: Entry, loadedAt: int, stored: Option<Entry>, exchanges: seq<Exchange>)

  /** One call of Token or Refresh with everything it meets: clock, endpoint, disk, command. */
  datatype Call = Call(force: bool, now: int, later: int, reply: Reply, saves: bool, cmdOutput: Option<string>)

  predicate Expired(expiresAt: int, now: int) {
    expiresAt != 0 && expiresAt <= Unix(now + SKEW * SECOND)
  }

  predicate Usable(s: Source, now: int) {
    && s.entry.access != "" && !Expired(s.entry.expiresAt, now)
    && (s.entry.cmd == "" || now - s.loadedAt < CMD_STALENESS || s.entry.expiresAt != 0)
  }

  predicate Refreshable(e: Entry) {
    e.refresh != "" && e.tokenUrl != ""
  }

  predicate Succeeds(r: Reply) {
    r.Granted? && r.access != ""
  }

  function Updated(e: Entry, r: Reply, later: int): Entry
    requires r.Granted?
  {
    e.(access := r.access,
       expiresAt := if r.expiresIn > 0 then Unix(later) + r.expiresIn else e.expiresAt,
       refresh := if r.refresh != "" then r.refresh else e.refresh)
  }

  function Step(s: Source, c: Call): (Source, Result<string, Error>) {
    if !c.force && Usable(s, c.now) then (s, Ok(s.entry.access))
    else if Refreshable(s.entry) then
      var asked := s.(exchanges := s.exchanges + [Exchange(s.entry.refresh, c.reply)]);
      if !Succeeds(c.reply) then (asked, Err(RefreshFailed))
      else
        var updated := asked.(entry := Updated(s.entry, c.reply, c.later), loadedAt := c.later);
        if c.saves then (updated.(stored := Some(updated.entry)), Ok(c.reply.access)) else (updated, Err(SaveFailed))
    else if s.entry.cmd != "" then
      if c.cmdOutput.None? || c.cmdOutput.value == "" then (s, Err(CmdFailed))
      else (s.(entry := s.entry.(access := c.cmdOutput.value), loadedAt := c.later), Ok(c.cmdOutput.value))
    else (s, Err(NotRefreshable))
  }

  class TokenSource {
    var entry: Entry
    var loadedAt: int
    var stored: Option<Entry>
    var exchanges: seq<Exchange>

    ghost function View(): Source
      reads this
    {
      Source(entry, loadedAt, stored, exchanges)
    }

    constructor (entry: Entry, now: int)
      ensures View() == Source(entry, now, Some(entry), [])
    {
      this.entry, loadedAt, stored, exchanges := entry, now, Some(entry), [];
    }

    /** Returns a usable token, refreshing when it has expired or when forced. */
    method LockedToken(c: Call) returns (r: Result<string, Error>)
      modifies this
      ensures (View(), r) == Step(old(View()), c)
    {
      if !c.force && entry.access != "" && !Expired(entry.expiresAt, c.now) {
        if entry.cmd == "" || c.now - loadedAt < CMD_STALENESS || entry.expiresAt != 0 { return Ok(entry.access); }
      }
      if Refreshable(entry) {
        r := RefreshGrant(c);
      } else if entry.cmd != "" {
        r := RunCmd(c);
      } else {
        r := Err(NotRefreshable);
      }
    }

    /** Exchanges the refresh token and rewrites the entry in memory and on disk. */
    method RefreshGrant(c: Call) returns (r: Result<string, Error>)
      requires Refreshable(entry)
      modifies this
      ensures exchanges == old(exchanges) + [Exchange(old(entry).refresh, c.reply)]
      ensures Succeeds(c.reply) ==>
                && entry == Updated(old(entry), c.reply, c.later) && loadedAt == c.later
                && (if c.saves then r == Ok(c.reply.access) && stored == Some(entry)
                    else r == Err(SaveFailed) && stored == old(stored))
      ensures !Succeeds(c.reply) ==>
                r == Err(RefreshFailed) && entry == old(entry) && loadedAt == old(loadedAt) && stored == old(stored)
    {
      exchanges := exchanges + [Exchange(entry.refresh, c.reply)];
      if !c.reply.Granted? || c.reply.access == "" { return Err(RefreshFailed); }
      entry := entry.(access := c.reply.access);
      if c.reply.expiresIn > 0 { entry := entry.(expiresAt := Unix(c.later) + c.reply.expiresIn); }
      if c.reply.refresh != "" { entry := entry.(refresh := c.reply.refresh); }
      loadedAt := c.later;
      if !c.saves { return Err(SaveFailed); }
      stored := Some(entry);
      r := Ok(c.reply.access);
    }

    method RunCmd(c: Call) returns (r: Result<string, Error>)
      modifies this
      ensures stored == old(stored) && exchanges == old(exchanges)
      ensures if c.cmdOutput.None? || c.cmdOutput.value == "" then
                r == Err(CmdFailed) && entry == old(entry) && loadedAt == old(loadedAt)
              else
                && r == Ok(c.cmdOutput.value) && loadedAt == c.later
                && entry == old(entry).(access := c.cmdOutput.value)
    {
      if c.cmdOutput.None? || c.cmdOutput.value == "" { return Err(CmdFailed); }
      entry := entry.(access := c.cmdOutput.value);
      loadedAt := c.later;
      r := Ok(c.cmdOutput.value);
    }
  }

  /**
   Sends a request with the token and, on a 401, once more with a force-refreshed
   one. sent lists the tokens used. The second send needs a body that can be read
   again, which is checked before the refresh; reading it can still fail after it.
   */
  method RoundTrip(source: TokenSource, get: Call, status: nat, replayable: bool, again: Call, rereads: bool)
    returns (sent: seq<string>)
    requires !get.force && again.force
    modifies source
    ensures var (s1, r1) := Step(old(source.View()), get);
            var (s2, r2) := Step(s1, again);
            if r1.Err? then sent == [] && source.View() == s1
            else if status != 401 || !replayable then sent == [r1.value] && source.View() == s1
            else source.View() == s2 && sent == [r1.value] + if r2.Ok? && rereads then [r2.value] else []
  {
    var token := source.LockedToken(get);
    if token.Err? { return []; }
    sent := [token.value];
    if status != 401 || !replayable { return; }
    token := source.LockedToken(again);
    if token.Err? || !rereads { return; }
    sent := sent + [token.value];
  }

  // --- Whole runs ---

  function Run(s: Source, cs: seq<Call>): Source
    decreases |cs|
  {
    if cs == [] then s else Run(Step(s, cs[0]).0, cs[1..])
  }

  /** The refresh token most recently handed out in these exchanges, or the initial one. */
  function Latest(initial: string, xs: seq<Exchange>): string {
    if xs == [] then initial
    else
      var last := xs[|xs| - 1].reply;
      if Succeeds(last) && last.refresh != "" then last.refresh else Latest(initial, xs[..|xs| - 1])
  }

  ghost predicate Follows(initial: string, s: Source) {
    && s.entry.refresh == Latest(initial, s.exchanges)
    && forall i :: 0 <= i < |s.exchanges| ==> s.exchanges[i].sent == Latest(initial, s.exchanges[..i])
  }

  lemma FollowsStep(initial: string, s: Source, c: Call)
    requires Follows(initial, s)
    ensures Follows(initial, Step(s, c).0)
  {
    var next := Step(s, c).0;
    if next.exchanges != s.exchanges {
      var n := |s.exchanges|;
      assert next.exchanges[..n] == s.exchanges;
      forall i | 0 <= i < |next.exchanges|
        ensures next.exchanges[i].sent == Latest(initial, next.exchanges[..i])
      {
        if i < n {
          assert next.exchanges[..i] == s.exchanges[..i];
        }
      }
    }
  }

  lemma {:induction false} FollowsRun(initial: string, s: Source, cs: seq<Call>)
    requires Follows(initial, s)
    ensures Follows(initial, Run(s, cs))
    decreases |cs|
  {
    hide Step, Follows;
    if cs != [] {
      FollowsStep(initial, s, cs[0]);
      FollowsRun(initial, Step(s, cs[0]).0, cs[1..]);
    }
  }

  /**
   Over every run of a new source, each refresh request carries the refresh token
   most recently handed out, or the entry's own before any was, and so does the
   entry in memory.
   */
  lemma RequestsCarryTheLatestToken(entry: Entry, now: int, cs: seq<Call>)
    ensures var s := Run(Source(entry, now, Some(entry), []), cs);
            && s.entry.refresh == Latest(entry.refresh, s.exchanges)
            && forall i :: 0 <= i < |s.exchanges| ==>
                 s.exchanges[i].sent == Latest(entry.refresh, s.exchanges[..i])
  {
    hide Step;
    FollowsRun(entry.refresh, Source(entry, now, Some(entry), []), cs);
  }

  // --- The entry file ---

  /** The call is a grant that reaches the file. */
  predicate Saves(s: Source, c: Call) {
    (c.force || !Usable(s, c.now)) && Refreshable(s.entry) && Succeeds(c.reply) && c.saves
  }

  /** The call changes the entry in memory only: a grant that could not be saved, or a token command. */
  predicate Strays(s: Source, c: Call) {
    && (c.force || !Usable(s, c.now))
    && (if Refreshable(s.entry) then Succeeds(c.reply) && !c.saves
        else s.entry.cmd != "" && c.cmdOutput.Some? && c.cmdOutput.value != "")
  }

  lemma FileStep(s: Source, c: Call)
    ensures var (next, r) := Step(s, c);
            && (Saves(s, c) ==> next.stored == Some(next.entry) && r == Ok(next.entry.access))
            && (Strays(s, c) ==> next.stored == s.stored)
            && (!Saves(s, c) && !Strays(s, c) ==> next.stored == s.stored && next.entry == s.entry)
  {
  }

  /** How many calls of the run come up to and including the last grant that reached the file. */
  function LastSave(s: Source, cs: seq<Call>): (k: nat)
    ensures k <= |cs|
  {
    if cs == [] then 0
    else
      var n := |cs| - 1;
      if Saves(Run(s, cs[..n]), cs[n]) then |cs| else LastSave(s, cs[..n])
  }

  lemma {:induction false} RunSnoc(s: Source, cs: seq<Call>, c: Call)
    ensures Run(s, cs + [c]) == Step(Run(s, cs), c).0
    decreases |cs|
  {
    hide Step;
    if cs == [] {
      assert (cs + [c])[1..] == [];
    } else {
      assert (cs + [c])[1..] == cs[1..] + [c];
      RunSnoc(Step(s, cs[0]).0, cs[1..], c);
    }
  }

  /**
   After every run of a source whose file was up to date, the file holds the
   entry as it was after the last grant that reached it. So memory and file are
   equal unless a grant that could not be saved or a token command came later.
   */
  lemma {:induction false} FileHoldsLastSave(s: Source, cs: seq<Call>)
    requires s.stored == Some(s.entry)
    ensures var k := LastSave(s, cs);
            && Run(s, cs).stored == Some(Run(s, cs[..k]).entry)
            && (Run(s, cs).stored != Some(Run(s, cs).entry) ==>
                  exists i :: k <= i < |cs| && Strays(Run(s, cs[..i]), cs[i]))
    decreases |cs|
  {
    hide Step, Saves, Strays;
    if cs == [] {
      assert cs[..0] == [];
    } else {
      var n := |cs| - 1;
      var front := cs[..n];
      var before := Run(s, front);
      assert cs == front + [cs[n]];
      RunSnoc(s, front, cs[n]);
      FileStep(before, cs[n]);
      if Saves(before, cs[n]) {
        assert cs[..|cs|] == cs;
      } else {
        FileHoldsLastSave(s, front);
        var k := LastSave(s, front);
        assert cs[..k] == front[..k];
        if Strays(before, cs[n]) {
          assert Strays(Run(s, cs[..n]), cs[n]);
        } else if before.stored != Some(before.entry) {
          var i :| k <= i < n && Strays(Run(s, front[..i]), front[i]);
          assert cs[..i] == front[..i];
        }
      }
    }
  }

  // --- Which token is returned ---

  /** The token a call obtains, from the token endpoint or from the command, if it obtains one. */
  function Obtains(s: Source, c: Call): Option<string> {
    if !Saves(s, c) && !Strays(s, c) then None
    else if s.entry.refresh == "" || s.entry.tokenUrl == "" then c.cmdOutput
    else if c.reply.Granted? then Some(c.reply.access)
    else None
  }

  /** The token most recently obtained in a run, or the entry's own. */
  function LatestToken(s: Source, cs: seq<Call>): string {
    if cs == [] then s.entry.access
    else
      var n := |cs| - 1;
      var got := Obtains(Run(s, cs[..n]), cs[n]);
      if got.Some? then got.value else LatestToken(s, cs[..n])
  }

  lemma TokenStep(s: Source, c: Call)
    ensures var (next, r) := Step(s, c);
            && next.entry.access == (if Obtains(s, c).Some? then Obtains(s, c).value else s.entry.access)
            && (r.Ok? ==> r.value == next.entry.access && r.value != "")
            && next.entry.url == s.entry.url && next.entry.tokenUrl == s.entry.tokenUrl
            && next.entry.client == s.entry.client && next.entry.cmd == s.entry.cmd
  {
  }

  /**
   After every run the entry's access token is the one most recently obtained, and
   that is what any call that succeeds returns; a refresh changes neither the URL,
   nor the endpoint, the client or the command.
   */
  lemma {:induction false} CallsReturnTheLatestToken(s: Source, cs: seq<Call>, c: Call)
    ensures Run(s, cs).entry.access == LatestToken(s, cs)
    ensures var r := Step(Run(s, cs), c).1; r.Ok? ==> r.value == LatestToken(s, cs + [c])
    ensures var e := Run(s, cs).entry;
            e.url == s.entry.url && e.tokenUrl == s.entry.tokenUrl && e.client == s.entry.client && e.cmd == s.entry.cmd
    decreases |cs|
  {
    hide Step, Obtains;
    var all := cs + [c];
    assert all[..|all| - 1] == cs;
    if cs != [] {
      var n := |cs| - 1;
      assert cs == cs[..n] + [cs[n]];
      CallsReturnTheLatestToken(s, cs[..n], cs[n]);
      RunSnoc(s, cs[..n], cs[n]);
      TokenStep(Run(s, cs[..n]), cs[n]);
    }
    TokenStep(Run(s, cs), c);
  }

  /** The cached token is good for this call: not within thirty seconds of its expiry, and if a command's, not stale. */
  predicate CachedIsGood(s: Source, now: int) {
    && s.entry.access != ""
    && (s.entry.expiresAt == 0 || now / 1_000_000_000 + 30 < s.entry.expiresAt)
    && (s.entry.cmd != "" && s.entry.expiresAt == 0 ==> now - s.loadedAt < 300_000_000_000)
  }

  /**
   A call answers from memory exactly when it is not forced and the cached token is
   good; otherwise it asks the token endpoint if the entry has a refresh token and
   an endpoint, else runs the command if there is one, else fails.
   */
  lemma CallGoesTo(s: Source, c: Call)
    ensures var (next, r) := Step(s, c);
            var cached := !c.force && CachedIsGood(s, c.now);
            var refreshable := s.entry.refresh != "" && s.entry.tokenUrl != "";
            && (cached ==> next == s && r == Ok(s.entry.access))
            && (!cached && refreshable ==> next.exchanges == s.exchanges + [Exchange(s.entry.refresh, c.reply)])
            && (cached || !refreshable ==> next.exchanges == s.exchanges)
            && (!cached && !refreshable && s.entry.cmd != "" ==>
                  r == if c.cmdOutput.None? || c.cmdOutput.value == "" then Err(CmdFailed) else Ok(c.cmdOutput.value))
            && (!cached && !refreshable && s.entry.cmd == "" ==> r == Err(NotRefreshable) && next == s)
  {
  }

  /** A grant with a lifetime expires that long after it was obtained; one without keeps the old expiry. */
  lemma GrantSetsExpiry(s: Source, c: Call)
    requires Step(s, c).0.exchanges != s.exchanges && c.reply.Granted? && c.reply.access != ""
    ensures var e := Step(s, c).0.entry.expiresAt;
            e == if c.reply.expiresIn > 0 then c.later / 1_000_000_000 + c.reply.expiresIn else s.entry.expiresAt
    ensures Step(s, c).0.loadedAt == c.later
  {
  }

  // --- Bursts ---

  /** Every call in the list is Token, and the clock does not go back. */
  ghost predicate Burst(from: int, cs: seq<Call>) {
    && (forall i :: 0 <= i < |cs| ==> !cs[i].force && from <= cs[i].now <= cs[i].later)
    && (forall i, j :: 0 <= i < j < |cs| ==> cs[i].later <= cs[j].now)
  }

  lemma {:induction false} QuietBurst(s: Source, from: int, cs: seq<Call>)
    requires Burst(from, cs) && s.entry.access != "" && s.entry.expiresAt != 0
    requires forall i :: 0 <= i < |cs| ==> !Expired(s.entry.expiresAt, cs[i].now)
    ensures Run(s, cs) == s
    decreases |cs|
  {
    if cs != [] {
      assert cs[0].now >= from && !Expired(s.entry.expiresAt, cs[0].now);
      assert forall i :: 0 <= i < |cs[1..]| ==> cs[1..][i] == cs[i + 1];
      QuietBurst(s, from, cs[1..]);
    }
  }

  lemma {:induction false} ExchangesGrow(s: Source, cs: seq<Call>)
    ensures |s.exchanges| <= |Run(s, cs).exchanges|
    decreases |cs|
  {
    if cs != [] { ExchangesGrow(Step(s, cs[0]).0, cs[1..]); }
  }

  lemma FreshEarlier(expiresAt: int, a: int, b: int)
    requires a <= b && !Expired(expiresAt, b)
    ensures !Expired(expiresAt, a)
  {
  }

  lemma {:induction false} LoudBurst(s: Source, from: int, cs: seq<Call>)
    requires Burst(from, cs) && s.entry.access != "" && s.entry.expiresAt != 0 && Refreshable(s.entry)
    requires cs != [] && Expired(s.entry.expiresAt, cs[|cs| - 1].now)
    ensures |Run(s, cs).exchanges| > |s.exchanges|
    decreases |cs|
  {
    if Expired(s.entry.expiresAt, cs[0].now) {
      ExchangesGrow(Step(s, cs[0]).0, cs[1..]);
    } else {
      assert Step(s, cs[0]).0 == s;
      assert forall i :: 0 <= i < |cs[1..]| ==> cs[1..][i] == cs[i + 1];
      LoudBurst(s, from, cs[1..]);
    }
  }

  /**
   A burst of Token calls on an expired entry whose first refresh succeeds makes
   exactly one request if and only if the new token is still fresh at its last call.
   */
  lemma BurstRefreshesOnceWhen(s: Source, first: Call, cs: seq<Call>)
    requires !first.force && Refreshable(s.entry) && Expired(s.entry.expiresAt, first.now)
    requires Succeeds(first.reply) && first.saves && Burst(first.later, cs) && cs != []
    requires first.reply.expiresIn > 0 && first.later >= 0
    ensures var s1 := Step(s, first).0;
            |Run(s, [first] + cs).exchanges| == |s.exchanges| + 1
            <==> !Expired(s1.entry.expiresAt, cs[|cs| - 1].now)
  {
    var s1 := Step(s, first).0;
    assert ([first] + cs)[1..] == cs;
    assert Run(s, [first] + cs) == Run(s1, cs);
    assert s1.entry.expiresAt > 0;
    if Expired(s1.entry.expiresAt, cs[|cs| - 1].now) {
      LoudBurst(s1, first.later, cs);
    } else {
      forall i | 0 <= i < |cs|
        ensures !Expired(s1.entry.expiresAt, cs[i].now)
      {
        assert cs[i].now <= cs[|cs| - 1].now;
        FreshEarlier(s1.entry.expiresAt, cs[i].now, cs[|cs| - 1].now);
      }
      QuietBurst(s1, first.later, cs);
    }
  }

  /** In particular when the granted lifetime exceeds thirty seconds plus the burst's duration. */
  lemma LongGrantOutlastsBurst(s: Source, first: Call, cs: seq<Call>, duration: nat)
    requires !first.force && Refreshable(s.entry) && Expired(s.entry.expiresAt, first.now)
    requires Succeeds(first.reply) && first.saves && Burst(first.later, cs) && cs != [] && first.later >= 0
    requires cs[|cs| - 1].now <= first.later + duration * SECOND && first.reply.expiresIn > SKEW + duration
    ensures |Run(s, [first] + cs).exchanges| == |s.exchanges| + 1
  {
    BurstRefreshesOnceWhen(s, first, cs);
    UnixAdds(first.later, duration + SKEW);
    assert Unix(cs[|cs| - 1].now + SKEW * SECOND) <= Unix(first.later + (duration + SKEW) * SECOND);
  }

  lemma UnixAdds(ns: int, seconds: int)
    ensures Unix(ns + seconds * SECOND) == Unix(ns) + seconds
  {
  }

  /** Forced refreshes are not merged: each one sends its own request. */
  lemma ForcedRefreshesDoNotCollapse(s: Source, a: Call, b: Call)
    requires a.force && b.force && Refreshable(s.entry)
    ensures |Run(s, [a, b]).exchanges| == |s.exchanges| + 2
  {
    var s1 := Step(s, a).0;
    assert Refreshable(s1.entry) && |s1.exchanges| == |s.exchanges| + 1;
    assert [a, b][1..] == [b] && [b][1..] == [];
    assert Run(s, [a, b]) == Run(s1, [b]) == Step(s1, b).0;
  }
}
