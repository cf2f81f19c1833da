/**
 The per-IP limit on quick-tunnel creation: exact counting when calls run one
 after another, and the bound that survives when the three statements of
 several calls interleave.
 */
module RateLimit {
  import opened Sql
  import opened StoreApi
  import opened Counting

  const QUICK_RATE_LIMIT := 10

  // --- One call after another ---

  datatype Hit = Hit(ip: string, now: nat)

  /** The counter table after these hits on an empty one. */
  function Replay(h: seq<Hit>): map<(string, int), nat> {
    if h == [] then map[]
    else
      var last := h[|h| - 1];
      Bump(Prune(Replay(h[..|h| - 1]), Window(last.now) - 2), last.ip, Window(last.now))
  }

  /** The hits of ip in the window that no later hit pruned. */
  function Unpruned(h: seq<Hit>, ip: string, window: int): set<int> {
    set i | 0 <= i < |h| && h[i].ip == ip && Window(h[i].now) == window
            && forall j :: i < j < |h| ==> Window(h[j].now) - 2 <= window
  }

  /** What the last hit does to one counter. */
  lemma ReplayLast(h: seq<Hit>, ip: string, window: int)
    requires h != []
    ensures var last, before := h[|h| - 1], Replay(h[..|h| - 1]);
            var key := (ip, window);
            var kept := if key in before && window >= Window(last.now) - 2 then before[key] else 0;
            var hit := last.ip == ip && Window(last.now) == window;
            && (key in Replay(h) <==> hit || (key in before && window >= Window(last.now) - 2))
            && (key in Replay(h) ==> Replay(h)[key] == kept + if hit then 1 else 0)
  {
    hide Window;
  }

  /** The stored count is the number of unpruned hits, whatever the clock did. */
  lemma {:induction false} CountIsExact(h: seq<Hit>, ip: string, window: int)
    ensures (ip, window) in Replay(h) <==> Unpruned(h, ip, window) != {}
    ensures (ip, window) in Replay(h) ==> Replay(h)[(ip, window)] == |Unpruned(h, ip, window)|
  {
    if h == [] {
      assert Unpruned(h, ip, window) == {};
    } else {
      hide Window, Replay;
      var n := |h| - 1;
      var front := h[..n];
      CountIsExact(front, ip, window);
      ReplayLast(h, ip, window);
      var before := if window < Window(h[n].now) - 2 then {} else Unpruned(front, ip, window);
      var here := if h[n].ip == ip && Window(h[n].now) == window then {n} else {};
      UnprunedSnoc(h, ip, window, before, here);
      assert n !in before;
      hide Unpruned;
      if here == {n} { assert |before + here| == |before| + 1; }
    }
  }

  lemma UnprunedSnoc(h: seq<Hit>, ip: string, window: int, before: set<int>, here: set<int>)
    requires h != []
    requires before == if window < Window(h[|h| - 1].now) - 2 then {} else Unpruned(h[..|h| - 1], ip, window)
    requires here == if h[|h| - 1].ip == ip && Window(h[|h| - 1].now) == window then {|h| - 1} else {}
    ensures Unpruned(h, ip, window) == before + here
  {
    var n := |h| - 1;
    var front := h[..n];
    forall i | i in before
      ensures i in Unpruned(h, ip, window)
    {
      assert front[i] == h[i];
      forall j | i < j < |h|
        ensures Window(h[j].now) - 2 <= window
      {
        if j < n { assert front[j] == h[j]; }
      }
    }
    forall i | i in Unpruned(h, ip, window)
      ensures i in before + here
    {
      if i < n {
        assert Window(h[n].now) - 2 <= window;
        forall j | i < j < n
          ensures Window(front[j].now) - 2 <= window
        {
          assert front[j] == h[j];
        }
        assert front[i] == h[i];
      }
    }
  }

  function InWindow(h: seq<Hit>, ip: string, window: int): set<int> {
    set i | 0 <= i < |h| && h[i].ip == ip && Window(h[i].now) == window
  }

  lemma NothingPruned(h: seq<Hit>, ip: string, window: int)
    requires forall j :: 0 <= j < |h| ==> Window(h[j].now) <= window
    ensures Unpruned(h, ip, window) == InWindow(h, ip, window)
  {
    hide Window;
  }

  lemma WindowsRise(h: seq<Hit>, j: nat)
    requires j < |h| && forall a, b :: 0 <= a < b < |h| ==> h[a].now <= h[b].now
    ensures Window(h[j].now) <= Window(h[|h| - 1].now)
  {
    assert j == |h| - 1 || h[j].now <= h[|h| - 1].now;
  }

  /** With a clock that does not go back, a call returns the number of hits in its window so far. */
  lemma MonotoneCount(h: seq<Hit>)
    requires h != [] && forall i, j :: 0 <= i < j < |h| ==> h[i].now <= h[j].now
    ensures var last := h[|h| - 1];
            var key := (last.ip, Window(last.now));
            key in Replay(h) && Replay(h)[key] == |InWindow(h, last.ip, key.1)|
  {
    var last := h[|h| - 1];
    var window := Window(last.now);
    CountIsExact(h, last.ip, window);
    forall j | 0 <= j < |h|
      ensures Window(h[j].now) <= window
    {
      WindowsRise(h, j);
    }
    NothingPruned(h, last.ip, window);
    assert |h| - 1 in InWindow(h, last.ip, window);
    hide Window, Unpruned, Replay;
  }

  /** The contract's operation, run on a history, adds one hit and returns its exact count. */
  lemma HitIsReplayed(prefix: string, db: Db, h: seq<Hit>, ip: string, now: nat)
    requires db.rate == Replay(h)
    ensures var (after, ret) := Api(prefix, db, Op.QuickRateHit(ip, now));
            && after == db.(rate := Replay(h + [Hit(ip, now)]))
            && ret == CountRet(|Unpruned(h + [Hit(ip, now)], ip, Window(now))|)
  {
    hide Unpruned, Window, Prune, Bump;
    var all := h + [Hit(ip, now)];
    assert all[..|all| - 1] == h;
    Bumped(Prune(db.rate, Window(now) - 2), ip, Window(now));
    CountIsExact(all, ip, Window(now));
  }

  // --- Interleaved calls ---

  datatype Phase = Begun | Pruned | Counted | Read(count: nat) | Stopped

  /** position records the value the call's own increment produced. */
  datatype Call = Call(ip: string, at: nat, phase: Phase, position: nat) {
    function Win(): int {
      Window(at)
    }
  }

  datatype World = World(rate: map<(string, int), nat>, now: nat, calls: map<nat, Call>)

  datatype Label = Begin(p: nat, ip: string) | Step(p: nat) | Abort(p: nat) | Tick(d: nat)

  predicate InFlight(c: Call) {
    c.phase.Begun? || c.phase.Pruned? || c.phase.Counted?
  }

  /** No call in flight started more than apart windows ago. */
  predicate Near(w: World, apart: nat) {
    forall q :: q in w.calls && InFlight(w.calls[q]) ==> Window(w.now) <= w.calls[q].Win() + apart
  }

  /** One statement of one call, a new call, a failed call, or time passing. */
  function Next(apart: nat, w: World, l: Label): World {
    match l
    case Begin(p, ip) =>
      if p in w.calls || !Near(w, apart) then w
      else w.(calls := w.calls[p := Call(ip, w.now, Begun, 0)])
    case Step(p) =>
      if p !in w.calls then w
      else
        var c := w.calls[p];
        (match c.phase
         case Begun => w.(rate := Prune(w.rate, c.Win() - 2), calls := w.calls[p := c.(phase := Pruned)])
         case Pruned =>
           var rate := Bump(w.rate, c.ip, c.Win());
           w.(rate := rate, calls := w.calls[p := c.(phase := Counted, position := rate[(c.ip, c.Win())])])
         case Counted =>
           if (c.ip, c.Win()) !in w.rate then w.(calls := w.calls[p := c.(phase := Stopped)])
           else w.(calls := w.calls[p := c.(phase := Read(w.rate[(c.ip, c.Win())]))])
         case _ => w)
    case Abort(p) =>
      if p in w.calls && InFlight(w.calls[p]) then w.(calls := w.calls[p := w.calls[p].(phase := Stopped)]) else w
    case Tick(d) => w.(now := w.now + d)
  }

  function Run(apart: nat, w: World, ls: seq<Label>): World
    decreases |ls|
  {
    if ls == [] then w else Run(apart, Next(apart, w, ls[0]), ls[1..])
  }

  /** The calls of one IP and window that read back a count within the limit. */
  function WithinLimit(w: World, ip: string, window: int, limit: nat): set<nat> {
    set p | p in w.calls && w.calls[p].ip == ip && w.calls[p].Win() == window
            && w.calls[p].phase.Read? && w.calls[p].phase.count <= limit
  }

  /** The calls that ended in a store error. */
  function Failed(w: World, ip: string, window: int): set<nat> {
    set p | p in w.calls && w.calls[p].ip == ip && w.calls[p].Win() == window && w.calls[p].phase.Stopped?
  }

  /** What allowQuick makes of a finished call: a store error fails open. */
  predicate Allows(phase: Phase) {
    phase.Stopped? || (phase.Read? && phase.count <= QUICK_RATE_LIMIT)
  }

  function Admitted(w: World, ip: string, window: int): set<nat> {
    set p | p in w.calls && w.calls[p].ip == ip && w.calls[p].Win() == window && Allows(w.calls[p].phase)
  }

  /** The window is over for good: too old, and nobody still works on it. */
  ghost predicate Dead(w: World, window: int) {
    window + 2 < Window(w.now) && forall p :: p in w.calls && InFlight(w.calls[p]) ==> w.calls[p].Win() != window
  }

  ghost predicate CallOk(w: World, c: Call) {
    && c.Win() <= Window(w.now)
    && (c.phase.Begun? || c.phase.Pruned? ==> c.position == 0)
    && (c.phase.Counted? || c.phase.Read? ==> c.position > 0)
    && (c.phase.Read? ==> c.position <= c.phase.count)
    && (c.position > 0 ==>
          ((c.ip, c.Win()) in w.rate && c.position <= w.rate[(c.ip, c.Win())]) || Dead(w, c.Win()))
  }

  ghost predicate Inv(w: World) {
    && (forall p :: p in w.calls ==> CallOk(w, w.calls[p]))
    && (forall p, q :: p in w.calls && q in w.calls && InFlight(w.calls[p]) && InFlight(w.calls[q]) ==>
          w.calls[p].Win() <= w.calls[q].Win() + 2)
    && (forall p, q :: p in w.calls && q in w.calls && p != q && w.calls[p].position > 0 && w.calls[q].position > 0
                       && w.calls[p].ip == w.calls[q].ip && w.calls[p].Win() == w.calls[q].Win() ==>
          w.calls[p].position != w.calls[q].position)
  }

  lemma InvStep(w: World, l: Label)
    requires Inv(w)
    ensures Inv(Next(2, w, l))
  {
    hide Inv;
    match l
    case Begin(p, ip) => InvBegin(w, p, ip);
    case Step(p) =>
      if p in w.calls {
        match w.calls[p].phase
        case Begun => InvPrune(w, p);
        case Pruned => InvCount(w, p);
        case Counted => InvRead(w, p);
        case _ =>
      }
    case _ => InvPassive(w, l);
  }

  lemma InvBegin(w: World, p: nat, ip: string)
    requires Inv(w)
    ensures Inv(Next(2, w, Begin(p, ip)))
  {
    var next := Next(2, w, Begin(p, ip));
    forall q | q in next.calls
      ensures CallOk(next, next.calls[q])
    {
      if q in w.calls {
        assert CallOk(w, w.calls[q]);
        assert Dead(w, w.calls[q].Win()) ==> Dead(next, w.calls[q].Win());
      }
    }
  }

  lemma PassiveKeeps(w: World, l: Label, q: nat)
    requires Inv(w) && (l.Abort? || l.Tick?) && q in w.calls
    ensures q in Next(2, w, l).calls && CallOk(Next(2, w, l), Next(2, w, l).calls[q])
  {
    assert CallOk(w, w.calls[q]);
    assert Dead(w, w.calls[q].Win()) ==> Dead(Next(2, w, l), w.calls[q].Win());
  }

  lemma InvPassive(w: World, l: Label)
    requires Inv(w) && (l.Abort? || l.Tick?)
    ensures Inv(Next(2, w, l))
  {
    var next := Next(2, w, l);
    forall q | q in w.calls
      ensures CallOk(next, next.calls[q])
    {
      PassiveKeeps(w, l, q);
    }
    hide CallOk;
  }

  lemma InvPrune(w: World, p: nat)
    requires Inv(w) && p in w.calls && w.calls[p].phase.Begun?
    ensures Inv(Next(2, w, Step(p)))
  {
    var next := Next(2, w, Step(p));
    forall q | q in next.calls
      ensures CallOk(next, next.calls[q])
    {
      assert CallOk(w, w.calls[q]);
      var c := next.calls[q];
      if c.position > 0 && (c.ip, c.Win()) !in next.rate {
        assert Dead(next, c.Win());
      }
    }
  }

  lemma InvCount(w: World, p: nat)
    requires Inv(w) && p in w.calls && w.calls[p].phase.Pruned?
    ensures Inv(Next(2, w, Step(p)))
  {
    var next := Next(2, w, Step(p));
    var mine := w.calls[p];
    assert !Dead(w, mine.Win());
    forall q | q in next.calls
      ensures CallOk(next, next.calls[q])
      ensures q != p && next.calls[q].position > 0 && next.calls[q].ip == mine.ip && next.calls[q].Win() == mine.Win()
              ==> next.calls[q].position < next.calls[p].position
    {
      assert CallOk(w, w.calls[q]);
      assert Dead(w, w.calls[q].Win()) ==> Dead(next, w.calls[q].Win());
    }
  }

  lemma InvRead(w: World, p: nat)
    requires Inv(w) && p in w.calls && w.calls[p].phase.Counted?
    ensures Inv(Next(2, w, Step(p)))
  {
    var next := Next(2, w, Step(p));
    assert CallOk(w, w.calls[p]) && !Dead(w, w.calls[p].Win());
    forall q | q in next.calls
      ensures CallOk(next, next.calls[q])
    {
      assert CallOk(w, w.calls[q]);
      assert Dead(w, w.calls[q].Win()) ==> Dead(next, w.calls[q].Win());
    }
  }

  lemma {:induction false} InvRun(w: World, ls: seq<Label>)
    requires Inv(w)
    ensures Inv(Run(2, w, ls))
    decreases |ls|
  {
    if ls != [] {
      InvStep(w, ls[0]);
      InvRun(Next(2, w, ls[0]), ls[1..]);
    }
  }

  /**
   Under any interleaving of the statements, with calls failing anywhere, a
   clock that does not go back and calls in flight at most two windows apart,
   at most ten calls of one IP and window read back a count within the limit.
   */
  lemma AtMostTenReadWithin(now: nat, ls: seq<Label>, ip: string, window: int)
    ensures |WithinLimit(Run(2, World(map[], now, map[]), ls), ip, window, QUICK_RATE_LIMIT)| <= QUICK_RATE_LIMIT
  {
    InvRun(World(map[], now, map[]), ls);
    var w := Run(2, World(map[], now, map[]), ls);
    var s := WithinLimit(w, ip, window, QUICK_RATE_LIMIT);
    forall p | p in s
      ensures 1 <= w.calls[p].position <= QUICK_RATE_LIMIT
    {
      assert CallOk(w, w.calls[p]);
    }
    Pigeonhole(s, map p | p in s :: w.calls[p].position, QUICK_RATE_LIMIT);
  }

  /**
   So at most ten are admitted besides those whose call failed, which are all
   admitted; at most ten while none fails.
   */
  lemma AtMostTenBesidesFailures(now: nat, ls: seq<Label>, ip: string, window: int)
    ensures var w := Run(2, World(map[], now, map[]), ls);
            |Admitted(w, ip, window)| <= QUICK_RATE_LIMIT + |Failed(w, ip, window)|
  {
    var w := Run(2, World(map[], now, map[]), ls);
    AtMostTenReadWithin(now, ls, ip, window);
    UnionSize(Admitted(w, ip, window), WithinLimit(w, ip, window, QUICK_RATE_LIMIT), Failed(w, ip, window));
  }

  predicate Within(c: Call, ip: string, start: nat, end: nat) {
    c.ip == ip && start <= c.at <= end
  }

  function AdmittedBetween(w: World, ip: string, start: nat, end: nat): set<nat> {
    set p | p in w.calls && Within(w.calls[p], ip, start, end) && Allows(w.calls[p].phase)
  }

  function FailedBetween(w: World, ip: string, start: nat, end: nat): set<nat> {
    set p | p in w.calls && Within(w.calls[p], ip, start, end) && w.calls[p].phase.Stopped?
  }

  lemma HourTouchesTwoWindows(start: nat, at: nat)
    requires start <= at <= start + 3600
    ensures Window(at) == Window(start) || Window(at) == Window(start) + 1
  {
  }

  /** Hence any stretch of an hour admits at most twice the limit per IP, besides the calls that failed in it. */
  lemma HourAdmitsTwiceTheLimit(now: nat, ls: seq<Label>, ip: string, start: nat)
    ensures var w := Run(2, World(map[], now, map[]), ls);
            |AdmittedBetween(w, ip, start, start + 3600)|
            <= 2 * QUICK_RATE_LIMIT + |FailedBetween(w, ip, start, start + 3600)|
  {
    var w := Run(2, World(map[], now, map[]), ls);
    var first := Window(start);
    var a, b := WithinLimit(w, ip, first, QUICK_RATE_LIMIT), WithinLimit(w, ip, first + 1, QUICK_RATE_LIMIT);
    var failed := FailedBetween(w, ip, start, start + 3600);
    AtMostTenReadWithin(now, ls, ip, first);
    AtMostTenReadWithin(now, ls, ip, first + 1);
    hide Window, Run;
    forall p | p in AdmittedBetween(w, ip, start, start + 3600)
      ensures p in (a + b) + failed
    {
      HourTouchesTwoWindows(start, w.calls[p].at);
    }
    UnionSize(AdmittedBetween(w, ip, start, start + 3600), a + b, failed);
    UnionSize(a + b, a, b);
  }

  /** Only a tick moves the clock, and an aborted call leaves the counters alone. */
  lemma WorldMoves(apart: nat, w: World, l: Label)
    ensures Next(apart, w, l).now == w.now + if l.Tick? then l.d else 0
    ensures l.Abort? || l.Begin? || l.Tick? ==> Next(apart, w, l).rate == w.rate
    ensures l.Abort? && l.p in w.calls && InFlight(w.calls[l.p]) ==>
              Next(apart, w, l).calls == w.calls[l.p := w.calls[l.p].(phase := Stopped)]
  {
  }

  /**
   Whatever the others do, a call runs its three statements in turn; of itself it
   fails exactly when the counter it is about to read is gone.
   */
  lemma CallsMoveOn(apart: nat, w: World, p: nat)
    requires p in w.calls && InFlight(w.calls[p])
    ensures var next := Next(apart, w, Step(p));
            var c, key := w.calls[p], (w.calls[p].ip, w.calls[p].at / 3600);
            && next.calls.Keys == w.calls.Keys && next.calls[p].ip == c.ip && next.calls[p].at == c.at
            && (forall q :: q in w.calls && q != p ==> next.calls[q] == w.calls[q])
            && (c.phase.Begun? ==> next.calls[p].phase.Pruned?)
            && (c.phase.Pruned? ==> next.calls[p].phase.Counted? && key in next.rate)
            && (c.phase.Counted? ==> next.rate == w.rate)
            && (c.phase.Counted? && key in w.rate ==> next.calls[p].phase == Read(w.rate[key]))
            && (c.phase.Counted? && key !in w.rate ==> next.calls[p].phase.Stopped?)
  {
  }

  /** With calls at most two windows apart the counter is never gone: a call fails only by a failing statement. */
  lemma CounterIsThere(now: nat, ls: seq<Label>, p: nat)
    ensures var w := Run(2, World(map[], now, map[]), ls);
            p in w.calls && InFlight(w.calls[p]) ==> !Next(2, w, Step(p)).calls[p].phase.Stopped?
  {
    InvRun(World(map[], now, map[]), ls);
    var w := Run(2, World(map[], now, map[]), ls);
    if p in w.calls { assert CallOk(w, w.calls[p]); }
  }

  // --- The bound is reached: every failure is one more admitted ---

  function MixedCall(f: nat, p: nat): Call {
    if p < f then Call("ip", 0, Stopped, 0) else Call("ip", 0, Read(p - f + 1), p - f + 1)
  }

  function Counter(m: nat): map<(string, int), nat> {
    if m == 0 then map[] else map[("ip", 0) := m]
  }

  /** The first f calls have failed and m more have run to the end, all at time 0. */
  function Mixed(f: nat, m: nat): World {
    World(Counter(m), 0, map p | p in UpTo(f + m) :: MixedCall(f, p))
  }

  function FailLabels(f: nat): seq<Label> {
    if f == 0 then [] else FailLabels(f - 1) + [Begin(f - 1, "ip"), Abort(f - 1)]
  }

  function PassLabels(f: nat, m: nat): seq<Label> {
    if m == 0 then []
    else PassLabels(f, m - 1) + [Begin(f + m - 1, "ip"), Step(f + m - 1), Step(f + m - 1), Step(f + m - 1)]
  }

  lemma MixedGrows(f: nat, m: nat)
    ensures Mixed(f, m).calls[f + m := MixedCall(f, f + m)] == Mixed(f, m + 1).calls
    ensures Mixed(f, 0).calls[f := MixedCall(f + 1, f)] == Mixed(f + 1, 0).calls
    ensures f + m !in Mixed(f, m).calls && forall q :: q in Mixed(f, m).calls ==> !InFlight(Mixed(f, m).calls[q])
  {
    hide UpTo;
  }

  lemma FailAlone(calls: map<nat, Call>, p: nat)
    requires p !in calls && forall q :: q in calls ==> !InFlight(calls[q])
    ensures Run(2, World(map[], 0, calls), [Begin(p, "ip"), Abort(p)])
            == World(map[], 0, calls[p := Call("ip", 0, Stopped, 0)])
  {
    var w := World(map[], 0, calls);
    var w1 := Next(2, w, Begin(p, "ip"));
    assert w1 == World(map[], 0, calls[p := Call("ip", 0, Begun, 0)]);
    RunTwo(2, w, Begin(p, "ip"), Abort(p));
  }

  lemma FailOne(f: nat)
    requires f > 0
    ensures Run(2, Mixed(f - 1, 0), [Begin(f - 1, "ip"), Abort(f - 1)]) == Mixed(f, 0)
  {
    hide Next, UpTo;
    MixedGrows(f - 1, 0);
    FailAlone(Mixed(f - 1, 0).calls, f - 1);
  }

  /** A call whose three statements run without any other in between does what the contract says. */
  lemma CallAloneMeetsApi(prefix: string, db: Db, apart: nat, w: World, p: nat, ip: string)
    requires p !in w.calls && Near(w, apart) && db.rate == w.rate
    ensures var (after, ret) := Api(prefix, db, Op.QuickRateHit(ip, w.now));
            var next := Run(apart, w, [Begin(p, ip), Step(p), Step(p), Step(p)]);
            && next.rate == after.rate && next.now == w.now
            && p in next.calls && next.calls[p].phase == Read(ret.n)
            && forall q :: q in w.calls ==> q in next.calls && next.calls[q] == w.calls[q]
  {
    RunFour(apart, w, Begin(p, ip), Step(p), Step(p), Step(p));
    var w1 := Next(apart, w, Begin(p, ip));
    assert w1.calls[p] == Call(ip, w.now, Begun, 0);
    var w2 := Next(apart, w1, Step(p));
    assert w2.calls[p].phase == Pruned && w2.rate == Prune(w.rate, Window(w.now) - 2);
    var w3 := Next(apart, w2, Step(p));
    assert w3.calls[p].phase == Counted && w3.rate == Bump(w2.rate, ip, Window(w.now));
  }

  lemma RunTwo(apart: nat, w: World, a: Label, b: Label)
    ensures Run(apart, w, [a, b]) == Next(apart, Next(apart, w, a), b)
  {
    hide Next;
    assert [a, b][1..] == [b] && [b][1..] == [];
    assert Run(apart, Next(apart, w, a), [b]) == Run(apart, Next(apart, Next(apart, w, a), b), []);
  }

  /** A call that runs alone. */
  lemma CallAlone(rate: map<(string, int), nat>, calls: map<nat, Call>, p: nat, m: nat)
    requires m > 0 && rate == Counter(m - 1) && p !in calls
    requires forall q :: q in calls ==> !InFlight(calls[q])
    ensures Run(2, World(rate, 0, calls), [Begin(p, "ip"), Step(p), Step(p), Step(p)])
            == World(Counter(m), 0, calls[p := Call("ip", 0, Read(m), m)])
  {
    var w := World(rate, 0, calls);
    var w1 := Next(2, w, Begin(p, "ip"));
    assert w1 == World(rate, 0, calls[p := Call("ip", 0, Begun, 0)]);
    var w2 := Next(2, w1, Step(p));
    assert Prune(rate, Window(0) - 2) == rate;
    assert w2 == World(rate, 0, calls[p := Call("ip", 0, Pruned, 0)]);
    var w3 := Next(2, w2, Step(p));
    assert w3 == World(Counter(m), 0, calls[p := Call("ip", 0, Counted, m)]);
    RunFour(2, w, Begin(p, "ip"), Step(p), Step(p), Step(p));
  }

  lemma PassOne(f: nat, m: nat)
    requires m > 0
    ensures var p := f + m - 1;
            Run(2, Mixed(f, m - 1), [Begin(p, "ip"), Step(p), Step(p), Step(p)]) == Mixed(f, m)
  {
    hide Next, Counter, UpTo;
    MixedGrows(f, m - 1);
    CallAlone(Counter(m - 1), Mixed(f, m - 1).calls, f + m - 1, m);
  }

  lemma {:induction false} AllFail(f: nat)
    ensures Run(2, World(map[], 0, map[]), FailLabels(f)) == Mixed(f, 0)
  {
    hide Next;
    if f == 0 {
      assert Mixed(0, 0).calls == map[];
    } else {
      AllFail(f - 1);
      RunConcat(2, World(map[], 0, map[]), FailLabels(f - 1), [Begin(f - 1, "ip"), Abort(f - 1)]);
      FailOne(f);
    }
  }

  lemma {:induction false} ThenPass(f: nat, m: nat)
    ensures Run(2, Mixed(f, 0), PassLabels(f, m)) == Mixed(f, m)
  {
    hide Next;
    if m > 0 {
      var p := f + m - 1;
      ThenPass(f, m - 1);
      RunConcat(2, Mixed(f, 0), PassLabels(f, m - 1), [Begin(p, "ip"), Step(p), Step(p), Step(p)]);
      PassOne(f, m);
    }
  }

  lemma MixedMembers(f: nat, m: nat, p: nat)
    requires m == QUICK_RATE_LIMIT
    ensures p in Failed(Mixed(f, m), "ip", 0) <==> p in UpTo(f)
    ensures p in Admitted(Mixed(f, m), "ip", 0) <==> p in UpTo(f + m)
  {
    hide UpTo;
    assert Window(0) == 0;
    assert p in Mixed(f, m).calls <==> p in UpTo(f + m);
    assert p in Mixed(f, m).calls ==> Mixed(f, m).calls[p] == MixedCall(f, p) && Allows(MixedCall(f, p).phase);
  }

  lemma MixedCounts(f: nat, m: nat)
    requires m == QUICK_RATE_LIMIT
    ensures |Failed(Mixed(f, m), "ip", 0)| == f && |Admitted(Mixed(f, m), "ip", 0)| == m + f
  {
    hide Failed, Admitted, Mixed, UpTo;
    forall p: nat
      ensures p in Failed(Mixed(f, m), "ip", 0) <==> p in UpTo(f)
      ensures p in Admitted(Mixed(f, m), "ip", 0) <==> p in UpTo(f + m)
    {
      MixedMembers(f, m, p);
    }
    assert Failed(Mixed(f, m), "ip", 0) == UpTo(f);
    assert Admitted(Mixed(f, m), "ip", 0) == UpTo(f + m);
  }

  /** A run of calls of one IP in one window, with exactly f failures and ten more admitted. */
  predicate FailsAndFills(ls: seq<Label>, f: nat) {
    var w := Run(2, World(map[], 0, map[]), ls);
    |Failed(w, "ip", 0)| == f && |Admitted(w, "ip", 0)| == QUICK_RATE_LIMIT + f
  }

  /** For any number of failures there is a run that admits that many calls more than ten. */
  lemma EveryFailureAdmitsOneMore(f: nat)
    ensures exists ls :: FailsAndFills(ls, f)
  {
    var m: nat :| m == QUICK_RATE_LIMIT;
    hide Next, Mixed, FailLabels, PassLabels, Failed, Admitted;
    AllFail(f);
    ThenPass(f, m);
    RunConcat(2, World(map[], 0, map[]), FailLabels(f), PassLabels(f, m));
    MixedCounts(f, m);
    assert FailsAndFills(FailLabels(f) + PassLabels(f, m), f);
  }

  // --- Why two windows: a call that stalls for three lets an eleventh through ---

  /** Call 0 has begun at time 0 and stalled; calls 1 to k have run to the end. */
  function Filled(k: nat): World {
    World(if k == 0 then map[] else map[("ip", 0) := k], 0,
          map p: nat | 0 <= p <= k :: if p == 0 then Call("ip", 0, Begun, 0) else Call("ip", 0, Read(p), p))
  }

  function FillLabels(k: nat): seq<Label> {
    if k == 0 then [Begin(0, "ip")] else FillLabels(k - 1) + [Begin(k, "ip"), Step(k), Step(k), Step(k)]
  }

  lemma {:induction false} RunConcat(apart: nat, w: World, a: seq<Label>, b: seq<Label>)
    ensures Run(apart, w, a + b) == Run(apart, Run(apart, w, a), b)
    decreases |a|
  {
    if a == [] {
      assert a + b == b;
    } else {
      assert (a + b)[1..] == a[1..] + b;
      RunConcat(apart, Next(apart, w, a[0]), a[1..], b);
    }
  }

  lemma FillOne(k: nat)
    requires k > 0
    ensures Run(3, Filled(k - 1), [Begin(k, "ip"), Step(k), Step(k), Step(k)]) == Filled(k)
  {
    var w := Filled(k - 1);
    var w1 := Next(3, w, Begin(k, "ip"));
    var w2 := Next(3, w1, Step(k));
    var w3 := Next(3, w2, Step(k));
    var w4 := Next(3, w3, Step(k));
    assert w1.calls == w.calls[k := Call("ip", 0, Begun, 0)];
    assert w2.rate == w.rate;
    assert w3.rate == map[("ip", 0) := k];
    assert w4.calls == Filled(k).calls;
    RunFour(3, w, Begin(k, "ip"), Step(k), Step(k), Step(k));
  }

  lemma RunFour(apart: nat, w: World, a: Label, b: Label, c: Label, d: Label)
    ensures Run(apart, w, [a, b, c, d]) == Next(apart, Next(apart, Next(apart, Next(apart, w, a), b), c), d)
  {
    hide Next;
    assert [a, b, c, d][1..] == [b, c, d] && [b, c, d][1..] == [c, d] && [c, d][1..] == [d] && [d][1..] == [];
    var w1 := Next(apart, w, a);
    var w2 := Next(apart, w1, b);
    assert Run(apart, w, [a, b, c, d]) == Run(apart, w1, [b, c, d]);
    assert Run(apart, w2, [c, d]) == Run(apart, Next(apart, w2, c), [d]);
  }

  lemma {:induction false} Fill(k: nat)
    ensures Run(3, World(map[], 0, map[]), FillLabels(k)) == Filled(k)
  {
    hide Next;
    if k == 0 {
      FillNone();
    } else {
      Fill(k - 1);
      RunConcat(3, World(map[], 0, map[]), FillLabels(k - 1), [Begin(k, "ip"), Step(k), Step(k), Step(k)]);
      FillOne(k);
    }
  }

  lemma FillNone()
    ensures Run(3, World(map[], 0, map[]), FillLabels(0)) == Filled(0)
  {
    assert FillLabels(0)[1..] == [];
    assert Next(3, World(map[], 0, map[]), Begin(0, "ip")).calls == Filled(0).calls;
  }

  lemma RunSix(apart: nat, w: World, ls: seq<Label>)
    requires |ls| == 6
    ensures Run(apart, w, ls)
            == Next(apart, Next(apart, Next(apart, Next(apart, Next(apart, Next(apart, w, ls[0]), ls[1]), ls[2]),
                                            ls[3]), ls[4]), ls[5])
  {
    hide Next;
    var front, back := [ls[0], ls[1], ls[2], ls[3]], [ls[4], ls[5]];
    assert ls == front + back;
    RunConcat(apart, w, front, back);
    RunFour(apart, w, ls[0], ls[1], ls[2], ls[3]);
    assert back[1..] == [ls[5]] && back[1..][1..] == [];
    var w4 := Run(apart, w, front);
    assert Run(apart, w4, back) == Run(apart, Next(apart, w4, ls[4]), [ls[5]]);
  }

  /** A run, with calls up to three windows apart, that admits eleven calls of one window. */
  predicate AdmitsEleven(ls: seq<Label>) {
    |WithinLimit(Run(3, World(map[], 0, map[]), ls), "ip", 0, QUICK_RATE_LIMIT)| == 11
  }

  /** If calls in flight may be three windows apart, eleven calls of one window can be admitted. */
  lemma ThreeWindowsCounterexample()
    ensures exists ls :: AdmitsEleven(ls)
  {
    hide Next, Filled, WithinLimit, FillLabels;
    var start, tail := World(map[], 0, map[]), [Tick(3 * 3600), Begin(11, "ip"), Step(11), Step(0), Step(0), Step(0)];
    Fill(10);
    RunConcat(3, start, FillLabels(10), tail);
    RunSix(3, Filled(10), tail);
    StalledCallEnds(Next(3, Next(3, Next(3, Next(3, Filled(10), tail[0]), tail[1]), tail[2]), tail[3]));
    assert AdmitsEleven(FillLabels(10) + tail);
  }

  lemma StalledCallEnds(w4: World)
    requires w4 == Next(3, Next(3, Next(3, Next(3, Filled(10), Tick(3 * 3600)), Begin(11, "ip")), Step(11)), Step(0))
    ensures |WithinLimit(Next(3, Next(3, w4, Step(0)), Step(0)), "ip", 0, QUICK_RATE_LIMIT)| == 11
  {
    hide Next, Filled, WithinLimit;
    StalledCallPruned();
    var calls := Filled(10).calls[11 := Call("ip", 3 * 3600, Pruned, 0)];
    StalledCallAdmitted(w4, calls);
    OneTooMany(Next(3, Next(3, w4, Step(0)), Step(0)), calls, 10);
  }

  lemma StalledCallAdmitted(w4: World, calls: map<nat, Call>)
    requires w4.rate == map[] && w4.calls == calls[0 := Call("ip", 0, Pruned, 0)]
    ensures Next(3, Next(3, w4, Step(0)), Step(0)).calls == calls[0 := Call("ip", 0, Read(1), 1)]
  {
    var w5 := Next(3, w4, Step(0));
    assert w5.rate == map[("ip", 0) := 1] && w5.calls == calls[0 := Call("ip", 0, Counted, 1)];
  }

  lemma OneTooMany(w: World, calls: map<nat, Call>, k: nat)
    requires calls == Filled(k).calls[k + 1 := Call("ip", 3 * 3600, Pruned, 0)]
    requires w.calls == calls[0 := Call("ip", 0, Read(1), 1)] && k >= 1
    ensures |WithinLimit(w, "ip", 0, k)| == k + 1
  {
    hide UpTo;
    assert Window(0) == 0;
    assert WithinLimit(w, "ip", 0, k) == UpTo(k + 1);
  }

  lemma StalledCallPruned()
    ensures var w := Filled(10);
            var w4 := Next(3, Next(3, Next(3, Next(3, w, Tick(3 * 3600)), Begin(11, "ip")), Step(11)), Step(0));
            && w4.rate == map[]
            && w4.calls == w.calls[11 := Call("ip", 3 * 3600, Pruned, 0)][0 := Call("ip", 0, Pruned, 0)]
  {
  }
}
