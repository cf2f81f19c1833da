/**
 The registry of agent sessions. A reconnecting agent takes over from its
 predecessor under the lock and closes it after leaving the lock, so handlers
 overlap. Every connection brings a session of its own.
 */
module Gateway {
  import opened Wrappers
  import opened Text

  const NUL := '\0'

  function SessionKey(tenant: string, service: string): string {
    tenant + [NUL] + service
  }

  /** Tenants without a NUL never share a key. */
  lemma SessionKeyInjective(t1: string, s1: string, t2: string, s2: string)
    requires NUL !in t1 && NUL !in t2
    ensures SessionKey(t1, s1) == SessionKey(t2, s2) <==> t1 == t2 && s1 == s2
  {
    IndexOfAppend(t1, NUL, s1);
    IndexOfAppend(t2, NUL, s2);
  }

  /** With a NUL in a tenant they can. */
  lemma SessionKeyCollides()
    ensures SessionKey("a", "b\0c") == SessionKey("a\0b", "c")
  {
  }

  // --- The critical sections ---

  type Registry = map<string, nat>

  function Registered(m: Registry, key: string, session: nat): Registry {
    m[key := session]
  }

  function Unregistered(m: Registry, key: string, session: nat): Registry {
    if key in m && m[key] == session then m - {key} else m
  }

  class Gateway {
    var sessions: Registry

    constructor ()
      ensures sessions == map[]
    {
      sessions := map[];
    }

    /** Stores the session and hands back the one it replaced, for the caller to close. */
    method Register(key: string, session: nat) returns (previous: Option<nat>)
      modifies this
      ensures sessions == Registered(old(sessions), key, session)
      ensures previous == if key in old(sessions) then Some(old(sessions)[key]) else None
    {
      previous := if key in sessions then Some(sessions[key]) else None;
      sessions := sessions[key := session];
    }

    /** Drops the session only if it is still the registered one. */
    method Unregister(key: string, session: nat)
      modifies this
      ensures sessions == Unregistered(old(sessions), key, session)
    {
      if key in sessions && sessions[key] == session { sessions := sessions - {key}; }
    }

    method Dial(tenant: string, service: string) returns (session: Option<nat>)
      ensures var key := SessionKey(tenant, service);
              session == if key in sessions then Some(sessions[key]) else None
    {
      var key := SessionKey(tenant, service);
      session := if key in sessions then Some(sessions[key]) else None;
    }
  }

  // --- Handlers ---

  /** A connection handler: registers, closes what it replaced, waits for its session to end, unregisters. */
  datatype Phase = MustClose(victim: Option<nat>) | Serving | Left

  datatype Handler = Handler(key: string, phase: Phase)

  /** Handler n owns session n. latest records the most recent registration of each key. */
  datatype State = State(sessions: Registry, handlers: map<nat, Handler>, closed: set<nat>, latest: Registry)

  const INIT := State(map[], map[], {}, map[])

  datatype Label = Connect(n: nat, key: string) | CloseVictim(n: nat) | Die(n: nat) | Disconnect(n: nat)

  function Next(s: State, l: Label): State {
    match l
    case Connect(n, key) =>
      if n in s.handlers then s
      else
        State(Registered(s.sessions, key, n),
              s.handlers[n := Handler(key, MustClose(if key in s.sessions then Some(s.sessions[key]) else None))],
              s.closed, s.latest[key := n])
    case CloseVictim(n) =>
      if n in s.handlers && s.handlers[n].phase.MustClose? then
        var v := s.handlers[n].phase.victim;
        s.(handlers := s.handlers[n := s.handlers[n].(phase := Serving)],
           closed := s.closed + if v.Some? then {v.value} else {})
      else s
    case Die(n) => if n in s.handlers then s.(closed := s.closed + {n}) else s
    case Disconnect(n) =>
      if n in s.handlers && s.handlers[n].phase.Serving? && n in s.closed then
        s.(sessions := Unregistered(s.sessions, s.handlers[n].key, n),
           handlers := s.handlers[n := s.handlers[n].(phase := Left)])
      else s
  }

  function Run(s: State, ls: seq<Label>): State
    decreases |ls|
  {
    if ls == [] then s else Run(Next(s, ls[0]), ls[1..])
  }

  /** The entry of a key: the latest registration, unless it has unregistered. */
  function Expected(s: State, key: string): Option<nat> {
    if key in s.latest && s.latest[key] in s.handlers && !s.handlers[s.latest[key]].phase.Left?
    then Some(s.latest[key]) else None
  }

  ghost predicate EntryOk(s: State, key: string) {
    (if key in s.sessions then Some(s.sessions[key]) else None) == Expected(s, key)
  }

  /** A handler some later one replaced is closed, or a handler of its key still has to close it. */
  ghost predicate Superseded(s: State, n: nat) {
    n in s.handlers && !(s.handlers[n].key in s.latest && s.latest[s.handlers[n].key] == n)
  }

  predicate OwedBy(s: State, n: nat, m: nat) {
    && m in s.handlers && s.handlers[m].phase == MustClose(Some(n))
    && n in s.handlers && s.handlers[m].key == s.handlers[n].key
  }

  ghost predicate Inv(s: State) {
    && (forall key :: EntryOk(s, key))
    && (forall key :: key in s.latest ==> s.latest[key] in s.handlers && s.handlers[s.latest[key]].key == key)
    && (forall n :: n in s.handlers && s.handlers[n].phase.Left? ==> n in s.closed)
    && (forall n :: Superseded(s, n) ==> n in s.closed || exists m :: OwedBy(s, n, m))
  }

  lemma InvStep(s: State, l: Label)
    requires Inv(s)
    ensures Inv(Next(s, l))
  {
    var next := Next(s, l);
    EntriesStep(s, l);
    forall n | Superseded(next, n)
      ensures n in next.closed || exists m :: OwedBy(next, n, m)
    {
      DebtStep(s, l, n);
    }
    hide EntryOk, Superseded, OwedBy;
  }

  lemma EntriesStep(s: State, l: Label)
    requires Inv(s)
    ensures forall key :: EntryOk(Next(s, l), key)
  {
    hide Superseded, OwedBy;
    forall key
      ensures EntryOk(Next(s, l), key)
    {
      assert EntryOk(s, key);
    }
  }

  lemma DebtStep(s: State, l: Label, n: nat)
    requires Inv(s) && Superseded(Next(s, l), n)
    ensures n in Next(s, l).closed || exists m :: OwedBy(Next(s, l), n, m)
  {
    var next := Next(s, l);
    if Superseded(s, n) {
      if n !in s.closed {
        var m :| OwedBy(s, n, m);
        if next.handlers[m].phase == s.handlers[m].phase { assert OwedBy(next, n, m); }
      }
    } else {
      // n was its key's latest registration until this step.
      var key := s.handlers[n].key;
      assert EntryOk(s, key);
      if s.handlers[n].phase.Left? {
        assert n in s.closed;
      } else {
        assert OwedBy(next, n, l.n);
      }
    }
  }

  lemma {:induction false} InvRun(s: State, ls: seq<Label>)
    requires Inv(s)
    ensures Inv(Run(s, ls))
    decreases |ls|
  {
    hide Next, Inv;
    if ls != [] {
      InvStep(s, ls[0]);
      InvRun(Next(s, ls[0]), ls[1..]);
    }
  }

  /**
   In every run: what Dial finds under a key is the most recently registered
   session, and nothing exactly when none was registered or that one has
   unregistered, so a dying predecessor never evicts its successor; and every
   superseded session is closed or its successor's handler still owes the close.
   */
  lemma LatestSessionWins(ls: seq<Label>)
    ensures var s := Run(INIT, ls);
            && (forall key :: (if key in s.sessions then Some(s.sessions[key]) else None) == Expected(s, key))
            && (forall n :: Superseded(s, n) ==> n in s.closed || exists m :: OwedBy(s, n, m))
  {
    InvRun(INIT, ls);
    var s := Run(INIT, ls);
    assert forall key :: EntryOk(s, key) ==>
             (if key in s.sessions then Some(s.sessions[key]) else None) == Expected(s, key);
  }

  /** Once every handler is past its first two steps, every superseded session is closed. */
  lemma NothingOwedAtRest(ls: seq<Label>)
    ensures var s := Run(INIT, ls);
            (forall m :: m in s.handlers ==> !s.handlers[m].phase.MustClose?) ==>
              forall n :: Superseded(s, n) ==> n in s.closed
  {
    InvRun(INIT, ls);
  }

  // --- Nobody is closed without cause ---

  ghost predicate VictimsOk(s: State) {
    forall m :: m in s.handlers && s.handlers[m].phase.MustClose? && s.handlers[m].phase.victim.Some? ==>
      Superseded(s, s.handlers[m].phase.victim.value)
  }

  /** Once superseded, always superseded. */
  lemma SupersededStays(s: State, l: Label, n: nat)
    requires Inv(s) && Superseded(s, n)
    ensures Superseded(Next(s, l), n)
  {
    hide EntryOk, OwedBy;
  }

  lemma VictimsStep(s: State, l: Label)
    requires Inv(s) && VictimsOk(s)
    ensures VictimsOk(Next(s, l))
  {
    var next := Next(s, l);
    forall m | m in next.handlers && next.handlers[m].phase.MustClose? && next.handlers[m].phase.victim.Some?
      ensures Superseded(next, next.handlers[m].phase.victim.value)
    {
      var v := next.handlers[m].phase.victim.value;
      if m in s.handlers {
        SupersededStays(s, l, v);
      } else {
        assert EntryOk(s, l.key) && s.sessions[l.key] == v;
      }
    }
  }

  /** A step closes only a victim of its own handler, or a session that dies. */
  lemma ClosesOne(s: State, l: Label, n: nat)
    requires VictimsOk(s) && n in Next(s, l).closed && n !in s.closed
    ensures l == Die(n) || Superseded(s, n)
    ensures n in s.handlers
  {
  }

  lemma {:induction false} ClosedRun(s: State, ls: seq<Label>, n: nat)
    requires Inv(s) && VictimsOk(s) && n in Run(s, ls).closed
    ensures n in s.closed || Die(n) in ls || Superseded(Run(s, ls), n)
    decreases |ls|
  {
    hide Next, Inv, VictimsOk, Superseded;
    if ls != [] {
      var next := Next(s, ls[0]);
      assert ls == [ls[0]] + ls[1..];
      InvStep(s, ls[0]);
      VictimsStep(s, ls[0]);
      ClosedRun(next, ls[1..], n);
      if n in next.closed && n !in s.closed {
        ClosesOne(s, ls[0], n);
        if Superseded(s, n) {
          SupersededStays(s, ls[0], n);
          SupersededRun(next, ls[1..], n);
        }
      }
    }
  }

  lemma {:induction false} SupersededRun(s: State, ls: seq<Label>, n: nat)
    requires Inv(s) && Superseded(s, n)
    ensures Superseded(Run(s, ls), n)
    decreases |ls|
  {
    hide Next, Inv, Superseded;
    if ls != [] {
      InvStep(s, ls[0]);
      SupersededStays(s, ls[0], n);
      SupersededRun(Next(s, ls[0]), ls[1..], n);
    }
  }

  /** In every run a session is closed only because it died or because a later one took its key. */
  lemma OnlyDeadOrSupersededAreClosed(ls: seq<Label>, n: nat)
    requires n in Run(INIT, ls).closed
    ensures Die(n) in ls || Superseded(Run(INIT, ls), n)
  {
    ClosedRun(INIT, ls, n);
  }

  /**
   A connection's whole life: a new session takes its key, the one it replaced is
   closed, and a session that has ended leaves, taking its entry with it only if it
   still holds it.
   */
  lemma ConnectionLife(s: State, n: nat, key: string)
    requires n !in s.handlers
    ensures var taken := Next(s, Connect(n, key));
            var serving := Next(taken, CloseVictim(n));
            var left := Next(Next(serving, Die(n)), Disconnect(n));
            && taken.sessions == s.sessions[key := n] && taken.closed == s.closed
            && serving.sessions == taken.sessions
            && serving.closed == s.closed + (if key in s.sessions then {s.sessions[key]} else {})
            && n in left.handlers && left.handlers[n].phase == Left
            && left.closed == serving.closed + {n} && left.sessions == taken.sessions - {key}
  {
  }

  /** A session superseded while it served leaves its successor's entry alone. */
  lemma SupersededLeavesQuietly(s: State, n: nat)
    requires n in s.handlers && s.handlers[n].phase == Serving && n in s.closed
    requires s.handlers[n].key in s.sessions && s.sessions[s.handlers[n].key] != n
    ensures var left := Next(s, Disconnect(n));
            left.sessions == s.sessions && n in left.handlers && left.handlers[n].phase == Left
  {
  }
}
