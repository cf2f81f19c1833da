/** The in-memory per-IP limiter of the token and registration endpoints. Times are nanoseconds. */
module IpRate {
  import opened Counting

  const HOUR := 3600 * 1_000_000_000

  datatype Limiter = Limiter(hits: map<string, nat>, reset: int)

  function Hits(l: Limiter, ip: string): nat {
    if ip in l.hits then l.hits[ip] else 0
  }

  /** One call; the clock is read once to compare and once more when the window restarts. */
  datatype Call = Call(ip: string, now: int, again: int)

  predicate Restarts(l: Limiter, c: Call) {
    c.now > l.reset
  }

  function After(l: Limiter, c: Call): Limiter {
    var base := if Restarts(l, c) then Limiter(map[], c.again + HOUR) else l;
    base.(hits := base.hits[c.ip := Hits(base, c.ip) + 1])
  }

  /** The answer to a call of ip that left the limiter like this. */
  predicate Admits(l: Limiter, ip: string, limit: nat) {
    Hits(l, ip) <= limit
  }

  class IpRate {
    var hits: map<string, nat>
    var reset: int

    ghost function View(): Limiter
      reads this
    {
      Limiter(hits, reset)
    }

    constructor (now: int)
      ensures View() == Limiter(map[], now + HOUR)
    {
      hits, reset := map[], now + HOUR;
    }

    method Allow(ip: string, limit: nat, now: int, again: int) returns (ok: bool)
      modifies this
      ensures View() == After(old(View()), Call(ip, now, again))
      ensures ok == Admits(View(), ip, limit)
    {
      if now > reset {
        hits := map[];
        reset := again + HOUR;
      }
      hits := hits[ip := (if ip in hits then hits[ip] else 0) + 1];
      ok := hits[ip] <= limit;
    }
  }

  // --- Whole runs ---

  /** The limiter before call n of a run. */
  function State(start: int, cs: seq<Call>, n: nat): Limiter
    requires n <= |cs|
  {
    if n == 0 then Limiter(map[], start + HOUR) else After(State(start, cs, n - 1), cs[n - 1])
  }

  /** How often the window restarted in the first n calls. */
  function Epoch(start: int, cs: seq<Call>, n: nat): nat
    requires n <= |cs|
  {
    if n == 0 then 0
    else Epoch(start, cs, n - 1) + if Restarts(State(start, cs, n - 1), cs[n - 1]) then 1 else 0
  }

  /** The clock does not go back within or between calls. */
  ghost predicate Monotone(start: int, cs: seq<Call>) {
    && (forall i :: 0 <= i < |cs| ==> start <= cs[i].now <= cs[i].again)
    && (forall i, j :: 0 <= i < j < |cs| ==> cs[i].again <= cs[j].now)
  }

  /** The count call i sees, including itself. */
  function Rank(start: int, cs: seq<Call>, i: nat): nat
    requires i < |cs|
  {
    Hits(State(start, cs, i + 1), cs[i].ip)
  }

  /** The calls of ip between two times that were allowed. */
  function Allowed(start: int, cs: seq<Call>, ip: string, limit: nat, from: int, to: int): set<nat> {
    set i: nat | i < |cs| && cs[i].ip == ip && from <= cs[i].now <= to
                  && Admits(State(start, cs, i + 1), ip, limit)
  }

  lemma {:induction false} EpochGrows(start: int, cs: seq<Call>, i: nat, j: nat)
    requires i <= j <= |cs|
    ensures Epoch(start, cs, i) <= Epoch(start, cs, j)
    decreases j
  {
    if i < j { EpochGrows(start, cs, i, j - 1); }
  }

  /** Within one epoch the count of an IP only grows, so no two calls see the same. */
  lemma {:induction false} CountGrows(start: int, cs: seq<Call>, i: nat, j: nat)
    requires i < j <= |cs| && Epoch(start, cs, i + 1) == Epoch(start, cs, j)
    ensures Rank(start, cs, i) <= Hits(State(start, cs, j), cs[i].ip)
    ensures j < |cs| && cs[j].ip == cs[i].ip && Epoch(start, cs, j + 1) == Epoch(start, cs, j) ==>
              Rank(start, cs, i) < Rank(start, cs, j)
    decreases j
  {
    if i + 1 < j {
      EpochGrows(start, cs, i + 1, j - 1);
      CountGrows(start, cs, i, j - 1);
    }
  }

  lemma RanksDiffer(start: int, cs: seq<Call>, i: nat, j: nat)
    requires i < j < |cs| && cs[i].ip == cs[j].ip && Epoch(start, cs, i + 1) == Epoch(start, cs, j + 1)
    ensures Rank(start, cs, i) != Rank(start, cs, j)
  {
    EpochGrows(start, cs, i + 1, j);
    EpochGrows(start, cs, j, j + 1);
    CountGrows(start, cs, i, j);
  }

  /** The window in force at any later time ends at least an hour after the epoch's first call. */
  lemma {:induction false} ResetIsLate(start: int, cs: seq<Call>, i: nat, j: nat)
    requires Monotone(start, cs) && i < j <= |cs| && Epoch(start, cs, i + 1) < Epoch(start, cs, j)
    ensures State(start, cs, j).reset >= cs[i].now + HOUR
    decreases j
  {
    if Epoch(start, cs, j - 1) == Epoch(start, cs, j) {
      assert i + 1 < j;
      ResetIsLate(start, cs, i, j - 1);
    } else {
      assert State(start, cs, j).reset == cs[j - 1].again + HOUR;
      assert i < j - 1;
      assert cs[i].again <= cs[j - 1].now;
    }
  }

  /** Calls at most an hour apart are at most one epoch apart. */
  lemma {:induction false} HourSpansTwoEpochs(start: int, cs: seq<Call>, i: nat, j: nat)
    requires Monotone(start, cs) && i <= j < |cs| && cs[j].now <= cs[i].now + HOUR
    ensures Epoch(start, cs, j + 1) <= Epoch(start, cs, i + 1) + 1
    decreases j
  {
    if i < j {
      HourSpansTwoEpochs(start, cs, i, j - 1) by {
        if i < j - 1 { assert cs[j - 1].again <= cs[j].now; }
      }
      if Epoch(start, cs, j) == Epoch(start, cs, i + 1) + 1 {
        ResetIsLate(start, cs, i, j);
      }
    }
  }

  lemma EpochHasRoom(start: int, cs: seq<Call>, ip: string, limit: nat, epoch: nat, s: set<nat>)
    requires forall i :: i in s ==> i < |cs| && cs[i].ip == ip && Rank(start, cs, i) <= limit
                                    && Epoch(start, cs, i + 1) == epoch
    ensures |s| <= limit
  {
    var rank := map i | i in s :: Rank(start, cs, i);
    forall i, j | i in s && j in s && i != j
      ensures rank[i] != rank[j]
    {
      if i < j { RanksDiffer(start, cs, i, j); } else { RanksDiffer(start, cs, j, i); }
    }
    Pigeonhole(s, rank, limit);
  }

  /** The calls of ip among the first n that came since the window last restarted, the restarting call included. */
  function SinceRestart(start: int, cs: seq<Call>, n: nat, ip: string): set<nat>
    requires n <= |cs|
  {
    set i: nat | i < n && cs[i].ip == ip && Epoch(start, cs, i + 1) == Epoch(start, cs, n)
  }

  lemma SinceRestartSnoc(start: int, cs: seq<Call>, n: nat, ip: string)
    requires 0 < n <= |cs|
    ensures var same := Epoch(start, cs, n) == Epoch(start, cs, n - 1);
            var before := if same then SinceRestart(start, cs, n - 1, ip) else {};
            SinceRestart(start, cs, n, ip) == before + if cs[n - 1].ip == ip then {n - 1} else {}
  {
    hide Epoch;
    if Epoch(start, cs, n) != Epoch(start, cs, n - 1) {
      forall i: nat | i < n - 1 && cs[i].ip == ip
        ensures Epoch(start, cs, i + 1) != Epoch(start, cs, n)
      {
        EpochGrows(start, cs, i + 1, n - 1);
        EpochGrows(start, cs, n - 1, n);
      }
    }
  }

  /** The stored count of an IP is exactly the number of its calls since the window last restarted. */
  lemma {:induction false} CountsEveryCall(start: int, cs: seq<Call>, n: nat, ip: string)
    requires n <= |cs|
    ensures Hits(State(start, cs, n), ip) == |SinceRestart(start, cs, n, ip)|
  {
    if n == 0 {
      assert SinceRestart(start, cs, 0, ip) == {};
    } else {
      CountsEveryCall(start, cs, n - 1, ip);
      SinceRestartSnoc(start, cs, n, ip);
      var before := if Epoch(start, cs, n) == Epoch(start, cs, n - 1) then SinceRestart(start, cs, n - 1, ip) else {};
      assert n - 1 !in before;
      hide SinceRestart;
    }
  }

  /** A call is allowed exactly when it is among the first calls of its IP since the window last restarted. */
  lemma AllowsTheFirst(start: int, cs: seq<Call>, n: nat, limit: nat)
    requires n < |cs|
    ensures Admits(State(start, cs, n + 1), cs[n].ip, limit)
            <==> |SinceRestart(start, cs, n + 1, cs[n].ip)| <= limit
  {
    CountsEveryCall(start, cs, n + 1, cs[n].ip);
    hide SinceRestart, State;
  }

  /** The window restarts exactly at a call later than an hour after it last did, and then runs for an hour. */
  lemma RestartsAfterAnHour(start: int, cs: seq<Call>, n: nat)
    requires n < |cs|
    ensures State(start, cs, 0).reset == start + 3_600_000_000_000
    ensures Epoch(start, cs, n + 1) == Epoch(start, cs, n) + if cs[n].now > State(start, cs, n).reset then 1 else 0
    ensures State(start, cs, n + 1).reset
            == if Epoch(start, cs, n + 1) == Epoch(start, cs, n) then State(start, cs, n).reset
               else cs[n].again + 3_600_000_000_000
  {
  }

  /**
   Windows restart at the first call after the old one ran out, not on the
   hour; still no hour, wherever it starts, allows more than twice the limit per IP.
   */
  lemma HourAllowsTwiceTheLimit(start: int, cs: seq<Call>, ip: string, limit: nat, from: int)
    requires Monotone(start, cs)
    ensures |Allowed(start, cs, ip, limit, from, from + HOUR)| <= 2 * limit
  {
    hide Allowed, Epoch, Rank, Monotone, State, InEpoch;
    var s := Allowed(start, cs, ip, limit, from, from + HOUR);
    if s != {} {
      var first := Least(s);
      AllowedMember(start, cs, ip, limit, from, from + HOUR);
      var e := Epoch(start, cs, first + 1);
      var a := InEpoch(start, cs, s, e);
      var b := InEpoch(start, cs, s, e + 1);
      InEpochMember(start, cs, s, e);
      InEpochMember(start, cs, s, e + 1);
      forall i | i in s
        ensures i in a + b
      {
        assert first <= i && cs[i].now <= cs[first].now + HOUR;
        HourSpansTwoEpochs(start, cs, first, i);
        EpochGrows(start, cs, first + 1, i + 1);
      }
      EpochHasRoom(start, cs, ip, limit, e, a);
      EpochHasRoom(start, cs, ip, limit, e + 1, b);
      UnionSize(s, a, b);
    }
  }

  lemma InEpochMember(start: int, cs: seq<Call>, s: set<nat>, e: nat)
    ensures forall i :: i in InEpoch(start, cs, s, e) <==> i in s && i < |cs| && Epoch(start, cs, i + 1) == e
  {
  }

  function InEpoch(start: int, cs: seq<Call>, s: set<nat>, e: nat): set<nat> {
    set i | i in s && i < |cs| && Epoch(start, cs, i + 1) == e
  }

  lemma AllowedMember(start: int, cs: seq<Call>, ip: string, limit: nat, from: int, to: int)
    ensures forall i :: i in Allowed(start, cs, ip, limit, from, to) ==>
              i < |cs| && cs[i].ip == ip && from <= cs[i].now <= to && Rank(start, cs, i) <= limit
  {
  }
}
