/**
 What the remote driver's statement sequences leave behind when they stop
 partway: sweeps of expired tenants and the rate counter.
 */
module Interrupted {
  import opened Wrappers
  import opened Sql
  import opened StoreApi
  import opened D1Store

  // --- Sweeps ---

  /** The expired tenants in scan order. */
  function Overdue(db: Db, now: int): seq<Slug> {
    Where(db.rowids, ExpiredSet(db, now))
  }

  /** The tables after a sweep of which only the first n statements took effect. */
  function Sweep(db: Db, now: nat, n: nat): Db {
    var prog := Program(db, Op.DeleteExpiredTenants(now));
    Effects(db, if n <= |prog| then prog[..n] else prog)
  }

  /** The deletes among the first n statements of a sweep that lists len tenants. */
  function Deleted(n: nat, len: nat): nat {
    if n == 0 then 0 else if n - 1 <= len then n - 1 else len
  }

  function IfKept<T(==)>(x: T, keep: set<T>): seq<T> {
    if x in keep then [x] else []
  }

  lemma WhereCons<T>(s: seq<T>, keep: set<T>)
    ensures s == [] ==> Where(s, keep) == []
    ensures s != [] ==> Where(s, keep) == IfKept(s[0], keep) + Where(s[1..], keep)
  {
  }

  lemma {:induction false} WhereConcat<T>(a: seq<T>, b: seq<T>, keep: set<T>)
    ensures Where(a + b, keep) == Where(a, keep) + Where(b, keep)
  {
    hide Where, IfKept;
    WhereCons(a, keep);
    WhereCons(a + b, keep);
    if a == [] {
      assert a + b == b;
    } else {
      assert (a + b)[1..] == a[1..] + b;
      WhereConcat(a[1..], b, keep);
    }
  }

  /** Leaving out the first k selected elements leaves the rest of the selection. */
  lemma WhereSuffix<T>(s: seq<T>, keep: set<T>, k: nat)
    requires Distinct(s) && k <= |Where(s, keep)|
    ensures Where(s, keep - Elements(Where(s, keep)[..k])) == Where(s, keep)[k..]
  {
    hide Where, Distinct;
    var w := Where(s, keep);
    var cut := keep - Elements(w[..k]);
    WhereSpec(s, keep);
    WhereWhere(s, keep, cut);
    assert keep * cut == cut;
    forall x | x in w
      ensures x in cut <==> x !in w[..k]
    {
      WhereMember(s, keep, x);
      InElements(w[..k], x);
    }
    WhereTail(w, cut, k);
  }

  lemma WhereMember<T>(s: seq<T>, keep: set<T>, x: T)
    ensures x in Where(s, keep) <==> x in s && x in keep
  {
    WhereSpec(s, keep);
  }

  lemma InElements<T>(s: seq<T>, x: T)
    ensures x in Elements(s) <==> x in s
  {
  }

  lemma WhereTail<T>(w: seq<T>, cut: set<T>, k: nat)
    requires Distinct(w) && k <= |w|
    requires forall x :: x in w ==> (x in cut <==> x !in w[..k])
    ensures Where(w, cut) == w[k..]
  {
    assert w == w[..k] + w[k..];
    WhereConcat(w[..k], w[k..], cut);
    forall x | x in w[..k]
      ensures x !in cut
    {
      assert x in w;
    }
    WhereNone(w[..k], cut);
    TailAvoidsHead(w, k);
    WhereSpec(w[k..], cut);
  }

  lemma TailAvoidsHead<T>(w: seq<T>, k: nat)
    requires Distinct(w) && k <= |w|
    ensures forall x :: x in w[k..] ==> x in w && x !in w[..k]
  {
  }

  lemma {:induction false} WhereNone<T>(s: seq<T>, keep: set<T>)
    requires forall x :: x in s ==> x !in keep
    ensures Where(s, keep) == []
  {
    if s != [] {
      assert s[0] in s && forall x :: x in s[1..] ==> x in s;
      WhereNone(s[1..], keep);
    }
  }

  /**
   However a sweep ends, it removed exactly a prefix of the tenants it listed
   with everything under them, and no tenant that had not expired.
   */
  lemma SweepRemovesPrefix(db: Db, now: nat, n: nat)
    requires Integrity(db)
    ensures var gone := Overdue(db, now)[..Deleted(n, |Overdue(db, now)|)];
            && Sweep(db, now, n) == DropTenants(db, Elements(gone))
            && (forall s :: s in db.tenants && !Expired(db.tenants[s], now) ==>
                  s in Sweep(db, now, n).tenants && Sweep(db, now, n).tenants[s] == db.tenants[s])
    ensures Overdue(Sweep(db, now, n), now) == Overdue(db, now)[Deleted(n, |Overdue(db, now)|)..]
    ensures Integrity(Sweep(db, now, n))
  {
    hide Exec, Integrity, Program, Sweep, DropTenants;
    var slugs := Overdue(db, now);
    var d := Deleted(n, |slugs|);
    SweepIsDeletes(db, now, n);
    assert Deletes(slugs)[..d] == Deletes(slugs[..d]);
    DeletesDrop(db, slugs[..d]);
    ExpiredListed(db, now);
    DropKeepsIntegrity(db, Elements(slugs[..d]));
    RemainingOverdue(db, now, d);
    DropSpares(db, Elements(slugs[..d]));
    assert Elements(slugs[..d]) <= Elements(slugs);
  }

  lemma DropSpares(db: Db, gone: set<Slug>)
    ensures DropTenants(db, gone).tenants == db.tenants - gone
  {
  }

  lemma SweepIsDeletes(db: Db, now: nat, n: nat)
    requires Integrity(db)
    ensures Sweep(db, now, n) == Effects(db, Deletes(Overdue(db, now))[..Deleted(n, |Overdue(db, now)|)])
  {
    hide Exec, Integrity;
    var slugs := Overdue(db, now);
    var prog := Program(db, Op.DeleteExpiredTenants(now));
    SweepPrefix(db, now, Deleted(n, |slugs|));
    assert prog[..|slugs| + 1] == prog && prog[..0] == [] && Deletes(slugs)[..0] == [];
  }

  lemma RemainingOverdue(db: Db, now: nat, d: nat)
    requires Integrity(db) && d <= |Overdue(db, now)|
    ensures Overdue(DropTenants(db, Elements(Overdue(db, now)[..d])), now) == Overdue(db, now)[d..]
  {
    var gone := Elements(Overdue(db, now)[..d]);
    var after := DropTenants(db, gone);
    assert ExpiredSet(after, now) == ExpiredSet(db, now) - gone;
    WhereWhere(db.rowids, after.tenants.Keys, ExpiredSet(after, now));
    assert after.tenants.Keys * ExpiredSet(after, now) == ExpiredSet(after, now);
    WhereSuffix(db.rowids, ExpiredSet(db, now), d);
  }

  /** One sweep after another at the same time, the i-th stopped after cuts[i] statements. */
  function Sweeps(db: Db, now: nat, cuts: seq<nat>): Db
    decreases |cuts|
  {
    if cuts == [] then db else Sweeps(Sweep(db, now, cuts[0]), now, cuts[1..])
  }

  /** The deletes that got through over all those sweeps. */
  function Progress(len: nat, cuts: seq<nat>): (d: nat)
    ensures d <= len
    decreases |cuts|
  {
    if cuts == [] then 0
    else
      var d := Deleted(cuts[0], len);
      d + Progress(len - d, cuts[1..])
  }

  /**
   Any run of interrupted sweeps works through one and the same list from the
   front, so what is left is its tail after the deletes that got through.
   */
  lemma {:induction false} SweepsWorkThroughTheList(db: Db, now: nat, cuts: seq<nat>)
    requires Integrity(db)
    ensures Overdue(Sweeps(db, now, cuts), now) == Overdue(db, now)[Progress(|Overdue(db, now)|, cuts)..]
    decreases |cuts|
  {
    hide Exec, Integrity, Program, Sweep, DropTenants;
    if cuts != [] {
      SweepRemovesPrefix(db, now, cuts[0]);
      SweepsWorkThroughTheList(Sweep(db, now, cuts[0]), now, cuts[1..]);
      var len := |Overdue(db, now)|;
      var d := Deleted(cuts[0], len);
      assert Overdue(db, now)[d..][Progress(len - d, cuts[1..])..] == Overdue(db, now)[Progress(len, cuts)..];
    }
  }

  lemma {:induction false} ProgressCompletes(len: nat, cuts: seq<nat>, i: nat)
    requires i < |cuts| && cuts[i] >= len + 1
    ensures Progress(len, cuts) == len
    decreases i
  {
    if i > 0 {
      ProgressCompletes(len - Deleted(cuts[0], len), cuts[1..], i - 1);
    }
  }

  /** One complete sweep anywhere among them, long enough for the whole list, leaves no expired tenant. */
  lemma OneCompleteSweepSuffices(db: Db, now: nat, cuts: seq<nat>, i: nat)
    requires Integrity(db) && i < |cuts| && cuts[i] >= |Overdue(db, now)| + 1
    ensures Overdue(Sweeps(db, now, cuts), now) == []
    ensures forall s :: s in Sweeps(db, now, cuts).tenants ==> !Expired(Sweeps(db, now, cuts).tenants[s], now)
  {
    hide Integrity, Sweep, Overdue, Progress;
    SweepsWorkThroughTheList(db, now, cuts);
    ProgressCompletes(|Overdue(db, now)|, cuts, i);
    SweepsKeepIntegrity(db, now, cuts);
    NoneOverdue(Sweeps(db, now, cuts), now);
  }

  lemma {:induction false} SweepsKeepIntegrity(db: Db, now: nat, cuts: seq<nat>)
    requires Integrity(db)
    ensures Integrity(Sweeps(db, now, cuts))
    decreases |cuts|
  {
    hide Integrity, Sweep;
    if cuts != [] {
      SweepRemovesPrefix(db, now, cuts[0]);
      SweepsKeepIntegrity(Sweep(db, now, cuts[0]), now, cuts[1..]);
    }
  }

  lemma NoneOverdue(db: Db, now: nat)
    requires Integrity(db) && Overdue(db, now) == []
    ensures forall s :: s in db.tenants ==> !Expired(db.tenants[s], now)
  {
    WhereSpec(db.rowids, ExpiredSet(db, now));
    assert forall s :: s in db.tenants && Expired(db.tenants[s], now) ==> s in Where(db.rowids, ExpiredSet(db, now));
  }

  /** Every sweep that gets one delete through shrinks a non-empty list. */
  lemma EachDeleteShrinks(db: Db, now: nat, n: nat)
    requires Integrity(db) && n >= 2 && Overdue(db, now) != []
    ensures |Overdue(Sweep(db, now, n), now)| < |Overdue(db, now)|
  {
    hide Overdue, Sweep, Integrity, DropTenants, Expired;
    SweepRemovesPrefix(db, now, n);
    assert Deleted(n, |Overdue(db, now)|) >= 1;
  }

  /**
   While a sweep is under way other statements may run. If none of them
   inserts the slug again, the row its DELETE meets is the expired one it listed.
   */
  lemma {:induction false} ListedRowStays(db: Db, stmts: seq<Stmt>, slug: Slug)
    requires slug in db.tenants && (forall i :: 0 <= i < |stmts| ==> Spares(stmts[i], slug))
    ensures slug in Effects(db, stmts).tenants ==> Effects(db, stmts).tenants[slug] == db.tenants[slug]
    decreases |stmts|
  {
    if stmts != [] {
      var next := Exec(db, stmts[0]).0;
      assert Spares(stmts[0], slug);
      if slug in next.tenants {
        RowsNeverChange(db, stmts[0], slug);
        ListedRowStays(next, stmts[1..], slug);
      } else {
        StaysAbsent(next, stmts[1..], slug);
      }
    }
  }

  lemma {:induction false} StaysAbsent(db: Db, stmts: seq<Stmt>, slug: Slug)
    requires slug !in db.tenants && (forall i :: 0 <= i < |stmts| ==> Spares(stmts[i], slug))
    ensures slug !in Effects(db, stmts).tenants
    decreases |stmts|
  {
    if stmts != [] {
      assert Spares(stmts[0], slug);
      StaysGone(db, stmts[0], slug);
      StaysAbsent(Exec(db, stmts[0]).0, stmts[1..], slug);
    }
  }

  /** With slug reuse the same DELETE can remove a tenant that has not expired. */
  lemma ReusedSlugCounterexample()
    ensures var db := EMPTY.(tenants := map["q" := Tenant("", 0, Some(5))], rowids := ["q"]);
            var after := Effects(db, [DeleteTenantRow("q"), InsertTenant("q", Tenant("", 10, Some(100)))]);
            && Integrity(db) && Overdue(db, 10) == ["q"]
            && "q" in after.tenants && Live(after.tenants["q"], 10)
            && "q" !in Exec(after, DeleteTenantRow("q")).0.tenants
  {
    var db := EMPTY.(tenants := map["q" := Tenant("", 0, Some(5))], rowids := ["q"]);
    var stmts := [DeleteTenantRow("q"), InsertTenant("q", Tenant("", 10, Some(100)))];
    assert "q" in ExpiredSet(db, 10);
    var gone := Exec(db, stmts[0]).0;
    assert "q" !in gone.tenants;
    assert stmts[1..] == [stmts[1]];
    assert Effects(db, stmts) == Effects(Exec(gone, stmts[1]).0, []);
  }

  // --- The rate counter ---

  function Counter(db: Db, ip: string, now: nat): nat {
    if (ip, Window(now)) in db.rate then db.rate[(ip, Window(now))] else 0
  }

  /**
   A rate hit that stops partway has counted the attempt exactly when its
   second statement took effect: a failing read-back leaves the increment.
   */
  lemma InterruptedHitCounts(db: Db, ip: string, now: nat, w: seq<Weather>)
    ensures var prog := Program(db, Op.QuickRateHit(ip, now));
            var k := FirstDown(w, 3);
            k < 3 ==> Counter(Effects(db, prog[..Kept(w, k)]), ip, now)
                      == Counter(db, ip, now) + if Kept(w, k) >= 2 then 1 else 0
  {
    PrefixCounts(db, ip, now);
  }

  lemma PrefixCounts(db: Db, ip: string, now: nat)
    ensures var prog := Program(db, Op.QuickRateHit(ip, now));
            forall n :: 0 <= n <= 3 ==>
              Counter(Effects(db, prog[..n]), ip, now) == Counter(db, ip, now) + if n >= 2 then 1 else 0
  {
    var prog := Program(db, Op.QuickRateHit(ip, now));
    PrefixStates(db, prog);
    HitStates(db, ip, now);
    hide Exec, Effects, Counter;
    forall n | 0 <= n <= 3
      ensures Counter(Effects(db, prog[..n]), ip, now) == Counter(db, ip, now) + if n >= 2 then 1 else 0
    {
      assert n == 0 || n == 1 || n == 2 || n == 3;
    }
  }

  /** The counter after each statement of a hit. */
  lemma HitStates(db: Db, ip: string, now: nat)
    ensures var prog := Program(db, Op.QuickRateHit(ip, now));
            var pruned := Exec(db, prog[0]).0;
            var bumped := Exec(pruned, prog[1]).0;
            && Counter(pruned, ip, now) == Counter(db, ip, now)
            && Counter(bumped, ip, now) == Counter(db, ip, now) + 1
            && Exec(bumped, prog[2]).0 == bumped
  {
  }

  lemma PrefixStates(db: Db, prog: seq<Stmt>)
    requires |prog| == 3
    ensures var a := Exec(db, prog[0]).0;
            var b := Exec(a, prog[1]).0;
            && Effects(db, prog[..0]) == db && Effects(db, prog[..1]) == a
            && Effects(db, prog[..2]) == b && Effects(db, prog[..3]) == Exec(b, prog[2]).0
  {
    hide Exec;
    EffectsSnoc(db, prog, 0);
    EffectsSnoc(db, prog, 1);
    EffectsSnoc(db, prog, 2);
    assert prog[..0] == [];
  }
}
