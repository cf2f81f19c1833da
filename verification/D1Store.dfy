/**
 The remote driver: one statement per request, in order, with no rollback. A
 request can be refused before it runs, or run while its answer is lost; the
 client cannot tell the two apart. The row counts the service reports may
 include cascaded deletes and index rows, so only zero is meaningful.
 */
module D1Store {
  import opened Wrappers
  import opened Sql
  import opened StoreApi

  /** What happens to one request. surplus is what the service adds to a positive row count. */
  datatype Weather = Up(surplus: nat) | Refused | Lost

  /** The two classes of error the driver distinguishes by message. */
  datatype QueryError = UniqueFailed | OtherFailure

  function WeatherAt(w: seq<Weather>, i: nat): Weather {
    if i < |w| then w[i] else Up(0)
  }

  function Later(w: seq<Weather>, n: nat): seq<Weather> {
    if n <= |w| then w[n..] else []
  }

  function Metered(r: Res, surplus: nat): Res {
    if r.Done? && r.affected > 0 then Done(r.rows, r.affected + surplus) else r
  }

  /** A reported row count can be any number from the real one up, but nothing written is reported as nothing. */
  lemma ReportedCounts(r: Res, n: nat)
    requires r.Done?
    ensures (exists surplus: nat :: Metered(r, surplus) == Done(r.rows, n))
            <==> if r.affected == 0 then n == 0 else n >= r.affected
  {
    if n >= r.affected { assert r.affected > 0 || n == 0 ==> Metered(r, n - r.affected) == Done(r.rows, n); }
  }

  /** The first of n requests that does not succeed, or n. */
  function FirstDown(w: seq<Weather>, n: nat): (k: nat)
    ensures k <= n
  {
    if n == 0 || w == [] then n else if !w[0].Up? then 0 else 1 + FirstDown(w[1..], n - 1)
  }

  lemma {:induction false} FirstDownIs(w: seq<Weather>, n: nat, k: nat)
    requires k <= n && (forall i :: 0 <= i < k ==> WeatherAt(w, i).Up?) && (k < n ==> !WeatherAt(w, k).Up?)
    ensures FirstDown(w, n) == k
    decreases n
  {
    if n > 0 && w != [] {
      assert WeatherAt(w, 0) == w[0];
      if k > 0 {
        forall i | 0 <= i < k - 1
          ensures WeatherAt(w[1..], i).Up?
        {
          assert WeatherAt(w[1..], i) == WeatherAt(w, i + 1);
        }
        FirstDownIs(w[1..], n - 1, k - 1);
      }
    }
  }

  /** How many statements took effect when request k was the first to go wrong. */
  function Kept(w: seq<Weather>, k: nat): nat {
    if WeatherAt(w, k).Lost? then k + 1 else k
  }

  /** The statements an operation issues when every request succeeds. */
  function Program(db: Db, op: Op): seq<Stmt> {
    match op
    case DeleteExpiredTenants(now) => [SelectExpired(now)] + Deletes(Where(db.rowids, ExpiredSet(db, now)))
    case QuickRateHit(ip, now) =>
      [PruneRate(Window(now) - 2), UpsertRate(ip, Window(now)), SelectRate(ip, Window(now))]
    case CreateService(slug, name, _, _, _, _) => [InsertServiceIfTenant(slug, name, NewService(D1_PREFIX, op))]
    case ConsumeAuthCode(digest, now) =>
      [ClaimCode(digest, now)] + if Consumable(db, digest, now) then [SelectCode(digest)] else []
    case _ => [SingleStatement(op)]
  }

  /** What the caller gets when request k of the program was the first to go wrong. */
  function Interrupted(db: Db, op: Op, k: nat): Ret {
    if op.DeleteExpiredTenants? && k > 0 then PartialSweep(Where(db.rowids, ExpiredSet(db, op.now))) else Fail(Failed)
  }

  /** query's outcome: the statements before the first failure ran, the rest were never sent. */
  ghost predicate Ran(before: Db, w: seq<Weather>, stmts: seq<Stmt>, results: seq<Res>, err: Option<QueryError>,
                      after: Db, rest: seq<Weather>)
  {
    var k := |results|;
    && k <= |stmts|
    && (forall i :: 0 <= i < k ==>
          var r := Exec(Effects(before, stmts[..i]), stmts[i]).1;
          WeatherAt(w, i).Up? && r.Done? && results[i] == Metered(r, WeatherAt(w, i).surplus))
    && (if k == |stmts| then
          err.None? && after == Effects(before, stmts) && rest == Later(w, k)
        else
          && rest == Later(w, k + 1)
          && match WeatherAt(w, k)
             case Refused => err == Some(OtherFailure) && after == Effects(before, stmts[..k])
             case Lost => err == Some(OtherFailure) && after == Effects(before, stmts[..k + 1])
             case Up(_) =>
               var r := Exec(Effects(before, stmts[..k]), stmts[k]).1;
               !r.Done? && after == Effects(before, stmts[..k])
               && err == Some(if r.UniqueViolation? then UniqueFailed else OtherFailure))
  }

  /** Every statement of the sequence is accepted by the database. */
  ghost predicate Accepted(db: Db, stmts: seq<Stmt>) {
    forall i :: 0 <= i < |stmts| ==> Exec(Effects(db, stmts[..i]), stmts[i]).1.Done?
  }

  /** With acceptable statements only the network can stop a query. */
  lemma RanUntilDown(before: Db, w: seq<Weather>, stmts: seq<Stmt>, results: seq<Res>, err: Option<QueryError>,
                     after: Db, rest: seq<Weather>)
    requires Ran(before, w, stmts, results, err, after, rest) && Accepted(before, stmts)
    ensures |results| == FirstDown(w, |stmts|)
    ensures |results| == |stmts| ==> after == Effects(before, stmts) && err == None && rest == Later(w, |results|)
    ensures |results| < |stmts| ==>
              after == Effects(before, stmts[..Kept(w, |results|)]) && err == Some(OtherFailure)
              && rest == Later(w, |results| + 1)
  {
    FirstDownIs(w, |stmts|, |results|);
    if |results| < |stmts| {
      assert Exec(Effects(before, stmts[..|results|]), stmts[|results|]).1.Done?;
    }
  }

  /**
   What every method of this driver does: with no failed request it meets the
   contract; otherwise exactly the statements before the failed request took
   effect (and that request too, if only its answer was lost), none after it.
   */
  ghost predicate Meets(before: Db, w: seq<Weather>, op: Op, after: Db, rest: seq<Weather>, ret: Ret) {
    var prog := Program(before, op);
    var k := FirstDown(w, |prog|);
    if k == |prog| then (after, ret) == Api(D1_PREFIX, before, op) && rest == Later(w, k)
    else
      && after == Effects(before, prog[..Kept(w, k)])
      && ret == Interrupted(before, op, k)
      && rest == Later(w, k + 1)
  }

  lemma LaterLater(w: seq<Weather>, a: nat, b: nat)
    ensures Later(Later(w, a), b) == Later(w, a + b)
    ensures forall i: nat :: WeatherAt(Later(w, a), i) == WeatherAt(w, a + i)
  {
  }

  /** The first failed request does not depend on what stands before it. */
  lemma {:induction false} FirstDownSplit(w: seq<Weather>, a: nat, b: nat)
    ensures FirstDown(w, a) == a ==> FirstDown(w, a + b) == a + FirstDown(Later(w, a), b)
    ensures FirstDown(w, a) < a ==> FirstDown(w, a + b) == FirstDown(w, a)
    decreases a
  {
    if a > 0 && w != [] && w[0].Up? {
      FirstDownSplit(w[1..], a - 1, b);
      assert Later(w[1..], a - 1) == Later(w, a);
    }
  }

  class Store {
    var remote: Db
    var weather: seq<Weather>

    ghost predicate Valid()
      reads this
    {
      Integrity(remote)
    }

    constructor (weather: seq<Weather>)
      ensures Valid() && remote == EMPTY && this.weather == weather
    {
      remote, this.weather := EMPTY, weather;
    }

    /** One request. */
    method Send(st: Stmt) returns (r: Result<Res, QueryError>)
      requires Valid()
      modifies this
      ensures Valid()
      ensures weather == Later(old(weather), 1)
      ensures remote == if WeatherAt(old(weather), 0).Refused? then old(remote) else Exec(old(remote), st).0
      ensures var res := Exec(old(remote), st).1;
              match WeatherAt(old(weather), 0)
              case Up(surplus) =>
                if res.Done? then r == Ok(Metered(res, surplus))
                else r == Err(if res.UniqueViolation? then UniqueFailed else OtherFailure)
              case _ => r == Err(OtherFailure)
    {
      hide Exec, Integrity;
      ExecKeepsIntegrity(remote, st);
      var w := WeatherAt(weather, 0);
      weather := Later(weather, 1);
      if w.Refused? { return Err(OtherFailure); }
      var (after, res) := Exec(remote, st);
      remote := after;
      if w.Lost? { return Err(OtherFailure); }
      match res
      case Done(_, _) => r := Ok(Metered(res, w.surplus));
      case UniqueViolation => r := Err(UniqueFailed);
      case ForeignKeyViolation => r := Err(OtherFailure);
    }

    /** Sends the statements in order and stops at the first that fails. */
    method Query(stmts: seq<Stmt>) returns (results: seq<Res>, err: Option<QueryError>)
      requires Valid()
      modifies this
      ensures Valid()
      ensures Ran(old(remote), old(weather), stmts, results, err, remote, weather)
    {
      hide Exec, Integrity;
      results, err := [], None;
      var i := 0;
      assert stmts[..0] == [];
      while i < |stmts|
        invariant 0 <= i <= |stmts| && |results| == i
        invariant Valid() && remote == Effects(old(remote), stmts[..i]) && weather == Later(old(weather), i)
        invariant forall j :: 0 <= j < i ==>
                    var r := Exec(Effects(old(remote), stmts[..j]), stmts[j]).1;
                    WeatherAt(old(weather), j).Up? && r.Done?
                    && results[j] == Metered(r, WeatherAt(old(weather), j).surplus)
      {
        EffectsSnoc(old(remote), stmts, i);
        RefusedChangesNothing(remote, stmts[i]);
        var r := Send(stmts[i]);
        if r.Err? { return results, Some(r.error); }
        results := results + [r.value];
        i := i + 1;
      }
      assert stmts[..i] == stmts;
    }

    /** Prunes old windows, counts the hit, and reads the count back. */
    method QuickRateHit(ip: string, now: nat) returns (r: Result<int, Error>)
      requires Valid()
      modifies this
      ensures Valid()
      ensures Meets(old(remote), old(weather), Op.QuickRateHit(ip, now), remote, weather,
                    if r.Ok? then CountRet(r.value) else Fail(r.error))
    {
      hide Exec, Integrity;
      var prog := [PruneRate(Window(now) - 2), UpsertRate(ip, Window(now)), SelectRate(ip, Window(now))];
      QuickRateProgram(remote, ip, now);
      var results, err := Query(prog);
      RanUntilDown(old(remote), old(weather), prog, results, err, remote, weather);
      if err.Some? { return Err(Failed); }
      if results[2].rows == [] { return Err(Failed); }
      r := Ok(results[2].rows[0].n);
    }

    /** The tenant check is folded into the INSERT; zero rows written means no such tenant. */
    method CreateService(op: Op) returns (r: Result<string, Error>)
      requires Valid() && op.CreateService?
      modifies this
      ensures Valid()
      ensures Meets(old(remote), old(weather), op, remote, weather, if r.Ok? then KeyRet(r.value) else Fail(r.error))
    {
      var stmt := InsertServiceIfTenant(op.slug, op.name, NewService(D1_PREFIX, op));
      OneStatement(remote, weather, stmt);
      var results, err := One(stmt);
      if err == Some(UniqueFailed) { return Err(Exists); }
      if err.Some? { return Err(Failed); }
      if results.affected == 0 { return Err(NotFound); }
      r := Ok(D1_PREFIX + op.random);
    }

    /** Claims the code by its affected-row count, then reads the claimed row. */
    method ConsumeAuthCode(digest: Digest, now: nat) returns (r: Result<AuthCode, Error>)
      requires Valid()
      modifies this
      ensures Valid()
      ensures Meets(old(remote), old(weather), Op.ConsumeAuthCode(digest, now), remote, weather,
                    if r.Err? then Fail(r.error)
                    else GrantRet(r.value.tenant, r.value.client, r.value.redirect, r.value.challenge))
    {
      hide Exec, Integrity, Meets, Api, WeatherAt, Later;
      ConsumeMeets(remote, weather, digest, now);
      var claim, err := One(ClaimCode(digest, now));
      if err.Some? { return Err(Failed); }
      if claim.affected == 0 { return Err(NotFound); }
      var row, err' := One(SelectCode(digest));
      if err'.Some? { return Err(Failed); }
      if row.rows == [] { return Err(Failed); }
      r := Ok(row.rows[0].code);
    }

    /** Lists the expired tenants, then deletes them one request each. */
    method DeleteExpiredTenants(now: nat) returns (slugs: seq<Slug>, err: bool)
      requires Valid()
      modifies this
      ensures Valid()
      ensures Meets(old(remote), old(weather), Op.DeleteExpiredTenants(now), remote, weather,
                    if !err then SlugsRet(slugs) else if slugs == [] then Fail(Failed) else PartialSweep(slugs))
    {
      hide Exec, Integrity, Meets, Ran, Where, ExpiredSet, FirstDown;
      ghost var before, w := remote, weather;
      SweepProgram(before, w, now);
      var listed, e := One(SelectExpired(now));
      SweepListed(before, w, now);
      if e.Some? { return [], true; }
      slugs := SlugsOf(listed.rows);
      if slugs == [] { return [], false; }
      var results, e' := Query(Deletes(slugs));
      SweepDeleted(before, w, now, results, e', remote, weather);
      err := e'.Some?;
    }

    /** A query of a single statement. */
    method One(st: Stmt) returns (res: Res, err: Option<QueryError>)
      requires Valid()
      modifies this
      ensures Valid()
      ensures weather == Later(old(weather), 1)
      ensures remote == if WeatherAt(old(weather), 0).Refused? then old(remote) else Exec(old(remote), st).0
      ensures var r := Exec(old(remote), st).1;
              match WeatherAt(old(weather), 0)
              case Up(surplus) =>
                if r.Done? then err == None && res == Metered(r, surplus)
                else err == Some(if r.UniqueViolation? then UniqueFailed else OtherFailure)
              case _ => err == Some(OtherFailure)
    {
      hide Exec, Integrity;
      ghost var before := remote;
      var results, e := Query([st]);
      assert [st][..0] == [] && [st][..1] == [st];
      assert Effects(before, [st]) == Exec(before, st).0;
      RefusedChangesNothing(before, st);
      res, err := if |results| == 1 then results[0] else Done([], 0), e;
    }

    /** Runs any operation of the contract. */
    method Do(op: Op) returns (ret: Ret)
      requires Valid()
      modifies this
      ensures Valid()
      ensures Meets(old(remote), old(weather), op, remote, weather, ret)
    {
      match op
      case DeleteExpiredTenants(now) =>
        var slugs, err := DeleteExpiredTenants(now);
        ret := if !err then SlugsRet(slugs) else if slugs == [] then Fail(Failed) else PartialSweep(slugs);
      case QuickRateHit(ip, now) =>
        var r := QuickRateHit(ip, now);
        ret := if r.Ok? then CountRet(r.value) else Fail(r.error);
      case CreateService(_, _, _, _, _, _) =>
        var r := CreateService(op);
        ret := if r.Ok? then KeyRet(r.value) else Fail(r.error);
      case ConsumeAuthCode(digest, now) =>
        var r := ConsumeAuthCode(digest, now);
        ret := if r.Err? then Fail(r.error)
               else GrantRet(r.value.tenant, r.value.client, r.value.redirect, r.value.challenge);
      case _ => ret := DoSingle(op);
    }

    method DoSingle(op: Op) returns (ret: Ret)
      requires Valid() && IsSingle(op)
      modifies this
      ensures Valid()
      ensures Meets(old(remote), old(weather), op, remote, weather, ret)
    {
      hide Exec, Integrity, Meets, WeatherAt, Metered, ReadSingle, SingleStatement;
      var st := SingleStatement(op);
      var res, err := One(st);
      if err.Some? {
        ret := ReadSingle(op, if err.value.UniqueFailed? then UniqueViolation else ForeignKeyViolation);
      } else {
        ret := ReadSingle(op, res);
      }
      SingleMeets(old(remote), old(weather), op, remote, weather, ret);
    }
  }

  /** The outcome of a single-statement operation, by the fate of its request. */
  lemma SingleMeets(before: Db, w: seq<Weather>, op: Op, after: Db, rest: seq<Weather>, ret: Ret)
    requires Integrity(before) && IsSingle(op) && rest == Later(w, 1)
    requires after == if WeatherAt(w, 0).Refused? then before else Exec(before, SingleStatement(op)).0
    requires var r := Exec(before, SingleStatement(op)).1;
             match WeatherAt(w, 0)
             case Up(surplus) => ret == ReadSingle(op, if r.Done? then Metered(r, surplus) else r)
             case _ => ret == ReadSingle(op, ForeignKeyViolation)
    ensures Meets(before, w, op, after, rest, ret)
  {
    hide Exec, Integrity, Api, ReadSingle, SingleStatement, Program, Metered, Interrupted;
    var st := SingleStatement(op);
    SingleProgram(before, op);
    SingleMeetsApi(D1_PREFIX, before, op);
    OneStatement(before, w, st);
    if WeatherAt(w, 0).Up? { ReadMetered(op, Exec(before, st).1, WeatherAt(w, 0).surplus); }
  }

  // --- The programs of the multi-statement operations ---

  lemma OneStatement(db: Db, w: seq<Weather>, st: Stmt)
    ensures FirstDown(w, 1) == if WeatherAt(w, 0).Up? then 1 else 0
    ensures Effects(db, [st]) == Exec(db, st).0
    ensures Effects(db, [st][..0]) == db && Effects(db, [st][..1]) == Exec(db, st).0
  {
    hide Exec;
    FirstDownIs(w, 1, if WeatherAt(w, 0).Up? then 1 else 0);
    assert [st][..0] == [] && [st][..1] == [st];
    assert Effects(Exec(db, st).0, [st][1..]) == Exec(db, st).0;
  }

  lemma SingleProgram(db: Db, op: Op)
    requires IsSingle(op)
    ensures Program(db, op) == [SingleStatement(op)]
    ensures Interrupted(db, op, 0) == Fail(Failed) == ReadSingle(op, ForeignKeyViolation)
  {
  }

  lemma ReadMetered(op: Op, r: Res, surplus: nat)
    requires IsSingle(op)
    ensures ReadSingle(op, Metered(r, surplus)) == ReadSingle(op, r)
  {
  }

  lemma QuickRateProgram(db: Db, ip: string, now: nat)
    ensures var prog := Program(db, Op.QuickRateHit(ip, now));
            && Accepted(db, prog)
            && Effects(db, prog) == Api(D1_PREFIX, db, Op.QuickRateHit(ip, now)).0
            && Exec(Effects(db, prog[..2]), prog[2]).1
               == Done([NumberRow(Effects(db, prog).rate[(ip, Window(now))])], 0)
  {
    var prog := Program(db, Op.QuickRateHit(ip, now));
    EffectsSnoc(db, prog, 0);
    EffectsSnoc(db, prog, 1);
    EffectsSnoc(db, prog, 2);
    assert prog[..0] == [] && prog[..3] == prog;
  }

  lemma ConsumeProgram(db: Db, w: seq<Weather>, digest: Digest, now: nat)
    requires Consumable(db, digest, now)
    ensures var op := Op.ConsumeAuthCode(digest, now);
            var prog := Program(db, op);
            var claimed := Exec(db, ClaimCode(digest, now)).0;
            && |prog| == 2 && claimed == Api(D1_PREFIX, db, op).0
            && Effects(db, prog[..0]) == db && Effects(db, prog[..1]) == claimed && Effects(db, prog[..2]) == claimed
    ensures FirstDown(w, 2) == if !WeatherAt(w, 0).Up? then 0 else if !WeatherAt(w, 1).Up? then 1 else 2
  {
    var prog := Program(db, Op.ConsumeAuthCode(digest, now));
    hide Exec, Api;
    ClaimGranted(D1_PREFIX, db, digest, now);
    EffectsSnoc(db, prog, 0);
    EffectsSnoc(db, prog, 1);
    assert prog[..0] == [];
    FirstDownIs(w, 2, if !WeatherAt(w, 0).Up? then 0 else if !WeatherAt(w, 1).Up? then 1 else 2);
  }

  /** How consuming a code can end, and what the two statements answer on the way. */
  lemma ConsumeMeets(db: Db, w: seq<Weather>, digest: Digest, now: nat)
    ensures var op := Op.ConsumeAuthCode(digest, now);
            var (claimed, r) := Exec(db, ClaimCode(digest, now));
            var later := Later(w, 1);
            && r == Done([], if Consumable(db, digest, now) then 1 else 0)
            && (!WeatherAt(w, 0).Up? ==>
                  Meets(db, w, op, if WeatherAt(w, 0).Refused? then db else claimed, later, Fail(Failed)))
            && (WeatherAt(w, 0).Up? && !Consumable(db, digest, now) ==>
                  Meets(db, w, op, claimed, later, Fail(NotFound)))
            && (WeatherAt(w, 0).Up? && Consumable(db, digest, now) ==>
                  && digest in claimed.codes
                  && Exec(claimed, SelectCode(digest)) == (claimed, Done([CodeRow(claimed.codes[digest])], 0))
                  && Meets(db, w, op, claimed, Later(later, 1),
                           if WeatherAt(later, 0).Up? then GrantOf(claimed.codes[digest]) else Fail(Failed)))
  {
    hide Exec, Api;
    LaterLater(w, 1, 1);
    OneStatement(db, w, ClaimCode(digest, now));
    if Consumable(db, digest, now) {
      ConsumeProgram(db, w, digest, now);
      ClaimGranted(D1_PREFIX, db, digest, now);
    } else {
      ClaimRefused(D1_PREFIX, db, digest, now);
    }
    hide Later, FirstDown, Effects;
  }

  lemma SelectsChangeNothing(db: Db, now: nat)
    ensures var slugs := Where(db.rowids, ExpiredSet(db, now));
            Exec(db, SelectExpired(now)) == (db, Done(SlugRows(slugs), 0)) && SlugsOf(SlugRows(slugs)) == slugs
  {
  }

  /** The first k deletes of a sweep, with or without the listing in front. */
  lemma SweepPrefix(db: Db, now: nat, k: nat)
    requires k <= |Where(db.rowids, ExpiredSet(db, now))|
    ensures var slugs := Where(db.rowids, ExpiredSet(db, now));
            var prog := Program(db, Op.DeleteExpiredTenants(now));
            |prog| == |slugs| + 1 && Effects(db, prog[..k + 1]) == Effects(db, Deletes(slugs)[..k])
  {
    var slugs := Where(db.rowids, ExpiredSet(db, now));
    var prog := Program(db, Op.DeleteExpiredTenants(now));
    hide Exec, Where;
    SelectsChangeNothing(db, now);
    OneStatement(db, [], SelectExpired(now));
    assert prog[..k + 1] == [SelectExpired(now)] + Deletes(slugs)[..k];
    EffectsConcat(db, [SelectExpired(now)], Deletes(slugs)[..k]);
  }

  lemma SweepProgram(db: Db, w: seq<Weather>, now: nat)
    requires Integrity(db)
    ensures var slugs := Where(db.rowids, ExpiredSet(db, now));
            var prog := Program(db, Op.DeleteExpiredTenants(now));
            && Exec(db, SelectExpired(now)) == (db, Done(SlugRows(slugs), 0)) && SlugsOf(SlugRows(slugs)) == slugs
            && Effects(db, prog) == DropTenants(db, ExpiredSet(db, now)) == Effects(db, Deletes(slugs))
            && Effects(db, prog[..0]) == Effects(db, prog[..1]) == db
            && FirstDown(w, |prog|)
               == if WeatherAt(w, 0).Up? then 1 + FirstDown(Later(w, 1), |slugs|) else 0
  {
    var slugs := Where(db.rowids, ExpiredSet(db, now));
    var prog := Program(db, Op.DeleteExpiredTenants(now));
    hide Exec, Integrity, DropTenants, Where;
    ExpiredListed(db, now);
    DeletesDrop(db, slugs);
    SelectsChangeNothing(db, now);
    FirstDownSplit(w, 1, |slugs|);
    OneStatement(db, w, SelectExpired(now));
    SweepPrefix(db, now, 0);
    SweepPrefix(db, now, |slugs|);
    assert prog[..0] == [] && Deletes(slugs)[..0] == [];
    assert prog[..|slugs| + 1] == prog && Deletes(slugs)[..|slugs|] == Deletes(slugs);
  }

  /** A sweep that ends with its listing: because the request failed, or because nothing has expired. */
  lemma SweepListed(db: Db, w: seq<Weather>, now: nat)
    requires Integrity(db)
    ensures !WeatherAt(w, 0).Up? ==> Meets(db, w, Op.DeleteExpiredTenants(now), db, Later(w, 1), Fail(Failed))
    ensures WeatherAt(w, 0).Up? && Where(db.rowids, ExpiredSet(db, now)) == [] ==>
              Meets(db, w, Op.DeleteExpiredTenants(now), db, Later(w, 1), SlugsRet([]))
  {
    hide Exec, Integrity, DropTenants;
    SweepProgram(db, w, now);
    assert Deletes([]) == [];
  }

  lemma SweepDone(db: Db, w: seq<Weather>, now: nat, n: nat)
    requires Integrity(db) && WeatherAt(w, 0).Up?
    requires n == |Where(db.rowids, ExpiredSet(db, now))| == FirstDown(Later(w, 1), n)
    ensures var slugs := Where(db.rowids, ExpiredSet(db, now));
            Meets(db, w, Op.DeleteExpiredTenants(now), Effects(db, Deletes(slugs)), Later(Later(w, 1), n),
                  SlugsRet(slugs))
  {
    hide Exec, Integrity, DropTenants, Where, Deletes, Effects, Later, Program, FirstDown, WeatherAt, Interrupted;
    SweepProgram(db, w, now);
    SweepPrefix(db, now, n);
    LaterLater(w, 1, n);
  }

  lemma SweepCut(db: Db, w: seq<Weather>, now: nat, k: nat)
    requires Integrity(db) && WeatherAt(w, 0).Up?
    requires var n := |Where(db.rowids, ExpiredSet(db, now))|;
             k == FirstDown(Later(w, 1), n) < n
    ensures var slugs := Where(db.rowids, ExpiredSet(db, now));
            var kept := Kept(Later(w, 1), k);
            && kept <= |Deletes(slugs)|
            && Meets(db, w, Op.DeleteExpiredTenants(now), Effects(db, Deletes(slugs)[..kept]),
                     Later(Later(w, 1), k + 1), PartialSweep(slugs))
  {
    hide Exec, Integrity, DropTenants, Where, Deletes, Effects, Later, Program, FirstDown, WeatherAt, Api, Kept;
    var kept := Kept(Later(w, 1), k);
    KeptLater(w, k);
    DeletesLength(Where(db.rowids, ExpiredSet(db, now)));
    SweepProgram(db, w, now);
    SweepPrefix(db, now, kept);
  }

  lemma KeptLater(w: seq<Weather>, k: nat)
    ensures Kept(w, k + 1) == Kept(Later(w, 1), k) + 1 && Kept(Later(w, 1), k) <= k + 1
    ensures Later(Later(w, 1), k + 1) == Later(w, k + 2)
  {
    LaterLater(w, 1, k);
    LaterLater(w, 1, k + 1);
  }

  lemma DeletesLength(slugs: seq<Slug>)
    ensures |Deletes(slugs)| == |slugs|
  {
  }

  lemma SweepDeleted(db: Db, w: seq<Weather>, now: nat, results: seq<Res>, err: Option<QueryError>, after: Db,
                     rest: seq<Weather>)
    requires Integrity(db) && WeatherAt(w, 0).Up?
    requires Ran(db, Later(w, 1), Deletes(Where(db.rowids, ExpiredSet(db, now))), results, err, after, rest)
    ensures var slugs := Where(db.rowids, ExpiredSet(db, now));
            Meets(db, w, Op.DeleteExpiredTenants(now), after, rest,
                  if err.Some? then PartialSweep(slugs) else SlugsRet(slugs))
  {
    hide Exec, Integrity, Where, Meets, Effects, Later, Program, FirstDown, WeatherAt, Kept;
    var slugs := Where(db.rowids, ExpiredSet(db, now));
    DeletesAccepted(db, slugs);
    RanUntilDown(db, Later(w, 1), Deletes(slugs), results, err, after, rest);
    assert |Deletes(slugs)| == |slugs|;
    hide Ran, Deletes;
    if |results| < |slugs| { SweepCut(db, w, now, |results|); } else { SweepDone(db, w, now, |slugs|); }
  }

  lemma DeletesAccepted(db: Db, slugs: seq<Slug>)
    ensures Accepted(db, Deletes(slugs))
  {
  }
}
