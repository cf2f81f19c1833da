/**
 The local driver: each method issues its SQL statements against the embedded
 database, which never fails to answer, and is proved against the contract.
 */
module SqliteStore {
  import opened Wrappers
  import opened Sql
  import opened StoreApi

  class Store {
    var db: Db

    ghost predicate Valid()
      reads this
    {
      Integrity(db)
    }

    constructor ()
      ensures Valid() && db == EMPTY
    {
      db := EMPTY;
    }

    method Run(st: Stmt) returns (r: Res)
      modifies this
      ensures (db, r) == Exec(old(db), st)
    {
      var (after, res) := Exec(db, st);
      db, r := after, res;
    }

    method DeleteTenant(slug: Slug) returns (existed: bool)
      requires Valid()
      modifies this
      ensures Valid()
      ensures db == Exec(old(db), DeleteTenantRow(slug)).0
      ensures db == DropTenants(old(db), {slug}) && existed == (slug in old(db).tenants)
    {
      var r := Run(DeleteTenantRow(slug));
      existed := r.Done? && r.affected == 1;
      ExecKeepsIntegrity(old(db), DeleteTenantRow(slug));
      DeleteRowDrops(old(db), slug);
    }

    /** Lists the expired tenants, then deletes them one by one. */
    method DeleteExpiredTenants(now: nat) returns (slugs: seq<Slug>)
      requires Valid()
      modifies this
      ensures Valid()
      ensures (db, SlugsRet(slugs)) == Api(SQLITE_PREFIX, old(db), Op.DeleteExpiredTenants(now))
    {
      ghost var was := db;
      var r := Run(SelectExpired(now));
      slugs := SlugsOf(r.rows);
      assert slugs == Where(was.rowids, ExpiredSet(was, now));
      ExpiredListed(was, now);
      DeletesDrop(was, slugs);
      var i := 0;
      while i < |slugs|
        invariant 0 <= i <= |slugs|
        invariant Valid()
        invariant db == Effects(was, Deletes(slugs)[..i])
      {
        EffectsSnoc(was, Deletes(slugs), i);
        var _ := DeleteTenant(slugs[i]);
        i := i + 1;
      }
      assert Deletes(slugs)[..i] == Deletes(slugs);
    }

    /** Prunes old windows, counts the hit, and reads the count back. */
    method QuickRateHit(ip: string, now: nat) returns (count: int)
      requires Valid()
      modifies this
      ensures Valid()
      ensures (db, CountRet(count)) == Api(SQLITE_PREFIX, old(db), Op.QuickRateHit(ip, now))
    {
      hide Integrity, Bump, Prune;
      var window := Window(now);
      ExecKeepsIntegrity(db, PruneRate(window - 2));
      ExecKeepsIntegrity(Exec(db, PruneRate(window - 2)).0, UpsertRate(ip, window));
      Bumped(Prune(db.rate, window - 2), ip, window);
      var _ := Run(PruneRate(window - 2));
      var _ := Run(UpsertRate(ip, window));
      var r := Run(SelectRate(ip, window));
      count := r.rows[0].n;
    }

    /** Checks the tenant, then inserts the service under a new agent key. */
    method CreateService(op: Op) returns (r: Result<string, Error>)
      requires Valid() && op.CreateService?
      modifies this
      ensures Valid()
      ensures (db, match r { case Ok(key) => KeyRet(key) case Err(e) => Fail(e) })
              == Api(SQLITE_PREFIX, old(db), op)
    {
      var found := Run(SelectTenant(op.slug));
      if found.rows == [] { return Err(NotFound); }
      var insert := InsertService(op.slug, op.name, NewService(SQLITE_PREFIX, op));
      ExecKeepsIntegrity(db, insert);
      var res := Run(insert);
      match res
      case UniqueViolation => r := Err(Exists);
      case ForeignKeyViolation => r := Err(Failed);
      case Done(_, _) => r := Ok(SQLITE_PREFIX + op.random);
    }

    /** Claims the code in one UPDATE, then reads the claimed row. */
    method ConsumeAuthCode(digest: Digest, now: nat) returns (r: Result<AuthCode, Error>)
      requires Valid()
      modifies this
      ensures Valid()
      ensures (db, match r { case Ok(c) => GrantOf(c) case Err(e) => Fail(e) })
              == Api(SQLITE_PREFIX, old(db), Op.ConsumeAuthCode(digest, now))
    {
      hide Exec, Integrity, Api;
      ExecKeepsIntegrity(db, ClaimCode(digest, now));
      if Consumable(db, digest, now) {
        ClaimGranted(SQLITE_PREFIX, db, digest, now);
      } else {
        ClaimRefused(SQLITE_PREFIX, db, digest, now);
      }
      var claim := Run(ClaimCode(digest, now));
      if claim.affected == 0 { return Err(NotFound); }
      var row := Run(SelectCode(digest));
      r := if row.rows == [] then Err(NotFound) else Ok(row.rows[0].code);
    }

    /** Runs any operation of the contract. */
    method Do(op: Op) returns (ret: Ret)
      requires Valid()
      modifies this
      ensures Valid()
      ensures (db, ret) == Api(SQLITE_PREFIX, old(db), op)
    {
      match op
      case DeleteTenant(slug) =>
        var b := DeleteTenant(slug);
        ret := BoolRet(b);
      case DeleteExpiredTenants(now) =>
        var slugs := DeleteExpiredTenants(now);
        ret := SlugsRet(slugs);
      case QuickRateHit(ip, now) =>
        var n := QuickRateHit(ip, now);
        ret := CountRet(n);
      case CreateService(_, _, _, _, _, _) =>
        var r := CreateService(op);
        ret := match r { case Ok(key) => KeyRet(key) case Err(e) => Fail(e) };
      case ConsumeAuthCode(digest, now) =>
        var r := ConsumeAuthCode(digest, now);
        ret := match r { case Ok(c) => GrantRet(c.tenant, c.client, c.redirect, c.challenge) case Err(e) => Fail(e) };
      case _ =>
        var st := SingleStatement(op);
        ExecKeepsIntegrity(db, st);
        SingleMeetsApi(SQLITE_PREFIX, db, op);
        var r := Run(st);
        ret := ReadSingle(op, r);
    }
  }
}
