/**
 The remote driver refines the local one. Both meet the same contract, but
 under different agent-key prefixes: the remote driver writes a second
 underscore. Renaming the keys accordingly is the only difference.
 */
module Refinement {
  import opened Sql
  import opened StoreApi
  import SqliteStore
  import D1Store

  /** The remote driver's spelling of a local agent key; other texts stay. */
  function RemoteKey(key: string): string {
    if SQLITE_PREFIX <= key then D1_PREFIX + key[|SQLITE_PREFIX|..] else key
  }

  lemma RemoteKeyInjective(a: string, b: string)
    ensures RemoteKey(a) == RemoteKey(b) <==> a == b
    ensures RemoteKey(a) == "" <==> a == ""
  {
    assert forall k: string :: SQLITE_PREFIX <= k ==> k == SQLITE_PREFIX + k[|SQLITE_PREFIX|..];
    assert forall k: string :: SQLITE_PREFIX <= D1_PREFIX + k;
    if SQLITE_PREFIX <= a && SQLITE_PREFIX <= b && RemoteKey(a) == RemoteKey(b) {
      assert a[|SQLITE_PREFIX|..] == RemoteKey(a)[|D1_PREFIX|..] == RemoteKey(b)[|D1_PREFIX|..] == b[|SQLITE_PREFIX|..];
    }
  }

  lemma RemoteKeyOfIssued(random: string)
    ensures RemoteKey(SQLITE_PREFIX + random) == D1_PREFIX + random
  {
    assert (SQLITE_PREFIX + random)[|SQLITE_PREFIX|..] == random;
  }

  function RemoteHash(h: Hash): Hash {
    if h.Bcrypt? then Bcrypt(RemoteKey(h.plain)) else h
  }

  function RemoteService(s: Service): Service {
    s.(agentKeyHash := RemoteHash(s.agentKeyHash))
  }

  function RemoteServices(m: map<(Slug, string), Service>): map<(Slug, string), Service> {
    map k | k in m :: RemoteService(m[k])
  }

  function RemoteDb(db: Db): Db {
    db.(services := RemoteServices(db.services))
  }

  function RemoteOp(op: Op): Op {
    if op.ValidateAgentKey? then op.(key := RemoteKey(op.key)) else op
  }

  function RemoteRet(r: Ret): Ret {
    match r
    case KeyRet(k) => KeyRet(RemoteKey(k))
    case ServiceRet(s) => ServiceRet(RemoteService(s))
    case _ => r
  }

  lemma DropCommutes(db: Db, gone: set<Slug>)
    ensures DropTenants(RemoteDb(db), gone) == RemoteDb(DropTenants(db, gone))
  {
    assert ChildrenOutside(RemoteServices(db.services), gone) == RemoteServices(ChildrenOutside(db.services, gone));
  }

  lemma CreateServiceCommutes(db: Db, op: Op)
    requires op.CreateService?
    ensures Api(D1_PREFIX, RemoteDb(db), op)
            == (RemoteDb(Api(SQLITE_PREFIX, db, op).0), RemoteRet(Api(SQLITE_PREFIX, db, op).1))
  {
    RemoteKeyOfIssued(op.random);
    var k := (op.slug, op.name);
    var svc := NewService(SQLITE_PREFIX, op);
    assert RemoteService(svc) == NewService(D1_PREFIX, op);
    assert RemoteServices(db.services)[k := RemoteService(svc)] == RemoteServices(db.services[k := svc]);
  }

  lemma ValidateKeyCommutes(db: Db, op: Op)
    requires op.ValidateAgentKey?
    ensures Api(D1_PREFIX, RemoteDb(db), RemoteOp(op)) == (RemoteDb(db), RemoteRet(Api(SQLITE_PREFIX, db, op).1))
  {
    var k := (op.slug, op.name);
    if k in db.services && db.services[k].agentKeyHash.Bcrypt? {
      RemoteKeyInjective(db.services[k].agentKeyHash.plain, op.key);
    }
    RemoteKeyInjective(op.key, op.key);
  }

  /** On the contract, renaming the keys before or after an operation is the same. */
  lemma Commutes(db: Db, op: Op)
    ensures Api(D1_PREFIX, RemoteDb(db), RemoteOp(op))
            == (RemoteDb(Api(SQLITE_PREFIX, db, op).0), RemoteRet(Api(SQLITE_PREFIX, db, op).1))
  {
    match op
    case DeleteTenant(slug) => DropCommutes(db, {slug});
    case DeleteExpiredTenants(now) => DropCommutes(db, ExpiredSet(db, now));
    case CreateService(_, _, _, _, _, _) => CreateServiceCommutes(db, op);
    case ValidateAgentKey(_, _, _) => ValidateKeyCommutes(db, op);
    case _ => if IsRead(op) { ReadCommutes(db, op); } else { WriteCommutes(db, op); }
  }

  lemma ReadCommutes(db: Db, op: Op)
    requires IsRead(op) && !op.ValidateAgentKey?
    ensures Api(D1_PREFIX, RemoteDb(db), op) == (RemoteDb(db), RemoteRet(Api(SQLITE_PREFIX, db, op).1))
    ensures Api(SQLITE_PREFIX, db, op).0 == db
  {
    hide RemoteKey;
  }

  lemma WriteCommutes(db: Db, op: Op)
    requires !IsRead(op) && !op.DeleteTenant? && !op.DeleteExpiredTenants? && !op.CreateService?
    ensures Api(D1_PREFIX, RemoteDb(db), op)
            == (RemoteDb(Api(SQLITE_PREFIX, db, op).0), RemoteRet(Api(SQLITE_PREFIX, db, op).1))
  {
    hide RemoteKey, RemoteServices;
  }

  lemma RemoteDbOfEmpty()
    ensures RemoteDb(EMPTY) == EMPTY
  {
  }

  ghost predicate Fair(w: seq<D1Store.Weather>) {
    forall i :: 0 <= i < |w| ==> w[i].Up?
  }

  lemma FairNeverDown(w: seq<D1Store.Weather>, n: nat)
    requires Fair(w)
    ensures D1Store.FirstDown(w, n) == n && Fair(D1Store.Later(w, n))
  {
    D1Store.FirstDownIs(w, n, n);
  }

  /**
   Any sequence of operations, run on both drivers from corresponding tables
   while no request fails, returns corresponding values and sentinel errors and
   ends in corresponding tables, however the service counts rows.
   */
  method Replay(local: SqliteStore.Store, remote: D1Store.Store, ops: seq<Op>)
    returns (mine: seq<Ret>, theirs: seq<Ret>)
    requires local.Valid() && remote.Valid() && Fair(remote.weather)
    requires remote.remote == RemoteDb(local.db)
    modifies local, remote
    ensures local.Valid() && remote.Valid()
    ensures |mine| == |theirs| == |ops|
    ensures forall i :: 0 <= i < |ops| ==> theirs[i] == RemoteRet(mine[i])
    ensures remote.remote == RemoteDb(local.db)
  {
    mine, theirs := [], [];
    for i := 0 to |ops|
      invariant |mine| == |theirs| == i
      invariant local.Valid() && remote.Valid() && Fair(remote.weather)
      invariant remote.remote == RemoteDb(local.db)
      invariant forall j :: 0 <= j < i ==> theirs[j] == RemoteRet(mine[j])
    {
      var a, b := Step(local, remote, ops[i]);
      mine, theirs := mine + [a], theirs + [b];
    }
  }

  /** In particular from two empty databases. */
  method ReplayFromEmpty(ops: seq<Op>, weather: seq<D1Store.Weather>) returns (mine: seq<Ret>, theirs: seq<Ret>)
    requires Fair(weather)
    ensures |mine| == |theirs| == |ops|
    ensures forall i :: 0 <= i < |ops| ==> theirs[i] == RemoteRet(mine[i])
  {
    var local := new SqliteStore.Store();
    var remote := new D1Store.Store(weather);
    RemoteDbOfEmpty();
    mine, theirs := Replay(local, remote, ops);
  }

  method Step(local: SqliteStore.Store, remote: D1Store.Store, op: Op) returns (mine: Ret, theirs: Ret)
    requires local.Valid() && remote.Valid() && Fair(remote.weather)
    requires remote.remote == RemoteDb(local.db)
    modifies local, remote
    ensures local.Valid() && remote.Valid() && Fair(remote.weather)
    ensures theirs == RemoteRet(mine) && remote.remote == RemoteDb(local.db)
  {
    hide Api, RemoteRet, RemoteDb, D1Store.Program, Integrity;
    Commutes(local.db, op);
    FairNeverDown(remote.weather, |D1Store.Program(remote.remote, RemoteOp(op))|);
    mine := local.Do(op);
    theirs := remote.Do(RemoteOp(op));
  }
}
