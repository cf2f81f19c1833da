/**
 The storage contract both drivers promise, as one function from the tables
 and an operation to the new tables and the returned value. Times are unix
 seconds. The contract is written on the tables, not on SQL statements.
 */
module StoreApi {
  import opened Wrappers
  import opened Sql

  datatype Error = NotFound | Exists | InvalidAgentKey | Failed

  datatype Op =
    | CreateTenant(slug: Slug, displayName: string, expires: Option<int>, now: nat)
    | GetTenant(slug: Slug)
    | DeleteTenant(slug: Slug)
    | DeleteExpiredTenants(now: nat)
    | CountLiveTenants(now: nat)
    | QuickRateHit(ip: string, now: nat)
    | CreateService(slug: Slug, name: string, authMode: string, passwordHash: Hash, random: string, now: nat)
    | GetService(slug: Slug, name: string)
    | ValidatePassword(slug: Slug, name: string, password: string)
    | ValidateAgentKey(slug: Slug, name: string, key: string)
    | CreateSigningKey(slug: Slug, pem: string)
    | GetSigningKey(slug: Slug)
    | CreateOAuthClient(slug: Slug, client: string, uris: Uris)
    | GetOAuthClient(slug: Slug, client: string)
    | CreateAuthCode(digest: Digest, code: AuthCode)
    | ConsumeAuthCode(digest: Digest, now: nat)

  datatype Ret =
    | Unit
    | TenantRet(tenant: Tenant)
    | BoolRet(b: bool)
    | SlugsRet(slugs: seq<Slug>)
    | CountRet(n: int)
    | KeyRet(plaintext: string)
    | ServiceRet(service: Service)
    | PemRet(pem: string)
    | UrisRet(uris: Uris)
    | GrantRet(tenantSlug: Slug, client: string, redirect: string, challenge: Challenge)
    | Fail(error: Error)
    // The listed slugs together with an error: a sweep that stopped midway.
    | PartialSweep(listed: seq<Slug>)

  const SQLITE_PREFIX := "tun_agent_"
  const D1_PREFIX := "tun_agent__"

  function Window(now: nat): int {
    now / 3600
  }

  /** It is the hour, counted from the epoch, that the time falls in. */
  lemma WindowIsHour(now: nat, w: int)
    ensures Window(now) == w <==> w * 3600 <= now < (w + 1) * 3600
  {
  }

  function DefaultMode(authMode: string): string {
    if authMode == "" then "oauth" else authMode
  }

  function NewService(prefix: string, op: Op): Service
    requires op.CreateService?
  {
    Service(Bcrypt(prefix + op.random), DefaultMode(op.authMode), op.passwordHash, op.now)
  }

  predicate Consumable(db: Db, digest: Digest, now: int) {
    digest in db.codes && db.codes[digest].usedAt.None? && db.codes[digest].expiresAt > now
  }

  /** The contract; prefix is the driver's agent-key prefix. */
  function Api(prefix: string, db: Db, op: Op): (Db, Ret) {
    match op
    case CreateTenant(slug, name, expires, now) =>
      if slug in db.tenants then (db, Fail(Exists))
      else (db.(tenants := db.tenants[slug := Tenant(name, now, expires)], rowids := db.rowids + [slug]), Unit)
    case GetTenant(slug) =>
      (db, if slug in db.tenants then TenantRet(db.tenants[slug]) else Fail(NotFound))
    case DeleteTenant(slug) => (DropTenants(db, {slug}), BoolRet(slug in db.tenants))
    case DeleteExpiredTenants(now) =>
      (DropTenants(db, ExpiredSet(db, now)), SlugsRet(Where(db.rowids, ExpiredSet(db, now))))
    case CountLiveTenants(now) => (db, CountRet(|LiveSet(db, now)|))
    case QuickRateHit(ip, now) =>
      var rate := Bump(Prune(db.rate, Window(now) - 2), ip, Window(now));
      (db.(rate := rate), CountRet(rate[(ip, Window(now))]))
    case CreateService(slug, name, _, _, random, _) =>
      if slug !in db.tenants then (db, Fail(NotFound))
      else if (slug, name) in db.services then (db, Fail(Exists))
      else (db.(services := db.services[(slug, name) := NewService(prefix, op)]), KeyRet(prefix + random))
    case GetService(slug, name) =>
      (db, if (slug, name) in db.services then ServiceRet(db.services[(slug, name)]) else Fail(NotFound))
    case ValidatePassword(slug, name, password) =>
      (db, if (slug, name) !in db.services then Fail(NotFound)
           else var h := db.services[(slug, name)].passwordHash; BoolRet(h == NoHash || CheckSecret(h, password)))
    case ValidateAgentKey(slug, name, key) =>
      (db, if (slug, name) !in db.services then Fail(NotFound)
           else if key == "" || !CheckSecret(db.services[(slug, name)].agentKeyHash, key) then Fail(InvalidAgentKey)
           else ServiceRet(db.services[(slug, name)]))
    case CreateSigningKey(slug, pem) =>
      if slug !in db.tenants then (db, Fail(Failed))
      else if slug in db.keys then (db, Unit)
      else (db.(keys := db.keys[slug := pem]), Unit)
    case GetSigningKey(slug) => (db, if slug in db.keys then PemRet(db.keys[slug]) else Fail(NotFound))
    case CreateOAuthClient(slug, client, uris) =>
      if (slug, client) in db.clients then (db, Fail(Exists))
      else if slug !in db.tenants then (db, Fail(Failed))
      else (db.(clients := db.clients[(slug, client) := uris]), Unit)
    case GetOAuthClient(slug, client) =>
      (db, if (slug, client) in db.clients then UrisRet(db.clients[(slug, client)]) else Fail(NotFound))
    case CreateAuthCode(digest, code) =>
      if digest in db.codes || code.tenant !in db.tenants then (db, Fail(Failed))
      else (db.(codes := db.codes[digest := code]), Unit)
    case ConsumeAuthCode(digest, now) =>
      if !Consumable(db, digest, now) then (db, Fail(NotFound))
      else
        var c := db.codes[digest];
        (db.(codes := db.codes[digest := c.(usedAt := Some(now))]),
         GrantRet(c.tenant, c.client, c.redirect, c.challenge))
  }

  // --- Dropping tenants one at a time or all at once ---

  lemma ChildrenTwice<V>(rows: map<(Slug, string), V>, a: set<Slug>, b: set<Slug>)
    ensures ChildrenOutside(ChildrenOutside(rows, a), b) == ChildrenOutside(rows, a + b)
  {
  }

  lemma CodesTwice(codes: map<Digest, AuthCode>, a: set<Slug>, b: set<Slug>)
    ensures CodesOutside(CodesOutside(codes, a), b) == CodesOutside(codes, a + b)
  {
  }

  lemma DropTwice(db: Db, a: set<Slug>, b: set<Slug>)
    ensures DropTenants(DropTenants(db, a), b) == DropTenants(db, a + b)
  {
    var once, kept := db.tenants - a, db.tenants - (a + b);
    assert once - b == kept;
    WhereWhere(db.rowids, once.Keys, kept.Keys);
    assert once.Keys * kept.Keys == kept.Keys;
    assert db.keys - a - b == db.keys - (a + b);
    ChildrenTwice(db.services, a, b);
    ChildrenTwice(db.clients, a, b);
    CodesTwice(db.codes, a, b);
  }

  lemma ChildrenAll<V>(rows: map<(Slug, string), V>, gone: set<Slug>)
    requires forall k :: k in rows ==> k.0 !in gone
    ensures ChildrenOutside(rows, gone) == rows
  {
  }

  lemma CodesAll(codes: map<Digest, AuthCode>, gone: set<Slug>)
    requires forall h :: h in codes ==> codes[h].tenant !in gone
    ensures CodesOutside(codes, gone) == codes
  {
  }

  /** Dropping tenants that do not exist changes nothing. */
  lemma DropAbsent(db: Db, gone: set<Slug>)
    requires Integrity(db) && gone !! db.tenants.Keys
    ensures DropTenants(db, gone) == db
  {
    assert db.tenants - gone == db.tenants;
    WhereSpec(db.rowids, db.tenants.Keys);
    assert db.keys - gone == db.keys;
    ChildrenAll(db.services, gone);
    ChildrenAll(db.clients, gone);
    CodesAll(db.codes, gone);
  }

  /** The slugs a sweep selects: the expired tenants, each once. */
  lemma ExpiredListed(db: Db, now: int)
    requires Integrity(db)
    ensures Elements(Where(db.rowids, ExpiredSet(db, now))) == ExpiredSet(db, now)
    ensures Distinct(Where(db.rowids, ExpiredSet(db, now)))
  {
    WhereSpec(db.rowids, ExpiredSet(db, now));
  }

  function SlugsOf(rows: seq<Row>): seq<Slug>
    requires forall i :: 0 <= i < |rows| ==> rows[i].SlugRow?
  {
    seq(|rows|, i requires 0 <= i < |rows| => rows[i].slug)
  }

  lemma DeleteRowDrops(db: Db, slug: Slug)
    requires Integrity(db)
    ensures Exec(db, DeleteTenantRow(slug)).0 == DropTenants(db, {slug})
  {
    if slug !in db.tenants { DropAbsent(db, {slug}); }
  }

  lemma DeletesNone(db: Db)
    ensures Effects(db, Deletes([])) == db
  {
  }

  lemma DeletesCons(slugs: seq<Slug>)
    requires slugs != []
    ensures Deletes(slugs) == [DeleteTenantRow(slugs[0])] + Deletes(slugs[1..])
    ensures Elements(slugs) == {slugs[0]} + Elements(slugs[1..])
  {
    assert slugs == [slugs[0]] + slugs[1..];
  }

  /** Deleting tenants one by one, in the order listed, drops exactly those. */
  lemma {:induction false} DeletesDrop(db: Db, slugs: seq<Slug>)
    requires Integrity(db)
    ensures Effects(db, Deletes(slugs)) == DropTenants(db, Elements(slugs))
    decreases |slugs|
  {
    hide Exec, DropTenants, Integrity, Deletes;
    assert Elements<Slug>([]) !! db.tenants.Keys;
    if slugs == [] {
      DeletesNone(db);
      DropAbsent(db, Elements(slugs));
    } else {
      var first, rest := {slugs[0]}, slugs[1..];
      DeletesCons(slugs);
      DeleteRowDrops(db, slugs[0]);
      DropKeepsIntegrity(db, first);
      DeletesDrop(DropTenants(db, first), rest);
      DropTwice(db, first, Elements(rest));
    }
  }

  function Deletes(slugs: seq<Slug>): seq<Stmt> {
    seq(|slugs|, i requires 0 <= i < |slugs| => DeleteTenantRow(slugs[i]))
  }

  // --- Claiming a code ---

  function GrantOf(c: AuthCode): Ret {
    GrantRet(c.tenant, c.client, c.redirect, c.challenge)
  }

  lemma ClaimRefused(prefix: string, db: Db, digest: Digest, now: nat)
    requires !Consumable(db, digest, now)
    ensures Exec(db, ClaimCode(digest, now)) == (db, Done([], 0))
    ensures Api(prefix, db, Op.ConsumeAuthCode(digest, now)) == (db, Fail(NotFound))
  {
  }

  /** The claim marks the row, and reading it back gives the grant. */
  lemma ClaimGranted(prefix: string, db: Db, digest: Digest, now: nat)
    requires Consumable(db, digest, now)
    ensures var (after, ret) := Api(prefix, db, Op.ConsumeAuthCode(digest, now));
            && Exec(db, ClaimCode(digest, now)) == (after, Done([], 1))
            && digest in after.codes && ret == GrantOf(after.codes[digest])
            && Exec(after, SelectCode(digest)) == (after, Done([CodeRow(after.codes[digest])], 0))
  {
  }

  // --- Operations that are one statement in both drivers ---

  predicate IsSingle(op: Op) {
    !op.DeleteExpiredTenants? && !op.QuickRateHit? && !op.CreateService? && !op.ConsumeAuthCode?
  }

  function SingleStatement(op: Op): Stmt
    requires IsSingle(op)
  {
    match op
    case CreateTenant(slug, name, expires, now) => InsertTenant(slug, Tenant(name, now, expires))
    case GetTenant(slug) => SelectTenant(slug)
    case DeleteTenant(slug) => DeleteTenantRow(slug)
    case CountLiveTenants(now) => CountLive(now)
    case GetService(slug, name) => SelectService(slug, name)
    case ValidatePassword(slug, name, _) => SelectService(slug, name)
    case ValidateAgentKey(slug, name, _) => SelectService(slug, name)
    case CreateSigningKey(slug, pem) => InsertKeyOrIgnore(slug, pem)
    case GetSigningKey(slug) => SelectKey(slug)
    case CreateOAuthClient(slug, client, uris) => InsertClient(slug, client, uris)
    case GetOAuthClient(slug, client) => SelectClient(slug, client)
    case CreateAuthCode(digest, code) => InsertCode(digest, code)
  }

  /** What the driver returns after that statement answered r. */
  function ReadSingle(op: Op, r: Res): Ret
    requires IsSingle(op)
  {
    match r
    case UniqueViolation => Fail(if op.CreateTenant? || op.CreateOAuthClient? then Exists else Failed)
    case ForeignKeyViolation => Fail(Failed)
    case Done(rows, affected) =>
      match op
      case DeleteTenant(_) => BoolRet(affected >= 1)
      case ValidatePassword(_, _, password) =>
        if rows == [] || !rows[0].ServiceRow? then Fail(NotFound)
        else
          var h := rows[0].service.passwordHash;
          BoolRet(h == NoHash || CheckSecret(h, password))
      case ValidateAgentKey(_, _, key) =>
        if rows == [] || !rows[0].ServiceRow? then Fail(NotFound)
        else if key == "" || !CheckSecret(rows[0].service.agentKeyHash, key) then Fail(InvalidAgentKey)
        else ServiceRet(rows[0].service)
      case GetTenant(_) => ReadRow(rows)
      case CountLiveTenants(_) => ReadRow(rows)
      case GetService(_, _) => ReadRow(rows)
      case GetSigningKey(_) => ReadRow(rows)
      case GetOAuthClient(_, _) => ReadRow(rows)
      case _ => Unit
  }

  function ReadRow(rows: seq<Row>): Ret {
    if rows == [] then Fail(NotFound)
    else
      match rows[0]
      case TenantRow(_, t) => TenantRet(t)
      case SlugRow(s) => SlugsRet([s])
      case NumberRow(n) => CountRet(n)
      case ServiceRow(svc) => ServiceRet(svc)
      case KeyRow(pem) => PemRet(pem)
      case ClientRow(uris) => UrisRet(uris)
      case CodeRow(c) => GrantRet(c.tenant, c.client, c.redirect, c.challenge)
  }

  /** The operations that change nothing. */
  predicate IsRead(op: Op) {
    || op.GetTenant? || op.CountLiveTenants? || op.GetService? || op.ValidatePassword? || op.ValidateAgentKey?
    || op.GetSigningKey? || op.GetOAuthClient?
  }

  lemma ReadMeetsApi(prefix: string, db: Db, op: Op)
    requires IsRead(op)
    ensures var (after, r) := Exec(db, SingleStatement(op));
            (after, ReadSingle(op, r)) == Api(prefix, db, op)
  {
    hide DropTenants;
  }

  lemma InsertMeetsApi(prefix: string, db: Db, op: Op)
    requires Integrity(db) && IsSingle(op) && !IsRead(op) && !op.DeleteTenant?
    ensures var (after, r) := Exec(db, SingleStatement(op));
            (after, ReadSingle(op, r)) == Api(prefix, db, op)
  {
    hide DropTenants;
  }

  /** Issuing that statement and reading its answer meets the contract. */
  lemma SingleMeetsApi(prefix: string, db: Db, op: Op)
    requires Integrity(db) && IsSingle(op)
    ensures var (after, r) := Exec(db, SingleStatement(op));
            (after, ReadSingle(op, r)) == Api(prefix, db, op)
  {
    if op.DeleteTenant? {
      DeleteRowDrops(db, op.slug);
    } else {
      hide Exec, Api, ReadSingle, SingleStatement;
      if IsRead(op) { ReadMeetsApi(prefix, db, op); } else { InsertMeetsApi(prefix, db, op); }
    }
  }
}
