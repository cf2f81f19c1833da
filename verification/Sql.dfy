/**
 The six tables behind tunneld and the single SQL statements its two storage
 drivers issue against them. Every statement is atomic; foreign keys are
 enforced and deleting a tenant cascades.

 Hashes are ideal: a digest or a bcrypt hash is the hashed text under a
 constructor, so two hashes are equal exactly when their inputs are.
 */
module Sql {
  import opened Wrappers

  type Slug = string

  datatype Digest = Sha256(text: string)

  /** A PKCE code_challenge: the transform of some verifier, or any other text. */
  datatype Challenge = S256(verifier: string) | OtherText(text: string)

  /** A column holding a bcrypt hash; NoHash is the empty string. */
  datatype Hash = NoHash | Bcrypt(plain: string)

  predicate CheckSecret(h: Hash, plain: string) {
    h == Bcrypt(plain)
  }

  /** A redirect_uris column: a JSON array of strings, or text that is not one. */
  datatype Uris = UriArray(uris: seq<string>) | Corrupt

  datatype Tenant = Tenant(displayName: string, createdAt: nat, expiresAt: Option<int>)

  datatype Service = Service(agentKeyHash: Hash, authMode: string, passwordHash: Hash, createdAt: nat)

  datatype AuthCode = AuthCode(tenant: Slug, client: string, redirect: string, challenge: Challenge,
                               expiresAt: int, usedAt: Option<int>)

  /** rowids is the order in which a table scan meets the tenants. */
  datatype Db = Db(tenants: map<Slug, Tenant>, rowids: seq<Slug>,
                   services: map<(Slug, string), Service>,
                   rate: map<(string, int), nat>,
                   keys: map<Slug, string>,
                   clients: map<(Slug, string), Uris>,
                   codes: map<Digest, AuthCode>)

  const EMPTY := Db(map[], [], map[], map[], map[], map[], map[])

  datatype Stmt =
    | InsertTenant(slug: Slug, tenant: Tenant)
    | SelectTenant(slug: Slug)
    | DeleteTenantRow(slug: Slug)
    | SelectExpired(now: int)
    | CountLive(now: int)
    | PruneRate(before: int)
    | UpsertRate(ip: string, window: int)
    | SelectRate(ip: string, window: int)
    | InsertService(slug: Slug, name: string, service: Service)
    | InsertServiceIfTenant(slug: Slug, name: string, service: Service)
    | SelectService(slug: Slug, name: string)
    | InsertKeyOrIgnore(slug: Slug, pem: string)
    | SelectKey(slug: Slug)
    | InsertClient(slug: Slug, client: string, uris: Uris)
    | SelectClient(slug: Slug, client: string)
    | InsertCode(digest: Digest, code: AuthCode)
    | ClaimCode(digest: Digest, now: int)
    | SelectCode(digest: Digest)

  datatype Row =
    | TenantRow(slug: Slug, tenant: Tenant)
    | SlugRow(slug: Slug)
    | NumberRow(n: int)
    | ServiceRow(service: Service)
    | KeyRow(pem: string)
    | ClientRow(uris: Uris)
    | CodeRow(code: AuthCode)

  datatype Res =
    | Done(rows: seq<Row>, affected: nat)
    | UniqueViolation
    | ForeignKeyViolation

  predicate Expired(t: Tenant, now: int) {
    t.expiresAt.Some? && t.expiresAt.value <= now
  }

  predicate Live(t: Tenant, now: int) {
    t.expiresAt.Some? && t.expiresAt.value > now
  }

  function ExpiredSet(db: Db, now: int): set<Slug> {
    set s | s in db.tenants && Expired(db.tenants[s], now)
  }

  function LiveSet(db: Db, now: int): set<Slug> {
    set s | s in db.tenants && Live(db.tenants[s], now)
  }

  /** The elements of s that are in keep, in order. */
  function Where<T(==)>(s: seq<T>, keep: set<T>): seq<T> {
    if s == [] then [] else (if s[0] in keep then [s[0]] else []) + Where(s[1..], keep)
  }

  function Elements<T>(s: seq<T>): set<T> {
    set x | x in s
  }

  function SlugRows(slugs: seq<Slug>): seq<Row> {
    seq(|slugs|, i requires 0 <= i < |slugs| => SlugRow(slugs[i]))
  }

  /** The child rows whose tenant is not in gone. */
  function ChildrenOutside<V>(rows: map<(Slug, string), V>, gone: set<Slug>): map<(Slug, string), V> {
    map k | k in rows && k.0 !in gone :: rows[k]
  }

  function CodesOutside(codes: map<Digest, AuthCode>, gone: set<Slug>): map<Digest, AuthCode> {
    map h | h in codes && codes[h].tenant !in gone :: codes[h]
  }

  /** Deletes the tenants in gone together with everything that references them. */
  function DropTenants(db: Db, gone: set<Slug>): Db {
    var kept := db.tenants - gone;
    db.(tenants := kept,
        rowids := Where(db.rowids, kept.Keys),
        services := ChildrenOutside(db.services, gone),
        keys := db.keys - gone,
        clients := ChildrenOutside(db.clients, gone),
        codes := CodesOutside(db.codes, gone))
  }

  function Prune(rate: map<(string, int), nat>, before: int): map<(string, int), nat> {
    map k | k in rate && k.1 >= before :: rate[k]
  }

  function Bump(rate: map<(string, int), nat>, ip: string, window: int): map<(string, int), nat> {
    rate[(ip, window) := if (ip, window) in rate then rate[(ip, window)] + 1 else 1]
  }

  lemma Bumped(rate: map<(string, int), nat>, ip: string, window: int)
    ensures (ip, window) in Bump(rate, ip, window)
  {
  }

  /** Runs one statement. */
  function Exec(db: Db, st: Stmt): (Db, Res) {
    match st
    case InsertTenant(slug, t) =>
      if slug in db.tenants then (db, UniqueViolation)
      else (db.(tenants := db.tenants[slug := t], rowids := db.rowids + [slug]), Done([], 1))
    case SelectTenant(slug) =>
      (db, Done(if slug in db.tenants then [TenantRow(slug, db.tenants[slug])] else [], 0))
    case DeleteTenantRow(slug) =>
      if slug in db.tenants then (DropTenants(db, {slug}), Done([], 1)) else (db, Done([], 0))
    case SelectExpired(now) => (db, Done(SlugRows(Where(db.rowids, ExpiredSet(db, now))), 0))
    case CountLive(now) => (db, Done([NumberRow(|LiveSet(db, now)|)], 0))
    case PruneRate(before) =>
      var kept := Prune(db.rate, before);
      (db.(rate := kept), Done([], if |db.rate| >= |kept| then |db.rate| - |kept| else 0))
    case UpsertRate(ip, w) => (db.(rate := Bump(db.rate, ip, w)), Done([], 1))
    case SelectRate(ip, w) =>
      (db, Done(if (ip, w) in db.rate then [NumberRow(db.rate[(ip, w)])] else [], 0))
    case InsertService(slug, name, svc) => InsertServiceRow(db, slug, name, svc)
    case InsertServiceIfTenant(slug, name, svc) =>
      if slug in db.tenants then InsertServiceRow(db, slug, name, svc) else (db, Done([], 0))
    case SelectService(slug, name) =>
      (db, Done(if (slug, name) in db.services then [ServiceRow(db.services[(slug, name)])] else [], 0))
    case InsertKeyOrIgnore(slug, pem) =>
      // OR IGNORE covers the uniqueness conflict, not the foreign key.
      if slug in db.keys then (db, Done([], 0))
      else if slug !in db.tenants then (db, ForeignKeyViolation)
      else (db.(keys := db.keys[slug := pem]), Done([], 1))
    case SelectKey(slug) => (db, Done(if slug in db.keys then [KeyRow(db.keys[slug])] else [], 0))
    case InsertClient(slug, client, uris) =>
      if (slug, client) in db.clients then (db, UniqueViolation)
      else if slug !in db.tenants then (db, ForeignKeyViolation)
      else (db.(clients := db.clients[(slug, client) := uris]), Done([], 1))
    case SelectClient(slug, client) =>
      (db, Done(if (slug, client) in db.clients then [ClientRow(db.clients[(slug, client)])] else [], 0))
    case InsertCode(digest, code) =>
      if digest in db.codes then (db, UniqueViolation)
      else if code.tenant !in db.tenants then (db, ForeignKeyViolation)
      else (db.(codes := db.codes[digest := code]), Done([], 1))
    case ClaimCode(digest, now) =>
      if digest in db.codes && db.codes[digest].usedAt.None? && db.codes[digest].expiresAt > now then
        (db.(codes := db.codes[digest := db.codes[digest].(usedAt := Some(now))]), Done([], 1))
      else
        (db, Done([], 0))
    case SelectCode(digest) =>
      (db, Done(if digest in db.codes then [CodeRow(db.codes[digest])] else [], 0))
  }

  function InsertServiceRow(db: Db, slug: Slug, name: string, svc: Service): (Db, Res) {
    if (slug, name) in db.services then (db, UniqueViolation)
    else if slug !in db.tenants then (db, ForeignKeyViolation)
    else (db.(services := db.services[(slug, name) := svc]), Done([], 1))
  }

  /** The tables after running a sequence of statements. */
  function Effects(db: Db, stmts: seq<Stmt>): Db
    decreases |stmts|
  {
    if stmts == [] then db else Effects(Exec(db, stmts[0]).0, stmts[1..])
  }

  lemma RefusedChangesNothing(db: Db, st: Stmt)
    ensures !Exec(db, st).1.Done? ==> Exec(db, st).0 == db
  {
  }

  lemma {:induction false} EffectsConcat(db: Db, a: seq<Stmt>, b: seq<Stmt>)
    ensures Effects(db, a + b) == Effects(Effects(db, a), b)
    decreases |a|
  {
    if a == [] {
      assert a + b == b;
    } else {
      assert (a + b)[1..] == a[1..] + b;
      EffectsConcat(Exec(db, a[0]).0, a[1..], b);
    }
  }

  lemma EffectsSnoc(db: Db, stmts: seq<Stmt>, n: nat)
    requires n < |stmts|
    ensures Effects(db, stmts[..n + 1]) == Exec(Effects(db, stmts[..n]), stmts[n]).0
  {
    assert stmts[..n + 1] == stmts[..n] + [stmts[n]];
    EffectsConcat(db, stmts[..n], [stmts[n]]);
    assert Effects(Effects(db, stmts[..n]), [stmts[n]]) == Exec(Effects(db, stmts[..n]), stmts[n]).0;
  }

  // --- Referential integrity ---

  ghost predicate Distinct<T>(s: seq<T>) {
    forall i, j :: 0 <= i < j < |s| ==> s[i] != s[j]
  }

  /** Every child row has its tenant. */
  ghost predicate Children(db: Db) {
    && (forall k :: k in db.services ==> k.0 in db.tenants)
    && db.keys.Keys <= db.tenants.Keys
    && (forall k :: k in db.clients ==> k.0 in db.tenants)
    && (forall h :: h in db.codes ==> db.codes[h].tenant in db.tenants)
  }

  /** A scan meets every tenant exactly once. */
  ghost predicate Scan(db: Db) {
    && Distinct(db.rowids)
    && (forall s :: s in db.rowids <==> s in db.tenants)
  }

  ghost predicate Integrity(db: Db) {
    Children(db) && Scan(db)
  }

  lemma {:induction false} WhereSpec<T>(s: seq<T>, keep: set<T>)
    ensures forall x :: x in Where(s, keep) <==> x in s && x in keep
    ensures Distinct(s) ==> Distinct(Where(s, keep))
    ensures (forall x :: x in s ==> x in keep) ==> Where(s, keep) == s
  {
    if s != [] {
      WhereSpec(s[1..], keep);
      assert s == [s[0]] + s[1..];
      if Distinct(s) {
        assert Distinct(s[1..]);
        assert s[0] !in s[1..];
      }
    }
  }

  lemma {:induction false} WhereWhere<T>(s: seq<T>, a: set<T>, b: set<T>)
    ensures Where(Where(s, a), b) == Where(s, a * b)
  {
    if s != [] {
      WhereWhere(s[1..], a, b);
      if s[0] in a {
        assert Where(s, a) == [s[0]] + Where(s[1..], a);
        assert Where(s, a)[1..] == Where(s[1..], a);
      } else {
        assert Where(s, a) == Where(s[1..], a);
      }
    }
  }

  lemma ExecKeepsIntegrity(db: Db, st: Stmt)
    requires Integrity(db)
    ensures Integrity(Exec(db, st).0)
  {
    ExecKeepsScan(db, st);
    ExecKeepsChildren(db, st);
  }

  lemma ExecKeepsScan(db: Db, st: Stmt)
    requires Scan(db)
    ensures Scan(Exec(db, st).0)
  {
    if st.InsertTenant? {
      ScanInserted(db, st);
    } else if st.DeleteTenantRow? {
      if st.slug in db.tenants { DropKeepsScan(db, {st.slug}); }
    } else {
      assert Exec(db, st).0.tenants == db.tenants && Exec(db, st).0.rowids == db.rowids;
    }
  }

  lemma ScanInserted(db: Db, st: Stmt)
    requires Scan(db) && st.InsertTenant?
    ensures Scan(Exec(db, st).0)
  {
  }

  lemma DropKeepsScan(db: Db, gone: set<Slug>)
    requires Scan(db)
    ensures Scan(DropTenants(db, gone))
  {
    WhereSpec(db.rowids, (db.tenants - gone).Keys);
  }

  lemma ExecKeepsChildren(db: Db, st: Stmt)
    requires Children(db)
    ensures Children(Exec(db, st).0)
  {
    hide Children, Exec, DropTenants;
    if st.DeleteTenantRow? {
      DeleteKeepsChildren(db, st);
    } else if st.InsertClient? || st.InsertCode? || st.ClaimCode? {
      OAuthRowsKeepChildren(db, st);
    } else if st.InsertService? || st.InsertServiceIfTenant? {
      ServiceRowsKeepChildren(db, st);
    } else {
      OtherRowsKeepChildren(db, st);
    }
  }

  lemma DeleteKeepsChildren(db: Db, st: Stmt)
    requires Children(db) && st.DeleteTenantRow?
    ensures Children(Exec(db, st).0)
  {
    hide DropTenants, Children;
    if st.slug in db.tenants { DropKeepsChildren(db, {st.slug}); }
  }

  lemma OAuthRowsKeepChildren(db: Db, st: Stmt)
    requires Children(db) && (st.InsertClient? || st.InsertCode? || st.ClaimCode?)
    ensures Children(Exec(db, st).0)
  {
    hide DropTenants;
  }

  lemma ServiceRowsKeepChildren(db: Db, st: Stmt)
    requires Children(db) && (st.InsertService? || st.InsertServiceIfTenant?)
    ensures Children(Exec(db, st).0)
  {
    hide DropTenants;
  }

  lemma OtherRowsKeepChildren(db: Db, st: Stmt)
    requires Children(db) && !st.DeleteTenantRow? && !st.InsertClient? && !st.InsertCode? && !st.ClaimCode?
    requires !st.InsertService? && !st.InsertServiceIfTenant?
    ensures Children(Exec(db, st).0)
  {
    OtherRowsFacts(db, st);
    hide Exec;
  }

  lemma OtherRowsFacts(db: Db, st: Stmt)
    requires !st.DeleteTenantRow? && !st.InsertClient? && !st.InsertCode? && !st.ClaimCode?
    requires !st.InsertService? && !st.InsertServiceIfTenant?
    ensures var after := Exec(db, st).0;
            && db.tenants.Keys <= after.tenants.Keys && after.services == db.services && after.clients == db.clients
            && after.codes == db.codes && after.keys.Keys <= db.keys.Keys + db.tenants.Keys
  {
    hide DropTenants;
  }

  lemma DropKeepsChildren(db: Db, gone: set<Slug>)
    requires Children(db)
    ensures Children(DropTenants(db, gone))
  {
  }

  lemma DropKeepsIntegrity(db: Db, gone: set<Slug>)
    requires Integrity(db)
    ensures Integrity(DropTenants(db, gone))
  {
    DropKeepsScan(db, gone);
    DropKeepsChildren(db, gone);
  }

  // --- Deleted tenants ---

  /** st does not insert a tenant row for slug. */
  predicate Spares(st: Stmt, slug: Slug) {
    !(st.InsertTenant? && st.slug == slug)
  }

  ghost predicate NoTrace(db: Db, slug: Slug) {
    && slug !in db.tenants
    && (forall k :: k in db.services ==> k.0 != slug)
    && slug !in db.keys
    && (forall k :: k in db.clients ==> k.0 != slug)
    && (forall h :: h in db.codes ==> db.codes[h].tenant != slug)
  }

  /**
   Once a tenant row is gone and its slug is not inserted again, every later
   state of the tables holds no row of that tenant, so every lookup for it
   comes back empty and every attempt to add a child row is refused.
   */
  lemma {:induction false} DeletedStaysDeleted(db: Db, stmts: seq<Stmt>, slug: Slug)
    requires Integrity(db) && slug !in db.tenants
    requires forall i :: 0 <= i < |stmts| ==> Spares(stmts[i], slug)
    ensures NoTrace(Effects(db, stmts), slug)
    decreases |stmts|
  {
    if stmts != [] {
      assert Spares(stmts[0], slug);
      StaysGone(db, stmts[0], slug);
      ExecKeepsIntegrity(db, stmts[0]);
      DeletedStaysDeleted(Exec(db, stmts[0]).0, stmts[1..], slug);
    }
  }

  lemma StaysGone(db: Db, st: Stmt, slug: Slug)
    requires slug !in db.tenants && Spares(st, slug)
    ensures slug !in Exec(db, st).0.tenants
  {
  }

  /** st looks up, deletes or adds a child to the tenant slug. */
  predicate TouchesTenant(st: Stmt, slug: Slug) {
    match st
    case SelectTenant(s) => s == slug
    case DeleteTenantRow(s) => s == slug
    case InsertService(s, _, _) => s == slug
    case InsertServiceIfTenant(s, _, _) => s == slug
    case SelectService(s, _) => s == slug
    case InsertKeyOrIgnore(s, _) => s == slug
    case SelectKey(s) => s == slug
    case InsertClient(s, _, _) => s == slug
    case SelectClient(s, _) => s == slug
    case InsertCode(_, code) => code.tenant == slug
    case _ => false
  }

  lemma LookupsFail(db: Db, slug: Slug, st: Stmt)
    requires NoTrace(db, slug)
    requires TouchesTenant(st, slug)
    ensures var (after, res) := Exec(db, st);
            after == db
            && (res == Done([], 0) || res == ForeignKeyViolation || (res == UniqueViolation && st.InsertCode?))
  {
  }

  /** Neither a tenant row nor a signing key ever changes while the tenant lives. */
  lemma RowsNeverChange(db: Db, st: Stmt, slug: Slug)
    requires slug in db.tenants && slug in Exec(db, st).0.tenants
    ensures Exec(db, st).0.tenants[slug] == db.tenants[slug]
    ensures slug in db.keys ==> slug in Exec(db, st).0.keys && Exec(db, st).0.keys[slug] == db.keys[slug]
    ensures forall name :: (slug, name) in db.clients ==>
              (slug, name) in Exec(db, st).0.clients && Exec(db, st).0.clients[(slug, name)] == db.clients[(slug, name)]
  {
  }
}
