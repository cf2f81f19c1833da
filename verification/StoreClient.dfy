/**
 What a caller of the storage contract sees across several operations: what one
 operation writes, the later ones give back. The lemmas hold for either driver's
 agent-key prefix.
 */
module StoreClient {
  import opened Wrappers
  import opened Sql
  import opened StoreApi

  // --- Services ---

  /**
   A created service keeps the password and mode it was created with, and its
   agent key is the one handed out: no other key is accepted.
   */
  lemma CreatedServiceAnswers(prefix: string, db: Db, op: Op, secret: string, key: string, password: string)
    requires op.CreateService? && Api(prefix, db, op).1.KeyRet? && prefix != ""
    ensures var (after, ret) := Api(prefix, db, op);
            var slug, name := op.slug, op.name;
            // The gate: open without a password, and else for exactly that one.
            && (op.passwordHash == NoHash ==>
                  Api(prefix, after, ValidatePassword(slug, name, password)) == (after, BoolRet(true)))
            && (op.passwordHash == Bcrypt(secret) ==>
                  Api(prefix, after, ValidatePassword(slug, name, password)) == (after, BoolRet(password == secret)))
            && (exists s ::
                  && Api(prefix, after, GetService(slug, name)) == (after, ServiceRet(s))
                  && s.authMode == (if op.authMode == "" then "oauth" else op.authMode)
                  && s.createdAt == op.now && s.passwordHash == op.passwordHash
                  && Api(prefix, after, ValidateAgentKey(slug, name, key))
                     == (after, if key == ret.plaintext then ServiceRet(s) else StoreApi.Fail(InvalidAgentKey)))
            && prefix <= ret.plaintext && ret.plaintext[|prefix|..] == op.random
  {
    var after := Api(prefix, db, op).0;
    var s := after.services[(op.slug, op.name)];
    assert Api(prefix, after, GetService(op.slug, op.name)) == (after, ServiceRet(s));
  }

  /** Nothing else changes, and the call is refused exactly for a missing tenant or a taken name. */
  lemma CreateServiceWhen(prefix: string, db: Db, op: Op)
    requires op.CreateService?
    ensures var (after, ret) := Api(prefix, db, op);
            var k := (op.slug, op.name);
            && (ret.KeyRet? <==> op.slug in db.tenants && k !in db.services)
            && (ret == StoreApi.Fail(NotFound) <==> op.slug !in db.tenants)
            && (ret == StoreApi.Fail(Exists) <==> op.slug in db.tenants && k in db.services)
            && (!ret.KeyRet? ==> after == db)
            && after.tenants == db.tenants && after.keys == db.keys && after.clients == db.clients
            && after.codes == db.codes && after.rate == db.rate
            && (forall j :: j != k ==> (j in after.services <==> j in db.services)
                                       && (j in db.services ==> after.services[j] == db.services[j]))
  {
  }

  // --- Deleting ---

  /** The rows of the tenants in kept, unchanged, and no others. */
  ghost predicate KeepsExactly(db: Db, after: Db, kept: set<Slug>) {
    && after.tenants.Keys == kept <= db.tenants.Keys
    && (forall s :: s in kept ==> after.tenants[s] == db.tenants[s])
    && (forall k :: k in after.services <==> k in db.services && k.0 in kept)
    && (forall k :: k in after.services ==> after.services[k] == db.services[k])
    && (forall s :: s in after.keys <==> s in db.keys && s in kept)
    && (forall s :: s in after.keys ==> after.keys[s] == db.keys[s])
    && (forall k :: k in after.clients <==> k in db.clients && k.0 in kept)
    && (forall k :: k in after.clients ==> after.clients[k] == db.clients[k])
    && (forall h :: h in after.codes <==> h in db.codes && db.codes[h].tenant in kept)
    && (forall h :: h in after.codes ==> after.codes[h] == db.codes[h])
    && after.rate == db.rate
  }

  lemma DropKeepsExactly(db: Db, gone: set<Slug>)
    requires Integrity(db)
    ensures KeepsExactly(db, DropTenants(db, gone), db.tenants.Keys - gone)
  {
  }

  /** Deleting a tenant takes its rows in every table and nobody else's. */
  lemma DeleteTakesOneTenant(prefix: string, db: Db, slug: Slug)
    requires Integrity(db)
    ensures var (after, ret) := Api(prefix, db, DeleteTenant(slug));
            KeepsExactly(db, after, db.tenants.Keys - {slug}) && ret == BoolRet(slug in db.tenants)
  {
    hide Integrity, KeepsExactly, DropTenants;
    DropKeepsExactly(db, {slug});
  }

  predicate Outlives(t: Tenant, now: int) {
    t.expiresAt == None || t.expiresAt.value > now
  }

  /** A sweep takes exactly the tenants with an expiry that has come; one without an expiry stays for good. */
  lemma SweepTakesTheExpired(prefix: string, db: Db, now: nat)
    requires Integrity(db)
    ensures var (after, ret) := Api(prefix, db, Op.DeleteExpiredTenants(now));
            && KeepsExactly(db, after, set s | s in db.tenants && Outlives(db.tenants[s], now))
            && ret.SlugsRet? && Distinct(ret.slugs)
            && forall s :: s in ret.slugs <==> s in db.tenants && !Outlives(db.tenants[s], now)
  {
    ExpiredListed(db, now);
    InSlugs(db, now);
    var kept := set s | s in db.tenants && Outlives(db.tenants[s], now);
    assert kept == db.tenants.Keys - ExpiredSet(db, now);
    hide Integrity, KeepsExactly, DropTenants, Distinct, Where;
    DropKeepsExactly(db, ExpiredSet(db, now));
  }

  lemma InSlugs(db: Db, now: nat)
    requires Integrity(db)
    ensures forall s :: s in Where(db.rowids, ExpiredSet(db, now)) <==> s in ExpiredSet(db, now)
  {
    WhereSpec(db.rowids, ExpiredSet(db, now));
  }

  /** Live tenants are those with an expiry still to come; permanent ones are not counted. */
  lemma CountCountsTheEphemeral(prefix: string, db: Db, now: nat)
    ensures Api(prefix, db, CountLiveTenants(now))
            == (db, CountRet(|set s | s in db.tenants && db.tenants[s].expiresAt.Some?
                                      && now < db.tenants[s].expiresAt.value|))
  {
    assert LiveSet(db, now) == set s | s in db.tenants && db.tenants[s].expiresAt.Some?
                                       && now < db.tenants[s].expiresAt.value;
  }

  // --- Codes and keys ---

  /**
   A stored code can be consumed once, before it expires, and gives back what it
   was stored with; a second attempt finds nothing.
   */
  lemma CodeIsConsumedOnce(prefix: string, db: Db, digest: Digest, code: AuthCode, now: nat, later: nat)
    requires Api(prefix, db, CreateAuthCode(digest, code)).1 == Unit && code.usedAt == None
    ensures var stored := Api(prefix, db, CreateAuthCode(digest, code)).0;
            var (after, ret) := Api(prefix, stored, Op.ConsumeAuthCode(digest, now));
            if now < code.expiresAt then
              && ret == GrantRet(code.tenant, code.client, code.redirect, code.challenge)
              && Api(prefix, after, Op.ConsumeAuthCode(digest, later)) == (after, StoreApi.Fail(NotFound))
            else (after, ret) == (stored, StoreApi.Fail(NotFound))
  {
  }

  /** The first signing key stored for a tenant stays; storing another changes nothing and is no error. */
  lemma FirstKeyStays(prefix: string, db: Db, slug: Slug, pem: string, other: string)
    requires slug in db.tenants && slug !in db.keys
    ensures var (stored, ret) := Api(prefix, db, CreateSigningKey(slug, pem));
            && ret == Unit
            && Api(prefix, stored, CreateSigningKey(slug, other)) == (stored, Unit)
            && Api(prefix, stored, GetSigningKey(slug)) == (stored, PemRet(pem))
  {
  }

  /** A new tenant is there with its expiry; a registered client has the URIs it was registered with. */
  lemma CreatedRowsAreFound(prefix: string, db: Db, slug: Slug, name: string, expires: Option<int>, now: nat,
                            client: string, uris: Uris)
    requires slug !in db.tenants && Integrity(db)
    ensures var (with, ret) := Api(prefix, db, CreateTenant(slug, name, expires, now));
            var (more, ret') := Api(prefix, with, CreateOAuthClient(slug, client, uris));
            && ret == ret' == Unit
            && Api(prefix, with, GetTenant(slug)) == (with, TenantRet(Tenant(name, now, expires)))
            && Api(prefix, with, CreateTenant(slug, name, expires, now)) == (with, StoreApi.Fail(Exists))
            && Api(prefix, more, GetOAuthClient(slug, client)) == (more, UrisRet(uris))
            && Api(prefix, more, CreateOAuthClient(slug, client, uris)) == (more, StoreApi.Fail(Exists))
  {
  }
}
