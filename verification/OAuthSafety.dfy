/**
 Three more whole-run properties of the OAuth system: a code yields at most one
 token, a deleted tenant is gone for good although the resolver still caches
 its server, and a cached server agrees with the store.
 */
module OAuthSafety {
  import opened Wrappers
  import opened Sql
  import opened OAuthWorld
  import opened OAuthTokens

  // --- A code yields at most one token ---

  ghost predicate TokenCode(w: World, code: string) {
    exists i :: 0 <= i < |w.tokens| && w.tokens[i].code == code
  }

  /** A process between claiming a code and issuing its token. */
  predicate HoldsClaim(proc: Proc) {
    proc.TokRead? || proc.TokSign?
  }

  ghost predicate Once(w: World) {
    && (forall i, j :: 0 <= i < j < |w.tokens| ==> w.tokens[i].code != w.tokens[j].code)
    && (forall i :: 0 <= i < |w.tokens| ==> w.tokens[i].code in w.claimed)
    && (forall p :: p in w.procs && HoldsClaim(w.procs[p]) ==>
          w.procs[p].treq.code in w.claimed && !TokenCode(w, w.procs[p].treq.code))
    && (forall p, q :: p in w.procs && q in w.procs && p != q && HoldsClaim(w.procs[p]) && HoldsClaim(w.procs[q]) ==>
          w.procs[p].treq.code != w.procs[q].treq.code)
    && (forall h :: h in w.db.codes ==> h.text in w.drawn && (w.db.codes[h].usedAt.None? ==> h.text !in w.claimed))
    && (forall p :: p in w.procs && w.procs[p].AuthInsert? ==>
          var code := w.procs[p].code;
          code in w.drawn && code !in w.claimed && Sha256(code) !in w.db.codes)
    && (forall p, q :: p in w.procs && q in w.procs && p != q && w.procs[p].AuthInsert? && w.procs[q].AuthInsert? ==>
          w.procs[p].code != w.procs[q].code)
    && w.claimed <= w.drawn
  }

  /** A step that issues, claims and inserts nothing. */
  lemma OnceQuiet(w: World, next: World)
    requires Once(w) && next.tokens == w.tokens && next.claimed == w.claimed && w.drawn <= next.drawn
    requires forall h :: h in next.db.codes ==> h in w.db.codes && next.db.codes[h] == w.db.codes[h]
    requires forall p :: p in next.procs && (HoldsClaim(next.procs[p]) || next.procs[p].AuthInsert?) ==>
               p in w.procs && next.procs[p] == w.procs[p]
    ensures Once(next)
  {
    assert forall c :: TokenCode(next, c) ==> TokenCode(w, c);
  }

  lemma OnceDraw(w: World, p: nat, random: string)
    requires Once(w) && p in w.procs && w.procs[p].AuthDraw?
    ensures Once(Next(w, Advance(p, random)))
  {
    hide Exec;
    var next := Next(w, Advance(p, random));
    assert forall c :: TokenCode(next, c) ==> TokenCode(w, c);
    assert next.db == w.db && next.claimed == w.claimed;
  }

  lemma OnceStep(w: World, l: Label)
    requires Once(w)
    ensures Once(Next(w, l))
  {
    hide Exec, Once, AuthStep, TokenStep, ResolveStep, FailStep;
    match l
    case Env(st) =>
      if Foreign(st) { CodesAfter(w.db, st); }
      OnceQuiet(w, Next(w, l));
    case Advance(p, random) =>
      if p in w.procs {
        match w.procs[p]
        case AuthInsert(srv, req, code, at) => OnceInsert(w, p, random);
        case TokClaim(srv, req, at) => OnceClaim(w, p, random);
        case TokRead(srv, req, at) => OnceRead(w, p, random);
        case TokSign(srv, req, at) => OnceIssue(w, p, random);
        case AuthDraw(srv, req) => OnceDraw(w, p, random);
        case _ =>
          QuietAdvance(w, p, random);
          OnceQuiet(w, Next(w, l));
      }
    case Fail(p, ran, random) =>
      if p in w.procs {
        match w.procs[p]
        case AuthInsert(srv, req, code, at) => OnceInsertFails(w, p, ran, random);
        case TokClaim(srv, req, at) => OnceClaimFails(w, p, ran, random);
        case _ =>
          QuietFail(w, p, ran, random);
          OnceQuiet(w, Next(w, l));
      }
    case _ => OnceQuiet(w, Next(w, l));
  }

  lemma StoringKeepsCodes(db: Db, slug: Slug, pem: string)
    ensures Exec(db, InsertKeyOrIgnore(slug, pem)).0.codes == db.codes
  {
  }

  /** Nothing issued, claimed, drawn or inserted, and no process that starts to. */
  ghost predicate Quiet(w: World, next: World) {
    && next.tokens == w.tokens && next.claimed == w.claimed && next.drawn == w.drawn && next.db.codes == w.db.codes
    && (forall q :: q in next.procs && (HoldsClaim(next.procs[q]) || next.procs[q].AuthInsert?) ==>
          q in w.procs && next.procs[q] == w.procs[q])
  }

  lemma QuietAdvance(w: World, p: nat, random: string)
    requires p in w.procs && !w.procs[p].AuthInsert? && !w.procs[p].TokClaim? && !HoldsClaim(w.procs[p])
             && !w.procs[p].AuthDraw?
    ensures Quiet(w, Next(w, Advance(p, random)))
  {
    if w.procs[p].ResStore? { StoringKeepsCodes(w.db, w.procs[p].slug, w.procs[p].pem); }
    hide Exec;
  }

  lemma QuietFail(w: World, p: nat, ran: bool, random: string)
    requires p in w.procs && !w.procs[p].AuthInsert? && !w.procs[p].TokClaim?
    ensures Quiet(w, Next(w, Fail(p, ran, random)))
  {
    if w.procs[p].ResStore? { StoringKeepsCodes(w.db, w.procs[p].slug, w.procs[p].pem); }
    hide Exec;
  }

  lemma OnceInsert(w: World, p: nat, random: string)
    requires Once(w) && p in w.procs && w.procs[p].AuthInsert?
    ensures Once(Next(w, Advance(p, random)))
  {
    hide Exec;
    var AuthInsert(srv, req, code, at) := w.procs[p];
    InsertedCode(w.db, code, NewCode(srv, req, at));
  }

  lemma OnceInsertFails(w: World, p: nat, ran: bool, random: string)
    requires Once(w) && p in w.procs && w.procs[p].AuthInsert?
    ensures Once(Next(w, Fail(p, ran, random)))
  {
    hide Exec;
    var AuthInsert(srv, req, code, at) := w.procs[p];
    InsertedCode(w.db, code, NewCode(srv, req, at));
    var next := Next(w, Fail(p, ran, random));
    assert next.tokens == w.tokens;
    assert forall c :: TokenCode(next, c) ==> TokenCode(w, c);
  }

  lemma OnceClaim(w: World, p: nat, random: string)
    requires Once(w) && p in w.procs && w.procs[p].TokClaim?
    ensures Once(Next(w, Advance(p, random)))
  {
    hide Exec;
    var TokClaim(srv, req, at) := w.procs[p];
    ClaimedCode(w.db, req.code, Unix(at));
    var next := Next(w, Advance(p, random));
    assert next.tokens == w.tokens;
    assert forall c :: TokenCode(next, c) ==> TokenCode(w, c);
  }

  lemma OnceClaimFails(w: World, p: nat, ran: bool, random: string)
    requires Once(w) && p in w.procs && w.procs[p].TokClaim?
    ensures Once(Next(w, Fail(p, ran, random)))
  {
    hide Exec;
    var TokClaim(srv, req, at) := w.procs[p];
    ClaimedCode(w.db, req.code, Unix(at));
    var next := Next(w, Fail(p, ran, random));
    assert next.tokens == w.tokens;
    assert forall c :: TokenCode(next, c) ==> TokenCode(w, c);
  }

  lemma OnceRead(w: World, p: nat, random: string)
    requires Once(w) && p in w.procs && w.procs[p].TokRead?
    ensures Once(Next(w, Advance(p, random)))
  {
    hide Exec;
    ReadFacts(w, p, random);
    var next := Next(w, Advance(p, random));
    assert next == w.(procs := w.procs[p := next.procs[p]]);
    assert forall c :: TokenCode(next, c) ==> TokenCode(w, c);
    hide Next;
    assert HoldsClaim(next.procs[p]) ==> next.procs[p].treq == w.procs[p].treq;
  }

  lemma OnceIssue(w: World, p: nat, random: string)
    requires Once(w) && p in w.procs && w.procs[p].TokSign?
    ensures Once(Next(w, Advance(p, random)))
  {
    hide Exec;
    var next := Next(w, Advance(p, random));
    var code := w.procs[p].treq.code;
    assert !TokenCode(w, code);
    assert next.db == w.db && !HoldsClaim(next.procs[p]);
    assert next.tokens == w.tokens + [next.tokens[|w.tokens|]] && next.tokens[|w.tokens|].code == code;
    forall q | q in next.procs && HoldsClaim(next.procs[q])
      ensures !TokenCode(next, next.procs[q].treq.code)
    {
      assert q != p && w.procs[q] == next.procs[q];
    }
  }

  lemma {:induction false} OnceHolds(tr: seq<World>, ls: seq<Label>, n: nat)
    requires IsRun(tr, ls) && n <= |ls|
    ensures Once(tr[n])
  {
    hide Exec, Next;
    if n > 0 {
      OnceHolds(tr, ls, n - 1);
      OnceStep(tr[n - 1], ls[n - 1]);
    }
  }

  /** Different tokens go back to different authorize steps: the map is injective. */
  lemma TokensComeFromDifferentSteps(tr: seq<World>, ls: seq<Label>, n: nat, i: nat, j: nat, k: nat, m: nat)
    requires IsRun(tr, ls) && n <= |ls| && i < |tr[n].tokens| && j < |tr[n].tokens| && i != j
    requires Drew(tr, ls, k, tr[n].tokens[i].code) && Drew(tr, ls, m, tr[n].tokens[j].code)
    ensures k != m
  {
    OnceHolds(tr, ls, n);
  }

  // --- Deleted tenants ---

  ghost predicate SlugNotReused(ls: seq<Label>, i: nat, j: nat, slug: Slug) {
    forall m :: i <= m < j && m < |ls| ==> (ls[m].Env? ==> Spares(ls[m].st, slug))
  }

  lemma {:induction false} IntegrityHolds(tr: seq<World>, ls: seq<Label>, n: nat)
    requires IsRun(tr, ls) && n <= |ls|
    ensures Integrity(tr[n].db)
  {
    hide Exec, Next;
    if n > 0 {
      IntegrityHolds(tr, ls, n - 1);
      NextDb(tr[n - 1], ls[n - 1]);
      var st := StatementOf(tr[n - 1], ls[n - 1]);
      if st.Some? { ExecKeepsIntegrity(tr[n - 1].db, st.value); }
    }
  }

  /** A handler that has read its code row for the tenant and is about to sign. */
  predicate Signing(w: World, p: nat, slug: Slug) {
    p in w.procs && w.procs[p].TokSign? && w.procs[p].srv.tenant == slug
  }

  /** Without a row of the tenant no handler gets as far as signing for it. */
  lemma NoNewSigner(w: World, l: Label, slug: Slug, p: nat)
    requires NoTrace(w.db, slug) && Signing(Next(w, l), p, slug)
    ensures Signing(w, p, slug) && Next(w, l).procs[p] == w.procs[p]
  {
    NextProcs(w, l, p);
    if l.Advance? && p == l.p && w.procs[p].TokRead? { ReadFacts(w, p, l.random); }
    hide Exec;
  }

  /**
   From the moment a tenant row is gone, and unless its slug is created again, no
   row of the tenant exists, and a token can still be issued for it only by a
   handler that had read its code row and was about to sign at that moment.
   */
  lemma {:induction false} DeletedTenantIsGone(tr: seq<World>, ls: seq<Label>, i: nat, j: nat, slug: Slug)
    requires IsRun(tr, ls) && i <= j <= |ls|
    requires slug !in tr[i].db.tenants && SlugNotReused(ls, i, j, slug)
    ensures NoTrace(tr[j].db, slug)
    ensures tr[i].tokens <= tr[j].tokens
    ensures forall p :: Signing(tr[j], p, slug) ==> Signing(tr[i], p, slug) && tr[j].procs[p] == tr[i].procs[p]
    ensures forall t :: t in tr[j].tokens[|tr[i].tokens|..] && t.tenant == slug ==>
              exists p :: Signing(tr[i], p, slug) && tr[i].procs[p].treq.code == t.code
    decreases j
  {
    hide Exec, Next;
    IntegrityHolds(tr, ls, j);
    if i < j {
      DeletedTenantIsGone(tr, ls, i, j - 1, slug);
      var w, l := tr[j - 1], ls[j - 1];
      NextDb(w, l);
      var st := StatementOf(w, l);
      if st.Some? { StaysGone(w.db, st.value, slug); }
      NextTokens(w, l);
      forall p | Signing(tr[j], p, slug)
        ensures Signing(tr[i], p, slug) && tr[j].procs[p] == tr[i].procs[p]
      {
        NoNewSigner(w, l, slug, p);
      }
      NewTokensSigned(tr, ls, i, j, slug);
    }
  }

  lemma NewTokensSigned(tr: seq<World>, ls: seq<Label>, i: nat, j: nat, slug: Slug)
    requires IsRun(tr, ls) && i < j <= |ls| && tr[i].tokens <= tr[j - 1].tokens && tr[i].tokens <= tr[j].tokens
    requires forall p :: Signing(tr[j - 1], p, slug) ==>
               Signing(tr[i], p, slug) && tr[j - 1].procs[p] == tr[i].procs[p]
    requires forall t :: t in tr[j - 1].tokens[|tr[i].tokens|..] && t.tenant == slug ==>
               exists p :: Signing(tr[i], p, slug) && tr[i].procs[p].treq.code == t.code
    ensures forall t :: t in tr[j].tokens[|tr[i].tokens|..] && t.tenant == slug ==>
              exists p :: Signing(tr[i], p, slug) && tr[i].procs[p].treq.code == t.code
  {
    hide Next;
    var w, l := tr[j - 1], ls[j - 1];
    NextTokens(w, l);
    var n := |tr[i].tokens|;
    if tr[j].tokens != w.tokens {
      var t := tr[j].tokens[|w.tokens|];
      assert tr[j].tokens[n..] == w.tokens[n..] + [t];
      if t.tenant == slug {
        assert Signing(w, l.p, slug);
        assert Signing(tr[i], l.p, slug) && tr[i].procs[l.p].treq.code == t.code;
      }
    }
  }

  // --- The resolver's cache ---

  predicate HoldsServer(proc: Proc) {
    !IsResolver(proc) && !proc.Ended?
  }

  ghost predicate CacheOk(w: World) {
    && (forall p, q :: p in w.procs && q in w.procs && IsResolver(w.procs[p]) && IsResolver(w.procs[q]) ==> p == q)
    && (forall p :: p in w.procs && IsResolver(w.procs[p]) ==> w.procs[p].slug !in w.cache)
    && (forall s :: s in w.cache ==> w.cache[s].tenant == s)
    && (forall p :: p in w.procs && HoldsServer(w.procs[p]) ==>
          w.procs[p].srv.tenant in w.cache && w.cache[w.procs[p].srv.tenant] == w.procs[p].srv)
  }

  /** What a step does to the cache and to the processes other than the one it runs. */
  lemma CacheOkStep(w: World, l: Label)
    requires CacheOk(w)
    ensures CacheOk(Next(w, l))
    ensures !l.Restart? ==> forall s :: s in w.cache ==> s in Next(w, l).cache && Next(w, l).cache[s] == w.cache[s]
  {
    hide Exec, AuthStep, TokenStep, ResolveStep, FailStep;
    match l
    case Advance(p, random) =>
      if p in w.procs {
        if IsResolver(w.procs[p]) { CacheOkResolve(w, p, random); } else { CacheOkHandler(w, p, random); }
      }
    case Fail(p, ran, random) => if p in w.procs { CacheOkFail(w, p, ran, random); }
    case _ =>
  }

  lemma CacheOkResolve(w: World, p: nat, random: string)
    requires CacheOk(w) && p in w.procs && IsResolver(w.procs[p])
    ensures var next := Next(w, Advance(p, random));
            CacheOk(next) && forall s :: s in w.cache ==> s in next.cache && next.cache[s] == w.cache[s]
  {
    hide Exec;
  }

  /** A handler step keeps the process's server or ends it, and leaves the cache alone. */
  lemma CacheOkHandler(w: World, p: nat, random: string)
    requires CacheOk(w) && p in w.procs && !IsResolver(w.procs[p])
    ensures var next := Next(w, Advance(p, random));
            CacheOk(next) && next.cache == w.cache
  {
    hide Exec, CacheOk;
    var next := Next(w, Advance(p, random));
    assert next.cache == w.cache;
    var proc := next.procs[p];
    assert next.procs == w.procs[p := proc];
    assert !IsResolver(proc) && (HoldsServer(proc) ==> HoldsServer(w.procs[p]) && proc.srv == w.procs[p].srv);
    CacheOkReplace(w, next, p, proc);
  }

  /** A failed statement ends its process, but for the key lookup. */
  lemma CacheOkFail(w: World, p: nat, ran: bool, random: string)
    requires CacheOk(w) && p in w.procs
    ensures var next := Next(w, Fail(p, ran, random));
            CacheOk(next) && next.cache == w.cache
  {
    hide Exec, CacheOk;
    var next := Next(w, Fail(p, ran, random));
    assert next.cache == w.cache;
    var proc := next.procs[p];
    assert next.procs == w.procs[p := proc];
    assert proc == w.procs[p] || proc.Ended? || (w.procs[p].ResKey? && proc.ResStore? && proc.slug == w.procs[p].slug);
    hide Next, FailStep;
    CacheOkReplace(w, next, p, proc);
  }

  lemma CacheOkReplace(w: World, next: World, p: nat, proc: Proc)
    requires CacheOk(w) && p in w.procs && next.cache == w.cache && next.procs == w.procs[p := proc]
    requires IsResolver(proc) ==> IsResolver(w.procs[p]) && proc.slug == w.procs[p].slug
    requires HoldsServer(proc) ==> HoldsServer(w.procs[p]) && proc.srv == w.procs[p].srv
    ensures CacheOk(next)
  {
  }

  lemma {:induction false} CacheOkHolds(tr: seq<World>, ls: seq<Label>, n: nat)
    requires IsRun(tr, ls) && n <= |ls|
    ensures CacheOk(tr[n])
  {
    hide Exec, Next;
    if n > 0 {
      CacheOkHolds(tr, ls, n - 1);
      CacheOkStep(tr[n - 1], ls[n - 1]);
    }
  }

  /** A cached server is never evicted or replaced while the daemon runs. */
  lemma {:induction false} CacheIsPermanent(tr: seq<World>, ls: seq<Label>, i: nat, j: nat, slug: Slug)
    requires IsRun(tr, ls) && i <= j <= |ls| && slug in tr[i].cache
    requires forall m :: i <= m < j ==> !ls[m].Restart?
    ensures slug in tr[j].cache && tr[j].cache[slug] == tr[i].cache[slug]
    decreases j
  {
    hide Exec, Next;
    if i < j {
      CacheIsPermanent(tr, ls, i, j - 1, slug);
      CacheOkHolds(tr, ls, j - 1);
      CacheOkStep(tr[j - 1], ls[j - 1]);
    }
  }

  /** What NewServer would build from the store now, if the tenant has an expiry and a key. */
  function Rebuilt(db: Db, slug: Slug): Option<Server> {
    if slug in db.tenants && db.tenants[slug].expiresAt.Some? && slug in db.keys then
      Some(Server(slug, db.keys[slug], db.tenants[slug].expiresAt.value * SECOND))
    else None
  }

  /** The tenant has expiry and key, and any server cached or being built for it agrees with them. */
  ghost predicate Settled(w: World, slug: Slug) {
    && Rebuilt(w.db, slug).Some?
    && (slug in w.cache ==> w.cache[slug] == Rebuilt(w.db, slug).value)
    && (forall p :: p in w.procs && w.procs[p].ResKey? && w.procs[p].slug == slug ==>
          w.procs[p].expiresAt == Rebuilt(w.db, slug).value.expiresAt)
    && (forall p :: p in w.procs && w.procs[p].ResStore? ==> w.procs[p].slug != slug)
  }

  /** The store does not answer a resolver's key lookup for this tenant. */
  predicate KeyLookupFails(w: World, l: Label, slug: Slug) {
    l.Fail? && l.p in w.procs && w.procs[l.p].ResKey? && w.procs[l.p].slug == slug
  }

  lemma SettledStep(w: World, l: Label, slug: Slug)
    requires CacheOk(w) && Settled(w, slug) && slug in Next(w, l).db.tenants && !KeyLookupFails(w, l, slug)
    ensures Settled(Next(w, l), slug)
    ensures Rebuilt(Next(w, l).db, slug) == Rebuilt(w.db, slug)
    ensures w.tokens <= Next(w, l).tokens
    ensures Keyed(Next(w, l).tokens[|w.tokens|..], slug, w.db.keys[slug], w.db.tenants[slug].expiresAt.value)
  {
    SettledDb(w, l, slug);
    SettledProcs(w, l, slug);
    hide Exec, Next;
    NextTokens(w, l);
  }

  lemma SettledDb(w: World, l: Label, slug: Slug)
    requires Settled(w, slug) && slug in Next(w, l).db.tenants
    ensures Rebuilt(Next(w, l).db, slug) == Rebuilt(w.db, slug)
  {
    hide Exec, Next;
    NextDb(w, l);
    var st := StatementOf(w, l);
    if st.Some? { RowsNeverChange(w.db, st.value, slug); }
  }

  lemma SelectsRead(db: Db, slug: Slug)
    ensures Exec(db, SelectTenant(slug)).1.rows
            == if slug in db.tenants then [TenantRow(slug, db.tenants[slug])] else []
    ensures Exec(db, SelectKey(slug)).1.rows == if slug in db.keys then [KeyRow(db.keys[slug])] else []
  {
  }

  lemma SettledProcs(w: World, l: Label, slug: Slug)
    requires Settled(w, slug) && slug in Next(w, l).db.tenants && !KeyLookupFails(w, l, slug)
    requires Rebuilt(Next(w, l).db, slug) == Rebuilt(w.db, slug)
    ensures Settled(Next(w, l), slug)
  {
    hide Exec, Rebuilt, Settled, Next;
    if l.Advance? && l.p in w.procs && IsResolver(w.procs[l.p]) {
      SettledResolver(w, l, slug);
    } else if l.Fail? {
      SettledFail(w, l, slug);
    } else {
      SettledOthers(w, l, slug);
    }
  }

  lemma SettledResolver(w: World, l: Label, slug: Slug)
    requires Settled(w, slug) && slug in Next(w, l).db.tenants
    requires Rebuilt(Next(w, l).db, slug) == Rebuilt(w.db, slug)
    requires l.Advance? && l.p in w.procs && IsResolver(w.procs[l.p])
    ensures Settled(Next(w, l), slug)
  {
    hide Exec;
    SelectsRead(w.db, w.procs[l.p].slug);
  }

  lemma SettledFail(w: World, l: Label, slug: Slug)
    requires Settled(w, slug) && l.Fail? && !KeyLookupFails(w, l, slug)
    requires Rebuilt(Next(w, l).db, slug) == Rebuilt(w.db, slug)
    ensures Settled(Next(w, l), slug)
  {
    hide Exec, Rebuilt;
    assert Next(w, l).cache == w.cache;
  }

  lemma SettledOthers(w: World, l: Label, slug: Slug)
    requires Settled(w, slug) && slug in Next(w, l).db.tenants && !l.Fail?
    requires Rebuilt(Next(w, l).db, slug) == Rebuilt(w.db, slug)
    requires !(l.Advance? && l.p in w.procs && IsResolver(w.procs[l.p]))
    ensures Settled(Next(w, l), slug)
  {
    hide Exec;
    assert Next(w, l).cache == if l.Restart? then map[] else w.cache;
  }

  /** The tenant's tokens among these carry this key and expiry. */
  ghost predicate Keyed(ts: seq<Token>, slug: Slug, key: string, exp: int) {
    forall t :: t in ts && t.tenant == slug ==> t.key == key && t.exp == exp
  }

  lemma KeyedLater(a: seq<Token>, b: seq<Token>, c: seq<Token>, slug: Slug, key: string, exp: int)
    requires a <= b <= c && Keyed(b[|a|..], slug, key, exp) && Keyed(c[|b|..], slug, key, exp)
    ensures Keyed(c[|a|..], slug, key, exp)
  {
    assert c[|a|..] == b[|a|..] + c[|b|..];
  }

  /** From step i to step j no lookup of the tenant's key fails. */
  ghost predicate LookupsAnswered(tr: seq<World>, ls: seq<Label>, i: nat, j: nat, slug: Slug)
    requires |tr| == |ls| + 1
  {
    forall m :: i <= m < j && m < |ls| ==> !KeyLookupFails(tr[m], ls[m], slug)
  }

  /** From world a to world b the tenant's server has stayed settled, and its tokens carry its key and expiry. */
  ghost predicate AgreesSince(a: World, b: World, slug: Slug) {
    && Settled(a, slug) && Settled(b, slug) && Rebuilt(b.db, slug) == Rebuilt(a.db, slug)
    && a.tokens <= b.tokens
    && Keyed(b.tokens[|a.tokens|..], slug, b.db.keys[slug], b.db.tenants[slug].expiresAt.value)
  }

  lemma AgreesAtFirst(a: World, slug: Slug)
    requires Settled(a, slug)
    ensures AgreesSince(a, a, slug)
  {
    assert a.tokens[|a.tokens|..] == [];
  }

  lemma AgreesNext(a: World, b: World, l: Label, slug: Slug)
    requires AgreesSince(a, b, slug) && CacheOk(b) && slug in Next(b, l).db.tenants && !KeyLookupFails(b, l, slug)
    ensures AgreesSince(a, Next(b, l), slug)
  {
    SettledStep(b, l, slug);
    hide Next, Settled, CacheOk, KeyLookupFails, Keyed;
    var c := Next(b, l);
    SettledHas(b, slug);
    SettledHas(c, slug);
    KeyedLater(a.tokens, b.tokens, c.tokens, slug, c.db.keys[slug], c.db.tenants[slug].expiresAt.value);
  }

  lemma SettledHas(w: World, slug: Slug)
    requires Settled(w, slug)
    ensures slug in w.db.keys && slug in w.db.tenants && w.db.tenants[slug].expiresAt.Some?
  {
  }

  lemma {:induction false} AgreesRun(tr: seq<World>, ls: seq<Label>, i: nat, j: nat, slug: Slug)
    requires IsRun(tr, ls) && i <= j <= |ls| && Settled(tr[i], slug) && LookupsAnswered(tr, ls, i, j, slug)
    requires forall m :: i <= m <= j ==> slug in tr[m].db.tenants
    ensures AgreesSince(tr[i], tr[j], slug)
    decreases j
  {
    hide Exec, Next, KeyLookupFails, CacheOk, AgreesSince, Settled;
    if i == j {
      AgreesAtFirst(tr[i], slug);
    } else {
      AgreesRun(tr, ls, i, j - 1, slug);
      CacheOkHolds(tr, ls, j - 1);
      assert slug in tr[j].db.tenants;
      AgreesNext(tr[i], tr[j - 1], ls[j - 1], slug);
    }
  }

  /**
   From a moment when a tenant has an expiry and a signing key and no server
   for it is cached or half built, for as long as its row lives and no lookup of
   its key fails: any server the resolver caches for it is the one the store
   would rebuild, and every token issued for it is signed with the stored key and
   expires with the tenant.
   */
  lemma CachedServerAgrees(tr: seq<World>, ls: seq<Label>, i: nat, j: nat, slug: Slug)
    requires IsRun(tr, ls) && i <= j <= |ls| && Settled(tr[i], slug) && LookupsAnswered(tr, ls, i, j, slug)
    requires forall m :: i <= m <= j ==> slug in tr[m].db.tenants
    ensures Settled(tr[j], slug) && Rebuilt(tr[j].db, slug) == Rebuilt(tr[i].db, slug)
    ensures tr[i].tokens <= tr[j].tokens
    ensures Keyed(tr[j].tokens[|tr[i].tokens|..], slug, tr[j].db.keys[slug], tr[j].db.tenants[slug].expiresAt.value)
  {
    AgreesRun(tr, ls, i, j, slug);
    hide IsRun, LookupsAnswered, Keyed;
  }

  /** The tenant has expiry and key, and no server for it is cached or being built from them. */
  ghost predicate FreshTenant(w: World, slug: Slug) {
    && Rebuilt(w.db, slug).Some? && slug !in w.cache
    && forall p :: p in w.procs && IsResolver(w.procs[p]) ==> w.procs[p].ResTenant? || w.procs[p].slug != slug
  }

  lemma FreshTenantSettled(w: World, slug: Slug)
    requires FreshTenant(w, slug)
    ensures Settled(w, slug)
  {
  }
}
