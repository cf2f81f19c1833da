/**
 Creating quick tunnels under the capacity limit. The limit is checked with one
 statement and the tenant inserted with a later one, so concurrent requests can
 overshoot; the bound says by how much. Times are unix seconds.
 */
module Capacity {
  import opened Wrappers
  import opened Sql
  import opened StoreApi
  import opened Counting
  import SqliteStore

  const MAX_LIVE_TUNNELS := 500
  const QUICK_TTL := 24 * 3600
  const SLUG_ATTEMPTS := 10

  function QuickTenant(now: nat, expires: int): Tenant {
    Tenant("quick tunnel", now, Some(expires))
  }

  /** Inserts the tenant under the first drawn slug that is free, trying ten. */
  method CreateQuickTenant(store: SqliteStore.Store, draws: seq<Slug>, now: nat, expires: int)
    returns (r: Result<Slug, Error>)
    requires store.Valid() && |draws| == SLUG_ATTEMPTS
    modifies store
    ensures store.Valid()
    ensures match r
            case Ok(slug) =>
              && slug !in old(store.db).tenants
              && (exists i :: 0 <= i < |draws| && draws[i] == slug
                              && forall j :: 0 <= j < i ==> draws[j] in old(store.db).tenants)
              && slug in store.db.tenants && store.db.tenants[slug].expiresAt == Some(expires)
              && store.db.tenants[slug].createdAt == now
              && store.db == Exec(old(store.db), InsertTenant(slug, store.db.tenants[slug])).0
            case Err(e) =>
              e == Exists && store.db == old(store.db) && forall j :: 0 <= j < |draws| ==> draws[j] in store.db.tenants
  {
    for i := 0 to |draws|
      invariant store.Valid() && store.db == old(store.db)
      invariant forall j :: 0 <= j < i ==> draws[j] in store.db.tenants
    {
      var insert := InsertTenant(draws[i], QuickTenant(now, expires));
      ExecKeepsIntegrity(store.db, insert);
      var res := store.Run(insert);
      if res.Done? { return Ok(draws[i]); }
    }
    r := Err(Exists);
  }

  // --- Concurrent requests ---

  datatype Phase =
    | Checking(at: nat)
    | Passed
    | Creating(tries: nat, expires: int)
    | AddingService(slug: Slug, auth: bool)
    | AddingKey(slug: Slug)
    | Over

  datatype World = World(db: Db, now: nat, handlers: map<nat, Phase>)

  datatype Label =
    | Begin(p: nat)
    | Step(p: nat, slug: Slug, auth: bool, service: Service, pem: string)
    | Abort(p: nat)
    | Env(st: Stmt)
    | Tick(d: nat)

  function InFlight(w: World): set<nat> {
    set p | p in w.handlers && !w.handlers[p].Over?
  }

  /** Past the capacity check, tenant not inserted yet. */
  function Admitted(w: World): set<nat> {
    set p | p in w.handlers && (w.handlers[p].Passed? || w.handlers[p].Creating?)
  }

  /** One step, with at most n requests in flight; only handleQuick inserts tenants. */
  function Next(n: nat, w: World, l: Label): World {
    match l
    case Begin(p) =>
      if p in w.handlers || |InFlight(w)| >= n then w else w.(handlers := w.handlers[p := Checking(w.now)])
    case Step(p, slug, auth, service, pem) =>
      if p !in w.handlers then w
      else
        (match w.handlers[p]
         case Checking(at) =>
           w.(handlers := w.handlers[p := if |LiveSet(w.db, at)| >= MAX_LIVE_TUNNELS then Over else Passed])
         case Passed => w.(handlers := w.handlers[p := Creating(SLUG_ATTEMPTS, w.now + QUICK_TTL)])
         case Creating(tries, expires) =>
           var (db, res) := Exec(w.db, InsertTenant(slug, QuickTenant(w.now, expires)));
           if res.Done? then w.(db := db, handlers := w.handlers[p := AddingService(slug, auth)])
           else if tries <= 1 then w.(handlers := w.handlers[p := Over])
           else w.(handlers := w.handlers[p := Creating(tries - 1, expires)])
         case AddingService(s, a) =>
           var (db, res) := Exec(w.db, InsertService(s, "mcp", service));
           w.(db := db, handlers := w.handlers[p := if res.Done? && a then AddingKey(s) else Over])
         case AddingKey(s) =>
           w.(db := Exec(w.db, InsertKeyOrIgnore(s, pem)).0, handlers := w.handlers[p := Over])
         case Over => w)
    case Abort(p) => if p in w.handlers then w.(handlers := w.handlers[p := Over]) else w
    case Env(st) => if st.InsertTenant? then w else w.(db := Exec(w.db, st).0)
    case Tick(d) => w.(now := w.now + d)
  }

  function Run(n: nat, w: World, ls: seq<Label>): World
    decreases |ls|
  {
    if ls == [] then w else Run(n, Next(n, w, ls[0]), ls[1..])
  }

  ghost predicate Inv(n: nat, w: World) {
    && |InFlight(w)| <= n
    && |LiveSet(w.db, w.now)| + |Admitted(w)| <= MAX_LIVE_TUNNELS - 1 + n
    && forall p :: p in w.handlers && w.handlers[p].Checking? ==> w.handlers[p].at <= w.now
  }

  lemma LiveShrinks(db: Db, st: Stmt, now: int)
    requires !st.InsertTenant?
    ensures |LiveSet(Exec(db, st).0, now)| <= |LiveSet(db, now)|
  {
    assert LiveSet(Exec(db, st).0, now) <= LiveSet(db, now);
    SubsetSize(LiveSet(Exec(db, st).0, now), LiveSet(db, now));
  }

  lemma LiveGrowsByOne(db: Db, slug: Slug, t: Tenant, now: int)
    ensures |LiveSet(Exec(db, InsertTenant(slug, t)).0, now)| <= |LiveSet(db, now)| + 1
  {
    assert LiveSet(Exec(db, InsertTenant(slug, t)).0, now) <= LiveSet(db, now) + {slug};
    UnionSize(LiveSet(Exec(db, InsertTenant(slug, t)).0, now), LiveSet(db, now), {slug});
  }

  lemma LiveLater(db: Db, at: int, now: int)
    requires at <= now
    ensures |LiveSet(db, now)| <= |LiveSet(db, at)|
  {
    assert LiveSet(db, now) <= LiveSet(db, at);
    SubsetSize(LiveSet(db, now), LiveSet(db, at));
  }

  /** A step moves at most one handler, and in flight only down except for Begin. */
  lemma SetsAfter(w: World, next: World, p: nat, phase: Phase)
    requires next.handlers == w.handlers[p := phase]
    ensures !phase.Over? ==> InFlight(next) == InFlight(w) + {p}
    ensures phase.Over? ==> InFlight(next) == InFlight(w) - {p}
    ensures phase.Passed? || phase.Creating? ==> Admitted(next) == Admitted(w) + {p}
    ensures !phase.Passed? && !phase.Creating? ==> Admitted(next) == Admitted(w) - {p}
    ensures Admitted(next) <= InFlight(next)
  {
  }

  lemma InvStep(n: nat, w: World, l: Label)
    requires Inv(n, w)
    ensures Inv(n, Next(n, w, l))
  {
    hide Exec, LiveSet, InFlight, Admitted;
    var next := Next(n, w, l);
    match l
    case Begin(p) => if next != w { SetsAfter(w, next, p, Checking(w.now)); InvSets(w, next, p); }
    case Step(p, _, _, _, _) => if p in w.handlers && !w.handlers[p].Over? { HandlerMoves(n, w, l); }
    case Abort(p) =>
      if p in w.handlers {
        SetsAfter(w, next, p, Over);
        SubsetSize(InFlight(next), InFlight(w));
        SubsetSize(Admitted(next), Admitted(w));
      }
    case Env(st) =>
      if !st.InsertTenant? { LiveShrinks(w.db, st, w.now); SameHandlers(w, next); }
    case Tick(d) =>
      LiveLater(w.db, w.now, next.now);
      SameHandlers(w, next);
  }

  lemma HandlerMoves(n: nat, w: World, l: Label)
    requires Inv(n, w) && l.Step? && l.p in w.handlers && !w.handlers[l.p].Over?
    ensures Inv(n, Next(n, w, l))
  {
    hide Exec, LiveSet, InFlight, Admitted;
    var next, p := Next(n, w, l), l.p;
    SetsAfter(w, next, p, next.handlers[p]);
    InFlightIs(w, p);
    AdmittedIs(w, p);
    InvSets(w, next, p);
    match w.handlers[p]
    case Checking(at) =>
      LiveLater(w.db, at, w.now);
      SubsetSize(Admitted(next), InFlight(next));
    case Creating(_, expires) =>
      RefusedChangesNothing(w.db, InsertTenant(l.slug, QuickTenant(w.now, expires)));
      LiveGrowsByOne(w.db, l.slug, QuickTenant(w.now, expires), w.now);
    case AddingService(s, _) => LiveShrinks(w.db, InsertService(s, "mcp", l.service), w.now);
    case AddingKey(s) => LiveShrinks(w.db, InsertKeyOrIgnore(s, l.pem), w.now);
    case Passed =>
  }

  lemma SameHandlers(w: World, next: World)
    requires next.handlers == w.handlers
    ensures InFlight(next) == InFlight(w) && Admitted(next) == Admitted(w)
  {
  }

  lemma InFlightIs(w: World, p: nat)
    ensures p in InFlight(w) <==> p in w.handlers && !w.handlers[p].Over?
  {
  }

  lemma AdmittedIs(w: World, p: nat)
    ensures p in Admitted(w) <==> p in w.handlers && (w.handlers[p].Passed? || w.handlers[p].Creating?)
  {
  }

  lemma InvSets(w: World, next: World, p: nat)
    requires InFlight(next) == InFlight(w) + {p} || InFlight(next) == InFlight(w) - {p}
    ensures p in InFlight(w) ==> |InFlight(next)| <= |InFlight(w)|
    ensures |InFlight(next)| <= |InFlight(w)| + 1
  {
    hide InFlight;
    if p in InFlight(w) { SubsetSize(InFlight(next), InFlight(w)); }
    UnionSize(InFlight(next), InFlight(w), {p});
  }

  lemma {:induction false} InvRun(n: nat, w: World, ls: seq<Label>)
    requires Inv(n, w)
    ensures Inv(n, Run(n, w, ls))
    decreases |ls|
  {
    hide Next, Inv;
    if ls != [] {
      InvStep(n, w, ls[0]);
      InvRun(n, Next(n, w, ls[0]), ls[1..]);
    }
  }

  /**
   With at most n requests in flight and nobody else creating tenants, live
   tenants and requests past the check together never exceed 499 + n, through
   deletions, sweeps, passing time, failures and slug collisions. So a
   sequential daemon (n = 1) never has more than 500 live tenants.
   */
  lemma LiveTenantsBounded(n: nat, now: nat, ls: seq<Label>)
    ensures var w := Run(n, World(EMPTY, now, map[]), ls);
            |LiveSet(w.db, w.now)| + |Admitted(w)| <= MAX_LIVE_TUNNELS - 1 + n
  {
    var w := World(EMPTY, now, map[]);
    assert LiveSet(w.db, now) == {} && Admitted(w) == {} && InFlight(w) == {};
    InvRun(n, w, ls);
  }

  // --- Quick tenants end, and requests succeed ---

  const DAY := 86_400

  /** Every tenant has an expiry at most a day off, and every request that is creating one will set such an expiry. */
  ghost predicate Ephemeral(w: World) {
    && (forall s :: s in w.db.tenants ==>
          w.db.tenants[s].expiresAt.Some? && w.db.tenants[s].expiresAt.value <= w.now + DAY)
    && (forall p :: p in w.handlers && w.handlers[p].Creating? ==> w.handlers[p].expires <= w.now + DAY)
  }

  lemma TenantsAfter(db: Db, st: Stmt)
    ensures var after := Exec(db, st).0;
            forall s :: s in after.tenants ==>
              || (s in db.tenants && after.tenants[s] == db.tenants[s])
              || (st.InsertTenant? && s == st.slug && after.tenants[s] == st.tenant)
  {
  }

  lemma EphemeralStep(n: nat, w: World, l: Label)
    requires Ephemeral(w)
    ensures Ephemeral(Next(n, w, l))
  {
    if l.Env? { TenantsAfter(w.db, l.st); }
    if l.Step? && l.p in w.handlers {
      match w.handlers[l.p]
      case Creating(_, expires) => TenantsAfter(w.db, InsertTenant(l.slug, QuickTenant(w.now, expires)));
      case AddingService(s, _) => TenantsAfter(w.db, InsertService(s, "mcp", l.service));
      case AddingKey(s) => TenantsAfter(w.db, InsertKeyOrIgnore(s, l.pem));
      case _ =>
    }
    hide Exec;
  }

  lemma {:induction false} EphemeralRun(n: nat, w: World, ls: seq<Label>)
    requires Ephemeral(w)
    ensures Ephemeral(Run(n, w, ls))
    decreases |ls|
  {
    hide Next, Ephemeral;
    if ls != [] {
      EphemeralStep(n, w, ls[0]);
      EphemeralRun(n, Next(n, w, ls[0]), ls[1..]);
    }
  }

  /** In every run each tenant that requests created has an expiry, and a day later none of those there now is live. */
  lemma QuickTenantsEnd(n: nat, now: nat, ls: seq<Label>)
    ensures var w := Run(n, World(EMPTY, now, map[]), ls);
            && (forall s :: s in w.db.tenants ==> w.db.tenants[s].expiresAt.Some?)
            && forall s :: s in w.db.tenants ==> w.db.tenants[s].expiresAt.value <= w.now + 86_400
  {
    EphemeralRun(n, World(EMPTY, now, map[]), ls);
  }

  lemma RunCons(n: nat, w: World, l: Label, ls: seq<Label>)
    ensures Run(n, w, [l] + ls) == Run(n, Next(n, w, l), ls)
  {
    assert ([l] + ls)[1..] == ls;
  }

  /** A request that meets nobody else: it begins and takes its five steps. */
  function Alone(p: nat, slug: Slug, auth: bool, service: Service, pem: string): seq<Label> {
    var step := Step(p, slug, auth, service, pem);
    [Begin(p)] + ([step] + ([step] + ([step] + ([step] + ([step] + [])))))
  }

  lemma AloneSteps(n: nat, w: World, p: nat, slug: Slug, auth: bool, service: Service, pem: string)
    ensures var step := Step(p, slug, auth, service, pem);
            Run(n, w, Alone(p, slug, auth, service, pem))
            == Next(n, Next(n, Next(n, Next(n, Next(n, Next(n, w, Begin(p)), step), step), step), step), step)
  {
    hide Next, Run;
    var step := Step(p, slug, auth, service, pem);
    var e: seq<Label> := [];
    RunCons(n, w, Begin(p), [step] + ([step] + ([step] + ([step] + ([step] + e)))));
    var w1 := Next(n, w, Begin(p));
    RunCons(n, w1, step, [step] + ([step] + ([step] + ([step] + e))));
    var w2 := Next(n, w1, step);
    RunCons(n, w2, step, [step] + ([step] + ([step] + e)));
    var w3 := Next(n, w2, step);
    RunCons(n, w3, step, [step] + ([step] + e));
    var w4 := Next(n, w3, step);
    RunCons(n, w4, step, [step] + e);
    var w5 := Next(n, w4, step);
    RunCons(n, w5, step, e);
    RunNone(n, Next(n, w5, step));
  }

  lemma RunNone(n: nat, w: World)
    ensures Run(n, w, []) == w
  {
  }

  /** Below the limit a request is let past the check; at the limit it is turned away. */
  lemma CheckedAt(n: nat, w: World, p: nat, step: Label)
    requires p !in w.handlers && |InFlight(w)| < n && step.Step? && step.p == p
    ensures var checked := Next(n, Next(n, w, Begin(p)), step);
            && checked.db == w.db && checked.now == w.now && p in checked.handlers
            && checked.handlers[p] == if |LiveSet(w.db, w.now)| < 500 then Passed else Over
  {
    hide LiveSet, InFlight;
  }

  /** The tenant, then its service, then, when protected, its key: or nothing if the slug is taken. */
  lemma CreatesTenant(n: nat, w: World, p: nat, step: Label)
    requires Integrity(w.db) && p in w.handlers && w.handlers[p] == Passed && step.Step? && step.p == p
    ensures var slug := step.slug;
            var made := Next(n, Next(n, w, step), step);
            p in made.handlers &&
            if slug in w.db.tenants then made.db == w.db && made.handlers[p].Creating?
            else
              && made.handlers[p] == AddingService(slug, step.auth) && made.now == w.now
              && slug in made.db.tenants && made.db.tenants[slug].expiresAt == Some(w.now + 86_400)
              && made.db.services == w.db.services && made.db.keys == w.db.keys && Integrity(made.db)
              && made.db.tenants == w.db.tenants[slug := made.db.tenants[slug]]
              && (slug, "mcp") !in made.db.services && slug !in made.db.keys
  {
    var passed := Next(n, w, step);
    if step.slug !in w.db.tenants { FreeOfChildren(w.db, step.slug); }
    assert passed.handlers[p] == Creating(SLUG_ATTEMPTS, w.now + QUICK_TTL) && passed.db == w.db;
    ExecKeepsIntegrity(w.db, InsertTenant(step.slug, QuickTenant(w.now, w.now + QUICK_TTL)));
    hide Integrity;
  }

  lemma FreeOfChildren(db: Db, slug: Slug)
    requires Integrity(db) && slug !in db.tenants
    ensures (slug, "mcp") !in db.services && slug !in db.keys
  {
  }

  lemma AddsServiceAndKey(n: nat, w: World, p: nat, step: Label)
    requires step.Step? && step.p == p && p in w.handlers && w.handlers[p] == AddingService(step.slug, step.auth)
    requires step.slug in w.db.tenants && (step.slug, "mcp") !in w.db.services && step.slug !in w.db.keys
    ensures var done := Next(n, Next(n, w, step), step);
            && done.handlers[p] == Over && done.db.tenants == w.db.tenants
            && done.db.services == w.db.services[(step.slug, "mcp") := step.service]
            && done.db.keys == if step.auth then w.db.keys[step.slug := step.pem] else w.db.keys
  {
  }

  /**
   A request that meets nobody else creates its tenant if and only if fewer than 500
   are live and the slug it draws is free. The tenant then expires a day later and
   has the service asked for, and a signing key exactly if it is protected.
   */
  lemma RequestCreatesTenantWhen(n: nat, w: World, p: nat, slug: Slug, auth: bool, service: Service, pem: string)
    requires Integrity(w.db) && p !in w.handlers && |InFlight(w)| < n
    ensures var end := Run(n, w, Alone(p, slug, auth, service, pem));
            var good := |LiveSet(w.db, w.now)| < 500 && slug !in w.db.tenants;
            && (good ==>
                  && slug in end.db.tenants && end.db.tenants[slug].expiresAt == Some(w.now + 86_400)
                  && end.db.services == w.db.services[(slug, "mcp") := service]
                  && end.db.keys == if auth then w.db.keys[slug := pem] else w.db.keys)
            && (!good ==> end.db == w.db)
  {
    hide Next, LiveSet, InFlight;
    var step := Step(p, slug, auth, service, pem);
    AloneSteps(n, w, p, slug, auth, service, pem);
    CheckedAt(n, w, p, step);
    var checked := Next(n, Next(n, w, Begin(p)), step);
    if checked.handlers[p] == Passed {
      CreatesTenant(n, checked, p, step);
      var made := Next(n, Next(n, checked, step), step);
      if slug in w.db.tenants {
        TakenSlug(n, made, p, step);
      } else {
        AddsServiceAndKey(n, made, p, step);
      }
    } else {
      OverStays(n, checked, p, step);
    }
  }

  lemma OverStays(n: nat, w: World, p: nat, step: Label)
    requires p in w.handlers && w.handlers[p] == Over && step.Step? && step.p == p
    ensures Next(n, w, step) == w
  {
  }

  lemma TakenSlug(n: nat, w: World, p: nat, step: Label)
    requires p in w.handlers && w.handlers[p].Creating? && step.Step? && step.p == p && step.slug in w.db.tenants
    ensures Next(n, Next(n, w, step), step).db == w.db
  {
  }

  /** Only a tick moves the clock; other statements run as they are, but none of them inserts a tenant. */
  lemma WorldMoves(n: nat, w: World, l: Label)
    ensures Next(n, w, l).now == w.now + if l.Tick? then l.d else 0
    ensures l.Env? && !l.st.InsertTenant? ==> Next(n, w, l) == w.(db := Exec(w.db, l.st).0)
    ensures l.Abort? && l.p in w.handlers ==> Next(n, w, l) == w.(handlers := w.handlers[l.p := Over])
  {
    hide Exec;
  }

  /** A taken slug costs one of ten tries; the tenth ends the request. */
  lemma CollisionCostsATry(n: nat, w: World, p: nat, step: Label)
    requires step.Step? && step.p == p && p in w.handlers && w.handlers[p].Creating? && step.slug in w.db.tenants
    ensures var Creating(tries, expires) := w.handlers[p];
            Next(n, w, step)
            == w.(handlers := w.handlers[p := if tries <= 1 then Over else Creating(tries - 1, expires)])
    ensures w.handlers[p].tries >= 2 ==> Next(n, w, step).handlers[p].tries == w.handlers[p].tries - 1
  {
  }

  lemma {:induction false} TenTries(n: nat, w: World, p: nat, step: Label, k: nat)
    requires step.Step? && step.p == p && p in w.handlers && w.handlers[p] == Passed && step.slug in w.db.tenants
    ensures var end := Run(n, w, Repeat(step, k + 1));
            && end.db == w.db && p in end.handlers
            && end.handlers[p] == (if k < 10 then Creating(10 - k, w.now + 86_400) else Over)
            && end.now == w.now
  {
    hide Exec;
    if k == 0 {
      RunCons(n, w, step, []);
      RunNone(n, Next(n, w, step));
      assert Repeat(step, 1) == [step] + [];
    } else {
      TenTries(n, w, p, step, k - 1);
      RunSnoc(n, w, Repeat(step, k), step);
      var before := Run(n, w, Repeat(step, k));
      if k <= 10 { CollisionCostsATry(n, before, p, step); } else { OverStays(n, before, p, step); }
    }
  }

  function Repeat(l: Label, k: nat): (ls: seq<Label>)
    ensures |ls| == k
  {
    if k == 0 then [] else Repeat(l, k - 1) + [l]
  }

  lemma {:induction false} RunSnoc(n: nat, w: World, ls: seq<Label>, l: Label)
    ensures Run(n, w, ls + [l]) == Next(n, Run(n, w, ls), l)
    decreases |ls|
  {
    hide Next;
    if ls == [] {
      assert (ls + [l])[1..] == [];
    } else {
      assert (ls + [l])[1..] == ls[1..] + [l];
      RunSnoc(n, Next(n, w, ls[0]), ls[1..], l);
    }
  }
}
