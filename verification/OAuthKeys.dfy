/**
 When the server that the resolver caches for a tenant has the tenant's stored
 signing key: a key lookup that finds nothing or fails makes the resolver generate
 a key of its own, which the store ignores if it already has one.
 */
module OAuthKeys {
  import opened Wrappers
  import opened Sql
  import opened OAuthWorld
  import opened OAuthTokens
  import opened OAuthSafety

  /** The last world caches a server whose key is not the stored one. */
  ghost predicate EndsWithForeignKey(tr: seq<World>, slug: Slug) {
    && tr != []
    && var w := tr[|tr| - 1];
       slug in w.cache && slug in w.db.keys && w.cache[slug].key != w.db.keys[slug]
  }

  /** A resolver that generated its own key caches the stored key exactly when no other was stored meanwhile. */
  lemma GeneratedKeyAgreesWhen(w: World, p: nat, random: string)
    requires p in w.procs && w.procs[p].ResStore? && w.procs[p].slug in w.db.tenants
    ensures var ResStore(slug, _, pem) := w.procs[p];
            var next := Next(w, Advance(p, random));
            && slug in next.cache && slug in next.db.keys
            && (next.cache[slug].key == next.db.keys[slug] <==> slug in w.db.keys ==> w.db.keys[slug] == pem)
  {
    var pem := w.procs[p].pem;
    assert Exec(w.db, InsertKeyOrIgnore(w.procs[p].slug, pem)).1.Done?;
  }

  /** While its tenant lives, a stored signing key is never replaced or removed. */
  lemma {:induction false} KeyIsPermanent(tr: seq<World>, ls: seq<Label>, i: nat, j: nat, slug: Slug)
    requires IsRun(tr, ls) && i <= j <= |ls| && slug in tr[i].db.keys
    requires forall m :: i <= m <= j ==> slug in tr[m].db.tenants
    ensures slug in tr[j].db.keys && tr[j].db.keys[slug] == tr[i].db.keys[slug]
    decreases j
  {
    hide Exec, Next;
    if i < j {
      KeyIsPermanent(tr, ls, i, j - 1, slug);
      NextDb(tr[j - 1], ls[j - 1]);
      var st := StatementOf(tr[j - 1], ls[j - 1]);
      assert slug in tr[j].db.tenants && slug in tr[j - 1].db.tenants;
      if st.Some? { RowsNeverChange(tr[j - 1].db, st.value, slug); }
    }
  }

  /**
   A server built with a generated key agrees with the store in every later
   state, until a restart or the tenant's end, exactly when no other key had been
   stored by the time of its INSERT.
   */
  lemma GeneratedKeyAgreesForLifeWhen(tr: seq<World>, ls: seq<Label>, i: nat, j: nat)
    requires IsRun(tr, ls) && i < j <= |ls| && ls[i].Advance?
    requires ls[i].p in tr[i].procs && tr[i].procs[ls[i].p].ResStore?
    requires var slug := tr[i].procs[ls[i].p].slug;
             (forall m :: i <= m <= j ==> slug in tr[m].db.tenants) && forall m :: i < m < j ==> !ls[m].Restart?
    ensures var ResStore(slug, _, pem) := tr[i].procs[ls[i].p];
            && slug in tr[j].cache && slug in tr[j].db.keys
            && (tr[j].cache[slug].key == tr[j].db.keys[slug] <==> slug in tr[i].db.keys ==> tr[i].db.keys[slug] == pem)
  {
    hide Exec, Next;
    var slug := tr[i].procs[ls[i].p].slug;
    assert slug in tr[i].db.tenants;
    GeneratedKeyAgreesWhen(tr[i], ls[i].p, ls[i].random);
    CacheIsPermanent(tr, ls, i + 1, j, slug);
    KeyIsPermanent(tr, ls, i + 1, j, slug);
  }

  // --- A key that was there before the first resolve ---

  /** Step g is process p's failed lookup of the tenant's key; its label names the key generated instead. */
  ghost predicate FailedLookup(tr: seq<World>, ls: seq<Label>, g: nat, p: nat, slug: Slug)
    requires |tr| == |ls| + 1
  {
    g < |ls| && KeyLookupFails(tr[g], ls[g], slug) && ls[g].p == p
  }

  /** Step f put the server into the cache that is still there in world j. */
  ghost predicate Filled(tr: seq<World>, ls: seq<Label>, f: nat, j: nat, slug: Slug)
    requires |tr| == |ls| + 1
  {
    && f < j <= |ls| && ls[f].Advance? && slug !in tr[f].cache && slug in tr[f + 1].cache
    && forall m :: f < m < j ==> !ls[m].Restart?
  }

  lemma OnlyResolversFill(w: World, l: Label, slug: Slug)
    requires slug !in w.cache && slug in Next(w, l).cache
    ensures l.Advance? && l.p in w.procs && (w.procs[l.p].ResKey? || w.procs[l.p].ResStore?)
    ensures w.procs[l.p].slug == slug
  {
    hide Exec;
  }

  lemma {:induction false} FilledOnce(tr: seq<World>, ls: seq<Label>, i: nat, j: nat, slug: Slug)
    requires IsRun(tr, ls) && i <= j <= |ls| && slug !in tr[i].cache && slug in tr[j].cache
    ensures exists f :: i <= f < j && Filled(tr, ls, f, j, slug)
    decreases j
  {
    hide Exec, Next;
    if slug in tr[j - 1].cache {
      FilledOnce(tr, ls, i, j - 1, slug);
      var f :| i <= f < j - 1 && Filled(tr, ls, f, j - 1, slug);
      RestartEmpties(tr[j - 1], ls[j - 1]);
      assert Filled(tr, ls, f, j, slug);
    } else {
      OnlyResolversFill(tr[j - 1], ls[j - 1], slug);
      assert Filled(tr, ls, j - 1, j, slug);
    }
  }

  lemma RestartEmpties(w: World, l: Label)
    ensures l.Restart? ==> Next(w, l).cache == map[]
  {
  }

  /** How resolvers come to the steps that look up and store a key. */
  lemma ResolverMoves(w: World, l: Label, q: nat)
    requires q in Next(w, l).procs
    ensures var proc := Next(w, l).procs[q];
            && (proc.ResKey? ==>
                  q in w.procs
                  && (proc == w.procs[q]
                      || (w.procs[q] == ResTenant(proc.slug) && proc.slug in w.db.tenants
                          && (w.db.tenants[proc.slug].expiresAt.Some? ==>
                                proc.expiresAt == w.db.tenants[proc.slug].expiresAt.value * SECOND))))
            && (proc.ResStore? ==>
                  q in w.procs
                  && (proc == w.procs[q]
                      || (w.procs[q] == ResKey(proc.slug, proc.expiresAt) && (l.Fail? || l.Advance?) && l.p == q
                          && l.random == proc.pem && (l.Advance? ==> proc.slug !in w.db.keys))))
  {
    if l.Advance? && l.p in w.procs && IsResolver(w.procs[l.p]) {
      SelectsRead(w.db, w.procs[l.p].slug);
      hide Exec, TokenStep, AuthStep, FailStep;
    } else {
      hide Exec, ResolveStep;
    }
  }

  lemma ResolverEnds(w: World, l: Label, q: nat)
    requires q in w.procs && (w.procs[q].Ended? || w.procs[q].ResStore?)
    ensures q in Next(w, l).procs && (Next(w, l).procs[q] == w.procs[q] || Next(w, l).procs[q].Ended?)
  {
    hide Exec;
  }

  lemma FailedLookupDraws(w: World, l: Label, slug: Slug)
    requires KeyLookupFails(w, l, slug)
    ensures l.p in Next(w, l).procs && Next(w, l).procs[l.p] == ResStore(slug, w.procs[l.p].expiresAt, l.random)
  {
  }

  /** After its failed lookup a process holds the key it drew until it ends. */
  ghost predicate Holds(w: World, p: nat, pem: string) {
    p in w.procs && (w.procs[p].Ended? || (w.procs[p].ResStore? && w.procs[p].pem == pem))
  }

  predicate ExpiresAt(db: Db, slug: Slug, at: int) {
    slug in db.tenants && db.tenants[slug].expiresAt.Some? && at == db.tenants[slug].expiresAt.value * SECOND
  }

  /** What the failed lookups since step i have left behind in world n. */
  ghost predicate History(tr: seq<World>, ls: seq<Label>, i: nat, n: nat, slug: Slug)
    requires |tr| == |ls| + 1 && n <= |ls|
  {
    && (forall p, g :: i <= g < n && FailedLookup(tr, ls, g, p, slug) ==> Holds(tr[n], p, ls[g].random))
    && (forall p :: p in tr[n].procs && tr[n].procs[p].ResStore? && tr[n].procs[p].slug == slug ==>
          exists g :: i <= g < n && FailedLookup(tr, ls, g, p, slug))
    && (forall p :: p in tr[n].procs && (tr[n].procs[p].ResKey? || tr[n].procs[p].ResStore?)
                    && tr[n].procs[p].slug == slug ==>
          ExpiresAt(tr[n].db, slug, tr[n].procs[p].expiresAt))
  }

  lemma HistoryStep(tr: seq<World>, ls: seq<Label>, i: nat, n: nat, slug: Slug)
    requires IsRun(tr, ls) && i <= n < |ls| && History(tr, ls, i, n, slug)
    requires slug in tr[n].db.tenants && slug in tr[n].db.keys && tr[n].db.tenants[slug].expiresAt.Some?
    requires slug in tr[n + 1].db.tenants && tr[n + 1].db.tenants[slug] == tr[n].db.tenants[slug]
    ensures History(tr, ls, i, n + 1, slug)
  {
    hide Exec, Next;
    var w, l, next := tr[n], ls[n], tr[n + 1];
    forall p, g | i <= g < n + 1 && FailedLookup(tr, ls, g, p, slug)
      ensures Holds(next, p, ls[g].random)
    {
      if g < n {
        assert Holds(w, p, ls[g].random);
        ResolverEnds(w, l, p);
      } else {
        FailedLookupDraws(w, l, slug);
      }
    }
    forall p | p in next.procs && next.procs[p].ResStore? && next.procs[p].slug == slug
      ensures exists g :: i <= g < n + 1 && FailedLookup(tr, ls, g, p, slug)
    {
      ResolverMoves(w, l, p);
      if p in w.procs && next.procs[p] == w.procs[p] {
        var g :| i <= g < n && FailedLookup(tr, ls, g, p, slug);
      } else {
        assert FailedLookup(tr, ls, n, p, slug);
      }
    }
    forall p | p in next.procs && (next.procs[p].ResKey? || next.procs[p].ResStore?) && next.procs[p].slug == slug
      ensures ExpiresAt(next.db, slug, next.procs[p].expiresAt)
    {
      ResolverMoves(w, l, p);
    }
  }

  lemma {:induction false} HistoryHolds(tr: seq<World>, ls: seq<Label>, i: nat, n: nat, slug: Slug)
    requires IsRun(tr, ls) && i <= n <= |ls| && FreshTenant(tr[i], slug)
    requires forall m :: i <= m <= n ==> slug in tr[m].db.tenants
    ensures History(tr, ls, i, n, slug) && Rebuilt(tr[n].db, slug) == Rebuilt(tr[i].db, slug)
    ensures tr[n].db.tenants[slug] == tr[i].db.tenants[slug]
    decreases n
  {
    hide Exec, Next, History;
    if i == n {
      HistoryStarts(tr, ls, i, slug);
    } else {
      HistoryHolds(tr, ls, i, n - 1, slug);
      NextDb(tr[n - 1], ls[n - 1]);
      var st := StatementOf(tr[n - 1], ls[n - 1]);
      assert slug in tr[n - 1].db.tenants && slug in tr[n].db.tenants;
      if st.Some? { RowsNeverChange(tr[n - 1].db, st.value, slug); }
      HistoryStep(tr, ls, i, n - 1, slug);
    }
  }

  lemma HistoryStarts(tr: seq<World>, ls: seq<Label>, i: nat, slug: Slug)
    requires |tr| == |ls| + 1 && i <= |ls| && FreshTenant(tr[i], slug)
    ensures History(tr, ls, i, i, slug)
  {
  }

  /** What the filling step caches. */
  lemma FillingStep(w: World, p: nat, random: string, slug: Slug)
    requires p in w.procs && (w.procs[p].ResKey? || w.procs[p].ResStore?) && w.procs[p].slug == slug
    requires slug in w.db.tenants && slug in w.db.keys
    ensures var next := Next(w, Advance(p, random));
            && slug in next.cache
            && next.cache[slug] == Server(slug, if w.procs[p].ResKey? then w.db.keys[slug] else w.procs[p].pem,
                                          w.procs[p].expiresAt)
  {
    SelectsRead(w.db, slug);
    if w.procs[p].ResStore? { assert Exec(w.db, InsertKeyOrIgnore(slug, w.procs[p].pem)).1.Done?; }
    hide Exec;
  }

  /** The resolver that filled the cache in step f found the key, or its lookup failed and it drew the stored one. */
  ghost predicate NoForeignKeyDrawn(tr: seq<World>, ls: seq<Label>, i: nat, f: nat, slug: Slug, stored: string)
    requires |tr| == |ls| + 1 && f < |ls| && ls[f].Advance?
  {
    forall g :: i <= g < f && FailedLookup(tr, ls, g, ls[f].p, slug) ==> ls[g].random == stored
  }

  /**
   From a moment when a tenant has expiry and key and no server for it is cached or
   half built, in every later state in which it still lives and has a server
   cached: one last step filled the cache, and the cached server is the one the
   store would rebuild if and only if the resolver that took that step found the
   key, or had drawn exactly the stored one when its lookup failed.
   */
  lemma CachedServerAgreesWhen(tr: seq<World>, ls: seq<Label>, i: nat, j: nat, slug: Slug)
    requires IsRun(tr, ls) && i <= j <= |ls| && FreshTenant(tr[i], slug) && slug in tr[j].cache
    requires forall m :: i <= m <= j ==> slug in tr[m].db.tenants
    ensures Rebuilt(tr[j].db, slug).Some?
    ensures exists f :: i <= f < j && Filled(tr, ls, f, j, slug)
    ensures forall f :: i <= f < j && Filled(tr, ls, f, j, slug) ==>
              (tr[j].cache[slug] == Rebuilt(tr[j].db, slug).value
               <==> NoForeignKeyDrawn(tr, ls, i, f, slug, tr[j].db.keys[slug]))
  {
    hide Exec, Next, NoForeignKeyDrawn, History;
    FilledOnce(tr, ls, i, j, slug);
    HistoryHolds(tr, ls, i, j, slug);
    forall f | i <= f < j && Filled(tr, ls, f, j, slug)
      ensures tr[j].cache[slug] == Rebuilt(tr[j].db, slug).value
              <==> NoForeignKeyDrawn(tr, ls, i, f, slug, tr[j].db.keys[slug])
    {
      HistoryHolds(tr, ls, i, f, slug);
      CacheIsPermanent(tr, ls, f + 1, j, slug);
      FilledAgreesWhen(tr, ls, i, f, slug);
    }
  }

  lemma FilledAgreesWhen(tr: seq<World>, ls: seq<Label>, i: nat, f: nat, slug: Slug)
    requires IsRun(tr, ls) && i <= f < |ls| && History(tr, ls, i, f, slug) && Filled(tr, ls, f, f + 1, slug)
    requires slug in tr[f].db.tenants && Rebuilt(tr[f].db, slug).Some?
    ensures tr[f + 1].cache[slug] == Rebuilt(tr[f].db, slug).value
            <==> NoForeignKeyDrawn(tr, ls, i, f, slug, tr[f].db.keys[slug])
  {
    hide Exec, Next;
    var w, p := tr[f], ls[f].p;
    OnlyResolversFill(w, ls[f], slug);
    FillingStep(w, p, ls[f].random, slug);
    if w.procs[p].ResStore? {
      var g :| i <= g < f && FailedLookup(tr, ls, g, p, slug);
      assert Holds(w, p, ls[g].random);
    }
  }

  // A run in which another handler stores its key between the resolver's SELECT and INSERT.
  const RACE_TENANT := Tenant("", 0, Some(100))
  const RACE_DB := EMPTY.(tenants := map["q" := RACE_TENANT], rowids := ["q"])
  const RACE_DB_KEYED := RACE_DB.(keys := map["q" := "ours"])
  const RACE_EXPIRY := 100 * SECOND
  const RACE_LABELS := [Env(InsertTenant("q", RACE_TENANT)), StartResolve(0, "q"), Advance(0, ""),
                        Advance(0, "theirs"), Env(InsertKeyOrIgnore("q", "ours")), Advance(0, "")]

  function RaceWorld(db: Db, procs: map<nat, Proc>, cache: map<Slug, Server>): World {
    World(db, 0, procs, cache, [], {}, {})
  }

  function RaceTrace(): seq<World> {
    [RaceWorld(EMPTY, map[], map[]),
     RaceWorld(RACE_DB, map[], map[]),
     RaceWorld(RACE_DB, map[0 := ResTenant("q")], map[]),
     RaceWorld(RACE_DB, map[0 := ResKey("q", RACE_EXPIRY)], map[]),
     RaceWorld(RACE_DB, map[0 := ResStore("q", RACE_EXPIRY, "theirs")], map[]),
     RaceWorld(RACE_DB_KEYED, map[0 := ResStore("q", RACE_EXPIRY, "theirs")], map[]),
     RaceWorld(RACE_DB_KEYED, map[0 := Ended(Resolved)], map["q" := Server("q", "theirs", RACE_EXPIRY)])]
  }

  lemma RaceStatements()
    ensures Exec(EMPTY, InsertTenant("q", RACE_TENANT)).0 == RACE_DB
    ensures Exec(RACE_DB, SelectTenant("q")).1.rows == [TenantRow("q", RACE_TENANT)]
    ensures Exec(RACE_DB, SelectKey("q")).1.rows == []
    ensures Exec(RACE_DB, InsertKeyOrIgnore("q", "ours")).0 == RACE_DB_KEYED
    ensures Exec(RACE_DB_KEYED, InsertKeyOrIgnore("q", "theirs")) == (RACE_DB_KEYED, Done([], 0))
  {
    assert EMPTY.rowids + ["q"] == ["q"];
  }

  lemma RaceStarts()
    ensures Next(RaceTrace()[0], RACE_LABELS[0]) == RaceTrace()[1]
    ensures Next(RaceTrace()[1], RACE_LABELS[1]) == RaceTrace()[2]
    ensures Next(RaceTrace()[4], RACE_LABELS[4]) == RaceTrace()[5]
  {
    RaceStatements();
    hide Exec;
  }

  lemma RaceAdvances()
    ensures Next(RaceTrace()[2], RACE_LABELS[2]) == RaceTrace()[3]
    ensures Next(RaceTrace()[3], RACE_LABELS[3]) == RaceTrace()[4]
    ensures Next(RaceTrace()[5], RACE_LABELS[5]) == RaceTrace()[6]
  {
    RaceStatements();
    hide Exec;
  }

  // A run in which the key is there before the first resolve and its lookup fails.
  const FAILED_LABELS := [Env(InsertTenant("q", RACE_TENANT)), Env(InsertKeyOrIgnore("q", "ours")),
                          StartResolve(0, "q"), Advance(0, ""), Fail(0, false, "theirs"), Advance(0, "")]

  function FailedTrace(): seq<World> {
    [RaceWorld(EMPTY, map[], map[]),
     RaceWorld(RACE_DB, map[], map[]),
     RaceWorld(RACE_DB_KEYED, map[], map[]),
     RaceWorld(RACE_DB_KEYED, map[0 := ResTenant("q")], map[]),
     RaceWorld(RACE_DB_KEYED, map[0 := ResKey("q", RACE_EXPIRY)], map[]),
     RaceWorld(RACE_DB_KEYED, map[0 := ResStore("q", RACE_EXPIRY, "theirs")], map[]),
     RaceWorld(RACE_DB_KEYED, map[0 := Ended(Resolved)], map["q" := Server("q", "theirs", RACE_EXPIRY)])]
  }

  lemma FailedSteps()
    ensures Next(FailedTrace()[0], FAILED_LABELS[0]) == FailedTrace()[1]
    ensures Next(FailedTrace()[1], FAILED_LABELS[1]) == FailedTrace()[2]
    ensures Next(FailedTrace()[2], FAILED_LABELS[2]) == FailedTrace()[3]
  {
    RaceStatements();
    hide Exec;
  }

  lemma FailedAdvances()
    ensures Next(FailedTrace()[3], FAILED_LABELS[3]) == FailedTrace()[4]
    ensures Next(FailedTrace()[4], FAILED_LABELS[4]) == FailedTrace()[5]
  {
    SelectsRead(RACE_DB_KEYED, "q");
    hide Exec;
    assert Next(FailedTrace()[3], FAILED_LABELS[3]) == ResolveStep(FailedTrace()[3], 0, "");
    assert Next(FailedTrace()[4], FAILED_LABELS[4]) == FailStep(FailedTrace()[4], 0, false, "theirs");
  }

  /**
   One failed lookup is enough: a run in which the tenant has expiry and key
   before its first resolve, and lives throughout, and yet another key is cached.
   */
  lemma FailedLookupCounterexample()
    ensures exists tr: seq<World>, ls: seq<Label> ::
              && IsRun(tr, ls) && |tr| > 2 && FreshTenant(tr[2], "q") && EndsWithForeignKey(tr, "q")
              && forall m :: 2 <= m < |tr| ==> "q" in tr[m].db.tenants
  {
    hide Exec, Next;
    FailedSteps();
    FailedAdvances();
    RaceAdvances();
    var tr, ls := FailedTrace(), FAILED_LABELS;
    forall i | 0 <= i < |ls|
      ensures tr[i + 1] == Next(tr[i], ls[i])
    {
      if i < 3 {
        assert i == 0 || i == 1 || i == 2;
      } else {
        assert i == 3 || i == 4 || i == 5;
      }
    }
    assert IsRun(tr, ls) && FreshTenant(tr[2], "q") && EndsWithForeignKey(tr, "q");
  }

  /**
   The key must exist before the first resolve. Otherwise the resolver may find
   none, another handler may store its own first, and the resolver then caches
   a key that is not the stored one.
   */
  lemma KeyRaceCounterexample()
    ensures exists tr: seq<World>, ls: seq<Label> :: IsRun(tr, ls) && EndsWithForeignKey(tr, "q")
  {
    hide Exec, Next;
    RaceStarts();
    RaceAdvances();
    var tr, ls := RaceTrace(), RACE_LABELS;
    forall i | 0 <= i < |ls|
      ensures tr[i + 1] == Next(tr[i], ls[i])
    {
      if i < 3 {
        assert i == 0 || i == 1 || i == 2;
      } else {
        assert i == 3 || i == 4 || i == 5;
      }
    }
    assert IsRun(tr, ls) && EndsWithForeignKey(tr, "q");
  }
}
