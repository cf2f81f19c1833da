/**
 Where access tokens come from, over every run: each token goes back to its own
 authorize step, with a registered redirect, a passed password gate, a matching
 PKCE challenge and less than sixty seconds in between.
 */
module OAuthTokens {
  import opened Wrappers
  import opened Sql
  import opened OAuthWorld

  /** Step i inserted the client row, with this redirect URI in its list. */
  ghost predicate IsRegistration(tr: seq<World>, ls: seq<Label>, i: nat, slug: Slug, client: string, uri: string)
    requires |tr| == |ls| + 1
  {
    && i < |ls| && ls[i].Env? && ls[i].st.InsertClient? && ls[i].st.slug == slug && ls[i].st.client == client
    && ls[i].st.uris.UriArray? && uri in ls[i].st.uris.uris
    && Exec(tr[i].db, ls[i].st).1.Done?
  }

  /** One of the first n steps registered the client with this redirect URI. */
  ghost predicate Registered(tr: seq<World>, ls: seq<Label>, n: nat, slug: Slug, client: string, uri: string)
    requires |tr| == |ls| + 1
  {
    exists i: nat :: i < n && IsRegistration(tr, ls, i, slug, client, uri)
  }

  /** Step i is process p's step of looking up its client, and it found the row with the redirect URI in its list. */
  ghost predicate LookedUp(tr: seq<World>, ls: seq<Label>, i: nat, p: nat, srv: Server, req: AuthRequest)
    requires |tr| == |ls| + 1
  {
    && i < |ls| && ls[i].Advance? && ls[i].p == p
    && p in tr[i].procs && tr[i].procs[p] == AuthLookup(srv, req)
    && var clients := tr[i].db.clients;
       var key := (srv.tenant, req.client);
       && key in clients && clients[key].UriArray? && req.redirect in clients[key].uris
       && Registered(tr, ls, i, srv.tenant, req.client, req.redirect)
  }

  /** Step j is process p's step past the password gate, which stood open for the request's password then. */
  ghost predicate WentPastGate(tr: seq<World>, ls: seq<Label>, j: nat, p: nat, srv: Server, req: AuthRequest)
    requires |tr| == |ls| + 1
  {
    && j < |ls| && ls[j].Advance? && ls[j].p == p
    && p in tr[j].procs && (tr[j].procs[p] == AuthHasPassword(srv, req) || tr[j].procs[p] == AuthValidate(srv, req))
    && p in tr[j + 1].procs && tr[j + 1].procs[p] == AuthDraw(srv, req)
    && PassesGate(tr[j].db, srv.tenant, req.password)
  }

  ghost predicate Known(tr: seq<World>, ls: seq<Label>, n: nat, p: nat, srv: Server, req: AuthRequest)
    requires |tr| == |ls| + 1
  {
    exists i: nat :: i < n && LookedUp(tr, ls, i, p, srv, req)
  }

  /** Before step n, process p found its client and then went past the gate. */
  ghost predicate Cleared(tr: seq<World>, ls: seq<Label>, n: nat, p: nat, srv: Server, req: AuthRequest)
    requires |tr| == |ls| + 1
  {
    exists j: nat :: j < n && WentPastGate(tr, ls, j, p, srv, req) && Known(tr, ls, j, p, srv, req)
  }

  /** Step k is an authorize step drawing this code. */
  ghost predicate Drew(tr: seq<World>, ls: seq<Label>, k: nat, code: string)
    requires |tr| == |ls| + 1
  {
    && k < |ls| && ls[k].Advance? && ls[k].random == code
    && ls[k].p in tr[k].procs && tr[k].procs[ls[k].p].AuthDraw? && code !in tr[k].drawn
  }

  /** Step k, before n, authorized exactly this grant, in a process that had been cleared to. */
  ghost predicate Authorized(tr: seq<World>, ls: seq<Label>, n: nat, k: nat,
                             slug: Slug, client: string, redirect: string, challenge: Challenge, code: string)
    requires |tr| == |ls| + 1
  {
    && k < n && Drew(tr, ls, k, code)
    && var proc := tr[k].procs[ls[k].p];
       && proc.srv.tenant == slug && proc.req.client == client && proc.req.redirect == redirect
       && proc.req.challenge == challenge
       && Cleared(tr, ls, k, ls[k].p, proc.srv, proc.req)
  }

  // --- The invariant after n steps ---

  /** The same of a token request that passed its checks. */
  ghost predicate GrantOk(tr: seq<World>, ls: seq<Label>, n: nat, tenant: Slug, req: TokenRequest, at: nat)
    requires |tr| == |ls| + 1 && n <= |ls|
  {
    exists k: nat :: Authorized(tr, ls, n, k, tenant, req.client, req.redirect, S256(req.verifier), req.code)
                && at < tr[k].now + AUTH_CODE_TTL
  }

  ghost predicate ProcOk(tr: seq<World>, ls: seq<Label>, n: nat, p: nat, proc: Proc)
    requires |tr| == |ls| + 1 && n <= |ls|
  {
    match proc
    case AuthHasPassword(srv, req) => Known(tr, ls, n, p, srv, req)
    case AuthValidate(srv, req) => Known(tr, ls, n, p, srv, req)
    case AuthDraw(srv, req) => Cleared(tr, ls, n, p, srv, req)
    case AuthInsert(srv, req, code, at) =>
      exists k: nat ::
        Authorized(tr, ls, n, k, srv.tenant, req.client, req.redirect, req.challenge, code) && tr[k].now == at
    case TokRead(_, req, at) =>
      exists k: nat :: k < n && Drew(tr, ls, k, req.code) && Unix(at) < Unix(tr[k].now + AUTH_CODE_TTL)
    case TokSign(srv, req, at) => GrantOk(tr, ls, n, srv.tenant, req, at)
    case _ => true
  }

  ghost predicate ProcsOk(tr: seq<World>, ls: seq<Label>, n: nat)
    requires |tr| == |ls| + 1 && n <= |ls|
  {
    forall p :: p in tr[n].procs ==> ProcOk(tr, ls, n, p, tr[n].procs[p])
  }

  ghost predicate ClientsOk(tr: seq<World>, ls: seq<Label>, n: nat)
    requires |tr| == |ls| + 1 && n <= |ls|
  {
    forall key, uri |
      key in tr[n].db.clients && tr[n].db.clients[key].UriArray? && uri in tr[n].db.clients[key].uris ::
      Registered(tr, ls, n, key.0, key.1, uri)
  }

  ghost predicate CodeOk(tr: seq<World>, ls: seq<Label>, n: nat, code: string, row: AuthCode)
    requires |tr| == |ls| + 1 && n <= |ls|
  {
    exists k: nat :: Authorized(tr, ls, n, k, row.tenant, row.client, row.redirect, row.challenge, code)
                && row.expiresAt == Unix(tr[k].now + AUTH_CODE_TTL)
  }

  ghost predicate CodesOk(tr: seq<World>, ls: seq<Label>, n: nat)
    requires |tr| == |ls| + 1 && n <= |ls|
  {
    forall h :: h in tr[n].db.codes ==> CodeOk(tr, ls, n, h.text, tr[n].db.codes[h])
  }

  /** The token goes back to an authorize step for the same grant, less than sixty seconds before its claim. */
  ghost predicate TokenOk(tr: seq<World>, ls: seq<Label>, n: nat, t: Token)
    requires |tr| == |ls| + 1 && n <= |ls|
  {
    exists k: nat :: Authorized(tr, ls, n, k, t.tenant, t.client, t.redirect, S256(t.verifier), t.code)
                && t.claimedAt < tr[k].now + AUTH_CODE_TTL
  }

  ghost predicate TokensOk(tr: seq<World>, ls: seq<Label>, n: nat)
    requires |tr| == |ls| + 1 && n <= |ls|
  {
    forall i :: 0 <= i < |tr[n].tokens| ==> TokenOk(tr, ls, n, tr[n].tokens[i])
  }

  ghost predicate Inv(tr: seq<World>, ls: seq<Label>, n: nat)
    requires |tr| == |ls| + 1 && n <= |ls|
  {
    ProcsOk(tr, ls, n) && ClientsOk(tr, ls, n) && CodesOk(tr, ls, n) && TokensOk(tr, ls, n)
  }

  // --- What statements do to clients and codes ---

  lemma ClientsAfter(db: Db, st: Stmt)
    ensures forall key :: key in Exec(db, st).0.clients ==>
              || (key in db.clients && Exec(db, st).0.clients[key] == db.clients[key])
              || (st.InsertClient? && key == (st.slug, st.client) && Exec(db, st).0.clients[key] == st.uris
                  && Exec(db, st).1.Done?)
  {
  }

  lemma CodesAfter(db: Db, st: Stmt)
    requires Foreign(st)
    ensures forall h :: h in Exec(db, st).0.codes ==> h in db.codes && Exec(db, st).0.codes[h] == db.codes[h]
  {
  }

  /** The step that inserts a code. */
  lemma InsertedCode(db: Db, code: string, row: AuthCode)
    ensures var (after, res) := Exec(db, InsertCode(Sha256(code), row));
            && after.clients == db.clients
            && (forall h :: h in after.codes ==> (h in db.codes && after.codes[h] == db.codes[h])
                                                  || (h == Sha256(code) && after.codes[h] == row && h !in db.codes))
  {
  }

  /** Claiming a code only sets its used_at, and only when it is unused and not expired. */
  lemma ClaimedCode(db: Db, code: string, now: int)
    ensures var (after, res) := Exec(db, ClaimCode(Sha256(code), now));
            && after.clients == db.clients && after.codes.Keys == db.codes.Keys
            && (forall h :: h in db.codes ==> after.codes[h] == db.codes[h].(usedAt := after.codes[h].usedAt))
            && (forall h :: h in db.codes && h != Sha256(code) ==> after.codes[h] == db.codes[h])
            && (res.Done? && (res.affected != 0 ==>
                  && Sha256(code) in db.codes && db.codes[Sha256(code)].usedAt.None?
                  && after.codes[Sha256(code)].usedAt.Some? && db.codes[Sha256(code)].expiresAt > now))
  {
  }

  // --- Codes are drawn once ---

  lemma {:induction false} DrawnGrows(tr: seq<World>, ls: seq<Label>, i: nat, j: nat)
    requires IsRun(tr, ls) && i <= j <= |ls|
    ensures tr[i].drawn <= tr[j].drawn
    decreases j
  {
    hide Exec;
    if i < j {
      DrawnGrows(tr, ls, i, j - 1);
      var _ := ls[j - 1];
      assert tr[j - 1 + 1] == Next(tr[j - 1], ls[j - 1]);
    }
  }

  lemma DrawnOnce(tr: seq<World>, ls: seq<Label>, k: nat, m: nat, code: string)
    requires IsRun(tr, ls) && Drew(tr, ls, k, code) && Drew(tr, ls, m, code)
    ensures k == m
  {
    hide Exec;
    if k < m {
      assert code in tr[k + 1].drawn;
      DrawnGrows(tr, ls, k + 1, m);
    } else if m < k {
      assert code in tr[m + 1].drawn;
      DrawnGrows(tr, ls, m + 1, k);
    }
  }

  // --- One step ---

  lemma ProcOkLater(tr: seq<World>, ls: seq<Label>, n: nat, p: nat, proc: Proc)
    requires |tr| == |ls| + 1 && n < |ls| && ProcOk(tr, ls, n, p, proc)
    ensures ProcOk(tr, ls, n + 1, p, proc)
  {
    hide LookedUp, WentPastGate;
    match proc
    case AuthInsert(srv, req, code, at) =>
      var k: nat :| Authorized(tr, ls, n, k, srv.tenant, req.client, req.redirect, req.challenge, code)
                    && tr[k].now == at;
      assert Authorized(tr, ls, n + 1, k, srv.tenant, req.client, req.redirect, req.challenge, code);
    case TokSign(srv, req, at) =>
      var k: nat :| Authorized(tr, ls, n, k, srv.tenant, req.client, req.redirect, S256(req.verifier), req.code)
                    && at < tr[k].now + AUTH_CODE_TTL;
      assert Authorized(tr, ls, n + 1, k, srv.tenant, req.client, req.redirect, S256(req.verifier), req.code);
    case _ =>
  }

  lemma CodeOkLater(tr: seq<World>, ls: seq<Label>, n: nat, code: string, row: AuthCode)
    requires |tr| == |ls| + 1 && n < |ls| && CodeOk(tr, ls, n, code, row)
    ensures CodeOk(tr, ls, n + 1, code, row)
  {
    var k: nat :| Authorized(tr, ls, n, k, row.tenant, row.client, row.redirect, row.challenge, code)
             && row.expiresAt == Unix(tr[k].now + AUTH_CODE_TTL);
    assert Authorized(tr, ls, n + 1, k, row.tenant, row.client, row.redirect, row.challenge, code);
  }

  lemma TokenOkLater(tr: seq<World>, ls: seq<Label>, n: nat, t: Token)
    requires |tr| == |ls| + 1 && n < |ls| && TokenOk(tr, ls, n, t)
    ensures TokenOk(tr, ls, n + 1, t)
  {
    var k: nat :| Authorized(tr, ls, n, k, t.tenant, t.client, t.redirect, S256(t.verifier), t.code)
             && t.claimedAt < tr[k].now + AUTH_CODE_TTL;
    assert Authorized(tr, ls, n + 1, k, t.tenant, t.client, t.redirect, S256(t.verifier), t.code);
  }

  /** The writing statement a step issues, if any. */
  ghost function StatementOf(w: World, l: Label): Option<Stmt> {
    match l
    case Env(st) => if Foreign(st) then Some(st) else None
    case Advance(p, _) =>
      if p !in w.procs then None
      else
        (match w.procs[p]
         case AuthInsert(srv, req, code, at) => Some(InsertCode(Sha256(code), NewCode(srv, req, at)))
         case TokClaim(_, req, at) => Some(ClaimCode(Sha256(req.code), Unix(at)))
         case ResStore(slug, _, pem) => Some(InsertKeyOrIgnore(slug, pem))
         case _ => None)
    case Fail(p, ran, _) =>
      if p !in w.procs || !ran then None
      else
        (match w.procs[p]
         case AuthInsert(srv, req, code, at) => Some(InsertCode(Sha256(code), NewCode(srv, req, at)))
         case TokClaim(_, req, at) => Some(ClaimCode(Sha256(req.code), Unix(at)))
         case ResStore(slug, _, pem) => Some(InsertKeyOrIgnore(slug, pem))
         case _ => None)
    case _ => None
  }

  lemma NextDb(w: World, l: Label)
    ensures Next(w, l).db == match StatementOf(w, l) case None => w.db case Some(st) => Exec(w.db, st).0
  {
    match StatementOf(w, l)
    case None =>
    case Some(st) =>
      RefusedChangesNothing(w.db, st);
      if (l.Advance? || l.Fail?) && w.procs[l.p].TokClaim? { UnclaimedChangesNothing(w.db, st); }
  }

  lemma UnclaimedChangesNothing(db: Db, st: Stmt)
    requires st.ClaimCode?
    ensures Exec(db, st).1.Done? && (Exec(db, st).1.affected == 0 ==> Exec(db, st).0 == db)
  {
  }

  lemma ClientsStep(tr: seq<World>, ls: seq<Label>, n: nat)
    requires IsRun(tr, ls) && n < |ls| && ClientsOk(tr, ls, n)
    ensures ClientsOk(tr, ls, n + 1)
  {
    hide Exec, Next;
    var w, l := tr[n], ls[n];
    NextDb(w, l);
    var st := StatementOf(w, l);
    if st.Some? { ClientsAfter(w.db, st.value); }
    var clients := tr[n + 1].db.clients;
    forall key, uri | key in clients && clients[key].UriArray? && uri in clients[key].uris
      ensures Registered(tr, ls, n + 1, key.0, key.1, uri)
    {
      if key in w.db.clients && clients[key] == w.db.clients[key] {
        assert Registered(tr, ls, n, key.0, key.1, uri);
      } else {
        assert IsRegistration(tr, ls, n, key.0, key.1, uri);
      }
    }
  }

  lemma CodesStep(tr: seq<World>, ls: seq<Label>, n: nat)
    requires IsRun(tr, ls) && n < |ls| && CodesOk(tr, ls, n) && ProcsOk(tr, ls, n)
    ensures CodesOk(tr, ls, n + 1)
  {
    hide Exec, Next;
    var w, l, after := tr[n], ls[n], tr[n + 1].db.codes;
    NextDb(w, l);
    forall h | h in after
      ensures CodeOk(tr, ls, n + 1, h.text, after[h])
    {
      CodeStep(tr, ls, n, h);
    }
  }

  lemma CodeStep(tr: seq<World>, ls: seq<Label>, n: nat, h: Digest)
    requires IsRun(tr, ls) && n < |ls| && CodesOk(tr, ls, n) && ProcsOk(tr, ls, n) && h in tr[n + 1].db.codes
    ensures CodeOk(tr, ls, n + 1, h.text, tr[n + 1].db.codes[h])
  {
    hide Exec, Next;
    var w, l, row := tr[n], ls[n], tr[n + 1].db.codes[h];
    NextDb(w, l);
    match StatementOf(w, l)
    case None => CodeOkLater(tr, ls, n, h.text, row);
    case Some(st) =>
      if st.InsertCode? {
        InsertedCode(w.db, st.digest.text, st.code);
        if h in w.db.codes && w.db.codes[h] == row {
          CodeOkLater(tr, ls, n, h.text, row);
        } else {
          var proc := w.procs[l.p];
          ProcOkLater(tr, ls, n, l.p, proc);
          assert CodeOk(tr, ls, n + 1, proc.code, row);
        }
      } else if st.ClaimCode? {
        ClaimedCode(w.db, st.digest.text, st.now);
        CodeOkLater(tr, ls, n, h.text, w.db.codes[h]);
        var before := w.db.codes[h];
        assert row == before.(usedAt := row.usedAt);
        assert CodeOk(tr, ls, n + 1, h.text, row);
      } else {
        CodesAfter(w.db, st);
        CodeOkLater(tr, ls, n, h.text, row);
      }
  }

  lemma ProcsStep(tr: seq<World>, ls: seq<Label>, n: nat)
    requires IsRun(tr, ls) && n < |ls| && ProcsOk(tr, ls, n) && ClientsOk(tr, ls, n) && CodesOk(tr, ls, n)
    ensures ProcsOk(tr, ls, n + 1)
  {
    hide Exec, Next, AuthStep, TokenStep, ResolveStep;
    var next := tr[n + 1].procs;
    forall p | p in next
      ensures ProcOk(tr, ls, n + 1, p, next[p])
    {
      NextProcs(tr[n], ls[n], p);
      if p in tr[n].procs && next[p] == tr[n].procs[p] {
        ProcOkLater(tr, ls, n, p, tr[n].procs[p]);
      } else if ls[n].Advance? && p == ls[n].p && p in tr[n].procs {
        AdvancedProc(tr, ls, n);
      } else if ls[n].Fail? && p == ls[n].p && p in tr[n].procs {
        FailedProc(tr, ls, n);
      }
    }
  }

  /** A step changes one process: a new one at its first step, or the one that advances. */
  lemma NextProcs(w: World, l: Label, p: nat)
    requires p in Next(w, l).procs
    ensures var proc := Next(w, l).procs[p];
            || (p in w.procs && proc == w.procs[p])
            || (p in w.procs && (l.Advance? || l.Fail?) && l.p == p)
            || proc.Ended? || proc.AuthLookup? || proc.TokClock? || proc.ResTenant?
  {
    hide Exec;
  }

  lemma AdvancedProc(tr: seq<World>, ls: seq<Label>, n: nat)
    requires IsRun(tr, ls) && n < |ls| && ProcsOk(tr, ls, n) && ClientsOk(tr, ls, n) && CodesOk(tr, ls, n)
    requires ls[n].Advance? && ls[n].p in tr[n].procs
    ensures ProcOk(tr, ls, n + 1, ls[n].p, tr[n + 1].procs[ls[n].p])
  {
    hide Exec, Next, ProcOk;
    match tr[n].procs[ls[n].p]
    case AuthLookup(_, _) => LookupStep(tr, ls, n);
    case AuthHasPassword(_, _) => GateStep(tr, ls, n);
    case AuthValidate(_, _) => GateStep(tr, ls, n);
    case AuthDraw(_, _) => DrawStep(tr, ls, n);
    case TokClaim(_, _, _) => ClaimStep(tr, ls, n);
    case TokRead(_, _, _) => ReadStep(tr, ls, n);
    case _ => OtherProc(tr, ls, n);
  }

  lemma LookupStep(tr: seq<World>, ls: seq<Label>, n: nat)
    requires IsRun(tr, ls) && n < |ls| && ProcsOk(tr, ls, n) && ClientsOk(tr, ls, n)
    requires ls[n].Advance? && ls[n].p in tr[n].procs && tr[n].procs[ls[n].p].AuthLookup?
    ensures ProcOk(tr, ls, n + 1, ls[n].p, tr[n + 1].procs[ls[n].p])
  {
    var AuthLookup(srv, req) := tr[n].procs[ls[n].p];
    var after := tr[n + 1].procs[ls[n].p];
    if after.AuthHasPassword? {
      assert Registered(tr, ls, n, (srv.tenant, req.client).0, (srv.tenant, req.client).1, req.redirect);
      assert LookedUp(tr, ls, n, ls[n].p, srv, req);
    }
  }

  lemma GateStep(tr: seq<World>, ls: seq<Label>, n: nat)
    requires IsRun(tr, ls) && n < |ls| && ProcsOk(tr, ls, n) && ClientsOk(tr, ls, n)
    requires ls[n].Advance? && ls[n].p in tr[n].procs
    requires tr[n].procs[ls[n].p].AuthHasPassword? || tr[n].procs[ls[n].p].AuthValidate?
    ensures ProcOk(tr, ls, n + 1, ls[n].p, tr[n + 1].procs[ls[n].p])
  {
    var p := ls[n].p;
    var before, after := tr[n].procs[p], tr[n + 1].procs[p];
    ProcOkLater(tr, ls, n, p, before);
    GateFacts(tr[n], p, ls[n].random);
    hide Next, Exec, AuthStep, LookedUp;
    assert ProcOk(tr, ls, n, p, before);
    if after.AuthDraw? { assert WentPastGate(tr, ls, n, p, before.srv, before.req); }
  }

  /** Past the gate only without a password or with the right one. */
  lemma GateFacts(w: World, p: nat, random: string)
    requires p in w.procs && (w.procs[p].AuthHasPassword? || w.procs[p].AuthValidate?)
    ensures var before, after := w.procs[p], Next(w, Advance(p, random)).procs[p];
            || after.Ended?
            || (after == AuthValidate(before.srv, before.req) && before.AuthHasPassword?)
            || (after == AuthDraw(before.srv, before.req) && PassesGate(w.db, before.srv.tenant, before.req.password))
  {
  }

  lemma DrawStep(tr: seq<World>, ls: seq<Label>, n: nat)
    requires IsRun(tr, ls) && n < |ls| && ProcsOk(tr, ls, n) && ClientsOk(tr, ls, n)
    requires ls[n].Advance? && ls[n].p in tr[n].procs && tr[n].procs[ls[n].p].AuthDraw?
    ensures ProcOk(tr, ls, n + 1, ls[n].p, tr[n + 1].procs[ls[n].p])
  {
    hide Exec;
    var w := tr[n];
    var AuthDraw(srv, req) := w.procs[ls[n].p];
    if tr[n + 1].procs[ls[n].p] == w.procs[ls[n].p] {
      ProcOkLater(tr, ls, n, ls[n].p, w.procs[ls[n].p]);
    } else {
      assert tr[n + 1].procs[ls[n].p] == AuthInsert(srv, req, ls[n].random, w.now);
      assert Authorized(tr, ls, n + 1, n, srv.tenant, req.client, req.redirect, req.challenge, ls[n].random);
    }
  }

  lemma OtherProc(tr: seq<World>, ls: seq<Label>, n: nat)
    requires IsRun(tr, ls) && n < |ls| && ProcsOk(tr, ls, n) && ClientsOk(tr, ls, n)
    requires ls[n].Advance? && ls[n].p in tr[n].procs
    requires var proc := tr[n].procs[ls[n].p];
             !proc.AuthLookup? && !proc.AuthHasPassword? && !proc.AuthValidate? && !proc.AuthDraw? && !proc.TokClaim?
             && !proc.TokRead?
    ensures ProcOk(tr, ls, n + 1, ls[n].p, tr[n + 1].procs[ls[n].p])
  {
    hide Exec;
    if tr[n].procs[ls[n].p] == tr[n + 1].procs[ls[n].p] { ProcOkLater(tr, ls, n, ls[n].p, tr[n].procs[ls[n].p]); }
  }

  lemma ClaimStep(tr: seq<World>, ls: seq<Label>, n: nat)
    requires IsRun(tr, ls) && n < |ls| && CodesOk(tr, ls, n)
    requires ls[n].Advance? && ls[n].p in tr[n].procs && tr[n].procs[ls[n].p].TokClaim?
    ensures ProcOk(tr, ls, n + 1, ls[n].p, tr[n + 1].procs[ls[n].p])
  {
    hide Exec, Cleared, AuthStep, ResolveStep;
    var w := tr[n];
    var TokClaim(srv, req, at) := w.procs[ls[n].p];
    ClaimedCode(w.db, req.code, Unix(at));
    if tr[n + 1].procs[ls[n].p].TokRead? {
      CodeOkLater(tr, ls, n, req.code, w.db.codes[Sha256(req.code)]);
    }
  }

  /** A failed statement ends its process, or is a key lookup. */
  lemma FailedProc(tr: seq<World>, ls: seq<Label>, n: nat)
    requires IsRun(tr, ls) && n < |ls| && ProcsOk(tr, ls, n)
    requires ls[n].Fail? && ls[n].p in tr[n].procs
    ensures ProcOk(tr, ls, n + 1, ls[n].p, tr[n + 1].procs[ls[n].p])
  {
    var before, after := tr[n].procs[ls[n].p], tr[n + 1].procs[ls[n].p];
    assert after == before || after.Ended? || after.ResStore? by { hide Exec; }
    hide Exec, Next, Cleared;
    if after == before { ProcOkLater(tr, ls, n, ls[n].p, before); }
  }

  /** What a code row must say for its read to go on to signing. */
  lemma ReadFacts(w: World, p: nat, random: string)
    requires p in w.procs && w.procs[p].TokRead?
    ensures var TokRead(srv, req, at) := w.procs[p];
            var next := Next(w, Advance(p, random));
            && p in next.procs
            && (|| next.procs[p].Ended?
                || (&& next.procs[p] == TokSign(srv, req, at)
                    && Sha256(req.code) in w.db.codes
                    && var c := w.db.codes[Sha256(req.code)];
                    && c.tenant == srv.tenant && c.client == req.client && c.redirect == req.redirect
                    && c.challenge == S256(req.verifier)))
  {
  }

  lemma ReadStep(tr: seq<World>, ls: seq<Label>, n: nat)
    requires IsRun(tr, ls) && n < |ls| && ProcsOk(tr, ls, n) && CodesOk(tr, ls, n)
    requires ls[n].Advance? && ls[n].p in tr[n].procs && tr[n].procs[ls[n].p].TokRead?
    ensures ProcOk(tr, ls, n + 1, ls[n].p, tr[n + 1].procs[ls[n].p])
  {
    hide Exec, Next, AuthStep, TokenStep, ResolveStep, Cleared;
    var w, p := tr[n], ls[n].p;
    var TokRead(srv, req, at) := w.procs[p];
    ReadFacts(w, p, ls[n].random);
    if tr[n + 1].procs[p].TokSign? {
      var row := w.db.codes[Sha256(req.code)];
      assert ProcOk(tr, ls, n, p, w.procs[p]);
      var m: nat :| m < n && Drew(tr, ls, m, req.code) && Unix(at) < Unix(tr[m].now + AUTH_CODE_TTL);
      assert CodeOk(tr, ls, n, req.code, row);
      var k: nat :| Authorized(tr, ls, n, k, row.tenant, row.client, row.redirect, row.challenge, req.code)
                    && row.expiresAt == Unix(tr[k].now + AUTH_CODE_TTL);
      DrawnOnce(tr, ls, k, m, req.code);
      assert Authorized(tr, ls, n + 1, k, srv.tenant, req.client, req.redirect, S256(req.verifier), req.code);
    }
  }

  lemma TokensStep(tr: seq<World>, ls: seq<Label>, n: nat)
    requires IsRun(tr, ls) && n < |ls| && TokensOk(tr, ls, n) && ProcsOk(tr, ls, n)
    ensures TokensOk(tr, ls, n + 1)
  {
    hide Exec, Next, AuthStep, TokenStep, ResolveStep;
    NextTokens(tr[n], ls[n]);
    var next := tr[n + 1].tokens;
    forall i | 0 <= i < |next|
      ensures TokenOk(tr, ls, n + 1, next[i])
    {
      if i < |tr[n].tokens| {
        assert next[i] == tr[n].tokens[i];
        TokenOkLater(tr, ls, n, tr[n].tokens[i]);
      } else {
        NewToken(tr, ls, n);
      }
    }
  }

  /** A step issues at most one token, from a process that signs. */
  lemma NextTokens(w: World, l: Label)
    ensures var after := Next(w, l).tokens;
            || after == w.tokens
            || (&& l.Advance? && l.p in w.procs && w.procs[l.p].TokSign?
                && var TokSign(srv, req, at) := w.procs[l.p];
                && after == w.tokens + [Token(srv.tenant, req.client, req.redirect, req.verifier, req.code, at,
                                              srv.key, Unix(srv.expiresAt))])
  {
    hide Exec;
  }

  lemma NewToken(tr: seq<World>, ls: seq<Label>, n: nat)
    requires IsRun(tr, ls) && n < |ls| && ProcsOk(tr, ls, n)
    requires tr[n + 1].tokens != tr[n].tokens
    ensures |tr[n + 1].tokens| == |tr[n].tokens| + 1
    ensures TokenOk(tr, ls, n + 1, tr[n + 1].tokens[|tr[n].tokens|])
  {
    hide Exec, Next, AuthStep, TokenStep, ResolveStep, Cleared;
    var w := tr[n];
    NextTokens(w, ls[n]);
    var TokSign(srv, req, at) := w.procs[ls[n].p];
    assert ProcOk(tr, ls, n, ls[n].p, w.procs[ls[n].p]);
    var k: nat :| Authorized(tr, ls, n, k, srv.tenant, req.client, req.redirect, S256(req.verifier), req.code)
                  && at < tr[k].now + AUTH_CODE_TTL;
    var t := tr[n + 1].tokens[|w.tokens|];
    assert Authorized(tr, ls, n + 1, k, t.tenant, t.client, t.redirect, S256(t.verifier), t.code);
  }

  lemma {:induction false} InvHolds(tr: seq<World>, ls: seq<Label>, n: nat)
    requires IsRun(tr, ls) && n <= |ls|
    ensures Inv(tr, ls, n)
  {
    hide Exec, Next;
    if n > 0 {
      InvHolds(tr, ls, n - 1);
      ProcsStep(tr, ls, n - 1);
      ClientsStep(tr, ls, n - 1);
      CodesStep(tr, ls, n - 1);
      TokensStep(tr, ls, n - 1);
    }
  }

  /**
   In every run, whatever other handlers do in between, each issued token goes
   back to an earlier authorize step that drew its code: same tenant, client and
   redirect, a challenge that is the hash of the verifier presented, and a claim
   less than sixty seconds after the draw although the store truncates both
   times to seconds. The process that drew it had found the client row with the
   redirect in its list, and had then gone past the password gate in a step
   when the service had no password or the request carried the right one.
   */
  lemma EveryTokenWasAuthorized(tr: seq<World>, ls: seq<Label>, n: nat, i: nat)
    requires IsRun(tr, ls) && n <= |ls| && i < |tr[n].tokens|
    ensures TokenOk(tr, ls, n, tr[n].tokens[i])
  {
    InvHolds(tr, ls, n);
  }
}
