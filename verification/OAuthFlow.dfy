/**
 What each handler does when it gets to take all its steps, whatever others do in
 between: exactly which authorize requests get a code, which exchanges get a token,
 and which tenants get a server.
 */
module OAuthFlow {
  import opened Wrappers
  import opened Sql
  import opened OAuthWorld
  import opened OAuthTokens
  import opened OAuthSafety

  // --- A process's own steps ---

  /** The label moves process p: a step or a failure of its own, or the end of the daemon. */
  predicate Moves(l: Label, p: nat) {
    l.Restart? || ((l.Advance? || l.Fail?) && l.p == p)
  }

  /** Steps a and b of the run move p, a first, and none in between does. */
  ghost predicate Consecutive(ls: seq<Label>, p: nat, a: nat, b: nat) {
    && a < b < |ls| && ls[b].Advance? && ls[b].p == p
    && forall m :: a < m < b ==> !Moves(ls[m], p)
  }

  /** From step at[0], which starts process p, the steps at are those that move it, and all are its own and answered. */
  ghost predicate OwnSteps(ls: seq<Label>, p: nat, at: seq<nat>) {
    && at != [] && (forall i :: 0 <= i < |at| ==> at[i] < |ls|)
    && forall i :: 0 <= i < |at| - 1 ==> Consecutive(ls, p, at[i], at[i + 1])
  }

  lemma OthersKeep(w: World, l: Label, p: nat)
    requires p in w.procs && !Moves(l, p)
    ensures p in Next(w, l).procs && Next(w, l).procs[p] == w.procs[p]
  {
    hide Exec;
  }

  /** Between its own steps a process stays as it is. */
  lemma {:induction false} StaysPut(tr: seq<World>, ls: seq<Label>, p: nat, a: nat, b: nat)
    requires IsRun(tr, ls) && a <= b <= |ls| && p in tr[a].procs
    requires forall m :: a <= m < b ==> !Moves(ls[m], p)
    ensures p in tr[b].procs && tr[b].procs[p] == tr[a].procs[p]
    decreases b
  {
    hide Next, Moves;
    if a < b {
      StaysPut(tr, ls, p, a, b - 1);
      OthersKeep(tr[b - 1], ls[b - 1], p);
    }
  }

  lemma AtNextStep(tr: seq<World>, ls: seq<Label>, p: nat, a: nat, b: nat)
    requires IsRun(tr, ls) && Consecutive(ls, p, a, b) && p in tr[a + 1].procs
    ensures p in tr[b].procs && tr[b].procs[p] == tr[a + 1].procs[p]
    ensures tr[b + 1] == Next(tr[b], Advance(p, ls[b].random))
  {
    hide Next;
    StaysPut(tr, ls, p, a + 1, b);
    assert ls[b] == Advance(p, ls[b].random);
  }

  lemma EndedStays(w: World, p: nat, random: string)
    requires p in w.procs && w.procs[p].Ended?
    ensures Next(w, Advance(p, random)) == w
  {
  }

  // --- The exchange ---

  /** What the token endpoint asks of a request before it looks at the store. */
  predicate WellFormed(req: TokenRequest) {
    req.grantType == "authorization_code" && req.code != "" && req.client != "" && req.verifier != ""
  }

  /** The code's row is there, unused and not expired at that second. */
  predicate Usable(db: Db, code: string, at: int) {
    && Sha256(code) in db.codes
    && db.codes[Sha256(code)].usedAt == None && at < db.codes[Sha256(code)].expiresAt
  }

  /** The code's row is for this tenant, client, redirect and verifier. */
  predicate Fits(db: Db, tenant: Slug, req: TokenRequest) {
    && Sha256(req.code) in db.codes
    && db.codes[Sha256(req.code)].tenant == tenant && db.codes[Sha256(req.code)].client == req.client
    && db.codes[Sha256(req.code)].redirect == req.redirect
    && db.codes[Sha256(req.code)].challenge == S256(req.verifier)
  }

  /** What a refused request is told. */
  function TokenError(req: TokenRequest): string {
    if req.grantType != "authorization_code" then "unsupported_grant_type"
    else if req.code == "" || req.client == "" || req.verifier == "" then "invalid_request"
    else "invalid_grant"
  }

  predicate Refusal(proc: Proc, req: TokenRequest) {
    proc == Ended(Refused(TokenError(req)))
  }

  lemma ClaimAdvance(w: World, p: nat, random: string)
    requires p in w.procs && w.procs[p].TokClaim? && WellFormed(w.procs[p].treq)
    ensures var TokClaim(srv, req, at) := w.procs[p];
            var next := Next(w, Advance(p, random));
            && p in next.procs && next.tokens == w.tokens
            && (if Usable(w.db, req.code, Unix(at)) then next.procs[p] == TokRead(srv, req, at)
                else Refusal(next.procs[p], req))
  {
  }

  lemma ReadAdvance(w: World, p: nat, random: string)
    requires p in w.procs && w.procs[p].TokRead? && WellFormed(w.procs[p].treq)
    ensures var TokRead(srv, req, at) := w.procs[p];
            var next := Next(w, Advance(p, random));
            && p in next.procs && next.tokens == w.tokens
            && (if Fits(w.db, srv.tenant, req) then next.procs[p] == TokSign(srv, req, at)
                else Refusal(next.procs[p], req))
  {
  }

  lemma SignAdvance(w: World, p: nat, random: string)
    requires p in w.procs && w.procs[p].TokSign?
    ensures var TokSign(srv, req, at) := w.procs[p];
            var next := Next(w, Advance(p, random));
            && p in next.procs && next.procs[p] == Ended(Granted)
            && next.tokens == w.tokens + [Token(srv.tenant, req.client, req.redirect, req.verifier, req.code, at,
                                                srv.key, Unix(srv.expiresAt))]
  {
    hide Exec;
  }

  /**
   A token request that gets to take its steps, whatever else runs in between, is
   granted if and only if it is well formed, its code's row is unused and not
   expired when it claims it, and is then still there and for the same tenant,
   client, redirect and hash of the verifier. If so it issues exactly one token, for
   all of these, with the cached server's key and expiry; if not, it is refused and
   issues none.
   */
  lemma ExchangeIsGrantedWhen(tr: seq<World>, ls: seq<Label>, p: nat, slug: Slug, req: TokenRequest, at: seq<nat>)
    requires IsRun(tr, ls) && |at| == 5 && OwnSteps(ls, p, at)
    requires ls[at[0]] == StartToken(p, slug, req) && p !in tr[at[0]].procs && slug in tr[at[0]].cache
    ensures var srv, now := tr[at[0]].cache[slug], tr[at[1]].now;
            var good := WellFormed(req) && Usable(tr[at[2]].db, req.code, Unix(now)) && Fits(tr[at[3]].db, slug, req);
            var end := tr[at[4] + 1].procs;
            && p in end
            && (good ==> end[p] == Ended(Granted)
                         && tr[at[4] + 1].tokens
                            == tr[at[4]].tokens + [Token(slug, req.client, req.redirect, req.verifier, req.code, now,
                                                         srv.key, Unix(srv.expiresAt))])
            && (!good ==> end[p] == Ended(Refused(TokenError(req))) && tr[at[4] + 1].tokens == tr[at[4]].tokens)
            && tr[at[0] + 1].tokens == tr[at[0]].tokens && tr[at[1] + 1].tokens == tr[at[1]].tokens
            && tr[at[2] + 1].tokens == tr[at[2]].tokens && tr[at[3] + 1].tokens == tr[at[3]].tokens
  {
    hide Next, Exec, Usable, Fits;
    assert Consecutive(ls, p, at[0], at[1]) && Consecutive(ls, p, at[1], at[2]);
    assert Consecutive(ls, p, at[2], at[3]) && Consecutive(ls, p, at[3], at[4]);
    CacheOkHolds(tr, ls, at[0]);
    TokenStarts(tr[at[0]], p, slug, req);
    AtNextStep(tr, ls, p, at[0], at[1]);
    ClockAdvance(tr[at[1]], p, ls[at[1]].random);
    AtNextStep(tr, ls, p, at[1], at[2]);
    ExchangeTail(tr, ls, p, at[2], at[3], at[4]);
  }

  lemma TokenStarts(w: World, p: nat, slug: Slug, req: TokenRequest)
    requires CacheOk(w) && p !in w.procs && slug in w.cache
    ensures var next := Next(w, StartToken(p, slug, req));
            && p in next.procs && next.tokens == w.tokens && w.cache[slug].tenant == slug
            && (if WellFormed(req) then next.procs[p] == TokClock(w.cache[slug], req) else Refusal(next.procs[p], req))
  {
  }

  lemma ClockAdvance(w: World, p: nat, random: string)
    requires p in w.procs && (w.procs[p].TokClock? || w.procs[p].Ended?)
    ensures var next := Next(w, Advance(p, random));
            && p in next.procs && next.tokens == w.tokens
            && (w.procs[p].TokClock? ==> next.procs[p] == TokClaim(w.procs[p].srv, w.procs[p].treq, w.now))
            && (w.procs[p].Ended? ==> next.procs[p] == w.procs[p])
  {
    hide Exec;
  }

  /** The claim, the read and the signature, or three steps of a process that has ended. */
  lemma ExchangeTail(tr: seq<World>, ls: seq<Label>, p: nat, a: nat, b: nat, c: nat)
    requires IsRun(tr, ls) && Consecutive(ls, p, a, b) && Consecutive(ls, p, b, c) && p in tr[a].procs
    requires ls[a].Advance? && tr[a + 1] == Next(tr[a], Advance(p, ls[a].random))
    requires tr[a].procs[p].Ended? || (tr[a].procs[p].TokClaim? && WellFormed(tr[a].procs[p].treq))
    ensures p in tr[c + 1].procs
    ensures tr[a + 1].tokens == tr[a].tokens && tr[b + 1].tokens == tr[b].tokens
    ensures tr[a].procs[p].Ended? ==> tr[c + 1].procs[p] == tr[a].procs[p] && tr[c + 1].tokens == tr[c].tokens
    ensures tr[a].procs[p].TokClaim? ==>
              var TokClaim(srv, req, at) := tr[a].procs[p];
              if Usable(tr[a].db, req.code, Unix(at)) && Fits(tr[b].db, srv.tenant, req) then
                && tr[c + 1].procs[p] == Ended(Granted)
                && tr[c + 1].tokens == tr[c].tokens + [Token(srv.tenant, req.client, req.redirect, req.verifier,
                                                             req.code, at, srv.key, Unix(srv.expiresAt))]
              else Refusal(tr[c + 1].procs[p], req) && tr[c + 1].tokens == tr[c].tokens
  {
    hide Next, Exec, Usable, Fits;
    if tr[a].procs[p].TokClaim? {
      ClaimAdvance(tr[a], p, ls[a].random);
    } else {
      EndedStays(tr[a], p, ls[a].random);
    }
    AtNextStep(tr, ls, p, a, b);
    if tr[b].procs[p].TokRead? {
      ReadAdvance(tr[b], p, ls[b].random);
    } else {
      EndedStays(tr[b], p, ls[b].random);
    }
    AtNextStep(tr, ls, p, b, c);
    if tr[c].procs[p].TokSign? {
      SignAdvance(tr[c], p, ls[c].random);
    } else {
      EndedStays(tr[c], p, ls[c].random);
    }
  }

  // --- A code's row while its tenant lives ---

  lemma CodeRowStep(w: World, l: Label, h: Digest)
    requires h in w.db.codes && w.db.codes[h].tenant in Next(w, l).db.tenants
    ensures h in Next(w, l).db.codes
    ensures Next(w, l).db.codes[h] == w.db.codes[h].(usedAt := Next(w, l).db.codes[h].usedAt)
  {
    hide Exec, Next;
    NextDb(w, l);
    var st := StatementOf(w, l);
    if st.Some? { CodeRowKept(w.db, st.value, h); }
  }

  lemma CodeRowKept(db: Db, st: Stmt, h: Digest)
    requires h in db.codes && db.codes[h].tenant in Exec(db, st).0.tenants
    ensures h in Exec(db, st).0.codes
    ensures Exec(db, st).0.codes[h] == db.codes[h].(usedAt := Exec(db, st).0.codes[h].usedAt)
  {
  }

  /** A stored code stays as it is, but for being marked used, as long as its tenant lives. */
  lemma {:induction false} CodeRowStays(tr: seq<World>, ls: seq<Label>, i: nat, j: nat, h: Digest)
    requires IsRun(tr, ls) && i <= j <= |ls| && h in tr[i].db.codes
    requires forall m :: i <= m <= j ==> tr[i].db.codes[h].tenant in tr[m].db.tenants
    ensures h in tr[j].db.codes && tr[j].db.codes[h] == tr[i].db.codes[h].(usedAt := tr[j].db.codes[h].usedAt)
    decreases j
  {
    hide Next;
    if i < j {
      CodeRowStays(tr, ls, i, j - 1, h);
      CodeRowStep(tr[j - 1], ls[j - 1], h);
    }
  }

  /** So the row that was claimed is the one read, and an honest exchange under a living tenant is granted. */
  lemma HonestExchangeIsGranted(tr: seq<World>, ls: seq<Label>, p: nat, slug: Slug, req: TokenRequest, at: seq<nat>)
    requires IsRun(tr, ls) && |at| == 5 && OwnSteps(ls, p, at)
    requires ls[at[0]] == StartToken(p, slug, req) && p !in tr[at[0]].procs && slug in tr[at[0]].cache
    requires WellFormed(req) && Usable(tr[at[2]].db, req.code, Unix(tr[at[1]].now)) && Fits(tr[at[2]].db, slug, req)
    requires forall m :: at[2] <= m <= at[3] ==> slug in tr[m].db.tenants
    ensures p in tr[at[4] + 1].procs && tr[at[4] + 1].procs[p] == Ended(Granted)
  {
    hide Next, Exec;
    assert Consecutive(ls, p, at[2], at[3]);
    CodeRowStays(tr, ls, at[2], at[3], Sha256(req.code));
    ExchangeIsGrantedWhen(tr, ls, p, slug, req, at);
  }

  // --- The authorization ---

  predicate WellFormedAuth(req: AuthRequest) {
    req.responseType == "code" && req.challenge != OtherText("") && req.challengeMethod == "S256"
  }

  /** The client is registered with the tenant, with this redirect URI in its list. */
  predicate Lists(db: Db, tenant: Slug, req: AuthRequest) {
    && (tenant, req.client) in db.clients && db.clients[(tenant, req.client)].UriArray?
    && req.redirect in db.clients[(tenant, req.client)].uris
  }

  /** The tenant's service is not there or has no password. */
  predicate Open(db: Db, tenant: Slug) {
    (tenant, "mcp") in db.services ==> db.services[(tenant, "mcp")].passwordHash == NoHash
  }

  /** The tenant's service is there, without a password or with this one. */
  predicate Admits(db: Db, tenant: Slug, password: string) {
    (tenant, "mcp") in db.services && db.services[(tenant, "mcp")].passwordHash in {NoHash, Bcrypt(password)}
  }

  /** What a request that fails its first checks, or names no registered redirect, is told. */
  function AuthorizeError(req: AuthRequest): string {
    if req.responseType != "code" then "unsupported_response_type" else "invalid_request"
  }

  function LookupError(db: Db, tenant: Slug, client: string): string {
    if (tenant, client) !in db.clients then "invalid_client"
    else if db.clients[(tenant, client)].Corrupt? then "server_error"
    else "invalid_request"
  }

  lemma AuthorizeStarts(w: World, p: nat, slug: Slug, req: AuthRequest)
    requires CacheOk(w) && p !in w.procs && slug in w.cache
    ensures var next := Next(w, StartAuthorize(p, slug, req));
            && p in next.procs && next.db == w.db && w.cache[slug].tenant == slug
            && (if WellFormedAuth(req) then next.procs[p] == AuthLookup(w.cache[slug], req)
                else next.procs[p] == Ended(Refused(AuthorizeError(req))))
  {
  }

  lemma LookupAdvance(w: World, p: nat, random: string)
    requires p in w.procs && w.procs[p].AuthLookup?
    ensures var AuthLookup(srv, req) := w.procs[p];
            var next := Next(w, Advance(p, random));
            && p in next.procs && next.db == w.db
            && (if Lists(w.db, srv.tenant, req) then next.procs[p] == AuthHasPassword(srv, req)
                else next.procs[p] == Ended(Refused(LookupError(w.db, srv.tenant, req.client))))
  {
  }

  lemma GateAdvance(w: World, p: nat, random: string)
    requires p in w.procs && w.procs[p].AuthHasPassword?
    ensures var AuthHasPassword(srv, req) := w.procs[p];
            var next := Next(w, Advance(p, random));
            && p in next.procs && next.db == w.db
            && next.procs[p] == if Open(w.db, srv.tenant) then AuthDraw(srv, req) else AuthValidate(srv, req)
  {
  }

  lemma ValidateAdvance(w: World, p: nat, random: string)
    requires p in w.procs && w.procs[p].AuthValidate?
    ensures var AuthValidate(srv, req) := w.procs[p];
            var next := Next(w, Advance(p, random));
            && p in next.procs && next.db == w.db
            && (if Admits(w.db, srv.tenant, req.password) then next.procs[p] == AuthDraw(srv, req)
                else next.procs[p] == Ended(PasswordForm(req.password != "")))
  {
  }

  lemma DrawAdvance(w: World, p: nat, random: string)
    requires p in w.procs && w.procs[p].AuthDraw? && random !in w.drawn
    ensures var next := Next(w, Advance(p, random));
            && p in next.procs && next.db == w.db
            && next.procs[p] == AuthInsert(w.procs[p].srv, w.procs[p].req, random, w.now)
  {
    hide Exec;
  }

  /** The row of a new code: it expires a minute after it was drawn, in whole seconds. */
  function CodeRow(tenant: Slug, req: AuthRequest, drawnAt: nat): AuthCode {
    AuthCode(tenant, req.client, req.redirect, req.challenge, (drawnAt + 60_000_000_000) / 1_000_000_000, None)
  }

  lemma InsertAdvance(w: World, p: nat, random: string)
    requires Once(w) && p in w.procs && w.procs[p].AuthInsert?
    ensures var AuthInsert(srv, req, code, at) := w.procs[p];
            var next := Next(w, Advance(p, random));
            && p in next.procs
            && if srv.tenant in w.db.tenants then
                 && next.procs[p] == Ended(Redirected(code))
                 && next.db == w.db.(codes := w.db.codes[Sha256(code) := CodeRow(srv.tenant, req, at)])
               else next.procs[p] == Ended(Refused("server_error")) && next.db == w.db
  {
  }

  /** The draw and the insert, or two steps of a process that has ended. */
  lemma AuthorizeTail(tr: seq<World>, ls: seq<Label>, p: nat, d: nat, e: nat)
    requires IsRun(tr, ls) && Consecutive(ls, p, d, e) && p in tr[d].procs
    requires ls[d].Advance? && tr[d + 1] == Next(tr[d], Advance(p, ls[d].random)) && ls[d].random !in tr[d].drawn
    requires tr[d].procs[p].AuthDraw? || tr[d].procs[p].Ended?
    ensures p in tr[e + 1].procs && tr[d + 1].db == tr[d].db
    ensures tr[d].procs[p].Ended? ==> tr[e + 1].procs[p] == tr[d].procs[p] && tr[e + 1].db == tr[e].db
    ensures tr[d].procs[p].AuthDraw? ==>
              var AuthDraw(srv, req) := tr[d].procs[p];
              var code := ls[d].random;
              if srv.tenant in tr[e].db.tenants then
                && tr[e + 1].procs[p] == Ended(Redirected(code))
                && tr[e + 1].db
                   == tr[e].db.(codes := tr[e].db.codes[Sha256(code) := CodeRow(srv.tenant, req, tr[d].now)])
              else tr[e + 1].procs[p] == Ended(Refused("server_error")) && tr[e + 1].db == tr[e].db
  {
    hide Next, Exec, Once, CodeRow;
    if tr[d].procs[p].AuthDraw? {
      DrawAdvance(tr[d], p, ls[d].random);
    } else {
      EndedStays(tr[d], p, ls[d].random);
    }
    AtNextStep(tr, ls, p, d, e);
    if tr[e].procs[p].AuthInsert? {
      OnceHolds(tr, ls, e);
      InsertAdvance(tr[e], p, ls[e].random);
    } else {
      EndedStays(tr[e], p, ls[e].random);
    }
  }

  /** From the start through the password gate. */
  lemma AuthorizeHead(tr: seq<World>, ls: seq<Label>, p: nat, slug: Slug, req: AuthRequest, at: seq<nat>)
    requires IsRun(tr, ls) && |at| == 4 && OwnSteps(ls, p, at)
    requires ls[at[0]] == StartAuthorize(p, slug, req) && p !in tr[at[0]].procs && slug in tr[at[0]].cache
    ensures p in tr[at[3]].procs && ls[at[3]].Advance?
    ensures tr[at[3] + 1] == Next(tr[at[3]], Advance(p, ls[at[3]].random))
    ensures tr[at[0] + 1].db == tr[at[0]].db && tr[at[1] + 1].db == tr[at[1]].db && tr[at[2] + 1].db == tr[at[2]].db
    ensures var proc, srv := tr[at[3]].procs[p], tr[at[0]].cache[slug];
            && srv.tenant == slug
            && proc == if !WellFormedAuth(req) then Ended(Refused(AuthorizeError(req)))
                       else if !Lists(tr[at[1]].db, slug, req) then
                         Ended(Refused(LookupError(tr[at[1]].db, slug, req.client)))
                       else if Open(tr[at[2]].db, slug) then AuthDraw(srv, req)
                       else AuthValidate(srv, req)
  {
    hide Next, Exec, Lists, Open, LookupError, AuthorizeError;
    assert Consecutive(ls, p, at[0], at[1]) && Consecutive(ls, p, at[1], at[2]) && Consecutive(ls, p, at[2], at[3]);
    CacheOkHolds(tr, ls, at[0]);
    AuthorizeStarts(tr[at[0]], p, slug, req);
    AtNextStep(tr, ls, p, at[0], at[1]);
    if tr[at[1]].procs[p].AuthLookup? {
      LookupAdvance(tr[at[1]], p, ls[at[1]].random);
    } else {
      EndedStays(tr[at[1]], p, ls[at[1]].random);
    }
    AtNextStep(tr, ls, p, at[1], at[2]);
    if tr[at[2]].procs[p].AuthHasPassword? {
      GateAdvance(tr[at[2]], p, ls[at[2]].random);
    } else {
      EndedStays(tr[at[2]], p, ls[at[2]].random);
    }
    AtNextStep(tr, ls, p, at[2], at[3]);
  }

  /**
   An authorize request that gets to take its steps, whatever else runs in between,
   is redirected with a code if and only if it is well formed, its client is
   registered with its redirect URI, the service has no password when the handler
   first reads it or the request's password passes when it reads it again, and the
   tenant is still there when the code is stored. If so exactly the code's row is
   added, for this tenant, client, redirect and challenge and for sixty seconds; if
   not, none of its steps changes the store.
   */
  lemma AuthorizeIssuesWhen(tr: seq<World>, ls: seq<Label>, p: nat, slug: Slug, req: AuthRequest, at: seq<nat>)
    requires IsRun(tr, ls) && |at| == 6 && OwnSteps(ls, p, at)
    requires ls[at[0]] == StartAuthorize(p, slug, req) && p !in tr[at[0]].procs && slug in tr[at[0]].cache
    requires ls[at[3]].Advance? && ls[at[3]].random !in tr[at[3]].drawn
    requires ls[at[4]].Advance? && ls[at[4]].random !in tr[at[4]].drawn
    ensures var open := Open(tr[at[2]].db, slug);
            var d, e := if open then at[3] else at[4], if open then at[4] else at[5];
            var code, end := ls[d].random, tr[at[5] + 1].procs;
            var good := && WellFormedAuth(req) && Lists(tr[at[1]].db, slug, req)
                        && (open || Admits(tr[at[3]].db, slug, req.password)) && slug in tr[e].db.tenants;
            && p in end
            && (good ==> end[p] == Ended(Redirected(code))
                         && tr[e + 1].db
                            == tr[e].db.(codes := tr[e].db.codes[Sha256(code) := CodeRow(slug, req, tr[d].now)]))
            && (!good ==>
                  && tr[e + 1].db == tr[e].db
                  && end[p] == Ended(if !WellFormedAuth(req) then Refused(AuthorizeError(req))
                                     else if !Lists(tr[at[1]].db, slug, req) then
                                       Refused(LookupError(tr[at[1]].db, slug, req.client))
                                     else if !open && !Admits(tr[at[3]].db, slug, req.password) then
                                       PasswordForm(req.password != "")
                                     else Refused("server_error")))
            && tr[at[0] + 1].db == tr[at[0]].db && tr[at[1] + 1].db == tr[at[1]].db
            && tr[at[2] + 1].db == tr[at[2]].db && tr[at[3] + 1].db == tr[at[3]].db
            && (open ==> tr[at[5] + 1].db == tr[at[5]].db) && (!open ==> tr[at[4] + 1].db == tr[at[4]].db)
  {
    hide Next, Exec, Lists, Open, Admits, CodeRow, LookupError, AuthorizeError;
    assert Consecutive(ls, p, at[3], at[4]) && Consecutive(ls, p, at[4], at[5]);
    HeadSteps(ls, p, at);
    AuthorizeHead(tr, ls, p, slug, req, at[..4]);
    if tr[at[3]].procs[p].AuthValidate? {
      ValidateAdvance(tr[at[3]], p, ls[at[3]].random);
      AtNextStep(tr, ls, p, at[3], at[4]);
      AuthorizeTail(tr, ls, p, at[4], at[5]);
    } else {
      AuthorizeTail(tr, ls, p, at[3], at[4]);
      AtNextStep(tr, ls, p, at[4], at[5]);
      EndedStays(tr[at[5]], p, ls[at[5]].random);
      if !Open(tr[at[2]].db, slug) {
        EndedStays(tr[at[3]], p, ls[at[3]].random);
        AtNextStep(tr, ls, p, at[3], at[4]);
        EndedStays(tr[at[4]], p, ls[at[4]].random);
      }
    }
  }

  lemma HeadSteps(ls: seq<Label>, p: nat, at: seq<nat>)
    requires OwnSteps(ls, p, at) && |at| == 6
    ensures OwnSteps(ls, p, at[..4])
  {
    assert forall i :: 0 <= i < 3 ==> Consecutive(ls, p, at[i], at[i + 1]);
  }

  // --- The resolver ---

  lemma ResolveStarts(w: World, p: nat, slug: Slug)
    requires p !in w.procs && slug !in w.cache && !ResolverBusy(w.procs)
    ensures var next := Next(w, StartResolve(p, slug));
            p in next.procs && next.procs[p] == ResTenant(slug) && next.cache == w.cache
  {
  }

  /** When a tenant's server expires: with the tenant, or a day after it is built if the tenant never does. */
  function ServerExpiry(t: Tenant, now: nat): int {
    if t.expiresAt.Some? then t.expiresAt.value * 1_000_000_000 else now + 86_400_000_000_000
  }

  lemma TenantAdvance(w: World, p: nat, random: string)
    requires p in w.procs && w.procs[p].ResTenant?
    ensures var slug := w.procs[p].slug;
            var next := Next(w, Advance(p, random));
            && p in next.procs && next.cache == w.cache
            && next.procs[p] == if slug in w.db.tenants then ResKey(slug, ServerExpiry(w.db.tenants[slug], w.now))
                                else Ended(NoServer)
  {
  }

  lemma KeyAdvance(w: World, p: nat, random: string)
    requires p in w.procs && w.procs[p].ResKey?
    ensures var ResKey(slug, e) := w.procs[p];
            var next := Next(w, Advance(p, random));
            && p in next.procs
            && if slug in w.db.keys then
                 next.procs[p] == Ended(Resolved) && next.cache == w.cache[slug := Server(slug, w.db.keys[slug], e)]
               else next.procs[p] == ResStore(slug, e, random) && next.cache == w.cache
  {
  }

  lemma StoreAdvance(w: World, p: nat, random: string)
    requires Integrity(w.db) && p in w.procs && w.procs[p].ResStore?
    ensures var ResStore(slug, e, pem) := w.procs[p];
            var next := Next(w, Advance(p, random));
            && p in next.procs
            && if slug in w.db.tenants then
                 && next.procs[p] == Ended(Resolved) && next.cache == w.cache[slug := Server(slug, pem, e)]
                 && next.db.keys == if slug in w.db.keys then w.db.keys else w.db.keys[slug := pem]
               else next.procs[p] == Ended(NoServer) && next.cache == w.cache
  {
  }

  /**
   A resolve that gets to take its steps, whatever else runs in between, ends with a
   server cached if and only if the tenant is there when it reads its row, and then
   its key is found or the tenant is still there when the new key is stored. The
   server has the key found or generated, and the tenant's expiry or a day.
   */
  lemma ResolveCachesWhen(tr: seq<World>, ls: seq<Label>, p: nat, slug: Slug, at: seq<nat>)
    requires IsRun(tr, ls) && |at| == 4 && OwnSteps(ls, p, at) && ls[at[2]].Advance?
    requires ls[at[0]] == StartResolve(p, slug) && p !in tr[at[0]].procs && slug !in tr[at[0]].cache
    requires !ResolverBusy(tr[at[0]].procs)
    ensures var there, found := slug in tr[at[1]].db.tenants, slug in tr[at[2]].db.keys;
            var good := there && (found || slug in tr[at[3]].db.tenants);
            var key := if found then tr[at[2]].db.keys[slug] else ls[at[2]].random;
            var end := tr[at[3] + 1];
            && p in end.procs
            && (good ==>
                  && end.procs[p] == Ended(Resolved) && slug in end.cache
                  && end.cache[slug] == Server(slug, key, ServerExpiry(tr[at[1]].db.tenants[slug], tr[at[1]].now))
                  && (!found ==> end.db.keys == if slug in tr[at[3]].db.keys then tr[at[3]].db.keys
                                                else tr[at[3]].db.keys[slug := key]))
            && (!good ==>
                  && end.procs[p] == Ended(NoServer) && end.cache == tr[at[3]].cache
                  && tr[at[1] + 1].cache == tr[at[1]].cache && tr[at[2] + 1].cache == tr[at[2]].cache)
  {
    hide Next, Exec, Integrity, ServerExpiry;
    var a, b, c := at[1], at[2], at[3];
    assert Consecutive(ls, p, at[0], a) && Consecutive(ls, p, a, b) && Consecutive(ls, p, b, c);
    ResolveStarts(tr[at[0]], p, slug);
    AtNextStep(tr, ls, p, at[0], a);
    TenantAdvance(tr[a], p, ls[a].random);
    AtNextStep(tr, ls, p, a, b);
    if tr[b].procs[p].ResKey? {
      KeyAdvance(tr[b], p, ls[b].random);
    } else {
      EndedStays(tr[b], p, ls[b].random);
    }
    AtNextStep(tr, ls, p, b, c);
    if tr[c].procs[p].ResStore? {
      IntegrityHolds(tr, ls, c);
      StoreAdvance(tr[c], p, ls[c].random);
    } else {
      EndedStays(tr[c], p, ls[c].random);
      if slug in tr[b + 1].cache { CacheIsPermanent(tr, ls, b + 1, c, slug); }
    }
  }

  // --- Failed statements and the clock ---

  predicate Writes(proc: Proc) {
    proc.AuthInsert? || proc.TokClaim? || proc.ResStore?
  }

  /** A handler whose read the store does not answer ends, or goes on, as if there were no row. */
  lemma FailedReadEnds(w: World, p: nat, ran: bool, random: string)
    requires p in w.procs && !Writes(w.procs[p])
    ensures var next := Next(w, Fail(p, ran, random));
            && next == w.(procs := next.procs) && p in next.procs
            && next.procs == w.procs[p := next.procs[p]]
            && match w.procs[p]
               case AuthLookup(_, _) => next.procs[p] == Ended(Refused("invalid_client"))
               case AuthValidate(_, req) => next.procs[p] == Ended(PasswordForm(req.password != ""))
               case TokRead(_, _, _) => next.procs[p] == Ended(Refused("invalid_grant"))
               case ResTenant(_) => next.procs[p] == Ended(NoServer)
               case ResKey(slug, e) => next.procs[p] == ResStore(slug, e, random)
               case proc => next.procs[p] == proc
  {
  }

  /**
   A handler whose write the store does not answer ends with an error; the write is
   there if only its answer was lost, and not if it never ran.
   */
  lemma FailedWriteEnds(w: World, p: nat, ran: bool, random: string)
    requires p in w.procs && Writes(w.procs[p])
    ensures var next := Next(w, Fail(p, ran, random));
            && p in next.procs && next.tokens == w.tokens && next.cache == w.cache && next.now == w.now
            && next.procs[p] == Ended(if w.procs[p].AuthInsert? then Refused("server_error")
                                      else if w.procs[p].TokClaim? then Refused("invalid_grant") else NoServer)
            && (!ran ==> next.db == w.db)
  {
    hide Exec;
  }

  lemma LostInsertIsThere(w: World, p: nat, random: string)
    requires p in w.procs && w.procs[p].AuthInsert? && w.procs[p].srv.tenant in w.db.tenants
    requires Sha256(w.procs[p].code) !in w.db.codes
    ensures var AuthInsert(srv, req, code, at) := w.procs[p];
            Next(w, Fail(p, true, random)).db.codes == w.db.codes[Sha256(code) := CodeRow(srv.tenant, req, at)]
  {
  }

  lemma LostClaimIsThere(w: World, p: nat, random: string)
    requires p in w.procs && w.procs[p].TokClaim?
    requires Usable(w.db, w.procs[p].treq.code, Unix(w.procs[p].at))
    ensures var TokClaim(_, req, at) := w.procs[p];
            var row := w.db.codes[Sha256(req.code)];
            Next(w, Fail(p, true, random)).db.codes
            == w.db.codes[Sha256(req.code) := row.(usedAt := Some(Unix(at)))]
  {
  }

  lemma LostKeyIsThere(w: World, p: nat, random: string)
    requires p in w.procs && w.procs[p].ResStore? && w.procs[p].slug in w.db.tenants && w.procs[p].slug !in w.db.keys
    ensures Next(w, Fail(p, true, random)).db.keys == w.db.keys[w.procs[p].slug := w.procs[p].pem]
  {
  }

  /** Only a tick moves the clock, and a restart ends every process and forgets every server. */
  lemma ClockAndRestart(w: World, l: Label)
    ensures Next(w, l).now == w.now + if l.Tick? then l.d else 0
    ensures l.Restart? ==> var next := Next(w, l);
              && next.cache == map[] && next.procs.Keys == w.procs.Keys
              && (forall p :: p in next.procs ==> next.procs[p] == Ended(Killed))
              && next.db == w.db && next.tokens == w.tokens
  {
    hide Exec;
  }
}
