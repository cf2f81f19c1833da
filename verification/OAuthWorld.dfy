/**
 The authorization-code flow as an interleaving system. HTTP handlers are
 processes; each step of a process is one SQL statement, one clock reading or
 one critical section, and any other statement of the daemon may run between
 two steps. A statement may also fail, or run while its answer is lost. The
 clock counts nanoseconds; columns hold whole seconds.
 */
module OAuthWorld {
  import opened Wrappers
  import opened Sql

  const SECOND := 1_000_000_000
  const AUTH_CODE_TTL := 60 * SECOND
  const FALLBACK_TTL := 24 * 3600 * SECOND

  function Unix(ns: int): int {
    ns / SECOND
  }

  /** A tenant's authorization server as the resolver caches it. */
  datatype Server = Server(tenant: Slug, key: string, expiresAt: int)

  datatype AuthRequest = AuthRequest(client: string, redirect: string, responseType: string,
                                     challenge: Challenge, challengeMethod: string, password: string)

  datatype TokenRequest = TokenRequest(grantType: string, code: string, client: string, redirect: string,
                                       verifier: string)

  /** An issued access token, with the exchange it came from. */
  datatype Token = Token(tenant: Slug, client: string, redirect: string, verifier: string, code: string,
                         claimedAt: nat, key: string, exp: int)

  datatype Outcome =
    | Refused(error: string)
    | PasswordForm(failed: bool)
    | Redirected(code: string)
    | Granted
    | Resolved
    | NoServer
    | Killed

  datatype Proc =
    // handleAuthorize
    | AuthLookup(srv: Server, req: AuthRequest)
    | AuthHasPassword(srv: Server, req: AuthRequest)
    | AuthValidate(srv: Server, req: AuthRequest)
    | AuthDraw(srv: Server, req: AuthRequest)
    | AuthInsert(srv: Server, req: AuthRequest, code: string, drawnAt: nat)
    // handleToken
    | TokClock(srv: Server, treq: TokenRequest)
    | TokClaim(srv: Server, treq: TokenRequest, at: nat)
    | TokRead(srv: Server, treq: TokenRequest, at: nat)
    | TokSign(srv: Server, treq: TokenRequest, at: nat)
    // Resolver.server, holding its mutex
    | ResTenant(slug: Slug)
    | ResKey(slug: Slug, expiresAt: int)
    | ResStore(slug: Slug, expiresAt: int, pem: string)
    | Ended(outcome: Outcome)

  /** drawn and claimed record the codes ever drawn and ever claimed. */
  datatype World = World(db: Db, now: nat, procs: map<nat, Proc>, cache: map<Slug, Server>, tokens: seq<Token>,
                         drawn: set<string>, claimed: set<string>)

  datatype Label =
    | Env(st: Stmt)
    | Tick(d: nat)
    | Restart
    | StartAuthorize(p: nat, slug: Slug, req: AuthRequest)
    | StartToken(p: nat, slug: Slug, treq: TokenRequest)
    | StartResolve(p: nat, slug: Slug)
    | Advance(p: nat, random: string)
    | Fail(p: nat, ran: bool, random: string)

  predicate IsResolver(proc: Proc) {
    proc.ResTenant? || proc.ResKey? || proc.ResStore?
  }

  predicate IsTokenProc(proc: Proc) {
    proc.TokClock? || proc.TokClaim? || proc.TokRead? || proc.TokSign?
  }

  predicate ResolverBusy(procs: map<nat, Proc>) {
    exists p :: p in procs && IsResolver(procs[p])
  }

  /** Only the two OAuth handlers touch authorization codes. */
  predicate Foreign(st: Stmt) {
    !st.InsertCode? && !st.ClaimCode?
  }

  function FirstAuthStep(srv: Server, req: AuthRequest): Proc {
    if req.responseType != "code" then Ended(Refused("unsupported_response_type"))
    else if req.challenge == OtherText("") || req.challengeMethod != "S256" then Ended(Refused("invalid_request"))
    else AuthLookup(srv, req)
  }

  function FirstTokenStep(srv: Server, req: TokenRequest): Proc {
    if req.grantType != "authorization_code" then Ended(Refused("unsupported_grant_type"))
    else if req.code == "" || req.client == "" || req.verifier == "" then Ended(Refused("invalid_request"))
    else TokClock(srv, req)
  }

  function NewCode(srv: Server, req: AuthRequest, drawnAt: nat): AuthCode {
    AuthCode(srv.tenant, req.client, req.redirect, req.challenge, Unix(drawnAt + AUTH_CODE_TTL), None)
  }

  predicate VerifyPkce(verifier: string, challenge: Challenge) {
    S256(verifier) == challenge
  }

  /** No service row, no password, or the right one. */
  predicate PassesGate(db: Db, slug: Slug, password: string) {
    (slug, "mcp") !in db.services
    || db.services[(slug, "mcp")].passwordHash == NoHash
    || CheckSecret(db.services[(slug, "mcp")].passwordHash, password)
  }

  /** The next step of handleAuthorize: the process, and whether it draws or inserts a code. */
  function AuthStep(w: World, p: nat, random: string): World
    requires p in w.procs
  {
    match w.procs[p]
    case AuthLookup(srv, req) =>
      var rows := Exec(w.db, SelectClient(srv.tenant, req.client)).1.rows;
      var next :=
        if rows == [] then Ended(Refused("invalid_client"))
        else if rows[0].uris.Corrupt? then Ended(Refused("server_error"))
        else if req.redirect !in rows[0].uris.uris then Ended(Refused("invalid_request"))
        else AuthHasPassword(srv, req);
      w.(procs := w.procs[p := next])
    case AuthHasPassword(srv, req) =>
      var rows := Exec(w.db, SelectService(srv.tenant, "mcp")).1.rows;
      var gated := rows != [] && rows[0].service.passwordHash != NoHash;
      w.(procs := w.procs[p := if gated then AuthValidate(srv, req) else AuthDraw(srv, req)])
    case AuthValidate(srv, req) =>
      var rows := Exec(w.db, SelectService(srv.tenant, "mcp")).1.rows;
      var ok := rows != [] && (rows[0].service.passwordHash == NoHash
                               || CheckSecret(rows[0].service.passwordHash, req.password));
      w.(procs := w.procs[p := if ok then AuthDraw(srv, req) else Ended(PasswordForm(req.password != ""))])
    case AuthDraw(srv, req) =>
      // Random codes never repeat.
      if random in w.drawn then w
      else w.(procs := w.procs[p := AuthInsert(srv, req, random, w.now)], drawn := w.drawn + {random})
    case AuthInsert(srv, req, code, at) =>
      var (db, res) := Exec(w.db, InsertCode(Sha256(code), NewCode(srv, req, at)));
      w.(db := db, procs := w.procs[p := Ended(if res.Done? then Redirected(code) else Refused("server_error"))])
    case _ => w
  }

  function TokenStep(w: World, p: nat): World
    requires p in w.procs
  {
    match w.procs[p]
    case TokClock(srv, req) => w.(procs := w.procs[p := TokClaim(srv, req, w.now)])
    case TokClaim(srv, req, at) =>
      var (db, res) := Exec(w.db, ClaimCode(Sha256(req.code), Unix(at)));
      if res.affected == 0 then w.(procs := w.procs[p := Ended(Refused("invalid_grant"))])
      else w.(db := db, procs := w.procs[p := TokRead(srv, req, at)], claimed := w.claimed + {req.code})
    case TokRead(srv, req, at) =>
      var rows := Exec(w.db, SelectCode(Sha256(req.code))).1.rows;
      if rows == [] then w.(procs := w.procs[p := Ended(Refused("invalid_grant"))])
      else
        var c := rows[0].code;
        if c.tenant != srv.tenant || c.client != req.client || c.redirect != req.redirect
           || !VerifyPkce(req.verifier, c.challenge)
        then w.(procs := w.procs[p := Ended(Refused("invalid_grant"))])
        else w.(procs := w.procs[p := TokSign(srv, req, at)])
    case TokSign(srv, req, at) =>
      var t := Token(srv.tenant, req.client, req.redirect, req.verifier, req.code, at, srv.key, Unix(srv.expiresAt));
      w.(procs := w.procs[p := Ended(Granted)], tokens := w.tokens + [t])
    case _ => w
  }

  function ResolveStep(w: World, p: nat, random: string): World
    requires p in w.procs
  {
    match w.procs[p]
    case ResTenant(slug) =>
      var rows := Exec(w.db, SelectTenant(slug)).1.rows;
      var next :=
        if rows == [] then Ended(NoServer)
        else
          var e := rows[0].tenant.expiresAt;
          ResKey(slug, if e.Some? then e.value * SECOND else w.now + FALLBACK_TTL);
      w.(procs := w.procs[p := next])
    case ResKey(slug, expiresAt) =>
      var rows := Exec(w.db, SelectKey(slug)).1.rows;
      if rows == [] then w.(procs := w.procs[p := ResStore(slug, expiresAt, random)])
      else w.(procs := w.procs[p := Ended(Resolved)], cache := w.cache[slug := Server(slug, rows[0].pem, expiresAt)])
    case ResStore(slug, expiresAt, pem) =>
      var (db, res) := Exec(w.db, InsertKeyOrIgnore(slug, pem));
      if !res.Done? then w.(procs := w.procs[p := Ended(NoServer)])
      else
        w.(db := db, procs := w.procs[p := Ended(Resolved)], cache := w.cache[slug := Server(slug, pem, expiresAt)])
    case _ => w
  }

  /**
   The store does not answer a process's statement: it never ran, or it ran and
   its answer was lost. A failed key lookup is taken for a missing key. The
   password check is taken to be answered.
   */
  function FailStep(w: World, p: nat, ran: bool, random: string): World
    requires p in w.procs
  {
    match w.procs[p]
    case AuthLookup(_, _) => w.(procs := w.procs[p := Ended(Refused("invalid_client"))])
    case AuthValidate(_, req) => w.(procs := w.procs[p := Ended(PasswordForm(req.password != ""))])
    case AuthInsert(srv, req, code, at) =>
      var db := Exec(w.db, InsertCode(Sha256(code), NewCode(srv, req, at))).0;
      w.(db := if ran then db else w.db, procs := w.procs[p := Ended(Refused("server_error"))])
    case TokClaim(_, req, at) =>
      var (db, res) := Exec(w.db, ClaimCode(Sha256(req.code), Unix(at)));
      var next := w.(procs := w.procs[p := Ended(Refused("invalid_grant"))]);
      if ran && res.affected != 0 then next.(db := db, claimed := w.claimed + {req.code}) else next
    case TokRead(_, _, _) => w.(procs := w.procs[p := Ended(Refused("invalid_grant"))])
    case ResTenant(_) => w.(procs := w.procs[p := Ended(NoServer)])
    case ResKey(slug, expiresAt) => w.(procs := w.procs[p := ResStore(slug, expiresAt, random)])
    case ResStore(slug, _, pem) =>
      var db := Exec(w.db, InsertKeyOrIgnore(slug, pem)).0;
      w.(db := if ran then db else w.db, procs := w.procs[p := Ended(NoServer)])
    case _ => w
  }

  /** One step of the system; a label that is not possible leaves it unchanged. */
  function Next(w: World, l: Label): World {
    match l
    case Env(st) => if Foreign(st) then w.(db := Exec(w.db, st).0) else w
    case Tick(d) => w.(now := w.now + d)
    case Restart => w.(procs := map p | p in w.procs :: Ended(Killed), cache := map[])
    case StartAuthorize(p, slug, req) =>
      if p in w.procs || slug !in w.cache then w
      else w.(procs := w.procs[p := FirstAuthStep(w.cache[slug], req)])
    case StartToken(p, slug, req) =>
      if p in w.procs || slug !in w.cache then w
      else w.(procs := w.procs[p := FirstTokenStep(w.cache[slug], req)])
    case StartResolve(p, slug) =>
      if p in w.procs || slug in w.cache || ResolverBusy(w.procs) then w
      else w.(procs := w.procs[p := ResTenant(slug)])
    case Advance(p, random) =>
      if p !in w.procs then w
      else if IsResolver(w.procs[p]) then ResolveStep(w, p, random)
      else if IsTokenProc(w.procs[p]) then TokenStep(w, p)
      else AuthStep(w, p, random)
    case Fail(p, ran, random) => if p in w.procs then FailStep(w, p, ran, random) else w
  }

  ghost predicate Initial(w: World) {
    w == World(EMPTY, w.now, map[], map[], [], {}, {})
  }

  /** A run: its worlds, and the labels between them. */
  ghost predicate IsRun(tr: seq<World>, ls: seq<Label>) {
    && |tr| == |ls| + 1
    && Initial(tr[0])
    && forall i {:trigger ls[i]} :: 0 <= i < |ls| ==> tr[i + 1] == Next(tr[i], ls[i])
  }
}
