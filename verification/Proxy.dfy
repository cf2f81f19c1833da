/**
 The public router: path splitting, its order of decisions, and what a request
 forwarded to a protected service proves about its bearer token.
 */
module Proxy {
  import opened Wrappers
  import opened Bytes
  import opened Sql
  import opened Text
  import opened OAuthWorld
  import opened OAuthTokens
  import opened OAuthSafety
  import Base64
  import Jwt

  const MAX_REQUEST_BODY := 8 * 1024 * 1024

  /** Splits "/t/{tenant}/s/{service}/rest"; an empty rest becomes "/". */
  function SplitPath(path: string): (string, string, string) {
    if !("/t/" <= path) then ("", "", "")
    else
      var p := path[3..];
      var i := IndexOf(p, '/');
      if i < 0 || !("/s/" <= p[i..]) then ("", "", "")
      else
        var sp := p[i..][3..];
        var j := IndexOf(sp, '/');
        if j >= 0 then (p[..i], sp[..j], sp[j..]) else (p[..i], sp, "/")
  }

  function MakePath(tenant: string, service: string, suffix: string): string {
    "/t/" + tenant + "/s/" + service + suffix
  }

  /** Splitting undoes making, for names without a slash. */
  lemma SplitMake(tenant: string, service: string, suffix: string)
    requires '/' !in tenant && '/' !in service && (suffix == "" || suffix[0] == '/')
    ensures SplitPath(MakePath(tenant, service, suffix)) == (tenant, service, if suffix == "" then "/" else suffix)
  {
    var path := MakePath(tenant, service, suffix);
    var tail := "s/" + (service + suffix);
    Cut("/t/", tenant + ['/'] + tail);
    Reassoc(tenant, service, suffix);
    assert ['/'] + tail == "/s/" + (service + suffix);
    assert path[3..] == tenant + ['/'] + tail;
    IndexOfAppend(tenant, '/', tail);
    Cut("/s/", service + suffix);
    CutService(service, suffix);
  }

  lemma Cut(prefix: string, s: string)
    ensures prefix <= prefix + s && (prefix + s)[|prefix|..] == s
  {
  }

  lemma CutService(service: string, suffix: string)
    requires '/' !in service && (suffix == "" || suffix[0] == '/')
    ensures var j := IndexOf(service + suffix, '/');
            if suffix == "" then j < 0 && service + suffix == service
            else j == |service| && (service + suffix)[..j] == service && (service + suffix)[j..] == suffix
  {
    if suffix == "" {
      assert service + suffix == service;
    } else {
      assert suffix == ['/'] + suffix[1..];
      assert service + suffix == service + ['/'] + suffix[1..];
      IndexOfAppend(service, '/', suffix[1..]);
    }
  }

  /** A recognised path, cut at the slash after the tenant. */
  lemma TenantPiece(path: string, i: nat)
    requires "/t/" <= path && i < |path| - 3 && "/s/" <= path[3..][i..]
    ensures path == "/t/" + (path[3..][..i] + ("/s/" + path[3..][i..][3..]))
  {
    var p := path[3..];
    Rejoin("/t/", path);
    Rejoin("/s/", p[i..]);
    assert p == p[..i] + p[i..];
  }

  lemma ServicePiece(sp: string)
    ensures var j := IndexOf(sp, '/');
            if j >= 0 then sp == sp[..j] + sp[j..] && '/' !in sp[..j] else '/' !in sp && sp + "" == sp
  {
  }

  /** A path that yields a tenant was made from the pieces it yields, which contain no slash. */
  lemma MakeSplit(path: string)
    requires SplitPath(path).0 != ""
    ensures var (tenant, service, rest) := SplitPath(path);
            && '/' !in tenant && '/' !in service
            && (path == MakePath(tenant, service, rest) || (rest == "/" && path == MakePath(tenant, service, "")))
  {
    hide MakePath;
    var i := IndexOf(path[3..], '/');
    var sp := path[3..][i..][3..];
    var (tenant, service, rest) := SplitPath(path);
    TenantPiece(path, i);
    ServicePiece(sp);
    Reassoc(tenant, service, if IndexOf(sp, '/') >= 0 then rest else "");
  }

  lemma Rejoin(prefix: string, s: string)
    requires prefix <= s
    ensures s == prefix + s[|prefix|..]
  {
  }

  lemma Reassoc(tenant: string, service: string, suffix: string)
    ensures "/t/" + (tenant + ("/s/" + (service + suffix))) == MakePath(tenant, service, suffix)
  {
  }

  datatype Decision = NotFound | TooLarge | Unauthorized | Forward(rest: string)

  /** What checking a bearer token reads: the signatures made so far, the cached servers, the header, the clock. */
  datatype Check = Check(json: Jwt.Json, log: set<Jwt.Signed>, base: string, cache: map<Slug, Server>,
                         header: Bytes, now: int)

  function Issuer(base: string, tenant: Slug): string {
    base + "/t/" + tenant
  }

  function Bearer(header: Bytes): Bytes {
    Trim(if "Bearer " <= header then header[7..] else header)
  }

  /** Whether the header carries a token that the tenant's cached server accepts. */
  predicate TokenAccepted(tenant: Slug, c: Check) {
    && Bearer(c.header) != ""
    && tenant in c.cache
    && Jwt.Validate(c.json, c.log, c.cache[tenant].key, Issuer(c.base, tenant), Bearer(c.header), c.now).Ok?
  }

  /** What the router does with a request; gated says that it was built with a resolver. */
  function Serve(db: Db, gated: bool, path: string, contentLength: int, c: Check): Decision {
    var (tenant, service, rest) := SplitPath(path);
    if tenant == "" || service == "" then NotFound
    else if contentLength > MAX_REQUEST_BODY then TooLarge
    else
      var rows := Exec(db, SelectService(tenant, service)).1.rows;
      if rows == [] then NotFound
      else if rows[0].service.authMode == "oauth" && gated && !TokenAccepted(tenant, c) then Unauthorized
      else Forward(rest)
  }

  predicate Protects(db: Db, tenant: Slug, service: string) {
    (tenant, service) in db.services && db.services[(tenant, service)].authMode == "oauth"
  }

  // --- Decisions that no token bears on ---

  predicate Routable(tenant: string, service: string, suffix: string) {
    tenant != "" && service != "" && '/' !in tenant && '/' !in service && (suffix == "" || suffix[0] == '/')
  }

  /**
   Over a recognised path: more than 8 MiB is refused whatever else holds, a
   service that is not there is not found, and one that is not protected, or any
   one when the router has no resolver, gets the rest of the path whatever the
   header, the cache and the clock say. A protected one without a token, or
   without a server for its tenant, is refused.
   */
  lemma RoutesMadePaths(db: Db, gated: bool, tenant: string, service: string, suffix: string, contentLength: int,
                        c: Check)
    requires Routable(tenant, service, suffix)
    ensures var d := Serve(db, gated, MakePath(tenant, service, suffix), contentLength, c);
            var rest := if suffix == "" then "/" else suffix;
            var fits, there := contentLength <= 8_388_608, (tenant, service) in db.services;
            var guarded := gated && Protects(db, tenant, service);
            && (!fits ==> d == TooLarge)
            && (fits && !there ==> d == NotFound)
            && (fits && there && !guarded ==> d == Forward(rest))
            && (fits && guarded && (c.header == "" || c.header == "Bearer ") ==> d == Unauthorized)
            && (fits && guarded && tenant !in c.cache ==> d == Unauthorized)
  {
    hide SplitPath, MakePath, Jwt.Validate;
    SplitMake(tenant, service, suffix);
    NoToken(c.header);
    hide Bearer;
  }

  lemma NoToken(header: Bytes)
    ensures header == "" || header == "Bearer " ==> Bearer(header) == ""
  {
  }

  /** Any other path is not found, even for a request that is too large. */
  lemma OtherPathsAreNotFound(db: Db, gated: bool, path: string, contentLength: int, c: Check)
    ensures Serve(db, gated, path, contentLength, c) == NotFound
            || exists tenant, service, suffix ::
                 Routable(tenant, service, suffix) && path == MakePath(tenant, service, suffix)
  {
    hide MakePath;
    var (tenant, service, rest) := SplitPath(path);
    if tenant != "" && service != "" {
      MakeSplit(path);
      RestStarts(path);
      var suffix := if path == MakePath(tenant, service, rest) then rest else "";
      assert Routable(tenant, service, suffix) && path == MakePath(tenant, service, suffix);
    }
  }

  lemma RestStarts(path: string)
    requires SplitPath(path).0 != ""
    ensures var rest := SplitPath(path).2; rest != "" && rest[0] == '/'
  {
  }

  // --- The tokens of a run, as signed text ---

  function RequestOf(base: string, t: Token, iat: int, jti: string, sig: seq<Base64.Byte>): Jwt.Request {
    Jwt.Request(t.key, Issuer(base, t.tenant), "quick-tunnel", t.client, "mcp", "", t.exp, iat, jti, sig)
  }

  /** rs are the signing calls for these tokens, one each, with whatever clock, id and signature each drew. */
  ghost predicate SignedFor(base: string, tokens: seq<Token>, rs: seq<Jwt.Request>) {
    && |rs| == |tokens|
    && forall i :: 0 <= i < |rs| ==>
         rs[i] == RequestOf(base, tokens[i], rs[i].iat, rs[i].jti, rs[i].sig) && |rs[i].sig| == 64
  }

  /** c is the check the router makes in world w of a run whose tokens were signed by rs. */
  ghost predicate ChecksIn(c: Check, w: World, rs: seq<Jwt.Request>) {
    && SignedFor(c.base, w.tokens, rs) && Jwt.Lawful(c.json)
    && c.log == Jwt.LogOf(c.json, rs) && c.cache == w.cache && c.now == Unix(w.now)
  }

  lemma IssuerInjective(base: string, a: Slug, b: Slug)
    ensures Issuer(base, a) == Issuer(base, b) <==> a == b
  {
    var n := |base + "/t/"|;
    assert Issuer(base, a)[n..] == a && Issuer(base, b)[n..] == b;
  }

  /** The token that lets a request through was issued for the tenant, and has not expired. */
  ghost predicate IssuedFor(tr: seq<World>, ls: seq<Label>, j: nat, tenant: Slug, t: Token)
    requires |tr| == |ls| + 1 && j <= |ls|
  {
    && tenant in tr[j].cache && t.tenant == tenant && t.key == tr[j].cache[tenant].key
    && Unix(tr[j].now) < t.exp && TokenOk(tr, ls, j, t)
  }

  /**
   In every run: a request that reaches a protected service, whatever its header
   says, carries a token that the run issued for that very tenant, signed with
   the cached key and not yet expired, and that goes back to an authorize step.
   The service row may have been read in an earlier world than the token was checked.
   */
  lemma ForwardedTokenWasIssued(tr: seq<World>, ls: seq<Label>, i: nat, j: nat, rs: seq<Jwt.Request>, path: string,
                                contentLength: int, c: Check)
    requires IsRun(tr, ls) && i <= j <= |ls| && ChecksIn(c, tr[j], rs)
    ensures var (tenant, service, _) := SplitPath(path);
            Serve(tr[i].db, true, path, contentLength, c).Forward? && Protects(tr[i].db, tenant, service) ==>
              exists m :: 0 <= m < |tr[j].tokens| && IssuedFor(tr, ls, j, tenant, tr[j].tokens[m])
  {
    hide SplitPath, Jwt.Validate, Jwt.LogOf, Jwt.Lawful, Bearer, TokenOk, Next;
    var (tenant, service, _) := SplitPath(path);
    if Serve(tr[i].db, true, path, contentLength, c).Forward? && Protects(tr[i].db, tenant, service) {
      hide Exec;
      assert TokenAccepted(tenant, c) by { ServiceRows(tr[i].db, tenant, service); }
      AcceptedWasIssued(tr, ls, j, rs, tenant, c);
    }
  }

  lemma AcceptedWasIssued(tr: seq<World>, ls: seq<Label>, j: nat, rs: seq<Jwt.Request>, tenant: Slug, c: Check)
    requires IsRun(tr, ls) && j <= |ls| && ChecksIn(c, tr[j], rs) && TokenAccepted(tenant, c)
    ensures exists m :: 0 <= m < |tr[j].tokens| && IssuedFor(tr, ls, j, tenant, tr[j].tokens[m])
  {
    hide Jwt.Validate, Jwt.LogOf, Jwt.Lawful, Bearer, TokenOk, Next, Issuer;
    Jwt.AcceptedWasSigned(c.json, rs, c.cache[tenant].key, Issuer(c.base, tenant), Bearer(c.header), c.now);
    var m :| 0 <= m < |rs| && rs[m].key == c.cache[tenant].key && rs[m].issuer == Issuer(c.base, tenant)
             && c.now < rs[m].exp;
    IssuerInjective(c.base, tr[j].tokens[m].tenant, tenant);
    EveryTokenWasAuthorized(tr, ls, j, m);
    assert IssuedFor(tr, ls, j, tenant, tr[j].tokens[m]);
  }

  // --- An issued token lets its requests through ---

  /** Token text has no white space to trim. */
  lemma TokenIsTrimmed(json: Jwt.Json, r: Jwt.Request, token: Bytes)
    requires token == Jwt.Sign(json, r).0
    ensures token != "" && Trim(token) == token && !("Bearer " <= token)
  {
    var header, payload := Base64.Encode(json.header), Base64.Encode(json.marshal(Jwt.ClaimsOf(r), r.iat, r.jti));
    Base64.EncodeInAlphabet(json.header);
    Base64.EncodeInAlphabet(json.marshal(Jwt.ClaimsOf(r), r.iat, r.jti));
    Base64.EncodeInAlphabet(r.sig);
    hide Base64.Encode;
    assert token == header + "." + payload + "." + Base64.Encode(r.sig);
    forall i | 0 <= i < |token|
      ensures token[i] == '.' || Base64.ValueOf(token[i]).Some?
    {
    }
    assert SpaceAtFront(token) == 0 && SpaceAtEnd(token) == 0;
    assert "Bearer "[6] == ' ';
    assert |token| > 6 ==> token[6] != ' ';
  }

  /**
   A request with an issued token, with or without the word Bearer, to a protected
   service of a tenant whose cached key signed it, is forwarded exactly when the
   token is that tenant's and has not expired; otherwise it is refused.
   */
  lemma IssuedTokenForwardedWhen(db: Db, w: World, rs: seq<Jwt.Request>, m: nat, path: string, contentLength: int,
                                 c: Check)
    requires ChecksIn(c, w, rs) && m < |rs|
    requires var token := Jwt.Sign(c.json, rs[m]).0; c.header == "Bearer " + token || c.header == token
    requires contentLength <= MAX_REQUEST_BODY
    requires var (tenant, service, _) := SplitPath(path);
             tenant != "" && service != "" && Protects(db, tenant, service)
             && tenant in w.cache && w.cache[tenant].key == w.tokens[m].key
    ensures var (tenant, _, rest) := SplitPath(path);
            Serve(db, true, path, contentLength, c)
            == if w.tokens[m].tenant == tenant && Unix(w.now) < w.tokens[m].exp then Forward(rest) else Unauthorized
  {
    hide SplitPath, Jwt.Validate, Jwt.Sign, Jwt.LogOf, Jwt.Lawful, Trim, Issuer;
    var (tenant, service, rest) := SplitPath(path);
    var token: Bytes := if "Bearer " <= c.header then c.header[7..] else c.header;
    SignedIsText(c.json, rs[m], c.header);
    assert token == Jwt.Sign(c.json, rs[m]).0;
    TokenIsTrimmed(c.json, rs[m], token);
    assert Bearer(c.header) == token;
    ServiceRows(db, tenant, service);
    InLog(c.json, rs, m);
    Jwt.ValidateSigned(c.json, c.log, rs[m], Issuer(c.base, tenant), c.now);
    IssuerInjective(c.base, w.tokens[m].tenant, tenant);
  }

  lemma SignedIsText(json: Jwt.Json, r: Jwt.Request, header: Bytes)
    requires var token := Jwt.Sign(json, r).0; header == "Bearer " + token || header == token
    ensures (if "Bearer " <= header then header[7..] else header) == Jwt.Sign(json, r).0
  {
    if header == Jwt.Sign(json, r).0 { TokenIsTrimmed(json, r, header); }
  }

  lemma InLog(json: Jwt.Json, rs: seq<Jwt.Request>, m: nat)
    requires m < |rs|
    ensures Jwt.Sign(json, rs[m]).1 in Jwt.LogOf(json, rs)
  {
  }

  /**
   After a tenant is deleted, and until its slug is created again, the router
   answers 404 for every service of it, whatever token is presented, although
   the resolver still holds the tenant's server if it did before.
   */
  lemma DeletedTenantNotFound(tr: seq<World>, ls: seq<Label>, i: nat, j: nat, slug: Slug, service: string,
                              suffix: string, contentLength: int, gated: bool, c: Check)
    requires IsRun(tr, ls) && i <= j <= |ls| && slug !in tr[i].db.tenants && SlugNotReused(ls, i, j, slug)
    requires slug != "" && '/' !in slug && '/' !in service && (suffix == "" || suffix[0] == '/')
    requires contentLength <= MAX_REQUEST_BODY
    ensures Serve(tr[j].db, gated, MakePath(slug, service, suffix), contentLength, c) == NotFound
    ensures slug in tr[i].cache && (forall m :: i <= m < j ==> !ls[m].Restart?) ==> slug in tr[j].cache
  {
    hide Next, Exec, SplitPath, MakePath;
    DeletedTenantIsGone(tr, ls, i, j, slug);
    SplitMake(slug, service, suffix);
    ServiceRows(tr[j].db, slug, service);
    if slug in tr[i].cache && forall m :: i <= m < j ==> !ls[m].Restart? {
      CacheIsPermanent(tr, ls, i, j, slug);
    }
  }

  lemma ServiceRows(db: Db, slug: Slug, service: string)
    ensures Exec(db, SelectService(slug, service)).1.rows == [] <==> (slug, service) !in db.services
  {
  }
}
