/**
 ES256 access tokens: signing, cutting and validating.

 The signature is ideal: a log holds every (key, input, signature) that a key
 holder has produced, and a signature verifies exactly when it is in the log.
 JSON is a codec of which only the round trip of a claim set is known.
 */
module Jwt {
  import opened Wrappers
  import opened Text
  import opened Base64

  datatype Audience = One(aud: string) | Many(auds: seq<Option<string>>) | Unreadable

  /** The claims that validation reads back. A list entry that is no string is None. */
  datatype Claims = Claims(issuer: string, subject: string, clientId: string, scope: string, aud: Audience, exp: int)

  datatype AccessClaims = AccessClaims(issuer: string, subject: string, clientId: string, scope: string,
                                       audience: seq<string>, expiresAt: int)

  datatype Json = Json(header: seq<Byte>, marshal: (Claims, int, string) -> seq<Byte>,
                       unmarshal: seq<Byte> -> Option<Claims>)

  /** Marshalling adds iat and jti, which unmarshalling ignores. */
  ghost predicate Lawful(json: Json) {
    forall claims, iat, jti :: json.unmarshal(json.marshal(claims, iat, jti)) == Some(claims)
  }

  type Key = string

  datatype Signed = Signed(key: Key, input: string, sig: seq<Byte>)

  /** One call of signAccessToken, with the clock, the random id and the signature it drew. */
  datatype Request = Request(key: Key, issuer: string, subject: string, clientId: string, scope: string,
                             resource: string, exp: int, iat: int, jti: string, sig: seq<Byte>)

  datatype JwtError =
    | Malformed
    | BadSignatureEncoding
    | InvalidSignature
    | BadPayloadEncoding
    | BadPayloadJson
    | WrongIssuer
    | Expired

  // --- Cutting a token ---

  method IndexByte(s: string, c: char) returns (i: int)
    ensures i == IndexOf(s, c)
  {
    for k := 0 to |s|
      invariant c !in s[..k]
    {
      if s[k] == c {
        IndexOfUnique(s, c, k);
        return k;
      }
      assert s[..k + 1] == s[..k] + [s[k]];
    }
    assert s[..|s|] == s;
    return -1;
  }

  function Split(token: string): Option<(string, string, string)> {
    var i := IndexOf(token, '.');
    if i < 0 then None
    else
      var rest := token[i + 1..];
      var j := IndexOf(rest, '.');
      if j < 0 then None else Some((token[..i], rest[..j], rest[j + 1..]))
  }

  function Join(a: string, b: string, c: string): string {
    a + "." + b + "." + c
  }

  method SplitJwt(token: string) returns (parts: Option<seq<string>>)
    ensures Split(token).None? ==> parts == None
    ensures Split(token).Some? ==> var (a, b, c) := Split(token).value; parts == Some([a, b, c])
  {
    var cut: seq<string> := [];
    var rest := token;
    for n := 0 to 2
      invariant |cut| == n
      invariant n == 0 ==> rest == token
      invariant n == 1 ==> var i := IndexOf(token, '.'); i >= 0 && cut == [token[..i]] && rest == token[i + 1..]
      invariant n == 2 ==> Split(token).Some? && var (a, b, c) := Split(token).value; cut == [a, b] && rest == c
    {
      var i := IndexByte(rest, '.');
      if i < 0 { return None; }
      cut := cut + [rest[..i]];
      rest := rest[i + 1..];
    }
    assert cut + [rest] == [cut[0], cut[1], rest];
    return Some(cut + [rest]);
  }

  lemma SplitJoined(a: string, b: string, c: string)
    requires '.' !in a && '.' !in b
    ensures Split(Join(a, b, c)) == Some((a, b, c))
  {
    var rest := b + ['.'] + c;
    assert Join(a, b, c) == a + ['.'] + rest;
    IndexOfAppend(a, '.', rest);
    IndexOfAppend(b, '.', c);
  }

  lemma CutAt(s: string, i: nat)
    requires i < |s| && s[i] == '.'
    ensures s == s[..i] + "." + s[i + 1..]
  {
  }

  lemma JoinSplit(token: string)
    requires Split(token).Some?
    ensures var (a, b, c) := Split(token).value; token == Join(a, b, c) && '.' !in a && '.' !in b
  {
    var i := IndexOf(token, '.');
    var rest := token[i + 1..];
    var j := IndexOf(rest, '.');
    CutAt(token, i);
    CutAt(rest, j);
    Regroup(token[..i], rest[..j], rest[j + 1..]);
  }

  lemma Regroup(a: string, b: string, c: string)
    ensures a + "." + (b + "." + c) == Join(a, b, c)
  {
  }

  /** Cutting at the dots and joining with dots are inverse, for a first and second part without dots. */
  lemma SplitExactly(token: string, a: string, b: string, c: string)
    ensures Split(token) == Some((a, b, c)) <==> token == Join(a, b, c) && '.' !in a && '.' !in b
  {
    hide Split;
    if token == Join(a, b, c) && '.' !in a && '.' !in b { SplitJoined(a, b, c); }
    if Split(token) == Some((a, b, c)) { JoinSplit(token); }
  }

  // --- Signing ---

  /** The audience is the resource asked for, or else the issuer. */
  function ClaimsOf(r: Request): Claims {
    Claims(r.issuer, r.subject, r.clientId, r.scope, One(if r.resource == "" then r.issuer else r.resource), r.exp)
  }

  function Input(json: Json, r: Request): string {
    Encode(json.header) + "." + Encode(json.marshal(ClaimsOf(r), r.iat, r.jti))
  }

  function Sign(json: Json, r: Request): (string, Signed) {
    var input := Input(json, r);
    (input + "." + Encode(r.sig), Signed(r.key, input, r.sig))
  }

  /** Everything signed in a run of requests. */
  function LogOf(json: Json, rs: seq<Request>): set<Signed> {
    set i | 0 <= i < |rs| :: Sign(json, rs[i]).1
  }

  // --- Validating ---

  function Strings(auds: seq<Option<string>>): seq<string> {
    if auds == [] then []
    else
      match auds[0]
      case Some(s) => [s] + Strings(auds[1..])
      case None => Strings(auds[1..])
  }

  function AudienceStrings(aud: Audience): seq<string> {
    match aud
    case One(s) => [s]
    case Many(auds) => Strings(auds)
    case Unreadable => []
  }

  lemma {:induction false} StringsAppend(a: seq<Option<string>>, x: Option<string>)
    ensures Strings(a + [x]) == Strings(a) + if x.Some? then [x.value] else []
  {
    if a == [] {
      assert [x][1..] == [];
    } else {
      assert (a + [x])[1..] == a[1..] + [x];
      StringsAppend(a[1..], x);
    }
  }

  method ToStrings(v: Audience) returns (out: seq<string>)
    ensures out == AudienceStrings(v)
  {
    match v
    case One(s) => out := [s];
    case Many(auds) =>
      out := [];
      for k := 0 to |auds|
        invariant out == Strings(auds[..k])
      {
        assert auds[..k + 1] == auds[..k] + [auds[k]];
        StringsAppend(auds[..k], auds[k]);
        if auds[k].Some? { out := out + [auds[k].value]; }
      }
      assert auds[..|auds|] == auds;
    case Unreadable => out := [];
  }

  function Check(claims: Claims, issuer: string, now: int): Result<AccessClaims, JwtError> {
    if claims.issuer != issuer then Err(WrongIssuer)
    else if now >= claims.exp then Err(Expired)
    else Ok(AccessClaims(claims.issuer, claims.subject, claims.clientId, claims.scope,
                         AudienceStrings(claims.aud), claims.exp))
  }

  function Validate(json: Json, log: set<Signed>, key: Key, issuer: string, token: string, now: int)
    : Result<AccessClaims, JwtError>
  {
    match Split(token)
    case None => Err(Malformed)
    case Some((header, payload, signature)) =>
      match Decode(signature)
      case None => Err(BadSignatureEncoding)
      case Some(sig) =>
        if |sig| != 64 then Err(BadSignatureEncoding)
        else if Signed(key, header + "." + payload, sig) !in log then Err(InvalidSignature)
        else
          match Decode(payload)
          case None => Err(BadPayloadEncoding)
          case Some(bytes) =>
            match json.unmarshal(bytes)
            case None => Err(BadPayloadJson)
            case Some(claims) => Check(claims, issuer, now)
  }

  // --- Printer and parser together ---

  lemma SignedParts(json: Json, r: Request)
    ensures var payload := Encode(json.marshal(ClaimsOf(r), r.iat, r.jti));
            && Split(Sign(json, r).0) == Some((Encode(json.header), payload, Encode(r.sig)))
            && Split(Input(json, r) + ".") == Some((Encode(json.header), payload, ""))
            && Decode(payload) == Some(json.marshal(ClaimsOf(r), r.iat, r.jti))
            && Decode(Encode(r.sig)) == Some(r.sig)
  {
    var bytes := json.marshal(ClaimsOf(r), r.iat, r.jti);
    DecodeEncode(json.header);
    DecodeEncode(bytes);
    DecodeEncode(r.sig);
    SplitExactly(Sign(json, r).0, Encode(json.header), Encode(bytes), Encode(r.sig));
    SplitExactly(Input(json, r) + ".", Encode(json.header), Encode(bytes), "");
  }

  /**
   A signed token, validated with its own key and any issuer at any time, gives
   back the claims it was signed with, or the error for a foreign issuer or a
   passed expiry.
   */
  lemma ValidateSigned(json: Json, log: set<Signed>, r: Request, issuer: string, now: int)
    requires Lawful(json) && |r.sig| == 64
    requires Sign(json, r).1 in log
    ensures Validate(json, log, r.key, issuer, Sign(json, r).0, now) ==
            if issuer != r.issuer then Err(WrongIssuer)
            else if now >= r.exp then Err(Expired)
            else Ok(AccessClaims(r.issuer, r.subject, r.clientId, r.scope,
                                 [if r.resource == "" then r.issuer else r.resource], r.exp))
  {
    hide Split, Decode, Encode;
    SignedParts(json, r);
  }

  /** Under any key and log, a token signed for one issuer is refused for every other. */
  lemma OtherIssuerRefused(json: Json, log: set<Signed>, key: Key, r: Request, issuer: string, now: int)
    requires Lawful(json) && issuer != r.issuer
    ensures Validate(json, log, key, issuer, Sign(json, r).0, now).Err?
  {
    hide Split, Decode, Encode;
    SignedParts(json, r);
  }

  lemma SameInput(json: Json, r: Request, header: string, payload: string, signature: string, token: string)
    requires Split(token) == Some((header, payload, signature))
    requires header + "." + payload == Input(json, r)
    ensures payload == Encode(json.marshal(ClaimsOf(r), r.iat, r.jti))
  {
    SignedParts(json, r);
    SplitExactly(token, header, payload, signature);
    SplitExactly(Input(json, r) + ".", header, payload, "");
  }

  /**
   Whatever text is presented, it is accepted for a key and issuer only with the
   claims of a request that was signed with that key for that issuer and has not
   expired.
   */
  lemma AcceptedWasSigned(json: Json, rs: seq<Request>, key: Key, issuer: string, token: string, now: int)
    requires Lawful(json)
    ensures var v := Validate(json, LogOf(json, rs), key, issuer, token, now);
            v.Ok? ==>
              exists i :: 0 <= i < |rs| && rs[i].key == key && rs[i].issuer == issuer && now < rs[i].exp
                          && v.value == AccessClaims(issuer, rs[i].subject, rs[i].clientId, rs[i].scope,
                                                     [if rs[i].resource == "" then issuer else rs[i].resource],
                                                     rs[i].exp)
  {
    hide Split, Decode, Encode;
    if Validate(json, LogOf(json, rs), key, issuer, token, now).Ok? {
      var (header, payload, signature) := Split(token).value;
      var sig := Decode(signature).value;
      var i :| 0 <= i < |rs| && Sign(json, rs[i]).1 == Signed(key, header + "." + payload, sig);
      SameInput(json, rs[i], header, payload, signature, token);
      SignedParts(json, rs[i]);
    }
  }

  // --- Why a token is refused ---

  /** A token is malformed exactly if it has no two dots to be cut at. */
  lemma MalformedWhen(json: Json, log: set<Signed>, key: Key, issuer: string, token: string, now: int)
    ensures Validate(json, log, key, issuer, token, now) == Err(Malformed)
            <==> forall a, b, c :: '.' !in a && '.' !in b ==> token != Join(a, b, c)
  {
    hide Split, Decode, Join;
    if Split(token).Some? {
      var (a, b, c) := Split(token).value;
      SplitExactly(token, a, b, c);
    } else {
      forall a, b, c | '.' !in a && '.' !in b
        ensures token != Join(a, b, c)
      {
        SplitExactly(token, a, b, c);
      }
    }
  }

  /**
   Of a token with its three parts: a signature that does not decode to 64 bytes is
   a bad encoding, one that the key did not make over the first two parts is
   invalid, and only then does the payload count.
   */
  lemma RefusedFor(json: Json, log: set<Signed>, key: Key, issuer: string, a: string, b: string, c: string, now: int)
    requires '.' !in a && '.' !in b
    ensures var v := Validate(json, log, key, issuer, Join(a, b, c), now);
            var sig := Decode(c);
            if sig.None? || |sig.value| != 64 then v == Err(BadSignatureEncoding)
            else if Signed(key, a + "." + b, sig.value) !in log then v == Err(InvalidSignature)
            else if Decode(b).None? then v == Err(BadPayloadEncoding)
            else
              match json.unmarshal(Decode(b).value)
              case None => v == Err(BadPayloadJson)
              case Some(claims) =>
                if claims.issuer != issuer then v == Err(WrongIssuer)
                else if claims.exp <= now then v == Err(Expired)
                else v.Ok?
  {
    hide Split, Decode;
    SplitExactly(Join(a, b, c), a, b, c);
  }
}
