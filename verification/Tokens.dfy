/** Bearer headers, the MCP door's own tokens, and the owner door's login tokens. */
module Tokens {
  import opened Wrappers
  import opened Text
  import opened JwksCache

  // ---- Bearer headers ------------------------------------------------------------

  datatype AuthError = Unauthenticated

  /** parse_bearer */
  function ParseBearer(header: Option<string>): Result<string, AuthError> {
    if header.None? then Err(Unauthenticated)
    else
      var scheme := Before(header.value, {' '});
      var value := if |scheme| < |header.value| then header.value[|scheme| + 1..] else "";
      var token := Strip(value);
      if Lower(scheme) != "bearer" || token == "" then Err(Unauthenticated) else Ok(token)
  }

  /** A header yields a token exactly when it reads `bearer`, in any case, one blank, and text that is not all
      whitespace. */
  lemma BearerExactly(h: string, token: string)
    ensures ParseBearer(Some(h)) == Ok(token) <==>
            token != "" && exists scheme, rest :: h == scheme + " " + rest && Lower(scheme) == "bearer" && Strip(rest) == token
  {
    var head := Before(h, {' '});
    BeforeIsPrefix(h, {' '});
    if ParseBearer(Some(h)) == Ok(token) {
      if |head| == |h| {
        StripEmpty();
      }
      var rest := h[|head| + 1..];
      assert h == head + " " + rest;
    }
    if token != "" && exists scheme, rest :: h == scheme + " " + rest && Lower(scheme) == "bearer" && Strip(rest) == token {
      var scheme, rest :| h == scheme + " " + rest && Lower(scheme) == "bearer" && Strip(rest) == token;
      BearerYields(scheme, rest);
    }
  }

  lemma BearerYields(scheme: string, rest: string)
    requires Lower(scheme) == "bearer" && Strip(rest) != ""
    ensures ParseBearer(Some(scheme + " " + rest)) == Ok(Strip(rest))
  {
    var h := scheme + " " + rest;
    SchemeHasNoBlank(scheme);
    assert h == scheme + (" " + rest);
    BeforeStops(scheme, " " + rest, {' '});
    assert h[|scheme| + 1..] == rest;
  }

  lemma StripEmpty()
    ensures Strip("") == ""
  {
  }

  lemma SchemeHasNoBlank(scheme: string)
    requires Lower(scheme) == "bearer"
    ensures Avoids(scheme, {' '})
  {
    forall i | 0 <= i < |scheme|
      ensures scheme[i] != ' '
    {
      assert Lower(scheme)[i] == "bearer"[i] == LowerChar(scheme[i]);
    }
  }

  /** Token text travels through a header unchanged, whatever blanks surround it. */
  lemma BearerRoundTrip(scheme: string, text: string, left: nat, right: nat)
    requires Lower(scheme) == "bearer" && text != "" && !Space(text[0]) && !Space(text[|text| - 1])
    ensures ParseBearer(Some(scheme + " " + (Blanks(left) + text + Blanks(right)))) == Ok(text)
  {
    var rest := Blanks(left) + text + Blanks(right);
    LStripBlanks(left, text + Blanks(right));
    assert rest == Blanks(left) + (text + Blanks(right));
    RStripAppend(text, Blanks(right));
    RStripBlanks(right);
    assert text + "" == text;
    assert Strip(rest) == text;
    BearerYields(scheme, rest);
  }

  function Blanks(n: nat): (r: string)
    ensures |r| == n && forall i :: 0 <= i < n ==> r[i] == ' '
  {
    seq(n, i requires 0 <= i < n => ' ')
  }

  lemma {:induction false} LStripBlanks(n: nat, s: string)
    requires s != "" && !Space(s[0])
    ensures LStrip(Blanks(n) + s) == s
  {
    if n == 0 {
      assert Blanks(0) + s == s;
    } else {
      assert (Blanks(n) + s)[1..] == Blanks(n - 1) + s;
      LStripBlanks(n - 1, s);
    }
  }

  lemma {:induction false} RStripBlanks(n: nat)
    ensures RStrip(Blanks(n)) == ""
  {
    if n > 0 {
      assert Blanks(n)[..n - 1] == Blanks(n - 1);
      RStripBlanks(n - 1);
    }
  }

  // ---- Signed tokens -------------------------------------------------------------

  datatype Algorithm = HS256 | ES256 | Unsigned | OtherAlgorithm

  /** What the signature verifies under; NoSignature verifies under nothing. */
  datatype Signature = SignedWith(algorithm: Algorithm, key: string) | NoSignature

  /** A numeric date claim. */
  datatype Date = Absent | At(seconds: real) | Malformed

  /** The claims either door reads. String claims are None when missing, of another type, or (for the
      tenant and the subject) empty. */
  datatype Claims = Claims(
    iss: Option<string>, aud: set<string>, exp: Date, nbf: Date, iat: Date,
    tenantId: Option<string>, appTenant: Option<string>, userTenant: Option<string>, sub: Option<string>)

  datatype Jwt = Jwt(kid: Option<string>, algorithm: Algorithm, signature: Signature, claims: Claims)

  const LEEWAY := 10.0

  /** Python's int() on a number. */
  function Truncate(x: real): int {
    if x >= 0.0 then x.Floor else -((-x).Floor)
  }

  /** jwt.decode with `exp`, `iss` and `aud` required and a pinned algorithm. */
  predicate Decodes(t: Jwt, key: string, pinned: Algorithm, issuer: string, audience: string, now: real) {
    && t.algorithm == pinned && t.signature == SignedWith(pinned, key)
    && t.claims.exp.At? && Truncate(t.claims.exp.seconds) as real > now - LEEWAY
    && !t.claims.nbf.Malformed? && (t.claims.nbf.At? ==> Truncate(t.claims.nbf.seconds) as real <= now + LEEWAY)
    && !t.claims.iat.Malformed? && (t.claims.iat.At? ==> Truncate(t.claims.iat.seconds) as real <= now + LEEWAY)
    && t.claims.iss == Some(issuer) && audience in t.claims.aud
  }

  /** `n` is `x` without its fraction, cut off towards zero. */
  predicate Whole(x: real, n: int) {
    if x >= 0.0 then n as real <= x < (n + 1) as real else (n - 1) as real < x <= n as real
  }

  lemma WholeExactly(x: real, n: int)
    ensures Whole(x, n) <==> n == Truncate(x)
  {
  }

  /** The whole second of the date is later than `limit`. */
  ghost predicate LaterThan(d: Date, limit: real) {
    d.At? && exists n :: Whole(d.seconds, n) && n as real > limit
  }

  /** Not before its time: expired by less than ten seconds, and no more than ten ahead. A missing `nbf` or `iat` is fine. */
  ghost predicate InTime(claims: Claims, now: real) {
    && LaterThan(claims.exp, now - 10.0)
    && !claims.nbf.Malformed? && !LaterThan(claims.nbf, now + 10.0)
    && !claims.iat.Malformed? && !LaterThan(claims.iat, now + 10.0)
  }

  /** Signed with this key under this algorithm and named so, for this issuer and audience, and in time. */
  ghost predicate Genuine(t: Jwt, key: string, algorithm: Algorithm, issuer: string, audience: string, now: real) {
    && t.algorithm == algorithm && t.signature.SignedWith? && t.signature.algorithm == algorithm && t.signature.key == key
    && t.claims.iss == Some(issuer) && audience in t.claims.aud && InTime(t.claims, now)
  }

  lemma LaterExactly(d: Date, limit: real)
    ensures LaterThan(d, limit) <==> d.At? && Truncate(d.seconds) as real > limit
  {
    if d.At? {
      WholeExactly(d.seconds, Truncate(d.seconds));
      forall n ensures Whole(d.seconds, n) <==> n == Truncate(d.seconds) { WholeExactly(d.seconds, n); }
    }
    hide Whole, Truncate;
  }

  /** jwt.decode accepts exactly the genuine tokens. */
  lemma DecodesExactly(t: Jwt, key: string, pinned: Algorithm, issuer: string, audience: string, now: real)
    ensures Decodes(t, key, pinned, issuer, audience, now) <==> Genuine(t, key, pinned, issuer, audience, now)
  {
    hide LaterThan, Truncate;
    LaterExactly(t.claims.exp, now - 10.0);
    LaterExactly(t.claims.nbf, now + 10.0);
    LaterExactly(t.claims.iat, now + 10.0);
  }

  // ---- The MCP door --------------------------------------------------------------

  /** mint_mcp_token at clock reading `clock`. */
  function Mint(secret: string, issuer: string, audience: string, tenant: string, ttl: int, clock: real): Jwt {
    var now := Truncate(clock);
    Jwt(None, HS256, SignedWith(HS256, secret),
        Claims(Some(issuer), {audience}, At((now + ttl) as real), Absent, At(now as real),
               if tenant == "" then None else Some(tenant), None, None, None))
  }

  datatype McpVerifier = McpVerifier(secret: string, issuer: string, audience: string)

  /** McpTokenVerifier.verify, from a parsed token: the tenant it resolves. */
  function VerifyMcp(v: McpVerifier, t: Jwt, now: real): Result<string, AuthError> {
    if !Decodes(t, v.secret, HS256, v.issuer, v.audience, now) || t.claims.tenantId.None? then Err(Unauthenticated)
    else Ok(t.claims.tenantId.value)
  }

  /** The header check and the token check together. `wire` says which texts are well-formed tokens, and
      of what content. */
  function McpCaller(v: McpVerifier, wire: map<string, Jwt>, header: Option<string>, now: real): Result<string, AuthError> {
    var text := ParseBearer(header);
    if text.Err? then Err(Unauthenticated)
    else if text.value !in wire then Err(Unauthenticated)
    else VerifyMcp(v, wire[text.value], now)
  }

  /** The header text is `bearer` in any case, one blank, and the text of a genuine token of the door for the tenant. */
  ghost predicate Carries(v: McpVerifier, wire: map<string, Jwt>, h: string, now: real, tenant: string) {
    exists scheme, rest ::
      && h == scheme + " " + rest && Lower(scheme) == "bearer" && !Blank(rest) && Strip(rest) in wire
      && Genuine(wire[Strip(rest)], v.secret, HS256, v.issuer, v.audience, now)
      && wire[Strip(rest)].claims.tenantId == Some(tenant)
  }

  /** The door lets in exactly the callers whose header carries a token of the door; everybody else is unauthenticated. */
  lemma McpCallerExactly(v: McpVerifier, wire: map<string, Jwt>, header: Option<string>, now: real, tenant: string)
    ensures McpCaller(v, wire, header, now) == Ok(tenant) <==> header.Some? && Carries(v, wire, header.value, now, tenant)
  {
    hide ParseBearer, Strip, Decodes, Genuine, Lower;
    if McpCaller(v, wire, header, now) == Ok(tenant) {
      NoHeaderNoToken();
      var text := ParseBearer(header).value;
      BearerExactly(header.value, text);
      var scheme, rest :| header.value == scheme + " " + rest && Lower(scheme) == "bearer" && Strip(rest) == text;
      StripBlank(rest);
      DecodesExactly(wire[text], v.secret, HS256, v.issuer, v.audience, now);
    }
    if header.Some? && Carries(v, wire, header.value, now, tenant) {
      var scheme, rest :|
        && header.value == scheme + " " + rest && Lower(scheme) == "bearer" && !Blank(rest) && Strip(rest) in wire
        && Genuine(wire[Strip(rest)], v.secret, HS256, v.issuer, v.audience, now)
        && wire[Strip(rest)].claims.tenantId == Some(tenant);
      StripBlank(rest);
      BearerYields(scheme, rest);
      DecodesExactly(wire[Strip(rest)], v.secret, HS256, v.issuer, v.audience, now);
    }
  }

  lemma NoHeaderNoToken()
    ensures ParseBearer(None).Err?
  {
  }

  lemma TruncateWhole(n: int)
    ensures Truncate(n as real) == n
  {
    if n < 0 {
      assert -(n as real) == (-n) as real;
    }
  }

  /** A minted token opens the door at time `t` exactly when its secret, issuer, audience and tenant are right,
      the minting clock is at most ten seconds ahead, and less than ten seconds have passed since it expired. */
  lemma MintedTokenOpensExactly(v: McpVerifier, wire: map<string, Jwt>, scheme: string, text: string, secret: string,
                                issuer: string, audience: string, tenant: string, ttl: int, clock: real, t: real)
    requires Lower(scheme) == "bearer" && text != "" && !Space(text[0]) && !Space(text[|text| - 1])
    requires text in wire && wire[text] == Mint(secret, issuer, audience, tenant, ttl, clock)
    ensures var m := Truncate(clock);
            McpCaller(v, wire, Some(scheme + " " + text), t) == Ok(tenant) <==>
            (&& secret == v.secret && issuer == v.issuer && audience == v.audience && tenant != ""
             && m as real <= t + 10.0 && t < (m + ttl) as real + 10.0)
    ensures McpCaller(v, wire, Some(scheme + " " + text), t).Ok? ==>
            McpCaller(v, wire, Some(scheme + " " + text), t) == Ok(tenant)
  {
    hide ParseBearer, Truncate, Lower, Blanks;
    var m := Truncate(clock);
    BearerRoundTrip(scheme, text, 0, 0);
    assert Blanks(0) + text + Blanks(0) == text;
    TruncateWhole(m);
    TruncateWhole(m + ttl);
  }

  // ---- The owner door ------------------------------------------------------------

  datatype OwnerContext = OwnerContext(tenantId: string, userId: string)

  datatype OwnerVerifier = OwnerVerifier(issuer: string, audience: string)

  /** KeysUnavailable: the key set could not be fetched or parsed; that error is no AuthenticationError. */
  datatype OwnerError = OwnerRejected | KeysUnavailable

  /** OwnerTokenVerifier.verify, given what the resolver answered for the token's kid. */
  function VerifyWith(v: OwnerVerifier, t: Jwt, answer: Answer, now: real): Result<OwnerContext, OwnerError> {
    if answer.FetchFailed? then Err(KeysUnavailable)
    else if answer.UnknownKid? then Err(OwnerRejected)
    else if !Decodes(t, answer.key, ES256, v.issuer, v.audience, now) then Err(OwnerRejected)
    else if t.claims.iat.At? && t.claims.iat.seconds > now + LEEWAY then Err(OwnerRejected)
    else if t.claims.appTenant.None? || t.claims.sub.None? then Err(OwnerRejected)
    else Ok(OwnerContext(t.claims.appTenant.value, t.claims.sub.value))
  }

  function VerifyOwner(v: OwnerVerifier, keys: Keys, r: Response, t: Jwt, now: real): Result<OwnerContext, OwnerError> {
    if t.kid.None? || t.kid.value == "" then Err(OwnerRejected)
    else VerifyWith(v, t, AnswerTo(keys, t.kid.value, r), now)
  }

  /** The key a kid stands for: the cached one, and only without one that of the response just fetched. */
  ghost predicate Bound(keys: Keys, r: Response, kid: string, key: Key) {
    if kid in keys then keys[kid] == key else Binds(r, kid, key)
  }

  /** A login is accepted exactly when it is a genuine token under ES256 and the one key its kid stands for, was not
      issued more than ten seconds ahead, and names its tenant in app_metadata and its user. No other key is tried. */
  lemma OwnerAcceptsExactly(v: OwnerVerifier, keys: Keys, r: Response, t: Jwt, now: real, tenant: string, user: string)
    ensures VerifyOwner(v, keys, r, t, now) == Ok(OwnerContext(tenant, user)) <==>
            && t.kid.Some? && t.kid.value != ""
            && (exists key :: Bound(keys, r, t.kid.value, key) && Genuine(t, key, ES256, v.issuer, v.audience, now))
            && (t.claims.iat.At? ==> t.claims.iat.seconds <= now + 10.0)
            && t.claims.appTenant == Some(tenant) && t.claims.sub == Some(user)
  {
    ParsesExactly(r);
    hide Parse, Decodes, Genuine, Binds;
    if t.kid.Some? {
      var answer := AnswerTo(keys, t.kid.value, r);
      forall key
        ensures Bound(keys, r, t.kid.value, key) <==> answer == Found(key)
        ensures Decodes(t, key, ES256, v.issuer, v.audience, now) <==> Genuine(t, key, ES256, v.issuer, v.audience, now)
      {
        DecodesExactly(t, key, ES256, v.issuer, v.audience, now);
      }
    }
  }

  /** A login that is turned away gets the keys' error exactly when its kid is not cached and the key set could not be
      fetched or had an unusable entry; every other rejection is the login's own. */
  lemma LoginErrorExactly(v: OwnerVerifier, keys: Keys, r: Response, t: Jwt, now: real)
    ensures VerifyOwner(v, keys, r, t, now) == Err(KeysUnavailable) <==>
            t.kid.Some? && t.kid.value != "" && t.kid.value !in keys && !Complete(r)
  {
    ParsesExactly(r);
    hide Parse, Decodes, Complete, Binds;
  }

  /** While the publisher only adds keys, the owner door decides every login of every run as if it fetched the
      key set each time. */
  lemma CachedLoginsAgree(v: OwnerVerifier, calls: seq<Call>, n: nat, t: Jwt, now: real)
    requires n < |calls| && OnlyAdds(calls) && t.kid == Some(calls[n].kid) && calls[n].kid != ""
    ensures VerifyOwner(v, CacheAfter(calls[..n]), calls[n].response, t, now)
            == VerifyWith(v, t, AlwaysFetch(calls[n].kid, calls[n].response), now)
  {
    CacheIsInvisible(calls, n);
  }
}
