/** Bearer-token issuance and verification: an access token carrying the
    full claims and a refresh token carrying only the subject, both signed
    with one shared HMAC secret. Signing and the compact-token decoding are
    oracles; the signing-method check and the time validation are modelled. */
module Jwt {
  import opened Common

  /** utils.Claims with the registered claims the service sets or checks. */
  datatype Claims = Claims(
    userId: int, email: string, role: string, uuid: string, kind: string,
    issuedAt: Option<int>, expiresAt: Option<int>, notBefore: Option<int>)

  datatype Alg =
    | HS256 | HS384 | HS512
    | RS256 | RS384 | RS512 | PS256 | PS384 | PS512
    | ES256 | ES384 | ES512 | EdDSA | NoneAlg

  /** `t.Method.(*jwt.SigningMethodHMAC)` */
  predicate IsHmac(a: Alg)
  {
    a == HS256 || a == HS384 || a == HS512
  }

  /** TTLs come from configuration (access e.g. 1h, refresh e.g. 168h). */
  datatype Service = Service(accessTTL: int, refreshTTL: int)

  /** jwt.NewNumericDate: the instant truncated to whole seconds. */
  function NumericDate(t: int): (d: int)
    ensures d <= t < d + Second
    ensures d % Second == 0
  {
    t - t % Second
  }

  /** The access claims: every identity field of the seed, kind "access". */
  function AccessClaims(seed: Claims, now: int, ttl: int): (a: Claims)
    ensures a.userId == seed.userId && a.email == seed.email
    ensures a.role == seed.role && a.uuid == seed.uuid
    ensures a.kind == "access"
    ensures a.issuedAt == Some(NumericDate(now)) && a.expiresAt == Some(NumericDate(now + ttl))
    ensures a.notBefore == None
  {
    Claims(seed.userId, seed.email, seed.role, seed.uuid, "access",
           Some(NumericDate(now)), Some(NumericDate(now + ttl)), None)
  }

  /** The refresh claims: subject id and external id only, kind "refresh". */
  function RefreshClaims(seed: Claims, now: int, ttl: int): (r: Claims)
    ensures r.userId == seed.userId && r.uuid == seed.uuid
    ensures r.email == "" && r.role == ""
    ensures r.kind == "refresh"
    ensures r.issuedAt == Some(NumericDate(now)) && r.expiresAt == Some(NumericDate(now + ttl))
    ensures r.notBefore == None
  {
    Claims(seed.userId, "", "", seed.uuid, "refresh",
           Some(NumericDate(now)), Some(NumericDate(now + ttl)), None)
  }

  /** The named results (accessToken, refreshToken, err). */
  datatype Tokens = Tokens(access: string, refresh: string, err: Option<Error>)

  /** SignedString: an HS256 signature oracle; a failed signing yields "". */
  function Signed(sign: Claims -> Result<string>, c: Claims): string
  {
    if sign(c).Ok? then sign(c).value else ""
  }

  /** Service.Generate: both tokens are stamped with one `now`; the refresh
      token is only produced once the access token is signed. */
  function Generate(svc: Service, seed: Claims, now: int, sign: Claims -> Result<string>): (t: Tokens)
    ensures sign(AccessClaims(seed, now, svc.accessTTL)).Err? ==>
              t == Tokens("", "", Some(sign(AccessClaims(seed, now, svc.accessTTL)).error))
    ensures sign(AccessClaims(seed, now, svc.accessTTL)).Ok? ==>
              t.access == sign(AccessClaims(seed, now, svc.accessTTL)).value
    ensures t.err.None? <==> sign(AccessClaims(seed, now, svc.accessTTL)).Ok?
                             && sign(RefreshClaims(seed, now, svc.refreshTTL)).Ok?
    ensures t.err.None? ==> t.refresh == sign(RefreshClaims(seed, now, svc.refreshTTL)).value
  {
    var a := sign(AccessClaims(seed, now, svc.accessTTL));
    if a.Err? then Tokens("", "", Some(a.error))
    else
      var r := sign(RefreshClaims(seed, now, svc.refreshTTL));
      Tokens(a.value, Signed(sign, RefreshClaims(seed, now, svc.refreshTTL)),
             if r.Err? then Some(r.error) else None)
  }

  /** What the compact-token decoder recovers: header algorithm, claims, and
      whether the signature verifies under the shared secret. */
  datatype Decoded = Decoded(alg: Alg, claims: Claims, signatureValid: bool)

  datatype ParseError = Malformed | UnexpectedSigningMethod | SignatureInvalid | Expired | NotValidYet

  function ParseErrorText(e: ParseError): Error
  {
    match e
    case Malformed => Text("token is malformed")
    case UnexpectedSigningMethod =>
      Text("token is unverifiable: error while executing keyfunc: unexpected signing method")
    case SignatureInvalid => Text("token signature is invalid")
    case Expired => Text("token has invalid claims: token is expired")
    case NotValidYet => Text("token has invalid claims: token is not valid yet")
  }

  /** The default claims validation: `exp` must lie strictly after `now`,
      `nbf` (when present) at or before it; `iat` is not checked. */
  function ValidateClaims(c: Claims, now: int): (e: Option<ParseError>)
    ensures e.None? <==> (c.expiresAt.None? || now < c.expiresAt.value)
                         && (c.notBefore.None? || c.notBefore.value <= now)
  {
    if c.expiresAt.Some? && !(now < c.expiresAt.value) then Some(Expired)
    else if c.notBefore.Some? && now < c.notBefore.value then Some(NotValidYet)
    else None
  }

  /** The library's verdict: the error it reports and `token.Valid`. */
  datatype Verdict = Verdict(err: Option<ParseError>, valid: bool, claims: Claims)

  const NoClaims: Claims := Claims(0, "", "", "", "", None, None, None)

  /** jwt.ParseWithClaims with the service's key function: decode, reject a
      non-HMAC method in the key function, verify the signature, validate
      the time claims; the token is valid exactly when nothing failed. */
  function ParseWithClaims(token: string, decode: string -> Option<Decoded>, now: int): (v: Verdict)
    ensures v.valid <==> v.err.None?
  {
    match decode(token)
    case None => Verdict(Some(Malformed), false, NoClaims)
    case Some(d) =>
      if !IsHmac(d.alg) then Verdict(Some(UnexpectedSigningMethod), false, d.claims)
      else if !d.signatureValid then Verdict(Some(SignatureInvalid), false, d.claims)
      else
        var e := ValidateClaims(d.claims, now);
        Verdict(e, e.None?, d.claims)
  }

  /** Service.Parse: claims only from an error-free, valid token. */
  function Parse(token: string, decode: string -> Option<Decoded>, now: int): (r: Result<Claims>)
    ensures r.Ok? <==> decode(token).Some? && IsHmac(decode(token).value.alg)
                       && decode(token).value.signatureValid
                       && ValidateClaims(decode(token).value.claims, now).None?
    ensures r.Ok? ==> r.value == decode(token).value.claims
  {
    var v := ParseWithClaims(token, decode, now);
    if v.err.Some? then Err(ParseErrorText(v.err.value))
    else if v.valid then Ok(v.claims)
    else Err(Text("invalid token"))
  }

  /** A token whose header names any non-HMAC algorithm is refused, even
      with a valid signature and live claims (no algorithm confusion). */
  lemma RejectsNonHmac(token: string, decode: string -> Option<Decoded>, now: int)
    requires decode(token).Some? && !IsHmac(decode(token).value.alg)
    ensures Parse(token, decode, now) == Err(ParseErrorText(UnexpectedSigningMethod))
  {
  }

  /** The signing oracle and the decoder agree: a token signed for some
      claims decodes as an HS256 token with those claims and a valid
      signature. */
  ghost predicate Coherent(sign: Claims -> Result<string>, decode: string -> Option<Decoded>)
  {
    forall c :: sign(c).Ok? ==> decode(sign(c).value) == Some(Decoded(HS256, c, true))
  }

  /** Issue-then-verify: before the access expiry the access token yields
      the seed's identity with kind "access"; between the access and the
      refresh expiry the access token is refused as expired while the
      refresh token still verifies with kind "refresh". */
  lemma GenerateThenParse(svc: Service, seed: Claims, now: int, t: int,
                          sign: Claims -> Result<string>, decode: string -> Option<Decoded>)
    requires Coherent(sign, decode)
    requires Generate(svc, seed, now, sign).err.None?
    requires now <= t
    ensures var toks := Generate(svc, seed, now, sign);
      var pa := Parse(toks.access, decode, t);
      && (t < NumericDate(now + svc.accessTTL) ==>
            pa.Ok? && pa.value.kind == "access" && pa.value.userId == seed.userId
            && pa.value.email == seed.email && pa.value.role == seed.role && pa.value.uuid == seed.uuid)
      && (NumericDate(now + svc.accessTTL) <= t ==>
            pa == Err(ParseErrorText(Expired)))
    ensures var toks := Generate(svc, seed, now, sign);
      var pr := Parse(toks.refresh, decode, t);
      t < NumericDate(now + svc.refreshTTL) ==>
        pr.Ok? && pr.value.kind == "refresh" && pr.value.userId == seed.userId && pr.value.uuid == seed.uuid
  {
    var ac := AccessClaims(seed, now, svc.accessTTL);
    var rc := RefreshClaims(seed, now, svc.refreshTTL);
    assert decode(sign(ac).value) == Some(Decoded(HS256, ac, true));
    assert decode(sign(rc).value) == Some(Decoded(HS256, rc, true));
  }
}
