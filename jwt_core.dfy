/** The signed bearer-token format that both codec packages share, and the
    behaviour of the golang-jwt (v5) calls they make: HS256 signing
    (RFC 7518 section 3.2) and ParseWithClaims with the default validator
    (RFC 7519 sections 4.1.4 and 4.1.5, zero leeway). */
module JwtCore {
  import opened Wrappers

  /** The claim set both packages issue: the private claims `uid` and
      `token_type` and the registered claims `iss`, `iat`, `nbf`, `exp`
      (RFC 7519 sections 4.1.1 and 4.1.4 to 4.1.6); times are Unix seconds. */
  datatype Claims = Claims(
    uid: string,
    tokenType: string,
    issuer: string,
    issuedAt: int,
    notBefore: int,
    expiresAt: int)

  /** HMAC-SHA256 as an ideal MAC: the tag determines the key and the claims
      it was computed over, so no two (key, claims) pairs share a tag. */
  datatype Mac = Hs256(key: string, over: Claims)

  function Sign(secret: string, claims: Claims): Mac {
    Hs256(secret, claims)
  }

  /** A bearer token as the verifier sees it: a compact string that decodes
      into claims and a tag, or one that does not decode at all. A token is
      identified with its decoded value. */
  datatype Token = Signed(claims: Claims, mac: Mac) | Malformed(text: string)

  /** The token carries a tag computed with `secret` over its own claims. */
  predicate SignatureValid(secret: string, t: Token) {
    t.Signed? && t.mac == Sign(secret, t.claims)
  }

  /** jwt.NewWithClaims(jwt.SigningMethodHS256, claims).SignedString(secret) */
  function SignedString(secret: string, claims: Claims): (t: Token)
    ensures t.Signed? && t.claims == claims && SignatureValid(secret, t)
  {
    Signed(claims, Sign(secret, claims))
  }

  /** The "exp" check fails unless `now` is strictly before the expiry. */
  predicate Expired(c: Claims, now: int) {
    !(now < c.expiresAt)
  }

  /** The "nbf" check fails while `now` is before the not-before time. */
  predicate NotYetValid(c: Claims, now: int) {
    now < c.notBefore
  }

  /** The library errors the codecs distinguish. */
  datatype LibError =
    | ErrTokenMalformed
    | ErrTokenSignatureInvalid
    | ErrTokenExpired
    | ErrTokenNotValidYet

  /** jwt.ParseWithClaims with a key function that always returns `secret`:
      the signature is verified before any claim, and an expired token is
      reported as expired even when it is also not yet valid. */
  function ParseWithClaims(secret: string, t: Token, now: int): (r: Result<Claims, LibError>)
    ensures r.Ok? <==> SignatureValid(secret, t) && !Expired(t.claims, now) && !NotYetValid(t.claims, now)
    ensures r.Ok? ==> r.value == t.claims
    ensures r == Err(ErrTokenExpired) <==> SignatureValid(secret, t) && Expired(t.claims, now)
  {
    match t
    case Malformed(_) => Err(ErrTokenMalformed)
    case Signed(c, m) =>
      if m != Sign(secret, c) then Err(ErrTokenSignatureInvalid)
      else if Expired(c, now) then Err(ErrTokenExpired)
      else if NotYetValid(c, now) then Err(ErrTokenNotValidYet)
      else Ok(c)
  }

  /** An access token, a refresh token and the access token's expiry in Unix
      seconds, as both packages return them. */
  datatype TokenPair = TokenPair(accessToken: Token, refreshToken: Token, expiresAt: int)
}
