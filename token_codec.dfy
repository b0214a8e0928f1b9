/** The instance-based token codec of internal/pkg/jwt/jwt.go: a value
    holding the secret, the issuer and the two lifetimes, which issues
    access and refresh tokens and parses them back into claims. */
module TokenCodec {
  import opened Wrappers
  import opened JwtCore

  const AccessKind := "access"
  const RefreshKind := "refresh"

  /** The only two errors ParseToken reports. */
  datatype TokenError = ErrInvalidToken | ErrExpiredToken {
    function Error(): string {
      match this
      case ErrInvalidToken => "无效令牌"
      case ErrExpiredToken => "令牌过期"
    }
  }

  /** The JWT engine; its fields are set once by New and only read later.
      Lifetimes are whole seconds and may be zero or negative. */
  datatype JWT = JWT(secret: string, issuer: string, accessExpire: int, refreshExpire: int) {
    function GetAccessExpire(): int { accessExpire }
    function GetRefreshExpire(): int { refreshExpire }
  }

  /** New keeps the secret and issuer and reports back exactly the two
      lifetimes it was given. */
  function New(secret: string, issuer: string, accessExpire: int, refreshExpire: int): (j: JWT)
    ensures j.secret == secret && j.issuer == issuer
    ensures j.GetAccessExpire() == accessExpire && j.GetRefreshExpire() == refreshExpire
  {
    JWT(secret, issuer, accessExpire, refreshExpire)
  }

  /** GenerateToken and generateToken: a token signed with the instance's
      secret, issued, valid from and expiring `expireDuration` after `now`.
      HS256 signing with a byte-slice key cannot fail, so there is no error. */
  function GenerateToken(j: JWT, uid: string, tokenType: string, expireDuration: int, now: int): (t: Token)
    ensures SignatureValid(j.secret, t)
    ensures t.claims.uid == uid && t.claims.tokenType == tokenType && t.claims.issuer == j.issuer
    ensures t.claims.issuedAt == now && t.claims.notBefore == now
    ensures t.claims.expiresAt == now + expireDuration
  {
    SignedString(j.secret, Claims(uid, tokenType, j.issuer, now, now, now + expireDuration))
  }

  /** GenerateTokenPair: an access token with the access lifetime, a refresh
      token with the refresh lifetime, and the access token's expiry. */
  function GenerateTokenPair(j: JWT, uid: string, now: int): (p: TokenPair)
    ensures p.accessToken == GenerateToken(j, uid, AccessKind, j.accessExpire, now)
    ensures p.refreshToken == GenerateToken(j, uid, RefreshKind, j.refreshExpire, now)
    ensures p.expiresAt == now + j.accessExpire == p.accessToken.claims.expiresAt
  {
    TokenPair(
      GenerateToken(j, uid, AccessKind, j.accessExpire, now),
      GenerateToken(j, uid, RefreshKind, j.refreshExpire, now),
      now + j.accessExpire)
  }

  /** The token is acceptable to ParseToken with this expected kind at `now`. */
  predicate Accepts(j: JWT, t: Token, tokenType: string, now: int) {
    && SignatureValid(j.secret, t)
    && !Expired(t.claims, now)
    && !NotYetValid(t.claims, now)
    && (tokenType == "" || t.claims.tokenType == tokenType)
  }

  /** ParseToken: the token's own claims when it is correctly signed, within
      its validity window and (for a non-empty expected kind) of that kind;
      ErrExpiredToken exactly for a correctly signed expired token;
      ErrInvalidToken for everything else. The issuer is never checked. */
  function ParseToken(j: JWT, t: Token, tokenType: string, now: int): (r: Result<Claims, TokenError>)
    ensures r.Ok? <==> Accepts(j, t, tokenType, now)
    ensures r.Ok? ==> r.value == t.claims
    ensures r == Err(ErrExpiredToken) <==> SignatureValid(j.secret, t) && Expired(t.claims, now)
    ensures r.Err? && r != Err(ErrExpiredToken) ==> r == Err(ErrInvalidToken)
  {
    match ParseWithClaims(j.secret, t, now)
    case Err(e) => if e == ErrTokenExpired then Err(ErrExpiredToken) else Err(ErrInvalidToken)
    case Ok(c) => if tokenType != "" && c.tokenType != tokenType then Err(ErrInvalidToken) else Ok(c)
  }

  /** Round trip: a token this instance issued, parsed with the same kind at
      any moment from its issue time up to (not including) its expiry, gives
      back the uid and kind it was issued for. */
  lemma RoundTrip(j: JWT, uid: string, tokenType: string, d: int, issued: int, now: int)
    requires issued <= now < issued + d
    ensures var r := ParseToken(j, GenerateToken(j, uid, tokenType, d, issued), tokenType, now);
            r.Ok? && r.value.uid == uid && r.value.tokenType == tokenType
  {
  }

  /** Kind isolation: with a non-empty expected kind other than the token's
      own, ParseToken never succeeds; it reports ErrInvalidToken unless the
      token is a correctly signed expired one. */
  lemma KindMismatchRejected(j: JWT, t: Token, tokenType: string, now: int)
    requires t.Signed? && tokenType != "" && t.claims.tokenType != tokenType
    ensures ParseToken(j, t, tokenType, now).Err?
    ensures !Expired(t.claims, now) ==> ParseToken(j, t, tokenType, now) == Err(ErrInvalidToken)
  {
  }

  /** An access token is never accepted where a refresh token is expected,
      and the other way round. */
  lemma AccessAndRefreshAreNotInterchangeable(j: JWT, uid: string, d: int, issued: int, now: int)
    ensures ParseToken(j, GenerateToken(j, uid, AccessKind, d, issued), RefreshKind, now).Err?
    ensures ParseToken(j, GenerateToken(j, uid, RefreshKind, d, issued), AccessKind, now).Err?
  {
  }

  /** With an empty expected kind the kind claim is not looked at. */
  lemma EmptyKindAcceptsAnyKind(j: JWT, t: Token, now: int)
    ensures ParseToken(j, t, "", now).Ok? <==> ParseWithClaims(j.secret, t, now).Ok?
  {
  }

  /** A token signed with any other secret is invalid, never expired. */
  lemma OtherSecretInvalid(j: JWT, secret: string, t: Token, kind: string, now: int)
    requires SignatureValid(secret, t) && secret != j.secret
    ensures ParseToken(j, t, kind, now) == Err(ErrInvalidToken)
  {
  }

  /** A token issued with a non-positive lifetime is reported as expired at
      any moment from its issue time on, whatever kind is expected. */
  lemma NonPositiveLifetimeExpired(j: JWT, uid: string, tokenType: string, d: int, issued: int, now: int, kind: string)
    requires d <= 0 && issued <= now
    ensures ParseToken(j, GenerateToken(j, uid, tokenType, d, issued), kind, now) == Err(ErrExpiredToken)
  {
  }

  /** The issuer claim is not checked: a token signed with this instance's
      secret but naming another issuer is accepted like any other. */
  lemma IssuerNotChecked(j: JWT, c: Claims, now: int)
    requires c.issuer != j.issuer
    requires c.notBefore <= now < c.expiresAt
    ensures ParseToken(j, SignedString(j.secret, c), "", now) == Ok(c)
  {
  }
}
