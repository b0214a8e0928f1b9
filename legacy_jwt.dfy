/** The older codec of internal/pkg/util/jwt.go, whose secret and lifetimes
    are package-level variables. The variables are the fields of `Globals`;
    every generate and parse function is pure given a snapshot of them. */
module LegacyJwt {
  import opened Wrappers
  import opened JwtCore

  const DefaultSecret := "your-secret-key"
  /** Two hours and seven days, in seconds. */
  const DefaultAccessTokenExpire := 2 * 3600
  const DefaultRefreshTokenExpire := 7 * 24 * 3600

  datatype TokenError = ErrInvalidToken | ErrExpiredToken {
    function Error(): string {
      match this
      case ErrInvalidToken => "invalid token"
      case ErrExpiredToken => "token has expired"
    }
  }

  /** The values of jwtSecret, AccessTokenExpire and RefreshTokenExpire at
      the moment of a call. */
  datatype Settings = Settings(jwtSecret: string, accessTokenExpire: int, refreshTokenExpire: int)

  /** The package-level variables and the two setters that change them. */
  class Globals {
    var jwtSecret: string
    var accessTokenExpire: int
    var refreshTokenExpire: int

    /** The values the package starts with. */
    constructor ()
      ensures Current() == Settings(DefaultSecret, DefaultAccessTokenExpire, DefaultRefreshTokenExpire)
      ensures accessTokenExpire == 7200 && refreshTokenExpire == 604800
    {
      jwtSecret := DefaultSecret;
      accessTokenExpire := DefaultAccessTokenExpire;
      refreshTokenExpire := DefaultRefreshTokenExpire;
    }

    function Current(): Settings
      reads this
    {
      Settings(jwtSecret, accessTokenExpire, refreshTokenExpire)
    }

    /** SetJWTSecret replaces the secret and nothing else. */
    method SetJWTSecret(secret: string)
      modifies this
      ensures Current() == old(Current()).(jwtSecret := secret)
    {
      jwtSecret := secret;
    }

    /** SetTokenExpire replaces both lifetimes and keeps the secret. */
    method SetTokenExpire(accessExpire: int, refreshExpire: int)
      modifies this
      ensures Current() == old(Current()).(accessTokenExpire := accessExpire, refreshTokenExpire := refreshExpire)
    {
      accessTokenExpire := accessExpire;
      refreshTokenExpire := refreshExpire;
    }
  }

  /** generateToken: signed with the current secret; this package sets no
      issuer, so the issuer claim is empty. */
  function GenerateToken(g: Settings, uid: string, tokenType: string, expireDuration: int, now: int): (t: Token)
    ensures SignatureValid(g.jwtSecret, t)
    ensures t.claims == Claims(uid, tokenType, "", now, now, now + expireDuration)
  {
    SignedString(g.jwtSecret, Claims(uid, tokenType, "", now, now, now + expireDuration))
  }

  /** GenerateAccessToken: kind "access" with the current access lifetime. */
  function GenerateAccessToken(g: Settings, uid: string, now: int): (t: Token)
    ensures SignatureValid(g.jwtSecret, t) && t.claims.uid == uid && t.claims.tokenType == "access"
    ensures t.claims.expiresAt == now + g.accessTokenExpire
  {
    GenerateToken(g, uid, "access", g.accessTokenExpire, now)
  }

  /** GenerateRefreshToken: kind "refresh" with the current refresh lifetime. */
  function GenerateRefreshToken(g: Settings, uid: string, now: int): (t: Token)
    ensures SignatureValid(g.jwtSecret, t) && t.claims.uid == uid && t.claims.tokenType == "refresh"
    ensures t.claims.expiresAt == now + g.refreshTokenExpire
  {
    GenerateToken(g, uid, "refresh", g.refreshTokenExpire, now)
  }

  /** GenerateTokenPair: one of each, and the access token's expiry. */
  function GenerateTokenPair(g: Settings, uid: string, now: int): (p: TokenPair)
    ensures p.accessToken == GenerateAccessToken(g, uid, now)
    ensures p.refreshToken == GenerateRefreshToken(g, uid, now)
    ensures p.expiresAt == p.accessToken.claims.expiresAt
  {
    TokenPair(GenerateAccessToken(g, uid, now), GenerateRefreshToken(g, uid, now), now + g.accessTokenExpire)
  }

  /** ParseToken: library expiry becomes ErrExpiredToken, every other
      library failure ErrInvalidToken; no kind is checked. */
  function ParseToken(g: Settings, t: Token, now: int): (r: Result<Claims, TokenError>)
    ensures r.Ok? <==> SignatureValid(g.jwtSecret, t) && !Expired(t.claims, now) && !NotYetValid(t.claims, now)
    ensures r.Ok? ==> r.value == t.claims
    ensures r == Err(ErrExpiredToken) <==> SignatureValid(g.jwtSecret, t) && Expired(t.claims, now)
    ensures r.Err? && r != Err(ErrExpiredToken) ==> r == Err(ErrInvalidToken)
  {
    match ParseWithClaims(g.jwtSecret, t, now)
    case Err(e) => if e == ErrTokenExpired then Err(ErrExpiredToken) else Err(ErrInvalidToken)
    case Ok(c) => Ok(c)
  }

  /** ParseToken followed by a check that the kind is `kind`. */
  function ParseOfKind(g: Settings, t: Token, now: int, kind: string): Result<Claims, TokenError> {
    match ParseToken(g, t, now)
    case Err(e) => Err(e)
    case Ok(c) => if c.tokenType != kind then Err(ErrInvalidToken) else Ok(c)
  }

  /** ParseAccessToken: ParseToken, and then any kind but "access" is invalid. */
  function ParseAccessToken(g: Settings, t: Token, now: int): (r: Result<Claims, TokenError>)
    ensures r.Ok? <==> ParseToken(g, t, now).Ok? && t.claims.tokenType == "access"
    ensures r.Ok? ==> r == ParseToken(g, t, now)
    ensures ParseToken(g, t, now).Err? ==> r == ParseToken(g, t, now)
    ensures ParseToken(g, t, now).Ok? && t.claims.tokenType != "access" ==> r == Err(ErrInvalidToken)
  {
    ParseOfKind(g, t, now, "access")
  }

  /** ParseRefreshToken: ParseToken, and then any kind but "refresh" is invalid. */
  function ParseRefreshToken(g: Settings, t: Token, now: int): (r: Result<Claims, TokenError>)
    ensures r.Ok? <==> ParseToken(g, t, now).Ok? && t.claims.tokenType == "refresh"
    ensures r.Ok? ==> r == ParseToken(g, t, now)
    ensures ParseToken(g, t, now).Err? ==> r == ParseToken(g, t, now)
    ensures ParseToken(g, t, now).Ok? && t.claims.tokenType != "refresh" ==> r == Err(ErrInvalidToken)
  {
    ParseOfKind(g, t, now, "refresh")
  }

  /** ValidateToken, the guard's validator, is ParseAccessToken. */
  function ValidateToken(g: Settings, t: Token, now: int): (r: Result<Claims, TokenError>)
    ensures r == ParseAccessToken(g, t, now)
  {
    ParseAccessToken(g, t, now)
  }

  /** RefreshAccessToken: on a valid refresh token, a brand-new pair for the
      same uid with both lifetimes in full; the refresh token's own error
      otherwise. */
  function RefreshAccessToken(g: Settings, t: Token, now: int): (r: Result<TokenPair, TokenError>)
    ensures r.Ok? <==> ParseRefreshToken(g, t, now).Ok?
    ensures r.Ok? ==> r.value == GenerateTokenPair(g, t.claims.uid, now)
    ensures r.Err? ==> r.error == ParseRefreshToken(g, t, now).error
  {
    match ParseRefreshToken(g, t, now)
    case Err(e) => Err(e)
    case Ok(c) => Ok(GenerateTokenPair(g, c.uid, now))
  }

  /** A correctly signed, unexpired refresh token is rejected as invalid by
      ParseAccessToken, and an access token likewise by ParseRefreshToken. */
  lemma KindsAreIsolated(g: Settings, t: Token, now: int)
    requires SignatureValid(g.jwtSecret, t) && !Expired(t.claims, now)
    ensures t.claims.tokenType == "refresh" ==> ParseAccessToken(g, t, now) == Err(ErrInvalidToken)
    ensures t.claims.tokenType == "access" ==> ParseRefreshToken(g, t, now) == Err(ErrInvalidToken)
  {
  }

  /** No absolute ceiling here: the refresh token RefreshAccessToken hands
      out always lives the full refresh lifetime from `now`, so it outlives
      the presented one whenever that one had less left. */
  lemma RefreshAccessTokenExtendsSession(g: Settings, t: Token, now: int)
    requires RefreshAccessToken(g, t, now).Ok?
    ensures RefreshAccessToken(g, t, now).value.refreshToken.claims.expiresAt == now + g.refreshTokenExpire
    ensures t.claims.expiresAt - now < g.refreshTokenExpire ==>
              RefreshAccessToken(g, t, now).value.refreshToken.claims.expiresAt > t.claims.expiresAt
  {
  }

  /** After SetJWTSecret with a new secret, every token signed under the
      previous secret parses as ErrInvalidToken, expired or not. */
  lemma SecretChangeInvalidatesOldTokens(g: Settings, secret: string, t: Token, now: int)
    requires SignatureValid(g.jwtSecret, t) && secret != g.jwtSecret
    ensures ParseToken(g.(jwtSecret := secret), t, now) == Err(ErrInvalidToken)
  {
  }

  /** After SetTokenExpire, tokens generated later carry the new lifetimes,
      and tokens generated earlier are still accepted exactly as before. */
  lemma LifetimeChangeAppliesToLaterTokens(g: Settings, a: int, r: int, uid: string, now: int, t: Token, later: int)
    ensures var g' := g.(accessTokenExpire := a, refreshTokenExpire := r);
            && GenerateAccessToken(g', uid, now).claims.expiresAt == now + a
            && GenerateRefreshToken(g', uid, now).claims.expiresAt == now + r
            && ParseToken(g', t, later) == ParseToken(g, t, later)
  {
  }
}
