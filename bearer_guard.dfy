/** The header guard of internal/pkg/mw/jwt.go: an "Authorization: Bearer
    <token>" header is checked by prefix, stripped, and handed to the older
    codec's ValidateToken; the outcome decides between a failure reply and
    letting the request through with the uid. */
module Mw {
  import opened Wrappers
  import opened JwtCore
  import Strs
  import Http
  import LegacyJwt

  const BearerPrefix := "Bearer "

  const MsgMalformed := "缺少或格式错误的令牌"
  const MsgExpired := "令牌已过期"
  const MsgInvalid := "无效的令牌"

  /** A failure reply that stops the chain, or the chain continuing with
      `uid` set in the request context. */
  datatype Outcome = Abort(code: Http.Code, message: string) | Next(uid: string)

  /** JWT(): `decode` stands for the compact serialisation, mapping the
      header's token text to the token it carries. Only an access token,
      correctly signed and inside its validity window, lets the request
      through; every failure is Unauthorized, with the malformed-header,
      expired or invalid message. */
  function JWT(header: string, g: LegacyJwt.Settings, decode: string -> Token, now: int): (o: Outcome)
    ensures !Strs.HasPrefix(header, BearerPrefix) ==> o == Abort(Http.Unauthorized, MsgMalformed)
    ensures o.Abort? ==> o.code == Http.Unauthorized
    ensures o.Next? <==>
              && Strs.HasPrefix(header, BearerPrefix)
              && var t := decode(header[|BearerPrefix|..]);
                 SignatureValid(g.jwtSecret, t) && !Expired(t.claims, now) && !NotYetValid(t.claims, now)
                 && t.claims.tokenType == "access"
    ensures o.Next? ==> o.uid == decode(header[|BearerPrefix|..]).claims.uid
    ensures o == Abort(Http.Unauthorized, MsgExpired) <==>
              && Strs.HasPrefix(header, BearerPrefix)
              && var t := decode(header[|BearerPrefix|..]);
                 SignatureValid(g.jwtSecret, t) && Expired(t.claims, now)
    ensures Strs.HasPrefix(header, BearerPrefix) && o.Abort? ==> o.message == MsgExpired || o.message == MsgInvalid
  {
    if header == "" || !Strs.HasPrefix(header, BearerPrefix) then Abort(Http.Unauthorized, MsgMalformed)
    else
      var tokenString := header[7..];
      match LegacyJwt.ValidateToken(g, decode(tokenString), now)
      case Err(e) =>
        if e == LegacyJwt.ErrExpiredToken then Abort(Http.Unauthorized, MsgExpired)
        else Abort(Http.Unauthorized, MsgInvalid)
      case Ok(claims) => Next(claims.uid)
  }

  /** The token handed on is the header with exactly "Bearer " removed. */
  lemma StripsExactlyThePrefix(text: string)
    ensures Strs.HasPrefix(BearerPrefix + text, BearerPrefix)
    ensures (BearerPrefix + text)[|BearerPrefix|..] == text
  {
  }

  /** An access token issued with the current settings passes throughout
      its lifetime and yields its uid. */
  lemma FreshAccessTokenPasses(g: LegacyJwt.Settings, decode: string -> Token, text: string, uid: string, issued: int, now: int)
    requires decode(text) == LegacyJwt.GenerateAccessToken(g, uid, issued)
    requires issued <= now < issued + g.accessTokenExpire
    ensures JWT(BearerPrefix + text, g, decode, now) == Next(uid)
  {
    StripsExactlyThePrefix(text);
  }

  /** A refresh token in the header is invalid while it is live, and
      expired once its lifetime is over; it never passes. */
  lemma RefreshTokenRejected(g: LegacyJwt.Settings, decode: string -> Token, text: string, uid: string, issued: int, now: int)
    requires decode(text) == LegacyJwt.GenerateRefreshToken(g, uid, issued)
    requires issued <= now
    ensures now < issued + g.refreshTokenExpire ==> JWT(BearerPrefix + text, g, decode, now) == Abort(Http.Unauthorized, MsgInvalid)
    ensures JWT(BearerPrefix + text, g, decode, now).Abort?
  {
    StripsExactlyThePrefix(text);
  }

  /** The prefix is case-sensitive and needs its space: "bearer x" and
      "Bearerx" are malformed whatever follows. */
  lemma PrefixIsExact(g: LegacyJwt.Settings, decode: string -> Token, text: string, now: int)
    ensures JWT("bearer " + text, g, decode, now) == Abort(Http.Unauthorized, MsgMalformed)
    ensures JWT("Bearer", g, decode, now) == Abort(Http.Unauthorized, MsgMalformed)
  {
    assert ("bearer " + text)[0] == 'b';
  }
}
