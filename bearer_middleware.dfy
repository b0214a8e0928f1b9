/** The header guard of internal/pkg/middleware/jwt.go: the header is split
    at its first space, the first part must be exactly "Bearer", and the
    rest goes to a package-level ValidateToken of the instance-based codec's
    package. That validator is not present in the repository, so it is a
    parameter here. */
module Middleware {
  import opened Wrappers
  import opened JwtCore
  import Strs
  import TokenCodec

  const MsgMissing := "缺少认证令牌"
  const MsgBadScheme := "令牌格式错误，请使用 Bearer 格式"
  const MsgExpired := "登录已过期，请重新登录"
  const MsgInvalid := "令牌无效或已失效"

  /** The failure codes named by this guard. Only Unauthorized exists in
      internal/pkg/http/code.go; TokenInvalid and TokenExpired are kept as
      names without values. */
  datatype FailCode = Unauthorized | TokenInvalid | TokenExpired

  datatype Outcome = Fail(code: FailCode, message: string) | Next(uid: string)

  /** Index of the first space in `s`, or |s| when there is none. */
  function IndexOfSpace(s: string): (i: nat)
    ensures i <= |s|
    ensures forall k :: 0 <= k < i ==> s[k] != ' '
    ensures i < |s| ==> s[i] == ' '
  {
    if s == [] then 0
    else if s[0] == ' ' then 0
    else 1 + IndexOfSpace(s[1..])
  }

  /** strings.SplitN(s, " ", 2): one part when there is no space, otherwise
      the text before the first space and everything after it. Joining the
      parts with a space gives `s` back. */
  function SplitN2(s: string): (parts: seq<string>)
    ensures 1 <= |parts| <= 2
    ensures |parts| == 1 <==> ' ' !in s
    ensures |parts| == 1 ==> parts[0] == s
    ensures |parts| == 2 ==> parts[0] + " " + parts[1] == s && ' ' !in parts[0]
  {
    var i := IndexOfSpace(s);
    if i == |s| then [s]
    else
      assert s == s[..i] + " " + s[i + 1..];
      [s[..i], s[i + 1..]]
  }

  /** JWT(): empty header, then the scheme check, then the validator's
      outcome. Every failure but the missing header is TokenInvalid, except
      an expired token, which is TokenExpired. */
  function JWT(header: string, validate: string -> Result<Claims, TokenCodec.TokenError>): (o: Outcome)
    ensures header == "" ==> o == Fail(Unauthorized, MsgMissing)
    ensures header != "" && !Strs.HasPrefix(header, "Bearer ") ==> o == Fail(TokenInvalid, MsgBadScheme)
    ensures Strs.HasPrefix(header, "Bearer ") ==>
              var r := validate(header[7..]);
              && (r.Ok? <==> o.Next?)
              && (r.Ok? ==> o == Next(r.value.uid))
              && (r == Err(TokenCodec.ErrExpiredToken) <==> o == Fail(TokenExpired, MsgExpired))
              && (r == Err(TokenCodec.ErrInvalidToken) <==> o == Fail(TokenInvalid, MsgInvalid))
  {
    if header == "" then Fail(Unauthorized, MsgMissing)
    else
      var parts := SplitN2(header);
      SchemeCheckIsPrefix(header);
      if !(|parts| == 2 && parts[0] == "Bearer") then Fail(TokenInvalid, MsgBadScheme)
      else
        var tokenString := parts[1];
        assert tokenString == header[7..];
        match validate(tokenString)
        case Err(e) =>
          if e == TokenCodec.ErrExpiredToken then Fail(TokenExpired, MsgExpired)
          else
            assert e.ErrInvalidToken?;
            assert validate(header[7..]) == Err(TokenCodec.ErrInvalidToken);
            Fail(TokenInvalid, MsgInvalid)
        case Ok(claims) => Next(claims.uid)
  }

  /** The split-based scheme check accepts exactly the headers starting with
      "Bearer ", and the token it takes is everything after those seven
      characters, further spaces included. */
  lemma SchemeCheckIsPrefix(header: string)
    ensures var parts := SplitN2(header);
            (|parts| == 2 && parts[0] == "Bearer") <==> Strs.HasPrefix(header, "Bearer ")
    ensures var parts := SplitN2(header);
            |parts| == 2 && parts[0] == "Bearer" ==> parts[1] == header[7..]
  {
    var parts := SplitN2(header);
    if Strs.HasPrefix(header, "Bearer ") {
      assert ' ' !in header[..6];
      IndexOfSpacePrefix(header, 6);
    }
    if |parts| == 2 && parts[0] == "Bearer" {
      assert header == "Bearer" + " " + parts[1];
      assert header[..7] == "Bearer ";
    }
  }

  /** The first space of `s` is at `i` when `s[i]` is one and none is before. */
  lemma IndexOfSpacePrefix(s: string, i: nat)
    requires i < |s| && s[i] == ' ' && ' ' !in s[..i]
    ensures IndexOfSpace(s) == i
  {
    var j := IndexOfSpace(s);
    if j < i {
      assert false;
    }
  }

  /** With the instance-based codec as validator, an access token issued at
      `issued` passes throughout its lifetime; a refresh token never does. */
  lemma WithCodec(j: TokenCodec.JWT, decode: string -> Token, text: string, uid: string, issued: int, now: int)
    requires issued <= now < issued + j.accessExpire
    ensures var validate := (s: string) => TokenCodec.ParseToken(j, decode(s), TokenCodec.AccessKind, now);
            (decode(text) == TokenCodec.GenerateToken(j, uid, TokenCodec.AccessKind, j.accessExpire, issued))
              ==> JWT("Bearer " + text, validate) == Next(uid)
    ensures var validate := (s: string) => TokenCodec.ParseToken(j, decode(s), TokenCodec.AccessKind, now);
            (decode(text).Signed? && decode(text).claims.tokenType == TokenCodec.RefreshKind)
              ==> JWT("Bearer " + text, validate).Fail?
  {
    assert ("Bearer " + text)[7..] == text;
  }
}
