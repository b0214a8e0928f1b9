# Admin backend authentication and user management, modelled in Dafny

This project models the decision logic of a Go (gin) admin backend and of
the authentication store in its React front end. It covers:

- **Token codecs.** `internal/pkg/jwt/jwt.go` is an instance holding a
  secret, an issuer and two lifetimes. `internal/pkg/util/jwt.go` is an
  older codec whose secret and lifetimes are package-level variables.
  Both issue HS256 tokens with the claims `uid`, `token_type`, `iss`,
  `iat`, `nbf` and `exp`. Both parse a token back into claims, mapping the
  library's failures to "invalid" or "expired".
- **Dual-token session protocol** (`iam/auth/service.go`). These are
  login, register, refresh and logout, over an account repository and a
  session store that holds one refresh token per uid. Refresh accepts only
  the stored token. It reissues a refresh token that inherits the
  remaining lifetime, so the session has a fixed ceiling. Logout deletes
  the slot only for the stored token.
- **Two bearer-header guards** (`mw/jwt.go` and `middleware/jwt.go`).
  They read `Authorization: Bearer <token>` (RFC 6750 section 2.1, with a
  case-sensitive scheme) and map the validator's outcome to failure
  replies.
- **Small pure helpers.**
  - Page and size clamping, and the page offset.
  - The business-code message table and the response envelopes.
  - The role whitelist.
  - The refresh-token cookie's attributes. Removal uses Max-Age -1
    (RFC 6265 section 5.2.2).
  - The database and Redis configuration providers.
- **User management** (`user/service.go`, `user/handler.go`).
  - Validation order.
  - Construction of the partial-update map.
  - The "no write when nothing is supplied" rule.
  - Mapping errors to HTTP statuses, checked against an abstract
    repository and service.
- **Front-end auth store** (`stores/auth.ts`): three fields and five
  actions.

The model is shaped as follows:

- **Cryptography and the token library.**
  - HMAC-SHA256 is an ideal MAC: `JwtCore.Mac` records the key and the
    claims it covers.
  - golang-jwt's `ParseWithClaims` is stated in Dafny (`JwtCore.ParseWithClaims`).
    Signature first, then `exp`, then `nbf`, with no leeway.
  - A token is a datatype value, not its compact string. The
    bearer-header guards take a `decode` function from header text to
    token.
- **bcrypt** (`Bcrypt`) keeps what decides whether a password matches:
  - The key schedule reads exactly 72 key bytes: the password's UTF-8
    bytes and a NUL byte, repeated and cut at 72.
  - The digest is idealised as those key bytes, so two passwords match the
    same hash exactly when their keys agree.
  - GenerateFromPassword refuses more than 72 bytes; the comparison has no
    length check. A 72-byte password therefore also matches every
    extension of itself.
  - The salt is a parameter.
- **The clock.** Each flow reads the clock once, as a `now` parameter in
  Unix seconds. Durations are whole seconds.
- **Persistence.**
  - The account table and the session store are `map` fields of the
    class `Auth.Service`.
  - A Redis TTL is kept as an absolute expiry.
  - An infrastructure failure of any collaborator call is chosen by a
    `Faults` parameter.
  - The user repository is a datatype of functions, one per interface
    method.
  - Each user-service flow returns an `Outcome`: the ordered queries it
    made, its one write (if any) and its error.
- **The uuid generator** becomes a `uid` parameter.
- **Imperative code stays imperative.**
  - The auth service is a class whose flow methods modify its maps. Each
    method is proved equal to a pure step function, and the lemmas in
    `AuthLaws` are about those step functions.
  - The package-level variables of the older codec are the fields of
    `LegacyJwt.Globals`, changed by its two setters.
  - `UserService.List` builds its rows in a loop.
  - `UserService.Update` fills its update map field by field.
  - The front-end store is the class `AuthStore.Store`. Its five methods
    are proved against the transition function `AuthStore.Apply`.

Where the two agree no less than the source text allows, the model
follows the code. The points where the code does something other than its
comments or neighbours suggest are listed under "## Findings" and
"## Left out".

## Model

| member | source | states |
|---|---|---|
| JwtCore.SignedString | backend/admin-gin/internal/pkg/jwt/jwt.go:122 | signing yields a token that carries exactly the given claims and a valid tag for the secret |
| JwtCore.ParseWithClaims | backend/admin-gin/internal/pkg/jwt/jwt.go:84-86 | success exactly for a token correctly signed with the secret, not expired and not before nbf, giving its own claims; "expired" exactly for a correctly signed expired token |
| TokenCodec.New | backend/admin-gin/internal/pkg/jwt/jwt.go:38-55 | the instance keeps secret and issuer, and GetAccessExpire/GetRefreshExpire report exactly the lifetimes given |
| TokenCodec.GenerateToken | backend/admin-gin/internal/pkg/jwt/jwt.go:109-123 | the token is validly signed with the instance's secret; uid, kind and issuer are the inputs; iat = nbf = now; exp = now + duration |
| TokenCodec.GenerateTokenPair | backend/admin-gin/internal/pkg/jwt/jwt.go:63-79 | an access token with the access lifetime, a refresh token with the refresh lifetime, and ExpiresAt = now + access lifetime = the access token's exp |
| TokenCodec.ParseToken | backend/admin-gin/internal/pkg/jwt/jwt.go:83-106 | Ok exactly when signed, in its window and of the expected kind (any kind for ""), returning the token's claims; ErrExpiredToken exactly for a signed expired token; ErrInvalidToken otherwise |
| TokenCodec.RoundTrip | backend/admin-gin/internal/pkg/jwt/jwt.go:83-123 | a token issued by the instance parses, with its own kind, from issue until expiry, giving back uid and kind |
| TokenCodec.KindMismatchRejected | backend/admin-gin/internal/pkg/jwt/jwt.go:100-103 | a non-empty expected kind other than the token's never succeeds, and is ErrInvalidToken when the token is not expired |
| TokenCodec.AccessAndRefreshAreNotInterchangeable | backend/admin-gin/internal/pkg/jwt/jwt.go:100-103 | an access token is refused where a refresh token is expected, and vice versa |
| TokenCodec.EmptyKindAcceptsAnyKind | backend/admin-gin/internal/pkg/jwt/jwt.go:100-103 | with "" as expected kind, acceptance is exactly the library's acceptance |
| TokenCodec.OtherSecretInvalid | backend/admin-gin/internal/pkg/jwt/jwt.go:84-93 | a token signed under another secret is ErrInvalidToken, never ErrExpiredToken |
| TokenCodec.NonPositiveLifetimeExpired | backend/admin-gin/internal/pkg/jwt/jwt.go:88-93 | a token issued with lifetime <= 0 is reported expired from its issue time on |
| TokenCodec.IssuerNotChecked | backend/admin-gin/internal/pkg/jwt/jwt.go:83-106 | a correctly signed token naming another issuer is accepted with its claims |
| LegacyJwt.Globals.constructor | backend/admin-gin/internal/pkg/util/jwt.go:10-16 | the package starts with secret "your-secret-key", 2 hours (7200 s) access and 7 days (604800 s) refresh |
| LegacyJwt.Globals.SetJWTSecret | backend/admin-gin/internal/pkg/util/jwt.go:147-149 | replaces the secret and leaves both lifetimes |
| LegacyJwt.Globals.SetTokenExpire | backend/admin-gin/internal/pkg/util/jwt.go:152-155 | replaces both lifetimes and leaves the secret |
| LegacyJwt.GenerateToken | backend/admin-gin/internal/pkg/util/jwt.go:67-80 | signed with the current secret, claims uid/kind, empty issuer, iat = nbf = now, exp = now + duration |
| LegacyJwt.GenerateAccessToken | backend/admin-gin/internal/pkg/util/jwt.go:38-40 | kind "access", the current access lifetime |
| LegacyJwt.GenerateRefreshToken | backend/admin-gin/internal/pkg/util/jwt.go:43-45 | kind "refresh", the current refresh lifetime |
| LegacyJwt.GenerateTokenPair | backend/admin-gin/internal/pkg/util/jwt.go:48-64 | one token of each kind and ExpiresAt equal to the access token's exp |
| LegacyJwt.ParseToken | backend/admin-gin/internal/pkg/util/jwt.go:83-100 | Ok exactly for a signed token in its window, with its claims; ErrExpiredToken exactly for a signed expired token; ErrInvalidToken otherwise; no kind check |
| LegacyJwt.ParseAccessToken | backend/admin-gin/internal/pkg/util/jwt.go:103-114 | Ok exactly when ParseToken succeeds on an "access" token; ParseToken's error passed on unchanged; ErrInvalidToken for a valid token of any other kind |
| LegacyJwt.ParseRefreshToken | backend/admin-gin/internal/pkg/util/jwt.go:117-128 | the same for "refresh": Ok exactly on a valid "refresh" token, ParseToken's error unchanged, ErrInvalidToken for any other kind |
| LegacyJwt.ValidateToken | backend/admin-gin/internal/pkg/util/jwt.go:131-133 | the guard's validator is ParseAccessToken |
| LegacyJwt.RefreshAccessToken | backend/admin-gin/internal/pkg/util/jwt.go:136-144 | on a valid refresh token, a fresh pair for its uid with both full lifetimes; otherwise the refresh parse error |
| LegacyJwt.KindsAreIsolated | backend/admin-gin/internal/pkg/util/jwt.go:103-128 | a live signed refresh token is ErrInvalidToken for ParseAccessToken, and an access token for ParseRefreshToken |
| LegacyJwt.RefreshAccessTokenExtendsSession | backend/admin-gin/internal/pkg/util/jwt.go:136-144 | no ceiling: the new refresh token expires now + full refresh lifetime, later than the presented one whenever that had less left |
| LegacyJwt.SecretChangeInvalidatesOldTokens | backend/admin-gin/internal/pkg/util/jwt.go:147-149 | after a secret change every token signed under the old secret is ErrInvalidToken |
| LegacyJwt.LifetimeChangeAppliesToLaterTokens | backend/admin-gin/internal/pkg/util/jwt.go:152-155 | after SetTokenExpire later tokens carry the new lifetimes and parsing of any token is unchanged |
| Bcrypt.GenerateFromPassword | backend/admin-gin/internal/app/admin/iam/auth/service.go:79-82 | refuses exactly passwords over 72 UTF-8 bytes; otherwise a hash under the salt that the password matches, as does exactly every candidate with the same 72 key bytes |
| Bcrypt.Utf8Length | backend/admin-gin/internal/app/admin/iam/auth/service.go:79-82 | the number of bytes of the password's UTF-8 encoding: never fewer than its characters, and exactly one per character for ASCII |
| Bcrypt.Utf8Append | backend/admin-gin/internal/app/admin/iam/auth/service.go:79-82 | encoding a concatenation concatenates the encodings |
| Bcrypt.Utf8LengthAppend | backend/admin-gin/internal/app/admin/iam/auth/service.go:79-82 | byte counts add up over a concatenation |
| Bcrypt.LongSuffixIgnored | backend/admin-gin/internal/app/admin/iam/auth/service.go:42-44 | a password of at least 72 bytes gives the same key whatever is appended to it |
| Bcrypt.LongPasswordMatchesExtensions | backend/admin-gin/internal/app/admin/iam/auth/service.go:79-82 | a 72-byte password is accepted, and its hash matches that password with anything appended |
| Bcrypt.ShortKeysDistinct | backend/admin-gin/internal/app/admin/iam/auth/service.go:42-44 | below 72 bytes and without NUL bytes, equal keys mean equal byte sequences |
| Bcrypt.ShortPasswordsMatchOnlyThemselves | backend/admin-gin/internal/app/admin/iam/auth/service.go:42-44 | passwords under 72 bytes without NUL: the hash of one matches the other exactly when their bytes agree |
| Auth.LoginStep | backend/admin-gin/internal/app/admin/iam/auth/service.go:34-63 | lookup error unchanged, then "密码不正确"; no store write on any failure; on success the slot holds the new refresh token with the full refresh TTL and the result carries uid, both tokens and ExpiresAt |
| Auth.RegisterStep | backend/admin-gin/internal/app/admin/iam/auth/service.go:66-97 | "用户已经存在" for a taken name with nothing created; otherwise exactly one new account, role "admin", active, with a hash matching the password and other accounts unchanged |
| Auth.RotateStep | backend/admin-gin/internal/app/admin/iam/auth/service.go:131-175 | codec error unchanged; lookup error; "刷新token无效" for a token not byte-equal to the stored one; store untouched on every failure; on success full-lifetime access token, refresh token with the remaining lifetime and exp equal to the presented one's, slot overwritten with TTL remaining |
| Auth.RefreshStep | backend/admin-gin/internal/app/admin/iam/auth/service.go:131-182 | refresh as written: RotateStep's store and errors; the result has uid, the new access token and ExpiresAt = now + access lifetime, and no refresh token |
| Auth.RefreshRotatingStep | backend/admin-gin/internal/app/admin/iam/auth/service.go:177-181 | corrected refresh: the same, returning the rotated refresh token |
| Auth.LogoutStep | backend/admin-gin/internal/app/admin/iam/auth/service.go:100-128 | 401 with the parse or lookup error; 401 with no error on a mismatch; 500 when the delete fails; 200, no error and the slot deleted on a match; only 200 changes the store |
| Auth.Service.constructor | backend/admin-gin/internal/app/admin/iam/auth/service.go:26-31 | the service keeps the codec and the account table and starts with an empty store |
| Auth.Service.FindUserByName | backend/admin-gin/internal/app/admin/iam/auth/repository.go:42-55 | the account under the name, record-not-found when absent, a database error when the read fails |
| Auth.Service.FindUserIsExist | backend/admin-gin/internal/app/admin/iam/auth/repository.go:20-26 | whether the name is taken, or a database error |
| Auth.Service.CreateUser | backend/admin-gin/internal/app/admin/iam/auth/repository.go:29-39 | adds the account under its name, or fails with no change |
| Auth.Service.SetRefreshToken | backend/admin-gin/internal/app/admin/iam/auth/service.go:172 | overwrites the uid's slot with the token and now + TTL, or fails with no change |
| Auth.Service.GetRefreshToken | backend/admin-gin/internal/app/admin/iam/auth/service.go:149 | the stored token, a missing-session error for an empty slot, or a store error |
| Auth.Service.DelRefreshToken | backend/admin-gin/internal/app/admin/iam/auth/service.go:123 | removes the uid's slot, or fails with no change |
| Auth.Service.Login | backend/admin-gin/internal/app/admin/iam/auth/service.go:34-63 | the new store and the result are LoginStep's; accounts unchanged |
| Auth.Service.Register | backend/admin-gin/internal/app/admin/iam/auth/service.go:66-97 | the new accounts and the error are RegisterStep's; store unchanged |
| Auth.Service.Logout | backend/admin-gin/internal/app/admin/iam/auth/service.go:100-128 | the new store and (status, error) are LogoutStep's |
| Auth.Service.Refresh | backend/admin-gin/internal/app/admin/iam/auth/service.go:131-182 | the new store and the result are RefreshStep's |
| AuthLaws.StepsPreserveFaithful | backend/admin-gin/internal/app/admin/iam/auth/service.go:47-174 | every stored record stays a refresh token issued for its slot's uid whose exp equals the record's expiry, across login, both refresh variants and logout, whatever fails |
| AuthLaws.SecondLoginSupersedesFirst | backend/admin-gin/internal/app/admin/iam/auth/service.go:155-157 | after two logins only the second refresh token refreshes; the first gets "刷新token无效" |
| AuthLaws.LogoutThenRefreshFails | backend/admin-gin/internal/app/admin/iam/auth/service.go:149-152 | after a successful logout the same token refreshes to a missing-session error |
| AuthLaws.RefreshKeepsExpiry | backend/admin-gin/internal/app/admin/iam/auth/service.go:140-174 | one refresh never moves any slot's expiry nor adds or removes a slot |
| AuthLaws.RefreshNeverExtends | backend/admin-gin/internal/app/admin/iam/auth/service.go:139-174 | any sequence of refreshes, in any order and with any faults, leaves every slot's expiry where login put it |
| AuthLaws.AccessMayOutliveSession | backend/admin-gin/internal/app/admin/iam/auth/service.go:161-181 | with less than one access lifetime left, the refreshed access token expires after the session record |
| AuthLaws.SameSecondRefreshIsIdentical | backend/admin-gin/internal/app/admin/iam/auth/service.go:161-174 | a refresh in the issue second reissues the very same refresh token and leaves the store as it was |
| AuthLaws.RemainingPositiveAfterParse | backend/admin-gin/internal/app/admin/iam/auth/service.go:134-143 | a token the parse accepts always has positive remaining lifetime, so the `remaining <= 0` guard never fires, with one clock reading per flow (see Left out) |
| AuthLaws.LoginIgnoresActiveFlag | backend/admin-gin/internal/app/admin/iam/auth/service.go:34-63 | login's outcome does not depend on the account's active flag |
| AuthLaws.RegisterThenLogin | backend/admin-gin/internal/app/admin/iam/auth/service.go:34-97 | registering and then logging in with the same credentials succeeds for the new uid |
| AuthLaws.LoginAcceptsExtendedLongPassword | backend/admin-gin/internal/app/admin/iam/auth/service.go:34-97 | after registering a 72-byte password, login with that password plus any suffix succeeds for the new uid |
| AuthLaws.AsWrittenClientTokenGoesStale | backend/admin-gin/internal/app/admin/iam/auth/service.go:166-181 | as written, after a refresh outside the issue second the client's token is refused by the next refresh and by logout, and no new token was returned |
| AuthLaws.AsWrittenSecondRefreshFails | backend/admin-gin/internal/app/admin/iam/auth/service.go:131-182 | login at 1000, refresh at 1001 succeeds, refresh at 1002 with the same token fails with "刷新token无效" |
| AuthLaws.RotatingChainSucceeds | backend/admin-gin/internal/app/admin/iam/auth/service.go:131-182 | with the corrected refresh, any number of refreshes at non-decreasing moments before expiry succeed, each with the last returned token, and the final token is stored and expires with the first |
| Mw.JWT | backend/admin-gin/internal/pkg/mw/jwt.go:13-53 | no "Bearer " prefix (empty header included): Unauthorized "缺少或格式错误的令牌"; the request passes, with the token's uid, exactly for a signed, live access token in the text after 7 characters; "令牌已过期" exactly for a signed expired token; every failure is Unauthorized, and with the prefix present its message is "令牌已过期" or "无效的令牌" |
| Mw.StripsExactlyThePrefix | backend/admin-gin/internal/pkg/mw/jwt.go:18-28 | the token handed on is the header minus exactly "Bearer " |
| Mw.FreshAccessTokenPasses | backend/admin-gin/internal/pkg/mw/jwt.go:28-51 | an access token issued under the current settings passes through its lifetime with its uid |
| Mw.RefreshTokenRejected | backend/admin-gin/internal/pkg/util/jwt.go:103-114 | a live refresh token is answered "无效的令牌" and never passes |
| Mw.PrefixIsExact | backend/admin-gin/internal/pkg/mw/jwt.go:18 | "bearer …" and "Bearer" without the space are malformed |
| Middleware.SplitN2 | backend/admin-gin/internal/pkg/middleware/jwt.go:21 | one part exactly when there is no space; two parts that rejoin with a space to the header, the first without spaces |
| Middleware.JWT | backend/admin-gin/internal/pkg/middleware/jwt.go:11-47 | empty header: Unauthorized "缺少认证令牌"; no "Bearer " scheme: TokenInvalid; otherwise passes with the claims' uid exactly when the validator accepts header[7..], TokenExpired exactly for its expiry error, TokenInvalid exactly for its invalid error |
| Middleware.SchemeCheckIsPrefix | backend/admin-gin/internal/pkg/middleware/jwt.go:21-27 | the split check holds exactly for headers starting "Bearer ", and the token is everything after those 7 characters, further spaces included |
| Middleware.WithCodec | backend/admin-gin/internal/pkg/middleware/jwt.go:30-45 | with the instance codec as validator a live access token passes and a refresh token never does |
| Cookie.ParseSameSite | backend/admin-gin/internal/pkg/cookie/gcookie.go:87-98 | "Lax", "Strict", "None" map to their modes exactly and case-sensitively; any other string to the default mode |
| Cookie.NewCookieManager | backend/admin-gin/internal/pkg/cookie/gcookie.go:45-47 | the manager holds the given configuration |
| Cookie.Set | backend/admin-gin/internal/pkg/cookie/gcookie.go:50-64 | sets the parsed SameSite, then writes the value under the configured name, lifetime, path, domain and flags |
| Cookie.Get | backend/admin-gin/internal/pkg/cookie/gcookie.go:67-69 | succeeds exactly when a cookie of the configured name is present, with the first such value |
| Cookie.Remove | backend/admin-gin/internal/pkg/cookie/gcookie.go:72-84 | no SameSite call; an empty value with Max-Age -1 under exactly the name, path, domain and flags Set uses |
| Cookie.SetAndRemoveAgree | backend/admin-gin/internal/pkg/cookie/gcookie.go:50-84 | Set and Remove address the same cookie, and Get reads back what Set wrote |
| Cookie.GetReadsOnlyItsName | backend/admin-gin/internal/pkg/cookie/gcookie.go:67-69 | cookies under other names before it do not hide the configured one |
| Http.Message | backend/admin-gin/internal/pkg/http/code.go:16-30 | the table entry for the four codes, "未知错误" for any other code, never empty |
| Http.KnownCodes | backend/admin-gin/internal/pkg/http/code.go:7-22 | exactly the four defined codes have a message of their own |
| Http.EffectiveMessage | backend/admin-gin/internal/pkg/http/handler.go:10-12 | a non-empty message is kept verbatim, an empty one becomes the code's message; never empty |
| Http.NewResponse | backend/admin-gin/internal/pkg/http/handler.go:8-19 | code and data copied unchanged, message defaulted |
| Http.NewPageResponse | backend/admin-gin/internal/pkg/http/handler.go:22-38 | the same envelope as NewResponse plus page, size and total unchanged |
| Http.ResponsesNeverSilent | backend/admin-gin/internal/pkg/http/handler.go:8-38 | no envelope either constructor builds has an empty message |
| Http.GetPage | backend/admin-gin/internal/pkg/http/request.go:11-16 | at least 1; a positive page kept; a non-positive one becomes 1 |
| Http.GetPageSize | backend/admin-gin/internal/pkg/http/request.go:19-27 | within [1, 100]; in-range kept; non-positive becomes 10; above 100 becomes 100 |
| Http.PagingIdempotent | backend/admin-gin/internal/pkg/http/request.go:11-27 | clamping an already clamped request changes nothing |
| Http.GetOffsetAsWritten | backend/admin-gin/internal/pkg/http/request.go:30-32 | the offset in 64-bit arithmetic: equal to (page-1)*size while that fits |
| Http.GetOffsetAsWrittenGoesNegative | backend/admin-gin/internal/pkg/http/request.go:30-32 | page 2^61+1 with size 100 wraps to the most negative int64 |
| Http.GetOffset | backend/admin-gin/internal/pkg/http/request.go:30-32 | corrected offset: non-negative, a multiple of the size whose quotient is page-1, zero exactly for the first page |
| Http.GetOffsetAgreesInRange | backend/admin-gin/internal/pkg/http/request.go:30-32 | the code as written and the corrected offset agree for every page up to 92233720368547758 |
| UserRole.String | backend/admin-gin/internal/app/admin/user/constant.go:74-76 | the identity on the underlying string |
| UserRole.Label | backend/admin-gin/internal/app/admin/user/constant.go:79-84 | the table label for a valid role, "未知角色" otherwise |
| UserRole.ValidRoles | backend/admin-gin/internal/app/admin/user/constant.go:57-71 | `IsValid` holds exactly for the seven role strings |
| UserRole.IsValid | backend/admin-gin/internal/app/admin/user/constant.go:68-71 | a role is valid exactly when it is one of the seven keys of the label table, matched exactly (stated through ValidRoles and MatchingIsExact) |
| UserRole.MatchingIsExact | backend/admin-gin/internal/app/admin/user/constant.go:68-71 | "Admin", "ADMIN", "" and " admin" are invalid |
| UserRole.ValidIffLabelled | backend/admin-gin/internal/app/admin/user/constant.go:57-84 | valid exactly when the label is not "未知角色" |
| UserRole.LabelsDistinct | backend/admin-gin/internal/app/admin/user/constant.go:57-65 | distinct valid roles have distinct labels |
| Strs.TrimSpace | backend/admin-gin/internal/app/admin/user/service.go:122 | the result is a contiguous part `s[i..j]` of the input with only white space before `i` and after `j`; it has no white space at either end and is empty exactly for a blank input |
| Strs.TrimSpaceIdempotent | backend/admin-gin/internal/app/admin/user/service.go:140 | trimming twice is trimming once |
| UserService.IsValidationError | backend/admin-gin/internal/app/admin/user/service.go:24-27 | true exactly when some error in the wrap chain is a validation error |
| UserService.IsRecordNotFound | backend/admin-gin/internal/app/admin/user/handler.go:119 | true exactly when some error in the chain is record-not-found |
| UserService.ToRows | backend/admin-gin/internal/app/admin/user/service.go:57-68 | one row per user, in order, each the user's projection with the uid as id |
| UserService.List | backend/admin-gin/internal/app/admin/user/service.go:48-70 | one query with the clamped page/size and trimmed role/keyword, no write; a query error passed on with no rows and total 0; otherwise one row per user in order and the total |
| UserService.Create | backend/admin-gin/internal/app/admin/user/service.go:72-119 | invalid role rejected before any query; then username uniqueness, then email uniqueness for a non-blank email (looked up untrimmed), each lookup's own error passed on and a taken name or email a validation error; the one write happens exactly when all pass and the password hashes, and stores a new active, undeleted user with trimmed email, the given role, a matching hash and both times now |
| UserService.CollectUpdates | backend/admin-gin/internal/app/admin/user/service.go:137-161 | queries only for a supplied email; email taken or invalid role are validation errors, in that order; on success the map holds exactly the supplied fields, trimmed email, role and the active flag (false included) |
| UserService.Update | backend/admin-gin/internal/app/admin/user/service.go:121-169 | blank uid rejected untouched; missing or soft-deleted row ends the flow (deleted is record-not-found); a supplied email's lookup error is passed on and a taken email is "邮箱已存在"; a supplied field that is not written always comes with an error; no write when nothing is supplied; the single write happens exactly when the row is live, the email free, the role acceptable and something supplied, and its map is the supplied fields plus updated_at |
| UserService.Delete | backend/admin-gin/internal/app/admin/user/service.go:171-177 | blank uid is a validation error with no call; otherwise one soft delete of the trimmed uid, its error passed on |
| UserService.WrappedValidationStaysValidation | backend/admin-gin/internal/app/admin/user/service.go:24-27 | wrapping a validation error keeps it recognisable |
| UserService.CreateValidationOrder | backend/admin-gin/internal/app/admin/user/service.go:73-76 | an invalid role touches no repository method and yields a validation error |
| UserService.CreateChecksUntrimmedEmail | backend/admin-gin/internal/app/admin/user/service.go:88-109 | for an email with leading white space, the service passes it untrimmed to ExistsByEmail and stores the trimmed form; the repository's own re-trim of that argument is not modelled (see Left out) |
| UserHandler.MapServiceErrorCode | backend/admin-gin/internal/app/admin/user/handler.go:24-29 | 422 exactly when the chain holds a validation error, 500 otherwise |
| UserHandler.List | backend/admin-gin/internal/app/admin/user/handler.go:42-61 | binding failure 400 "参数错误"; service error mapped with its message; success exactly when both succeed, with the rows, total and clamped page and size |
| UserHandler.Create | backend/admin-gin/internal/app/admin/user/handler.go:63-82 | 400 on binding failure, then 422 "role 不合法" for an invalid role, then the mapped service error; success exactly when all pass |
| UserHandler.Update | backend/admin-gin/internal/app/admin/user/handler.go:84-108 | blank trimmed uid 400 before binding; binding failure 400; a non-empty invalid role 422 (an empty role passes); then the service, with the trimmed uid, mapped |
| UserHandler.Delete | backend/admin-gin/internal/app/admin/user/handler.go:110-129 | blank uid 400; record-not-found anywhere in the chain 404 "用户不存在", checked before the generic mapping |
| UserHandler.WrappedValidationIs422 | backend/admin-gin/internal/app/admin/user/handler.go:24-29 | a validation error wrapped any number of times still maps to 422 |
| UserHandler.GuardsIgnoreService | backend/admin-gin/internal/app/admin/user/handler.go:42-129 | every answer given by a guard is the same whatever the service would answer: the service is not consulted |
| UserHandler.CreateRoleGuardAgreesWithService | backend/admin-gin/internal/app/admin/user/handler.go:71-74 | the handler's role guard and the service's own check give the same 422 reply |
| UserHandler.DeleteMissingUserIs404 | backend/admin-gin/internal/app/admin/user/handler.go:117-122 | with the user service behind it, a soft delete reporting record-not-found, however wrapped, is answered 404 |
| UserHandler.BlankUidIs400NotServices422 | backend/admin-gin/internal/app/admin/user/handler.go:111-115 | the handler answers a blank uid with 400, where the service alone would have produced a 422 validation error |
| DatabaseWire.FirstFailure | backend/admin-gin/pkg/database/wire.go:34-48 | the message of the earliest failing check, None exactly when none fails |
| DatabaseWire.ProvidePostgreConfig | backend/admin-gin/pkg/database/wire.go:27-58 | nil config "config is nil"; otherwise the first failing check of host, user, dbname, port 0, timezone decides the error; on success the six settings are copied unchanged |
| DatabaseWire.ProvideRedisConfig | backend/admin-gin/pkg/database/wire.go:61-79 | nil config "config is nil"; empty addr "config.redis.addr is empty"; otherwise addr, password and DB copied unchanged |
| DatabaseWire.HostReportedFirst | backend/admin-gin/pkg/database/wire.go:34-42 | with host, user and dbname all empty the host is reported |
| DatabaseWire.PasswordNeverChecked | backend/admin-gin/pkg/database/wire.go:50-57 | an accepted config stays accepted with any password, the empty one included |
| DatabaseWire.RedisOnlyNeedsAddr | backend/admin-gin/pkg/database/wire.go:68-78 | with an address present, any password and any DB (0 and "" included) are accepted and copied |
| DatabaseWire.SectionsIndependent | backend/admin-gin/pkg/database/wire.go:27-79 | each provider reads only its own section |
| AuthStore.Store.constructor | frontend/admin-react/src/stores/auth.ts:44-47 | token null, userInfo null, not authenticated |
| AuthStore.Store.SetToken | frontend/admin-react/src/stores/auth.ts:53-58 | stores the token; authenticated exactly when its access token is non-empty; userInfo unchanged |
| AuthStore.Store.SetUserInfo | frontend/admin-react/src/stores/auth.ts:64-66 | only userInfo changes |
| AuthStore.Store.RefreshAccessToken | frontend/admin-react/src/stores/auth.ts:72-80 | no-op without a token; otherwise only access_token is replaced and the flag is set, even for an empty new token |
| AuthStore.Store.Logout | frontend/admin-react/src/stores/auth.ts:85-91 | back to the initial state |
| AuthStore.Store.ClearUserInfo | frontend/admin-react/src/stores/auth.ts:96-98 | only userInfo is cleared |
| AuthStore.Apply | frontend/admin-react/src/stores/auth.ts:53-98 | each action's effect on the three fields, and preservation of "authenticated implies a token" |
| AuthStore.RunKeepsConsistent | frontend/admin-react/src/stores/auth.ts:44-98 | no sequence of actions sets the flag without a token |
| AuthStore.RefreshWithEmptyTokenStillSignedIn | frontend/admin-react/src/stores/auth.ts:72-80 | refreshing with "" leaves the store authenticated with an empty access token, unlike setToken |
| AuthStore.LogoutIdempotent | frontend/admin-react/src/stores/auth.ts:85-91 | logging out twice is logging out once |
| AuthStore.ProfileActionsKeepSession | frontend/admin-react/src/stores/auth.ts:64-98 | setting or clearing the profile keeps token and flag |
| AuthStore.RefreshChangesOnlyAccessToken | frontend/admin-react/src/stores/auth.ts:72-80 | refresh_token, expires_at, uid and userInfo are kept, and restoring the old access token restores the state apart from the flag |

## Left out

- Signing and the compact JWT encoding: HMAC-SHA256 is an ideal MAC and a
  token is a value. Base64url, JSON, the `alg` header and the library's
  key-type checks are not modelled. The library's `exp`/`nbf` checks use
  zero leeway and whole seconds.
  - A token is identified with its decoded value. The library decodes
    base64url segments non-strictly, so two signature strings that differ
    only in their unused trailing bits decode to the same token. The
    service's string comparisons of refresh tokens would tell them apart;
    the model's comparison of values does not.
- Bcrypt.GenerateFromPassword: the cost factor, the salt generation, the
  Blowfish rounds and the `$2a$` hash format are not modelled. The digest
  is idealised as the 72 key bytes, so no two different keys collide. The
  uuid generator is a parameter.
- The database (GORM/Postgres) and Redis. The repositories are abstract
  functions, and the session store is a map with absolute expiries.
  - Redis dropping an expired key is not modelled. A slot stays in the
    map, and the token's own `exp` check refuses it.
  - `iam/auth/repository.go`'s lookup does not filter soft-deleted users.
    It is modelled as a plain lookup by username.
  - The user repository's SQL (ILIKE, ordering, offset/limit) is not part
    of this model.
  - `user/repository.go`'s ExistsByEmail trims its argument again (and
    answers false for a blank one) before querying. The abstract
    `existsByEmail` takes the argument as the service passes it, so
    UserService.CreateChecksUntrimmedEmail speaks of the call's argument,
    not of the SQL that runs.
- The session-store methods `setRefreshToken`, `getRefreshToken` and
  `delRefreshToken` that `iam/auth/service.go` calls are not defined in
  `iam/auth/repository.go`, whose methods are also capitalised differently.
  They are modelled as the map updates their names and the service's use
  describe.
- Clock skew between the several `time.Now` calls of one flow. Each flow
  uses one `now`. In the source, the refresh flow's parse and its
  `time.Until` read the clock separately, so its `remaining <= 0` guard can
  fire when the expiry falls between the two readings.
- Concurrency: racing refreshes and last-writer-wins in Redis.
- gin plumbing:
  - Binding is an input (`None` when the request does not bind).
  - `c.Set("uid")`, JSON writing and `helper.go`'s logging are not
    modelled.
  - Handler replies are returned values.
  - `middleware/jwt.go` never calls `Abort`, so only the returned outcome
    is modelled.
- The version drift between files.
  - `middleware/jwt.go` calls a package-level `jwt.ValidateToken` and
    codes `TokenInvalid`/`TokenExpired`, none of which exist in the
    repository. The validator is a parameter and the codes are names
    without numeric values.
  - `user/handler.go`'s `listReq`/`listRes` are taken to be the service's
    `ReadReq`/`ReadRes`.
- Cookie.Set / Cookie.Get / Cookie.Remove:
  - gin's URL-escaping of the cookie value is not modelled.
  - gin's `"/"` default for an empty path is not modelled.
  - gin applying the last `SetSameSite` to every later `SetCookie`, so
    that Remove inherits the SameSite of an earlier Set in the same
    request, is not modelled. The value returned is what each call
    passes.
- The front-end store's persistence to local storage, and the open-ended
  extra keys of `UserInfo`.
- UserService.Create: the bcrypt error message is a fixed `Other` error.
  The actual text comes from the library.
- UserService.List / UserService.Update / UserService.Delete: records
  carry a `time.Time` as an integer, and `map[string]any` is a map from a
  column enumeration to a field value.
- Auth.Service.Refresh: models the source as written. The corrected
  behaviour is `Auth.RefreshRotatingStep`, a step function the class does
  not expose as a method.
- Http.GetOffset: the corrected offset is an unbounded integer. The
  64-bit result of the code as written is `Http.GetOffsetAsWritten`.

## Findings

| source | as written | input that shows it | evidently intended | confidence | as-written member | corrected member |
|---|---|---|---|---|---|---|
| backend/admin-gin/internal/app/admin/iam/auth/service.go:177-181 | a successful refresh stores a newly issued refresh token but returns a result whose RefreshToken is empty, so the client keeps the old token, which no longer matches the store | login at 1000 with a 604800 s refresh lifetime; refresh at 1001 with the login's token succeeds; refresh at 1002 with that token fails with "刷新token无效" | return the rotated refresh token in the result, as login does | not executed; medium (no caller in the repository reads the field) | AuthLaws.AsWrittenSecondRefreshFails | Auth.RefreshRotatingStep |
| backend/admin-gin/internal/pkg/http/request.go:30-32 | the offset (page-1)*size is computed in 64-bit int, and the page is not bounded above | page 2305843009213693953 (2^61+1) with size 100 gives -9223372036854775808 | a non-negative offset equal to (page-1)*size | not executed; high | Http.GetOffsetAsWrittenGoesNegative | Http.GetOffset |
