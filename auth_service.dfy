/** The dual-token session protocol of internal/app/admin/iam/auth/service.go:
    login, register, refresh and logout over three collaborators, an account
    repository, bcrypt and a session store holding one refresh token per uid.
    Each flow is a method of `Service`, tied to a pure step function on the
    store that states what the flow does; the lemmas relate several steps. */
module Auth {
  import opened Wrappers
  import opened JwtCore
  import TokenCodec
  import Bcrypt

  /** The minimal account the auth domain reads (model.go): the password
      field holds a bcrypt hash, never the password. */
  datatype Account = Account(uid: string, username: string, password: Bcrypt.PasswordHash, role: string, isActive: bool)

  /** Accounts by username, as findUserByName and findUserIsExist see them. */
  type Accounts = map<string, Account>

  /** A session record: the live refresh token and the absolute time its TTL
      runs out (the time of the write plus the TTL). */
  datatype Session = Session(token: Token, expiry: int)

  /** The session store: one slot per uid. */
  type Sessions = map<string, Session>

  datatype LoginReq = LoginReq(username: string, password: string)
  datatype RegisterReq = RegisterReq(username: string, password: string)

  /** loginRes; `refreshToken` is None where the source leaves it empty. */
  datatype LoginRes = LoginRes(uid: string, accessToken: Token, expiresAt: int, refreshToken: Option<Token>)

  datatype AuthError =
    | RecordNotFound                      // gorm.ErrRecordNotFound from the account lookup
    | DbFailure                           // any other database error
    | WrongPassword                       // bcrypt mismatch
    | UserExists                          // register with a taken username
    | PasswordTooLong                     // bcrypt.ErrPasswordTooLong
    | FromToken(e: TokenCodec.TokenError) // the codec's error, unchanged
    | SessionMissing                      // redis.Nil: no refresh token stored for the uid
    | StoreFailure                        // any other session store error
    | RefreshTokenInvalid                 // presented refresh token is not the stored one
  {
    function Error(): string {
      match this
      case WrongPassword => "密码不正确"
      case UserExists => "用户已经存在"
      case RefreshTokenInvalid => "刷新token无效"
      case FromToken(e) => e.Error()
      case RecordNotFound => "record not found"
      case SessionMissing => "redis: nil"
      case PasswordTooLong => "bcrypt: password length exceeds 72 bytes"
      case DbFailure => "database error"
      case StoreFailure => "session store error"
    }
  }

  /** Which collaborator calls of one flow fail with an infrastructure error. */
  datatype Faults = Faults(dbRead: bool, dbWrite: bool, storeGet: bool, storeSet: bool, storeDel: bool)

  const NoFaults := Faults(false, false, false, false, false)

  const StatusOK := 200
  const StatusUnauthorized := 401
  const StatusInternalServerError := 500

  /** The store after a flow, and what the flow returned. */
  datatype Step<R> = Step(sessions: Sessions, result: R)

  /** login: the lookup's own error, then the password error, and otherwise
      a fresh pair whose refresh token overwrites the user's slot with the
      full refresh lifetime. Nothing is written unless the flow succeeds;
      the account's active flag is not consulted. */
  function LoginStep(j: TokenCodec.JWT, accounts: Accounts, s: Sessions, req: LoginReq, now: int, f: Faults)
    : (o: Step<Result<LoginRes, AuthError>>)
    ensures o.result.Err? ==> o.sessions == s
    ensures f.dbRead ==> o.result == Err(DbFailure)
    ensures !f.dbRead && req.username !in accounts ==> o.result == Err(RecordNotFound)
    ensures (!f.dbRead && req.username in accounts && !Bcrypt.Matches(accounts[req.username].password, req.password))
              ==> o.result == Err(WrongPassword)
    ensures o.result.Ok? <==>
              !f.dbRead && req.username in accounts && Bcrypt.Matches(accounts[req.username].password, req.password) && !f.storeSet
    ensures o.result.Ok? ==>
              var a := accounts[req.username];
              var pair := TokenCodec.GenerateTokenPair(j, a.uid, now);
              && o.result.value == LoginRes(a.uid, pair.accessToken, pair.expiresAt, Some(pair.refreshToken))
              && o.sessions == s[a.uid := Session(pair.refreshToken, now + j.refreshExpire)]
  {
    if f.dbRead then Step(s, Err(DbFailure))
    else if req.username !in accounts then Step(s, Err(RecordNotFound))
    else
      var a := accounts[req.username];
      if !Bcrypt.Matches(a.password, req.password) then Step(s, Err(WrongPassword))
      else
        var pair := TokenCodec.GenerateTokenPair(j, a.uid, now);
        if f.storeSet then Step(s, Err(StoreFailure))
        else Step(s[a.uid := Session(pair.refreshToken, now + j.GetRefreshExpire())],
                  Ok(LoginRes(a.uid, pair.accessToken, pair.expiresAt, Some(pair.refreshToken))))
  }

  /** register: a taken username is refused and nothing is created; otherwise
      exactly one account appears, with role "admin", active, and a hash that
      matches the given password. */
  function RegisterStep(accounts: Accounts, req: RegisterReq, uid: string, salt: string, f: Faults)
    : (o: (Accounts, Option<AuthError>))
    ensures o.1.Some? ==> o.0 == accounts
    ensures f.dbRead ==> o.1 == Some(DbFailure)
    ensures !f.dbRead && req.username in accounts ==> o.1 == Some(UserExists)
    ensures (!f.dbRead && req.username !in accounts && Bcrypt.Utf8Length(req.password) > Bcrypt.MaxPasswordBytes)
              ==> o.1 == Some(PasswordTooLong)
    ensures o.1.None? <==>
              !f.dbRead && req.username !in accounts && Bcrypt.Utf8Length(req.password) <= Bcrypt.MaxPasswordBytes && !f.dbWrite
    ensures o.1.None? ==>
              && o.0.Keys == accounts.Keys + {req.username}
              && (forall u :: u in accounts ==> o.0[u] == accounts[u])
              && var a := o.0[req.username];
                 a.uid == uid && a.username == req.username && a.role == "admin" && a.isActive
                 && Bcrypt.Matches(a.password, req.password)
  {
    if f.dbRead then (accounts, Some(DbFailure))
    else if req.username in accounts then (accounts, Some(UserExists))
    else match Bcrypt.GenerateFromPassword(req.password, salt)
      case Err(_) => (accounts, Some(PasswordTooLong))
      case Ok(h) =>
        if f.dbWrite then (accounts, Some(DbFailure))
        else (accounts[req.username := Account(uid, req.username, h, "admin", true)], None)
  }

  /** What a successful refresh produces before the source decides what to
      return: the uid, the new access and refresh tokens and the access
      token's expiry. */
  datatype Rotation = Rotation(uid: string, access: Token, refresh: Token, expiresAt: int)

  /** The part of refresh both the source and its correction share. The
      presented token must be accepted as a refresh token, its remaining
      lifetime positive, and it must equal the stored one; then the new
      access token gets the full lifetime, the new refresh token only the
      remaining one, and the slot is overwritten with TTL `remaining`, so
      the slot's expiry stays the presented token's expiry. */
  function RotateStep(j: TokenCodec.JWT, s: Sessions, t: Token, now: int, f: Faults)
    : (o: Step<Result<Rotation, AuthError>>)
    ensures o.result.Err? ==> o.sessions == s
    ensures !TokenCodec.Accepts(j, t, TokenCodec.RefreshKind, now) ==>
              o.result == Err(FromToken(TokenCodec.ParseToken(j, t, TokenCodec.RefreshKind, now).error))
    ensures TokenCodec.Accepts(j, t, TokenCodec.RefreshKind, now) ==>
              && (f.storeGet ==> o.result == Err(StoreFailure))
              && (!f.storeGet && t.claims.uid !in s ==> o.result == Err(SessionMissing))
              && (!f.storeGet && t.claims.uid in s && s[t.claims.uid].token != t ==> o.result == Err(RefreshTokenInvalid))
    ensures o.result.Ok? <==>
              && TokenCodec.Accepts(j, t, TokenCodec.RefreshKind, now)
              && !f.storeGet && t.claims.uid in s && s[t.claims.uid].token == t && !f.storeSet
    ensures o.result.Ok? ==>
              var uid, exp := t.claims.uid, t.claims.expiresAt;
              var r := o.result.value;
              && r.uid == uid
              && r.access == TokenCodec.GenerateToken(j, uid, TokenCodec.AccessKind, j.accessExpire, now)
              && r.refresh == TokenCodec.GenerateToken(j, uid, TokenCodec.RefreshKind, exp - now, now)
              && r.refresh.claims.expiresAt == exp
              && r.expiresAt == now + j.accessExpire
              && o.sessions == s[uid := Session(r.refresh, exp)]
  {
    match TokenCodec.ParseToken(j, t, TokenCodec.RefreshKind, now)
    case Err(e) => Step(s, Err(FromToken(e)))
    case Ok(claims) =>
      var remaining := claims.expiresAt - now;
      if remaining <= 0 then Step(s, Err(FromToken(TokenCodec.ErrExpiredToken)))
      else
        var uid := claims.uid;
        if f.storeGet then Step(s, Err(StoreFailure))
        else if uid !in s then Step(s, Err(SessionMissing))
        else if s[uid].token != t then Step(s, Err(RefreshTokenInvalid))
        else
          var newAccess := TokenCodec.GenerateToken(j, uid, TokenCodec.AccessKind, j.GetAccessExpire(), now);
          var newRefresh := TokenCodec.GenerateToken(j, uid, TokenCodec.RefreshKind, remaining, now);
          if f.storeSet then Step(s, Err(StoreFailure))
          else Step(s[uid := Session(newRefresh, now + remaining)], Ok(Rotation(uid, newAccess, newRefresh, now + j.GetAccessExpire())))
  }

  /** refresh as written: the rotation's outcome, but the new refresh token
      is not part of the result (the returned RefreshToken is empty). */
  function RefreshStep(j: TokenCodec.JWT, s: Sessions, t: Token, now: int, f: Faults)
    : (o: Step<Result<LoginRes, AuthError>>)
    ensures o.sessions == RotateStep(j, s, t, now, f).sessions
    ensures o.result.Ok? <==> RotateStep(j, s, t, now, f).result.Ok?
    ensures o.result.Err? ==> o.result.error == RotateStep(j, s, t, now, f).result.error
    ensures o.result.Ok? ==>
              var r := RotateStep(j, s, t, now, f).result.value;
              o.result.value == LoginRes(r.uid, r.access, r.expiresAt, None)
  {
    var o := RotateStep(j, s, t, now, f);
    match o.result
    case Err(e) => Step(o.sessions, Err(e))
    case Ok(r) => Step(o.sessions, Ok(LoginRes(r.uid, r.access, r.expiresAt, None)))
  }

  /** refresh corrected: the same rotation, returning the new refresh token
      so that the caller can present the live one next time. */
  function RefreshRotatingStep(j: TokenCodec.JWT, s: Sessions, t: Token, now: int, f: Faults)
    : (o: Step<Result<LoginRes, AuthError>>)
    ensures o.sessions == RotateStep(j, s, t, now, f).sessions
    ensures o.result.Ok? <==> RotateStep(j, s, t, now, f).result.Ok?
    ensures o.result.Err? ==> o.result.error == RotateStep(j, s, t, now, f).result.error
    ensures o.result.Ok? ==>
              var r := RotateStep(j, s, t, now, f).result.value;
              o.result.value == LoginRes(r.uid, r.access, r.expiresAt, Some(r.refresh))
  {
    var o := RotateStep(j, s, t, now, f);
    match o.result
    case Err(e) => Step(o.sessions, Err(e))
    case Ok(r) => Step(o.sessions, Ok(LoginRes(r.uid, r.access, r.expiresAt, Some(r.refresh))))
  }

  /** logout: 401 with the codec's or the lookup's error, 401 with no error
      when the token is not the stored one, 500 when the delete fails, and
      200 after deleting the slot. Only the 200 path changes the store. */
  function LogoutStep(j: TokenCodec.JWT, s: Sessions, t: Token, now: int, f: Faults)
    : (o: Step<(int, Option<AuthError>)>)
    ensures o.result.0 != StatusOK ==> o.sessions == s
    ensures !TokenCodec.Accepts(j, t, TokenCodec.RefreshKind, now) ==>
              o.result == (StatusUnauthorized, Some(FromToken(TokenCodec.ParseToken(j, t, TokenCodec.RefreshKind, now).error)))
    ensures TokenCodec.Accepts(j, t, TokenCodec.RefreshKind, now) ==>
              var uid := t.claims.uid;
              && (f.storeGet ==> o.result == (StatusUnauthorized, Some(StoreFailure)))
              && (!f.storeGet && uid !in s ==> o.result == (StatusUnauthorized, Some(SessionMissing)))
              && (!f.storeGet && uid in s && s[uid].token != t ==> o.result == (StatusUnauthorized, None))
              && (!f.storeGet && uid in s && s[uid].token == t && f.storeDel ==> o.result == (StatusInternalServerError, Some(StoreFailure)))
    ensures o.result.0 == StatusOK <==>
              && TokenCodec.Accepts(j, t, TokenCodec.RefreshKind, now)
              && !f.storeGet && t.claims.uid in s && s[t.claims.uid].token == t && !f.storeDel
    ensures o.result.0 == StatusOK ==> o.result.1 == None && o.sessions == s - {t.claims.uid}
  {
    match TokenCodec.ParseToken(j, t, TokenCodec.RefreshKind, now)
    case Err(e) => Step(s, (StatusUnauthorized, Some(FromToken(e))))
    case Ok(claims) =>
      var uid := claims.uid;
      if f.storeGet then Step(s, (StatusUnauthorized, Some(StoreFailure)))
      else if uid !in s then Step(s, (StatusUnauthorized, Some(SessionMissing)))
      else if s[uid].token != t then Step(s, (StatusUnauthorized, None))
      else if f.storeDel then Step(s, (StatusInternalServerError, Some(StoreFailure)))
      else Step(s - {uid}, (StatusOK, None))
  }

  /** The flows over mutable collaborators: the account table and the
      session store are fields, the codec is fixed at construction. */
  class Service {
    const jt: TokenCodec.JWT
    var accounts: Accounts
    var sessions: Sessions

    constructor (jt: TokenCodec.JWT, accounts: Accounts)
      ensures this.jt == jt && this.accounts == accounts && sessions == map[]
    {
      this.jt := jt;
      this.accounts := accounts;
      sessions := map[];
    }

    /** repo.findUserByName */
    method FindUserByName(username: string, fails: bool) returns (r: Result<Account, AuthError>)
      ensures fails ==> r == Err(DbFailure)
      ensures !fails ==> r == if username in accounts then Ok(accounts[username]) else Err(RecordNotFound)
    {
      if fails { return Err(DbFailure); }
      if username !in accounts { return Err(RecordNotFound); }
      return Ok(accounts[username]);
    }

    /** repo.findUserIsExist */
    method FindUserIsExist(username: string, fails: bool) returns (r: Result<bool, AuthError>)
      ensures r == if fails then Err(DbFailure) else Ok(username in accounts)
    {
      if fails { return Err(DbFailure); }
      return Ok(username in accounts);
    }

    /** repo.createUser */
    method CreateUser(a: Account, fails: bool) returns (err: Option<AuthError>)
      modifies this
      ensures sessions == old(sessions)
      ensures fails ==> err == Some(DbFailure) && accounts == old(accounts)
      ensures !fails ==> err == None && accounts == old(accounts)[a.username := a]
    {
      if fails { return Some(DbFailure); }
      accounts := accounts[a.username := a];
      return None;
    }

    /** repo.setRefreshToken: SET with expiry, overwriting the slot. */
    method SetRefreshToken(uid: string, token: Token, ttl: int, now: int, fails: bool) returns (err: Option<AuthError>)
      modifies this
      ensures accounts == old(accounts)
      ensures fails ==> err == Some(StoreFailure) && sessions == old(sessions)
      ensures !fails ==> err == None && sessions == old(sessions)[uid := Session(token, now + ttl)]
    {
      if fails { return Some(StoreFailure); }
      sessions := sessions[uid := Session(token, now + ttl)];
      return None;
    }

    /** repo.getRefreshToken: absence is its own error, never an empty token. */
    method GetRefreshToken(uid: string, fails: bool) returns (r: Result<Token, AuthError>)
      ensures fails ==> r == Err(StoreFailure)
      ensures !fails ==> r == if uid in sessions then Ok(sessions[uid].token) else Err(SessionMissing)
    {
      if fails { return Err(StoreFailure); }
      if uid !in sessions { return Err(SessionMissing); }
      return Ok(sessions[uid].token);
    }

    /** repo.delRefreshToken */
    method DelRefreshToken(uid: string, fails: bool) returns (err: Option<AuthError>)
      modifies this
      ensures accounts == old(accounts)
      ensures fails ==> err == Some(StoreFailure) && sessions == old(sessions)
      ensures !fails ==> err == None && sessions == old(sessions) - {uid}
    {
      if fails { return Some(StoreFailure); }
      sessions := sessions - {uid};
      return None;
    }

    method Login(req: LoginReq, now: int, f: Faults) returns (res: Result<LoginRes, AuthError>)
      modifies this
      ensures accounts == old(accounts)
      ensures Step(sessions, res) == LoginStep(jt, old(accounts), old(sessions), req, now, f)
    {
      var found := FindUserByName(req.username, f.dbRead);
      if found.Err? { return Err(found.error); }
      var account := found.value;
      if !Bcrypt.Matches(account.password, req.password) { return Err(WrongPassword); }
      var pair := TokenCodec.GenerateTokenPair(jt, account.uid, now);
      var err := SetRefreshToken(account.uid, pair.refreshToken, jt.GetRefreshExpire(), now, f.storeSet);
      if err.Some? { return Err(err.value); }
      return Ok(LoginRes(account.uid, pair.accessToken, pair.expiresAt, Some(pair.refreshToken)));
    }

    /** `uid` and `salt` are what the uuid generator and bcrypt draw. */
    method Register(req: RegisterReq, uid: string, salt: string, f: Faults) returns (err: Option<AuthError>)
      modifies this
      ensures sessions == old(sessions)
      ensures (accounts, err) == RegisterStep(old(accounts), req, uid, salt, f)
    {
      var exist := FindUserIsExist(req.username, f.dbRead);
      if exist.Err? { return Some(exist.error); }
      if exist.value { return Some(UserExists); }
      var hashed := Bcrypt.GenerateFromPassword(req.password, salt);
      if hashed.Err? { return Some(PasswordTooLong); }
      err := CreateUser(Account(uid, req.username, hashed.value, "admin", true), f.dbWrite);
    }

    method Logout(refreshToken: Token, now: int, f: Faults) returns (status: int, err: Option<AuthError>)
      modifies this
      ensures accounts == old(accounts)
      ensures Step(sessions, (status, err)) == LogoutStep(jt, old(sessions), refreshToken, now, f)
    {
      var parsed := TokenCodec.ParseToken(jt, refreshToken, TokenCodec.RefreshKind, now);
      if parsed.Err? { return StatusUnauthorized, Some(FromToken(parsed.error)); }
      var uid := parsed.value.uid;
      var stored := GetRefreshToken(uid, f.storeGet);
      if stored.Err? { return StatusUnauthorized, Some(stored.error); }
      if stored.value != refreshToken { return StatusUnauthorized, None; }
      var delErr := DelRefreshToken(uid, f.storeDel);
      if delErr.Some? { return StatusInternalServerError, delErr; }
      return StatusOK, None;
    }

    /** refresh as written (see RefreshStep). */
    method Refresh(refreshToken: Token, now: int, f: Faults) returns (res: Result<LoginRes, AuthError>)
      modifies this
      ensures accounts == old(accounts)
      ensures Step(sessions, res) == RefreshStep(jt, old(sessions), refreshToken, now, f)
    {
      var parsed := TokenCodec.ParseToken(jt, refreshToken, TokenCodec.RefreshKind, now);
      if parsed.Err? { return Err(FromToken(parsed.error)); }
      var claims := parsed.value;
      var remaining := claims.expiresAt - now;
      if remaining <= 0 { return Err(FromToken(TokenCodec.ErrExpiredToken)); }
      var uid := claims.uid;
      var stored := GetRefreshToken(uid, f.storeGet);
      if stored.Err? { return Err(stored.error); }
      if stored.value != refreshToken { return Err(RefreshTokenInvalid); }
      var newAccess := TokenCodec.GenerateToken(jt, uid, TokenCodec.AccessKind, jt.GetAccessExpire(), now);
      var newRefresh := TokenCodec.GenerateToken(jt, uid, TokenCodec.RefreshKind, remaining, now);
      var err := SetRefreshToken(uid, newRefresh, remaining, now, f.storeSet);
      if err.Some? { return Err(err.value); }
      return Ok(LoginRes(uid, newAccess, now + jt.GetAccessExpire(), None));
    }
  }
}
