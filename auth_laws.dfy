/** Properties of the session protocol that relate several flows. */
module AuthLaws {
  import opened Wrappers
  import opened JwtCore
  import TokenCodec
  import Bcrypt
  import opened Auth

  /** Every stored record holds a signed refresh token issued for the uid of
      its slot, and the record's TTL runs out exactly when the token does. */
  predicate SessionsFaithful(s: Sessions) {
    forall uid :: uid in s ==>
      && s[uid].token.Signed?
      && s[uid].token.claims.uid == uid
      && s[uid].token.claims.tokenType == TokenCodec.RefreshKind
      && s[uid].expiry == s[uid].token.claims.expiresAt
  }

  /** Login, refresh (either variant) and logout keep the store faithful,
      whatever faults occur. */
  lemma StepsPreserveFaithful(j: TokenCodec.JWT, accounts: Accounts, s: Sessions, req: LoginReq, t: Token, now: int, f: Faults)
    requires SessionsFaithful(s)
    ensures SessionsFaithful(LoginStep(j, accounts, s, req, now, f).sessions)
    ensures SessionsFaithful(RefreshStep(j, s, t, now, f).sessions)
    ensures SessionsFaithful(RefreshRotatingStep(j, s, t, now, f).sessions)
    ensures SessionsFaithful(LogoutStep(j, s, t, now, f).sessions)
  {
    LoginPreservesFaithful(j, accounts, s, req, now, f);
    RefreshPreservesFaithful(j, s, t, now, f);
    LogoutPreservesFaithful(j, s, t, now, f);
  }

  lemma LoginPreservesFaithful(j: TokenCodec.JWT, accounts: Accounts, s: Sessions, req: LoginReq, now: int, f: Faults)
    requires SessionsFaithful(s)
    ensures SessionsFaithful(LoginStep(j, accounts, s, req, now, f).sessions)
  {
  }

  lemma RefreshPreservesFaithful(j: TokenCodec.JWT, s: Sessions, t: Token, now: int, f: Faults)
    requires SessionsFaithful(s)
    ensures SessionsFaithful(RefreshStep(j, s, t, now, f).sessions)
    ensures SessionsFaithful(RefreshRotatingStep(j, s, t, now, f).sessions)
  {
  }

  lemma LogoutPreservesFaithful(j: TokenCodec.JWT, s: Sessions, t: Token, now: int, f: Faults)
    requires SessionsFaithful(s)
    ensures SessionsFaithful(LogoutStep(j, s, t, now, f).sessions)
  {
  }

  /** Single active session: after a second login of the same user, the
      first login's refresh token is refused by refresh and the second
      one's is accepted. */
  lemma SecondLoginSupersedesFirst(j: TokenCodec.JWT, accounts: Accounts, s: Sessions, req: LoginReq, now1: int, now2: int, now3: int)
    requires now1 < now2 <= now3 < now2 + j.refreshExpire
    requires LoginStep(j, accounts, s, req, now1, NoFaults).result.Ok?
    ensures
      var first := LoginStep(j, accounts, s, req, now1, NoFaults);
      var second := LoginStep(j, accounts, first.sessions, req, now2, NoFaults);
      && second.result.Ok?
      && (now3 < now1 + j.refreshExpire ==>
            RefreshStep(j, second.sessions, first.result.value.refreshToken.value, now3, NoFaults).result == Err(RefreshTokenInvalid))
      && RefreshStep(j, second.sessions, second.result.value.refreshToken.value, now3, NoFaults).result.Ok?
  {
    var first := LoginStep(j, accounts, s, req, now1, NoFaults);
    var second := LoginStep(j, accounts, first.sessions, req, now2, NoFaults);
    var t1 := first.result.value.refreshToken.value;
    var t2 := second.result.value.refreshToken.value;
    assert t1.claims.issuedAt == now1 && t2.claims.issuedAt == now2;
    assert t1 != t2;
  }

  /** After a successful logout the same refresh token no longer refreshes:
      the slot is gone, so the lookup reports the session as missing. */
  lemma LogoutThenRefreshFails(j: TokenCodec.JWT, s: Sessions, t: Token, now1: int, now2: int)
    requires LogoutStep(j, s, t, now1, NoFaults).result.0 == StatusOK
    requires TokenCodec.Accepts(j, t, TokenCodec.RefreshKind, now2)
    ensures RefreshStep(j, LogoutStep(j, s, t, now1, NoFaults).sessions, t, now2, NoFaults).result == Err(SessionMissing)
  {
  }

  /** A refresh request: the token presented, the clock, and the faults. */
  datatype RefreshReq = RefreshReq(token: Token, now: int, faults: Faults)

  /** The store after refresh (as written) handles `reqs` in order. */
  function RefreshAll(j: TokenCodec.JWT, s: Sessions, reqs: seq<RefreshReq>): Sessions
    decreases |reqs|
  {
    if reqs == [] then s
    else RefreshAll(j, RefreshStep(j, s, reqs[0].token, reqs[0].now, reqs[0].faults).sessions, reqs[1..])
  }

  /** One refresh on a faithful store never moves any session's expiry and
      never creates or removes a slot. */
  lemma RefreshKeepsExpiry(j: TokenCodec.JWT, s: Sessions, t: Token, now: int, f: Faults)
    requires SessionsFaithful(s)
    ensures var s' := RefreshStep(j, s, t, now, f).sessions;
            s'.Keys == s.Keys && forall uid :: uid in s ==> s'[uid].expiry == s[uid].expiry
  {
  }

  /** Fixed session ceiling: however many refreshes are made, in whatever
      order and with whatever faults, no slot's expiry ever moves beyond
      what login set, and no slot is created or removed by refresh. */
  lemma {:induction false} RefreshNeverExtends(j: TokenCodec.JWT, s: Sessions, reqs: seq<RefreshReq>)
    requires SessionsFaithful(s)
    ensures var s' := RefreshAll(j, s, reqs);
            s'.Keys == s.Keys && forall uid :: uid in s ==> s'[uid].expiry == s[uid].expiry
    decreases |reqs|
  {
    if reqs != [] {
      var mid := RefreshStep(j, s, reqs[0].token, reqs[0].now, reqs[0].faults).sessions;
      RefreshKeepsExpiry(j, s, reqs[0].token, reqs[0].now, reqs[0].faults);
      RefreshPreservesFaithful(j, s, reqs[0].token, reqs[0].now, reqs[0].faults);
      RefreshNeverExtends(j, mid, reqs[1..]);
    }
  }

  /** Within a refresh the access token can outlast the session: when less
      than one access lifetime is left, the new access token expires after
      the refresh token and the stored record. */
  lemma AccessMayOutliveSession(j: TokenCodec.JWT, s: Sessions, t: Token, now: int, f: Faults)
    requires RefreshStep(j, s, t, now, f).result.Ok?
    requires t.claims.expiresAt - now < j.accessExpire
    ensures var o := RefreshStep(j, s, t, now, f);
            o.result.value.expiresAt > o.sessions[t.claims.uid].expiry
  {
  }

  /** A refresh in the same second as the token's issue reissues that very
      token: the store is left as it was and the new access token is the
      one login produced. */
  lemma SameSecondRefreshIsIdentical(j: TokenCodec.JWT, s: Sessions, uid: string, d: int, now: int)
    requires d > 0
    requires var t := TokenCodec.GenerateToken(j, uid, TokenCodec.RefreshKind, d, now);
             uid in s && s[uid] == Session(t, now + d)
    ensures var t := TokenCodec.GenerateToken(j, uid, TokenCodec.RefreshKind, d, now);
            var o := RefreshRotatingStep(j, s, t, now, NoFaults);
            && o.sessions == s
            && o.result == Ok(LoginRes(uid, TokenCodec.GenerateTokenPair(j, uid, now).accessToken,
                                       now + j.accessExpire, Some(t)))
  {
  }

  /** The accept check guarantees a positive remaining lifetime, so the
      source's own `remaining <= 0` guard never fires. */
  lemma RemainingPositiveAfterParse(j: TokenCodec.JWT, t: Token, now: int)
    requires TokenCodec.ParseToken(j, t, TokenCodec.RefreshKind, now).Ok?
    ensures t.claims.expiresAt - now > 0
  {
  }

  /** Login does not look at the account's active flag. */
  lemma LoginIgnoresActiveFlag(j: TokenCodec.JWT, accounts: Accounts, s: Sessions, req: LoginReq, now: int, f: Faults, active: bool)
    requires req.username in accounts
    ensures LoginStep(j, accounts, s, req, now, f)
            == LoginStep(j, accounts[req.username := accounts[req.username].(isActive := active)], s, req, now, f)
  {
  }

  /** Registration followed by login with the same credentials succeeds and
      issues tokens for the new uid. */
  lemma RegisterThenLogin(j: TokenCodec.JWT, accounts: Accounts, s: Sessions, username: string, password: string,
                          uid: string, salt: string, now: int)
    requires RegisterStep(accounts, RegisterReq(username, password), uid, salt, NoFaults).1.None?
    ensures var accounts' := RegisterStep(accounts, RegisterReq(username, password), uid, salt, NoFaults).0;
            var o := LoginStep(j, accounts', s, LoginReq(username, password), now, NoFaults);
            o.result.Ok? && o.result.value.uid == uid
  {
  }

  /** bcrypt reads only 72 key bytes and the comparison has no length check:
      after registering a 72-byte password, login also accepts that password
      with anything appended. */
  lemma LoginAcceptsExtendedLongPassword(j: TokenCodec.JWT, accounts: Accounts, s: Sessions, username: string,
                                         password: string, extra: string, uid: string, salt: string, now: int)
    requires RegisterStep(accounts, RegisterReq(username, password), uid, salt, NoFaults).1.None?
    requires Bcrypt.Utf8Length(password) == Bcrypt.MaxPasswordBytes
    ensures var accounts' := RegisterStep(accounts, RegisterReq(username, password), uid, salt, NoFaults).0;
            var o := LoginStep(j, accounts', s, LoginReq(username, password + extra), now, NoFaults);
            o.result.Ok? && o.result.value.uid == uid
  {
    Bcrypt.LongSuffixIgnored(password, extra);
  }

  // ---- Refresh-token rotation: the source as written and the correction ----

  /** As written, the client cannot learn the rotated token: once a refresh
      has succeeded at a moment other than the token's issue second, the
      token it was made with is refused by a later refresh and by logout. */
  lemma AsWrittenClientTokenGoesStale(j: TokenCodec.JWT, s: Sessions, t: Token, now1: int, now2: int)
    requires RefreshStep(j, s, t, now1, NoFaults).result.Ok?
    requires now1 != t.claims.issuedAt
    requires now1 <= now2 < t.claims.expiresAt
    ensures RefreshStep(j, s, t, now1, NoFaults).result.value.refreshToken == None
    ensures var s' := RefreshStep(j, s, t, now1, NoFaults).sessions;
            && RefreshStep(j, s', t, now2, NoFaults).result == Err(RefreshTokenInvalid)
            && LogoutStep(j, s', t, now2, NoFaults).result == (StatusUnauthorized, None)
  {
    var r := RotateStep(j, s, t, now1, NoFaults).result.value;
    assert r.refresh.claims.issuedAt == now1;
  }

  /** A concrete instance of the staleness: login at 1000 with a one-week
      refresh lifetime, refresh at 1001 succeeds, and a refresh at 1002 with
      the same token is refused. */
  lemma AsWrittenSecondRefreshFails(j: TokenCodec.JWT, accounts: Accounts, req: LoginReq)
    requires j.refreshExpire == 604800
    requires req.username in accounts && Bcrypt.Matches(accounts[req.username].password, req.password)
    ensures var login := LoginStep(j, accounts, map[], req, 1000, NoFaults);
            var t := login.result.value.refreshToken.value;
            var first := RefreshStep(j, login.sessions, t, 1001, NoFaults);
            && first.result.Ok?
            && RefreshStep(j, first.sessions, t, 1002, NoFaults).result == Err(RefreshTokenInvalid)
  {
    var login := LoginStep(j, accounts, map[], req, 1000, NoFaults);
    var t := login.result.value.refreshToken.value;
    AsWrittenClientTokenGoesStale(j, login.sessions, t, 1001, 1002);
  }

  /** Refresh with the corrected step, each time presenting the token the
      previous refresh returned. Returns the store and the last token, or
      the first error. */
  function RotatingChain(j: TokenCodec.JWT, s: Sessions, t: Token, nows: seq<int>): (Sessions, Result<Token, AuthError>)
    decreases |nows|
  {
    if nows == [] then (s, Ok(t))
    else
      var o := RefreshRotatingStep(j, s, t, nows[0], NoFaults);
      match o.result
      case Err(e) => (o.sessions, Err(e))
      case Ok(res) =>
        match res.refreshToken
        case None => (o.sessions, Err(RefreshTokenInvalid))
        case Some(next) => RotatingChain(j, o.sessions, next, nows[1..])
  }

  /** Non-decreasing refresh moments inside the window [from, until). */
  predicate Schedule(nows: seq<int>, from: int, until: int) {
    && (forall i :: 0 <= i < |nows| ==> from <= nows[i] < until)
    && (forall i, k :: 0 <= i < k < |nows| ==> nows[i] <= nows[k])
  }

  /** With the rotation returned to the caller, any number of refreshes at
      non-decreasing moments before the session's expiry all succeed; the
      last token is the stored one and still expires when the first did. */
  lemma {:induction false} RotatingChainSucceeds(j: TokenCodec.JWT, s: Sessions, t: Token, nows: seq<int>)
    requires t.Signed? && TokenCodec.Accepts(j, t, TokenCodec.RefreshKind, t.claims.notBefore)
    requires t.claims.uid in s && s[t.claims.uid].token == t
    requires Schedule(nows, t.claims.notBefore, t.claims.expiresAt)
    ensures var c := RotatingChain(j, s, t, nows);
            && c.1.Ok?
            && c.1.value.Signed?
            && c.1.value.claims.uid == t.claims.uid
            && c.1.value.claims.expiresAt == t.claims.expiresAt
            && t.claims.uid in c.0 && c.0[t.claims.uid].token == c.1.value
    decreases |nows|
  {
    if nows != [] {
      var o := RefreshRotatingStep(j, s, t, nows[0], NoFaults);
      assert TokenCodec.Accepts(j, t, TokenCodec.RefreshKind, nows[0]);
      var next := o.result.value.refreshToken.value;
      assert next.claims.notBefore == nows[0];
      assert Schedule(nows[1..], next.claims.notBefore, next.claims.expiresAt);
      RotatingChainSucceeds(j, o.sessions, next, nows[1..]);
    }
  }
}
