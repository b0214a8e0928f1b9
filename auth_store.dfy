/** The front end's authentication store: the current token pair, the user
    profile and the "signed in" flag, changed only by its five actions.
    Persistence to local storage is not part of this model. */
module AuthStore {
  import opened Wrappers

  /** The token record kept after sign-in. */
  datatype TokenInfo = TokenInfo(accessToken: string, refreshToken: string, expiresAt: int, uid: string)

  /** The user profile; the open-ended extra keys are left out. */
  datatype UserInfo = UserInfo(id: string, username: string, nickname: string,
                               roles: seq<string>, permissions: Option<seq<string>>)

  /** A snapshot of the three state fields. */
  datatype State = State(token: Option<TokenInfo>, userInfo: Option<UserInfo>, isAuthenticated: bool)

  /** The state a fresh store starts in, and logout returns to. */
  const Initial := State(None, None, false)

  /** The flag says "signed in" exactly when the access token is non-empty,
      as in a store only ever changed by setToken and logout. */
  predicate FlagMatchesToken(s: State) {
    s.isAuthenticated <==> s.token.Some? && s.token.value.accessToken != ""
  }

  /** A token is held whenever the flag is set, as after any sequence of
      the five actions. */
  predicate Consistent(s: State) {
    s.isAuthenticated ==> s.token.Some?
  }

  class Store {
    var token: Option<TokenInfo>
    var userInfo: Option<UserInfo>
    var isAuthenticated: bool

    function Snapshot(): (s: State)
      reads this
      ensures s.token == token && s.userInfo == userInfo && s.isAuthenticated == isAuthenticated
    {
      State(token, userInfo, isAuthenticated)
    }

    /** The initial state: no token, no profile, not signed in. */
    constructor ()
      ensures Snapshot() == Initial
      ensures Consistent(Snapshot()) && FlagMatchesToken(Snapshot())
    {
      token := None;
      userInfo := None;
      isAuthenticated := false;
    }

    /** setToken: store t; signed in exactly when its access token is
        non-empty; the profile is untouched. */
    method SetToken(t: TokenInfo)
      modifies this
      ensures Snapshot() == Apply(old(Snapshot()), SetTokenAction(t))
      ensures token == Some(t)
      ensures isAuthenticated <==> t.accessToken != ""
      ensures userInfo == old(userInfo)
      ensures Consistent(Snapshot()) && FlagMatchesToken(Snapshot())
    {
      token := Some(t);
      isAuthenticated := t.accessToken != "";
    }

    /** setUserInfo: only the profile changes. */
    method SetUserInfo(user: UserInfo)
      modifies this
      ensures Snapshot() == Apply(old(Snapshot()), SetUserInfoAction(user))
      ensures userInfo == Some(user)
      ensures token == old(token) && isAuthenticated == old(isAuthenticated)
    {
      userInfo := Some(user);
    }

    /** refreshAccessToken: with no token, nothing changes; otherwise only
        the access token is replaced, the refresh token, expiry and uid are
        kept, and the flag is set even for an empty new token. */
    method RefreshAccessToken(newToken: string)
      modifies this
      ensures Snapshot() == Apply(old(Snapshot()), RefreshAccessTokenAction(newToken))
      ensures old(token).None? ==> Snapshot() == old(Snapshot())
      ensures old(token).Some? ==>
                && token == Some(old(token).value.(accessToken := newToken))
                && isAuthenticated
      ensures userInfo == old(userInfo)
      ensures Consistent(old(Snapshot())) ==> Consistent(Snapshot())
    {
      var current := token;
      if current.Some? {
        token := Some(current.value.(accessToken := newToken));
        isAuthenticated := true;
      }
    }

    /** logout: back to the initial state. */
    method Logout()
      modifies this
      ensures Snapshot() == Apply(old(Snapshot()), LogoutAction) == Initial
      ensures Consistent(Snapshot()) && FlagMatchesToken(Snapshot())
    {
      token := None;
      userInfo := None;
      isAuthenticated := false;
    }

    /** clearUserInfo: only the profile is cleared. */
    method ClearUserInfo()
      modifies this
      ensures Snapshot() == Apply(old(Snapshot()), ClearUserInfoAction)
      ensures userInfo == None
      ensures token == old(token) && isAuthenticated == old(isAuthenticated)
    {
      userInfo := None;
    }
  }

  /** The five actions as transitions on snapshots. */
  datatype Action =
    | SetTokenAction(t: TokenInfo)
    | SetUserInfoAction(user: UserInfo)
    | RefreshAccessTokenAction(newToken: string)
    | LogoutAction
    | ClearUserInfoAction

  /** What one action does to a snapshot; each method of Store is proved
      to do exactly this. */
  function Apply(s: State, a: Action): (s': State)
    ensures a.SetTokenAction? ==>
              && s'.token == Some(a.t) && s'.userInfo == s.userInfo
              && FlagMatchesToken(s')
    ensures a.SetUserInfoAction? ==> s'.userInfo == Some(a.user)
    ensures a.ClearUserInfoAction? ==> s'.userInfo == None
    ensures a.SetUserInfoAction? || a.ClearUserInfoAction? ==>
              s'.token == s.token && s'.isAuthenticated == s.isAuthenticated
    ensures a.RefreshAccessTokenAction? && s.token.None? ==> s' == s
    ensures a.RefreshAccessTokenAction? && s.token.Some? ==>
              && s'.token.Some? && s'.token.value.accessToken == a.newToken
              && s'.token.value.refreshToken == s.token.value.refreshToken
              && s'.token.value.expiresAt == s.token.value.expiresAt
              && s'.token.value.uid == s.token.value.uid
              && s'.userInfo == s.userInfo && s'.isAuthenticated
    ensures a.LogoutAction? ==> s' == Initial
    ensures Consistent(s) ==> Consistent(s')
  {
    match a
    case SetTokenAction(t) => s.(token := Some(t), isAuthenticated := t.accessToken != "")
    case SetUserInfoAction(user) => s.(userInfo := Some(user))
    case RefreshAccessTokenAction(newToken) =>
      if s.token.Some? then s.(token := Some(s.token.value.(accessToken := newToken)), isAuthenticated := true)
      else s
    case LogoutAction => Initial
    case ClearUserInfoAction => s.(userInfo := None)
  }

  /** The snapshot after a run of actions from s. */
  function Run(s: State, actions: seq<Action>): State
    decreases |actions|
  {
    if actions == [] then s else Run(Apply(s, actions[0]), actions[1..])
  }

  /** No run of actions from a consistent state, the initial one
      included, sets the flag without a token. */
  lemma {:induction false} RunKeepsConsistent(s: State, actions: seq<Action>)
    requires Consistent(s)
    ensures Consistent(Run(s, actions))
    decreases |actions|
  {
    if actions != [] {
      RunKeepsConsistent(Apply(s, actions[0]), actions[1..]);
    }
  }

  /** Refreshing with an empty access token breaks the flag-matches-token
      rule that setToken keeps: the store says "signed in" with an empty
      access token. */
  lemma RefreshWithEmptyTokenStillSignedIn(t: TokenInfo)
    requires t.accessToken != ""
    ensures var s := Apply(Apply(Initial, SetTokenAction(t)), RefreshAccessTokenAction(""));
            && s.isAuthenticated && s.token.value.accessToken == ""
            && !FlagMatchesToken(s)
  {
  }

  /** Logging out twice is logging out once. */
  lemma LogoutIdempotent(s: State)
    ensures Apply(Apply(s, LogoutAction), LogoutAction) == Apply(s, LogoutAction)
  {
  }

  /** The profile actions never change sign-in: after setting or clearing
      the profile the token and flag are as before. */
  lemma ProfileActionsKeepSession(s: State, user: UserInfo)
    ensures Apply(s, SetUserInfoAction(user)).token == s.token
    ensures Apply(s, ClearUserInfoAction).isAuthenticated == s.isAuthenticated
    ensures Apply(Apply(s, SetUserInfoAction(user)), ClearUserInfoAction) == s.(userInfo := None)
  {
  }

  /** Refreshing keeps everything but the access token: a refresh followed
      by restoring the old access token restores the state, apart from the
      flag, which is then set. */
  lemma RefreshChangesOnlyAccessToken(s: State, newToken: string)
    requires s.token.Some?
    ensures var s' := Apply(s, RefreshAccessTokenAction(newToken));
            && s'.token.value.refreshToken == s.token.value.refreshToken
            && s'.token.value.expiresAt == s.token.value.expiresAt
            && s'.token.value.uid == s.token.value.uid
            && s'.userInfo == s.userInfo
            && Apply(s', RefreshAccessTokenAction(s.token.value.accessToken)) == s.(isAuthenticated := true)
  {
  }
}
