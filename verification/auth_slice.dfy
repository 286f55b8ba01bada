/**
  The authentication reducer of `src/store/slices/authSlice.ts`: the
  pending/fulfilled/rejected life cycle of the register, login, logout,
  current-user and profile-update requests. The requests themselves are not
  modelled; only the actions they dispatch are.
*/
module AuthSlice {
  import opened Wrappers

  datatype User = User(id: string, username: string, email: string)

  datatype AuthState = AuthState(
    user: Option<User>,
    token: Option<string>,
    isAuthenticated: bool,
    loading: bool,
    error: Option<string>)

  /**
    The state at start-up, given the token found in storage: `!!token` makes an
    empty stored token count as signed out.
  */
  function Initial(stored: Option<string>): (r: AuthState)
    ensures r.isAuthenticated <==> stored.Some? && stored.value != ""
    ensures r.user.None? && !r.loading && r.error.None? && r.token == stored
  {
    AuthState(None, stored, stored.Some? && stored.value != "", false, None)
  }

  datatype AuthAction =
    | ClearError
    | SetLoading(loading: bool)
    | RegisterPending | RegisterFulfilled(registered: User) | RegisterRejected(registerMessage: Option<string>)
    | LoginPending | LoginFulfilled(loggedIn: User) | LoginRejected(loginMessage: Option<string>)
    | LogoutFulfilled
    | CurrentUserPending | CurrentUserFulfilled(current: User) | CurrentUserRejected
    | ProfilePending | ProfileFulfilled(profile: User) | ProfileRejected(profileMessage: Option<string>)

  const RegistrationFailed := "Registration failed"
  const LoginFailed := "Login failed"
  const ProfileUpdateFailed := "Profile update failed"

  /** `message || fallback`: a missing or empty message gives way to the fallback. */
  function OrElse(message: Option<string>, fallback: string): (r: string)
    ensures message.Some? && message.value != "" ==> r == message.value
    ensures message.None? || message.value == "" ==> r == fallback
  {
    if message.Some? && message.value != "" then message.value else fallback
  }

  /** A request starts: loading, and the old error cleared when `clearsError`. */
  function Pending(s: AuthState, clearsError: bool): (r: AuthState)
    ensures r.loading
    ensures r.error == if clearsError then None else s.error
    ensures r.user == s.user && r.token == s.token && r.isAuthenticated == s.isAuthenticated
  {
    s.(loading := true, error := if clearsError then None else s.error)
  }

  /** Register, login or current-user succeeded: the payload is the signed-in user. */
  function SignedIn(s: AuthState, u: User): (r: AuthState)
    ensures r.user == Some(u) && r.isAuthenticated && !r.loading
    ensures r.token == s.token && r.error == s.error
  {
    s.(loading := false, user := Some(u), isAuthenticated := true)
  }

  /** A request failed with an error message, or with the fallback when it has none. */
  function Failed(s: AuthState, message: Option<string>, fallback: string): (r: AuthState)
    ensures !r.loading && r.error == Some(OrElse(message, fallback))
    ensures r.user == s.user && r.token == s.token && r.isAuthenticated == s.isAuthenticated
  {
    s.(loading := false, error := Some(OrElse(message, fallback)))
  }

  /** Logout succeeded or the current user could not be fetched: user and token are dropped. */
  function SignedOut(s: AuthState): (r: AuthState)
    ensures r.user.None? && r.token.None? && !r.isAuthenticated
    ensures r.loading == s.loading && r.error == s.error
  {
    s.(user := None, token := None, isAuthenticated := false)
  }

  /**
    One reducer step. Only logout and a failed current-user request touch the
    token, and they only drop it; only the three sign-in fulfilments sign in;
    only logout and a failed current-user request sign out.
  */
  function Reduce(s: AuthState, a: AuthAction): (r: AuthState)
    ensures r.token == (if a.LogoutFulfilled? || a.CurrentUserRejected? then None else s.token)
    ensures r.isAuthenticated ==
      if a.RegisterFulfilled? || a.LoginFulfilled? || a.CurrentUserFulfilled? then true
      else if a.LogoutFulfilled? || a.CurrentUserRejected? then false
      else s.isAuthenticated
  {
    match a
    case ClearError => s.(error := None)
    case SetLoading(b) => s.(loading := b)
    case RegisterPending => Pending(s, true)
    case RegisterFulfilled(u) => SignedIn(s, u)
    case RegisterRejected(m) => Failed(s, m, RegistrationFailed)
    case LoginPending => Pending(s, true)
    case LoginFulfilled(u) => SignedIn(s, u)
    case LoginRejected(m) => Failed(s, m, LoginFailed)
    case LogoutFulfilled => SignedOut(s)
    case CurrentUserPending => Pending(s, false)
    case CurrentUserFulfilled(u) => SignedIn(s, u)
    case CurrentUserRejected => SignedOut(s).(loading := false)
    case ProfilePending => Pending(s, true)
    case ProfileFulfilled(u) => s.(loading := false, user := Some(u))
    case ProfileRejected(m) => Failed(s, m, ProfileUpdateFailed)
  }

  /** The state after a sequence of actions, applied from the first. */
  function Run(s: AuthState, actions: seq<AuthAction>): AuthState
    decreases |actions|
  {
    if |actions| == 0 then s else Run(Reduce(s, actions[0]), actions[1..])
  }

  /**
    Starting a register, login or profile request sets `loading` and clears the
    error; starting a current-user request sets `loading` and keeps the error.
    Nothing else changes.
  */
  lemma PendingActions(s: AuthState)
    ensures Reduce(s, RegisterPending) == s.(loading := true, error := None)
    ensures Reduce(s, LoginPending) == s.(loading := true, error := None)
    ensures Reduce(s, ProfilePending) == s.(loading := true, error := None)
    ensures Reduce(s, CurrentUserPending) == s.(loading := true)
  {
  }

  /**
    A fulfilled register, login or current-user request stores the payload as
    the user, signs in and stops loading; token and error are kept.
  */
  lemma SignInActions(s: AuthState, u: User)
    ensures Reduce(s, RegisterFulfilled(u)) == s.(loading := false, user := Some(u), isAuthenticated := true)
    ensures Reduce(s, LoginFulfilled(u)) == s.(loading := false, user := Some(u), isAuthenticated := true)
    ensures Reduce(s, CurrentUserFulfilled(u)) == s.(loading := false, user := Some(u), isAuthenticated := true)
  {
  }

  /**
    Each rejection stops loading and stores the request's message, or its own
    fallback when the message is missing or empty; nothing else changes.
  */
  lemma RejectionFallbacks(s: AuthState, m: string)
    ensures Reduce(s, RegisterRejected(None)) == s.(loading := false, error := Some("Registration failed"))
    ensures Reduce(s, LoginRejected(None)) == s.(loading := false, error := Some("Login failed"))
    ensures Reduce(s, ProfileRejected(None)) == s.(loading := false, error := Some("Profile update failed"))
    ensures Reduce(s, RegisterRejected(Some(""))) == Reduce(s, RegisterRejected(None))
    ensures Reduce(s, LoginRejected(Some(""))) == Reduce(s, LoginRejected(None))
    ensures Reduce(s, ProfileRejected(Some(""))) == Reduce(s, ProfileRejected(None))
    ensures m != "" ==>
      && Reduce(s, RegisterRejected(Some(m))) == s.(loading := false, error := Some(m))
      && Reduce(s, LoginRejected(Some(m))) == s.(loading := false, error := Some(m))
      && Reduce(s, ProfileRejected(Some(m))) == s.(loading := false, error := Some(m))
  {
  }

  /**
    Logout drops user and token and signs out, keeping `loading`; a failed
    current-user request does the same and also stops loading. The error is kept.
  */
  lemma SignOutActions(s: AuthState)
    ensures Reduce(s, LogoutFulfilled) == s.(user := None, token := None, isAuthenticated := false)
    ensures Reduce(s, CurrentUserRejected) == s.(user := None, token := None, isAuthenticated := false, loading := false)
  {
  }

  /**
    A fulfilled profile update replaces the user and stops loading; sign-in,
    token and error are kept.
  */
  lemma ProfileFulfilledFrame(s: AuthState, u: User)
    ensures Reduce(s, ProfileFulfilled(u)) == s.(user := Some(u), loading := false)
  {
  }

  /** No step ever stores an empty error message. */
  predicate ErrorMeaningful(s: AuthState) {
    s.error != Some("")
  }

  lemma ErrorMeaningfulStep(s: AuthState, a: AuthAction)
    requires ErrorMeaningful(s)
    ensures ErrorMeaningful(Reduce(s, a))
  {
  }

  /** From start-up on, the error is either absent or a non-empty message. */
  lemma {:induction false} ErrorMeaningfulRun(s: AuthState, actions: seq<AuthAction>)
    requires ErrorMeaningful(s)
    ensures ErrorMeaningful(Run(s, actions))
    decreases |actions|
  {
    if |actions| > 0 {
      ErrorMeaningfulStep(s, actions[0]);
      ErrorMeaningfulRun(Reduce(s, actions[0]), actions[1..]);
    }
  }

  /**
    No reducer stores a new token: over any run the token is the one read at
    start-up or nothing.
  */
  lemma {:induction false} TokenOnlyKeptOrCleared(s: AuthState, actions: seq<AuthAction>)
    ensures var r := Run(s, actions); r.token == s.token || r.token.None?
    decreases |actions|
  {
    if |actions| > 0 {
      var next := Reduce(s, actions[0]);
      assert next.token == s.token || next.token.None?;
      TokenOnlyKeptOrCleared(next, actions[1..]);
    }
  }

  /** A signed-out state holds no user. */
  predicate NoUserWhenSignedOut(s: AuthState) {
    !s.isAuthenticated ==> s.user.None?
  }

  /** Every step but a profile update keeps a signed-out state free of users. */
  lemma NoUserWhenSignedOutStep(s: AuthState, a: AuthAction)
    requires NoUserWhenSignedOut(s)
    requires !a.ProfileFulfilled?
    ensures NoUserWhenSignedOut(Reduce(s, a))
  {
  }

  /**
    A profile update that completes after sign-out stores a user while the
    state stays signed out.
  */
  lemma ProfileAfterLogout(stored: Option<string>, u: User)
    ensures var r := Reduce(Reduce(Initial(stored), LogoutFulfilled), ProfileFulfilled(u));
      !r.isAuthenticated && r.user == Some(u)
  {
  }

  /** `clearError` changes the error only; a second one changes nothing. */
  lemma ClearErrorOnly(s: AuthState)
    ensures Reduce(s, ClearError) == s.(error := None)
    ensures Reduce(Reduce(s, ClearError), ClearError) == Reduce(s, ClearError)
  {
  }

  /**
    Every request that starts sets `loading` and every one that finishes, except
    a logout, clears it.
  */
  lemma LoadingLifecycle(s: AuthState, a: AuthAction)
    ensures a.RegisterPending? || a.LoginPending? || a.CurrentUserPending? || a.ProfilePending? ==> Reduce(s, a).loading
    ensures a.RegisterFulfilled? || a.RegisterRejected? || a.LoginFulfilled? || a.LoginRejected? ||
            a.CurrentUserFulfilled? || a.CurrentUserRejected? || a.ProfileFulfilled? || a.ProfileRejected? ==>
            !Reduce(s, a).loading
    ensures a.LogoutFulfilled? ==> Reduce(s, a).loading == s.loading
  {
  }
}
