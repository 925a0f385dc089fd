/** The `authentication` slice of the store (who is signed in) and the
    router's choice between the sign-in screen and the app's screens. */
module Session {
  import opened Wrappers
  import opened Records

  datatype SessionState = SessionState(authenticated: bool, token: string, user: Option<User>)

  /** The state at process start: nobody is signed in. */
  const InitialSession: SessionState := SessionState(false, "", None)

  /** Signing in: the new session depends only on the token and user received. */
  function Authenticate(s: SessionState, token: string, user: User): (r: SessionState)
    ensures r.authenticated && r.token == token && r.user == Some(user)
  {
    SessionState(true, token, Some(user))
  }

  /** Signing out: back to the initial state, whatever the session was. */
  function Unauthenticate(s: SessionState): (r: SessionState)
    ensures r == InitialSession
  {
    SessionState(false, "", None)
  }

  /** Replaces the token only. */
  function SetToken(s: SessionState, token: string): (r: SessionState)
    ensures r.token == token
    ensures r.authenticated == s.authenticated && r.user == s.user
  {
    s.(token := token)
  }

  /** Replaces the user only. */
  function SetUser(s: SessionState, user: User): (r: SessionState)
    ensures r.user == Some(user)
    ensures r.authenticated == s.authenticated && r.token == s.token
  {
    s.(user := Some(user))
  }

  /** The actions the slice exports. */
  datatype Action = AuthenticateAction(token: string, user: User)
                  | UnauthenticateAction
                  | SetTokenAction(newToken: string)
                  | SetUserAction(newUser: User)

  function Reduce(s: SessionState, a: Action): SessionState
  {
    match a
    case AuthenticateAction(t, u) => Authenticate(s, t, u)
    case UnauthenticateAction => Unauthenticate(s)
    case SetTokenAction(t) => SetToken(s, t)
    case SetUserAction(u) => SetUser(s, u)
  }

  /** The state after dispatching `actions` in order, starting from `s`. */
  function Run(s: SessionState, actions: seq<Action>): SessionState
  {
    if actions == [] then s else Reduce(Run(s, actions[..|actions| - 1]), actions[|actions| - 1])
  }

  /** Whether the last sign-in or sign-out among `actions` was a sign-in (None if there was neither). */
  function LastSignIn(actions: seq<Action>): Option<bool>
  {
    if actions == [] then None
    else match actions[|actions| - 1]
      case AuthenticateAction(_, _) => Some(true)
      case UnauthenticateAction => Some(false)
      case _ => LastSignIn(actions[..|actions| - 1])
  }

  /** Whether the last action that touched the user set one (None if no action did). */
  function LastUserChange(actions: seq<Action>): Option<bool>
  {
    if actions == [] then None
    else match actions[|actions| - 1]
      case AuthenticateAction(_, _) => Some(true)
      case SetUserAction(_) => Some(true)
      case UnauthenticateAction => Some(false)
      case _ => LastUserChange(actions[..|actions| - 1])
  }

  /** `authenticated` is decided by the latest sign-in or sign-out; `setToken` and `setUser` never change it. */
  lemma {:induction false} AuthenticatedFollowsLastSignIn(s: SessionState, actions: seq<Action>)
    ensures Run(s, actions).authenticated == (match LastSignIn(actions)
                                               case None => s.authenticated
                                               case Some(b) => b)
  {
    if actions != [] {
      AuthenticatedFollowsLastSignIn(s, actions[..|actions| - 1]);
    }
  }

  /** From process start, the session is authenticated exactly when the latest of the
      sign-in/sign-out actions was a sign-in. */
  lemma AuthenticatedIffLastWasSignIn(actions: seq<Action>)
    ensures Run(InitialSession, actions).authenticated <==> LastSignIn(actions) == Some(true)
  {
    AuthenticatedFollowsLastSignIn(InitialSession, actions);
  }

  /** The router shows the app's screens when the store holds a user, the sign-in screen otherwise. */
  predicate ShowsAppRoutes(s: SessionState)
  {
    s.user.Some?
  }

  /** From process start, the app's screens are shown exactly when the latest action that
      touched the user set one. */
  lemma {:induction false} RouterFollowsLastUserChange(actions: seq<Action>)
    ensures ShowsAppRoutes(Run(InitialSession, actions)) <==> LastUserChange(actions) == Some(true)
  {
    if actions != [] {
      RouterFollowsLastUserChange(actions[..|actions| - 1]);
    }
  }

  /** Signing out always leads to the sign-in screen, and signing out twice is the same as once. */
  lemma SignOutShowsSignIn(s: SessionState)
    ensures !ShowsAppRoutes(Unauthenticate(s))
    ensures Unauthenticate(Unauthenticate(s)) == Unauthenticate(s)
  {
  }

  /** The session invariant "authenticated exactly when the token is non-empty and a user
      is present" is not kept by the reducers: a sign-in with an empty token breaks it,
      and so does a token change after signing out. */
  lemma TokenInvariantNotKept(u: User)
    ensures var s := Authenticate(InitialSession, "", u);
            s.authenticated && s.token == ""
    ensures var s := SetToken(Unauthenticate(InitialSession), "T");
            !s.authenticated && s.token != ""
  {
  }
}
