/**
 * The JavaScript variant of the app shell (`routing.jsx`): the state has no
 * user id, and the app starts in the loading state, so the splash screen is
 * shown until the stored token has been restored.
 */
module RoutingJs {
  import opened Options
  import Routing

  datatype AuthState = AuthState(isLoading: bool, isSignout: bool, userToken: Option<string>)

  datatype AuthAction =
    | RestoreToken(token: Option<string>)
    | SignIn(signInToken: string)
    | SignOut
    | Unknown(kind: string)

  const InitialState: AuthState := AuthState(true, false, None)

  function Reducer(prev: AuthState, action: AuthAction): AuthState
  {
    match action
    case RestoreToken(token) => prev.(userToken := token, isLoading := false)
    case SignIn(token) => prev.(isSignout := false, userToken := Some(token))
    case SignOut => prev.(isSignout := true, userToken := None)
    case Unknown(_) => prev
  }

  function ReduceAll(state: AuthState, actions: seq<AuthAction>): AuthState
    decreases |actions|
  {
    if actions == [] then state else ReduceAll(Reducer(state, actions[0]), actions[1..])
  }

  function Screens(state: AuthState): (r: seq<Routing.Screen>)
    ensures Routing.Main in r <==> !state.isLoading && state.userToken.Some?
    ensures Routing.Login in r <==> !state.isLoading && state.userToken.None?
    ensures r == [Routing.Splash] <==> state.isLoading
    ensures !state.isLoading ==>
      (r == [Routing.Main] <==> state.userToken.Some?) && (r == Routing.SignedOutScreens <==> state.userToken.None?)
  {
    if state.isLoading then [Routing.Splash]
    else if state.userToken.None? then Routing.SignedOutScreens
    else [Routing.Main]
  }

  lemma InitialStateShape()
    ensures InitialState.isLoading && !InitialState.isSignout && InitialState.userToken == None
    ensures Screens(InitialState) == [Routing.Splash]
  {
  }

  lemma RestoreTokenEffect(s: AuthState, token: Option<string>)
    ensures var r := Reducer(s, RestoreToken(token));
      r.userToken == token && !r.isLoading && r.isSignout == s.isSignout
  {
  }

  lemma SignInSignOutEffect(s: AuthState, token: string)
    ensures var r := Reducer(s, SignIn(token));
      r.userToken == Some(token) && !r.isSignout && r.isLoading == s.isLoading
    ensures var r := Reducer(s, SignOut);
      r.userToken == None && r.isSignout && r.isLoading == s.isLoading
  {
  }

  lemma UnknownActionIgnored(s: AuthState, kind: string)
    ensures Reducer(s, Unknown(kind)) == s
  {
  }

  /** From the initial state the splash screen stays up exactly until a RESTORE_TOKEN has been dispatched. */
  lemma {:induction false} SplashUntilRestore(s: AuthState, actions: seq<AuthAction>)
    ensures ReduceAll(s, actions).isLoading <==>
      s.isLoading && forall i :: 0 <= i < |actions| ==> !actions[i].RestoreToken?
    ensures s == InitialState ==>
      ((Screens(ReduceAll(s, actions)) == [Routing.Splash]) <==>
       (forall i :: 0 <= i < |actions| ==> !actions[i].RestoreToken?))
    decreases |actions|
  {
    if actions != [] {
      SplashUntilRestore(Reducer(s, actions[0]), actions[1..]);
      assert forall i :: 1 <= i < |actions| ==> actions[i] == actions[1..][i - 1];
    }
  }

  /** After the splash screen, the main stack is offered exactly when a token is held. */
  lemma MainExactlyWithToken(s: AuthState)
    requires !s.isLoading
    ensures Screens(s) == [Routing.Main] <==> s.userToken.Some?
    ensures Screens(s) == Routing.SignedOutScreens <==> s.userToken.None?
  {
  }
}
