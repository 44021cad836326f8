/**
 * The authentication state of the app shell (`routing.tsx`): a reducer over
 * four fields driven by three actions, and the choice of which stack of
 * screens the navigator offers.
 */
module Routing {
  import opened Options

  datatype Screen = Splash | Login | EmailVerification | CodeVerification | CompleteRegistration | Main

  datatype AuthState = AuthState(isLoading: bool, isSignout: bool, userToken: Option<string>, userId: Option<string>)

  /** The dispatched actions; `Unknown` is any other `type`, which the reducer's default branch handles. */
  datatype AuthAction =
    | RestoreToken(token: Option<string>, restoredUserId: Option<string>)
    | SignIn(signInToken: string, signInUserId: string)
    | SignOut
    | Unknown(kind: string)

  const InitialState: AuthState := AuthState(false, false, None, None)

  const SignedOutScreens: seq<Screen> := [Login, EmailVerification, CodeVerification, CompleteRegistration]

  function Reducer(state: AuthState, action: AuthAction): AuthState
  {
    match action
    case RestoreToken(token, userId) => state.(userToken := token, userId := userId, isLoading := false)
    case SignIn(token, userId) => state.(isSignout := false, userToken := Some(token), userId := Some(userId))
    case SignOut => state.(isSignout := true, userToken := None, userId := None)
    case Unknown(_) => state
  }

  /** The state after `useReducer` has dispatched the actions one after another. */
  function ReduceAll(state: AuthState, actions: seq<AuthAction>): AuthState
    decreases |actions|
  {
    if actions == [] then state else ReduceAll(Reducer(state, actions[0]), actions[1..])
  }

  /** The screens the navigator renders: the splash screen while loading, then one of two stacks. */
  function Screens(state: AuthState): (r: seq<Screen>)
    ensures Main in r <==> !state.isLoading && state.userToken.Some?
    ensures Login in r <==> !state.isLoading && state.userToken.None?
    ensures r == [Splash] <==> state.isLoading
    ensures !state.isLoading ==>
      (r == [Main] <==> state.userToken.Some?) && (r == SignedOutScreens <==> state.userToken.None?)
  {
    if state.isLoading then [Splash]
    else if state.userToken.None? then SignedOutScreens
    else [Main]
  }

  // ---------------------------------------------------------------------------
  // One action at a time

  lemma InitialStateShape()
    ensures !InitialState.isLoading && !InitialState.isSignout
    ensures InitialState.userToken == None && InitialState.userId == None
    ensures Screens(InitialState) == SignedOutScreens
  {
  }

  lemma RestoreTokenEffect(s: AuthState, token: Option<string>, userId: Option<string>)
    ensures var r := Reducer(s, RestoreToken(token, userId));
      r.userToken == token && r.userId == userId && !r.isLoading && r.isSignout == s.isSignout
  {
  }

  lemma SignInEffect(s: AuthState, token: string, userId: string)
    ensures var r := Reducer(s, SignIn(token, userId));
      && r.userToken == Some(token) && r.userId == Some(userId) && !r.isSignout
      && r.isLoading == s.isLoading
      && (!s.isLoading ==> Screens(r) == [Main])
  {
  }

  lemma SignOutEffect(s: AuthState)
    ensures var r := Reducer(s, SignOut);
      && r.isSignout && r.userToken == None && r.userId == None
      && r.isLoading == s.isLoading
      && (!s.isLoading ==> Screens(r) == SignedOutScreens)
  {
  }

  lemma SignOutIdempotent(s: AuthState)
    ensures Reducer(Reducer(s, SignOut), SignOut) == Reducer(s, SignOut)
  {
  }

  lemma UnknownActionIgnored(s: AuthState, kind: string)
    ensures Reducer(s, Unknown(kind)) == s
  {
  }

  // ---------------------------------------------------------------------------
  // Sequences of actions

  lemma {:induction false} ReduceAllAppend(s: AuthState, a: seq<AuthAction>, b: seq<AuthAction>)
    ensures ReduceAll(s, a + b) == ReduceAll(ReduceAll(s, a), b)
    decreases |a|
  {
    if a == [] {
      assert a + b == b;
    } else {
      assert (a + b)[0] == a[0] && (a + b)[1..] == a[1..] + b;
      ReduceAllAppend(Reducer(s, a[0]), a[1..], b);
    }
  }

  /** Once loading has stopped, only a RESTORE_TOKEN could have stopped it, and nothing restarts it. */
  lemma {:induction false} LoadingEndsOnlyOnRestore(s: AuthState, actions: seq<AuthAction>)
    ensures ReduceAll(s, actions).isLoading
        <==> s.isLoading && forall i :: 0 <= i < |actions| ==> !actions[i].RestoreToken?
    decreases |actions|
  {
    if actions != [] {
      LoadingEndsOnlyOnRestore(Reducer(s, actions[0]), actions[1..]);
      assert forall i :: 1 <= i < |actions| ==> actions[i] == actions[1..][i - 1];
    }
  }

  /** The token left by the last action that sets one (reading the actions from the end). */
  function TokenAfter(start: Option<string>, actions: seq<AuthAction>): Option<string>
    decreases |actions|
  {
    if actions == [] then start
    else
      match actions[|actions| - 1]
      case RestoreToken(token, _) => token
      case SignIn(token, _) => Some(token)
      case SignOut => None
      case Unknown(_) => TokenAfter(start, actions[..|actions| - 1])
  }

  /** Dispatching the actions leaves the token of the last action that sets one. */
  lemma {:induction false} TokenIsLastSet(s: AuthState, actions: seq<AuthAction>)
    ensures ReduceAll(s, actions).userToken == TokenAfter(s.userToken, actions)
    decreases |actions|
  {
    if actions != [] {
      var n := |actions| - 1;
      var front := actions[..n];
      assert actions == front + [actions[n]];
      ReduceAllAppend(s, front, [actions[n]]);
      TokenIsLastSet(s, front);
    }
  }
}
