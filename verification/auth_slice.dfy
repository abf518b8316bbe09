/**
 * The `Auth` slice of the global store (`store/reducers/Auth/AuthReducer.ts`):
 * its state, its initial value and its pure reducer.
 */
module AuthSlice {
  import opened Wrappers
  import opened AppAction

  datatype AuthState = AuthState(
    checkingSession: bool,
    isAuthenticated: bool,
    user: Option<AuthUser>,     // null when nobody is logged in
    authError: Option<string>)  // null when there is no error

  /** The message stored by a failed session check that carries no payload. */
  const SessionCheckFailed: string := "Session check failed"

  function AuthInitialState(): (s: AuthState)
    ensures s.checkingSession && !s.isAuthenticated && s.user == None && s.authError == None
  {
    AuthState(true, false, None, None)
  }

  /** The state every `auth/logout` produces, whatever came before. */
  function LoggedOut(): (s: AuthState)
    ensures !s.checkingSession && !s.isAuthenticated && s.user == None && s.authError == None
  {
    AuthState(false, false, None, None)
  }

  /** True for the action kinds the switch of the reducer has a case for. */
  predicate Recognised(a: Action) {
    IsAuthAction(a)
  }

  function AuthReducer(state: AuthState, action: Action): (r: AuthState)
    // auth/check/start: clears the flag and the error, keeps the session
    ensures action.AuthCheckStart? ==>
      !r.checkingSession && r.authError == None
      && r.isAuthenticated == state.isAuthenticated && r.user == state.user
    // auth/check/success: the payload becomes the authenticated user
    ensures action.AuthCheckSuccess? ==>
      !r.checkingSession && r.isAuthenticated && r.user == action.user && r.authError == None
    // auth/check/failure: signed out, error is the payload or the default message
    ensures action.AuthCheckFailure? ==>
      !r.checkingSession && !r.isAuthenticated && r.user == None
      && r.authError == Some(action.message.GetOr(SessionCheckFailed))
    ensures action.AuthLogout? ==> r == LoggedOut()
    // every other action type: the input state itself
    ensures !Recognised(action) ==> r == state
  {
    match action
    case AuthCheckStart => state.(checkingSession := false, authError := None)
    case AuthCheckSuccess(user) => AuthState(false, true, user, None)
    case AuthCheckFailure(message) =>
      AuthState(false, false, None, Some(if message.Some? then message.value else SessionCheckFailed))
    case AuthLogout => AuthState(false, false, None, None)
    case _ => state
  }

  /** `isAuthenticated` holds exactly when a user is present. */
  predicate Consistent(s: AuthState) {
    s.isAuthenticated <==> s.user.Some?
  }

  /** A `auth/check/success` action must carry a user for the slice to stay consistent. */
  predicate WellFormed(a: Action) {
    a.AuthCheckSuccess? ==> a.user.Some?
  }

  /** Applies the reducer to the actions in order: the left fold of `AuthReducer`. */
  function RunAuth(s: AuthState, actions: seq<Action>): AuthState
    decreases |actions|
  {
    if actions == [] then s
    else AuthReducer(RunAuth(s, actions[..|actions| - 1]), actions[|actions| - 1])
  }

  lemma LogoutForgetsHistory(s: AuthState, t: AuthState)
    ensures AuthReducer(s, AuthLogout) == AuthReducer(t, AuthLogout) == LoggedOut()
  {
  }

  /** A success action whose payload is absent breaks the invariant: the `WellFormed` premise is needed. */
  lemma AbsentSuccessPayloadBreaksConsistency(s: AuthState)
    ensures !Consistent(AuthReducer(s, AuthCheckSuccess(None)))
  {
  }

  lemma ReducerPreservesConsistency(s: AuthState, a: Action)
    requires Consistent(s) && WellFormed(a)
    ensures Consistent(AuthReducer(s, a))
  {
  }

  /** Reachable-state invariant: from any consistent state, through well-formed actions. */
  lemma {:induction false} RunPreservesConsistency(s: AuthState, actions: seq<Action>)
    requires Consistent(s)
    requires forall i :: 0 <= i < |actions| ==> WellFormed(actions[i])
    ensures Consistent(RunAuth(s, actions))
    decreases |actions|
  {
    if actions != [] {
      var prefix := actions[..|actions| - 1];
      RunPreservesConsistency(s, prefix);
      ReducerPreservesConsistency(RunAuth(s, prefix), actions[|actions| - 1]);
    }
  }

  lemma InitialConsistent()
    ensures Consistent(AuthInitialState())
  {
  }

  /**
   * `checkingSession` stays true only while no action of the slice has been
   * reduced: every recognised action clears it and none sets it again.
   */
  lemma {:induction false} CheckingOnlyWhenUntouched(actions: seq<Action>)
    ensures RunAuth(AuthInitialState(), actions).checkingSession
        <==> forall i :: 0 <= i < |actions| ==> !Recognised(actions[i])
    decreases |actions|
  {
    if actions != [] {
      var prefix := actions[..|actions| - 1];
      CheckingOnlyWhenUntouched(prefix);
      var last := actions[|actions| - 1];
      if forall i :: 0 <= i < |prefix| ==> !Recognised(prefix[i]) {
        if !Recognised(last) {
          forall i | 0 <= i < |actions| ensures !Recognised(actions[i]) {
            if i < |prefix| { assert actions[i] == prefix[i]; }
          }
        }
      } else {
        var j :| 0 <= j < |prefix| && Recognised(prefix[j]);
        assert actions[j] == prefix[j];
      }
    }
  }
}
