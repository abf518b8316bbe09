/**
 * The global store (`store/AppStore.tsx`): the two slices combined into one
 * state, the root reducer that hands every action to both slice reducers,
 * and the provider's state cell that `dispatch` replaces one action at a time.
 */
module AppStore {
  import opened Wrappers
  import opened AppAction
  import opened AuthSlice
  import opened UiSlice

  datatype AppState = AppState(auth: AuthState, ui: UiState)

  function InitialState(): (s: AppState)
    ensures s.auth == AuthInitialState() && s.ui == UiInitialState()
  {
    AppState(AuthInitialState(), UiInitialState())
  }

  /** Broadcast: each slice reducer sees the same action. */
  function RootReducer(state: AppState, action: Action): (r: AppState)
    ensures IsAuthAction(action) ==> r.ui == state.ui
    ensures IsUiAction(action) ==> r.auth == state.auth
    ensures !IsAuthAction(action) && !IsUiAction(action) ==> r == state
  {
    AppState(AuthReducer(state.auth, action), UiReducer(state.ui, action))
  }

  /** The state after dispatching `actions` in order: the left fold of `RootReducer`. */
  function Run(s: AppState, actions: seq<Action>): AppState
    decreases |actions|
  {
    if actions == [] then s
    else RootReducer(Run(s, actions[..|actions| - 1]), actions[|actions| - 1])
  }

  /** Dispatching `xs` and then `ys` is dispatching `xs + ys`. */
  lemma {:induction false} RunConcat(s: AppState, xs: seq<Action>, ys: seq<Action>)
    ensures Run(s, xs + ys) == Run(Run(s, xs), ys)
    decreases |ys|
  {
    if ys != [] {
      var ys' := ys[..|ys| - 1];
      assert (xs + ys)[..|xs + ys| - 1] == xs + ys';
      RunConcat(s, xs, ys');
    } else {
      assert xs + ys == xs;
    }
  }

  /** The auth slice of the store evolves exactly as the auth reducer alone would. */
  lemma {:induction false} RunProjectsToAuth(s: AppState, actions: seq<Action>)
    ensures Run(s, actions).auth == RunAuth(s.auth, actions)
    decreases |actions|
  {
    if actions != [] {
      RunProjectsToAuth(s, actions[..|actions| - 1]);
    }
  }

  /** Only `ui/` actions can change the UI slice. */
  lemma {:induction false} UiUnchangedWithoutUiActions(s: AppState, actions: seq<Action>)
    requires forall i :: 0 <= i < |actions| ==> !IsUiAction(actions[i])
    ensures Run(s, actions).ui == s.ui
    decreases |actions|
  {
    if actions != [] {
      UiUnchangedWithoutUiActions(s, actions[..|actions| - 1]);
    }
  }

  /**
   * In every state the store reaches from its initial state, `isAuthenticated`
   * holds exactly when `user` is non-null, provided success actions carry a user.
   */
  lemma ReachableAuthConsistent(actions: seq<Action>)
    requires forall i :: 0 <= i < |actions| ==> WellFormed(actions[i])
    ensures Run(InitialState(), actions).auth.isAuthenticated
        <==> Run(InitialState(), actions).auth.user.Some?
  {
    RunProjectsToAuth(InitialState(), actions);
    InitialConsistent();
    RunPreservesConsistency(AuthInitialState(), actions);
  }

  /** The provider's state cell, as created by `useReducer(rootReducer, initialState)`. */
  class Store {
    var state: AppState
    ghost var dispatched: seq<Action>

    ghost predicate Valid()
      reads this
    {
      state == Run(InitialState(), dispatched)
    }

    constructor ()
      ensures Valid() && dispatched == [] && state == InitialState()
    {
      state := InitialState();
      dispatched := [];
    }

    method Dispatch(action: Action)
      requires Valid()
      modifies this
      ensures Valid()
      ensures dispatched == old(dispatched) + [action]
      ensures state == RootReducer(old(state), action)
      ensures (forall i :: 0 <= i < |dispatched| ==> WellFormed(dispatched[i]))
          ==> (state.auth.isAuthenticated <==> state.auth.user.Some?)
    {
      state := RootReducer(state, action);
      dispatched := dispatched + [action];
      assert dispatched[..|dispatched| - 1] == old(dispatched);
      if forall i :: 0 <= i < |dispatched| ==> WellFormed(dispatched[i]) {
        ReachableAuthConsistent(dispatched);
      }
    }
  }

  const MissingProvider: string := "useAppStore must be used within an AppStoreProvider"

  /** `useAppStore`: the provider's store, or an error when no provider is mounted above. */
  function UseAppStore(context: Option<Store>): (r: Result<Store, string>)
    ensures r.Success? <==> context.Some?
    ensures r.Success? ==> r.value == context.value
    ensures r.Failure? ==> r.error == MissingProvider
  {
    match context
    case Some(store) => Success(store)
    case None => Failure(MissingProvider)
  }
}
