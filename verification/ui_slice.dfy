/**
 * The `Ui` slice of the global store (`store/reducers/Ui/UiReducer.ts`):
 * theme preference, global loading flag and sidebar visibility.
 */
module UiSlice {
  import opened Wrappers
  import opened AppAction

  datatype UiState = UiState(globalLoading: bool, theme: UiTheme, sidebarOpen: bool)

  function UiInitialState(): (s: UiState)
    ensures !s.globalLoading && s.theme == Light && !s.sidebarOpen
  {
    UiState(false, Light, false)
  }

  /** JavaScript's `Boolean(payload)` for a payload that is a boolean or absent. */
  function Truthy(payload: Option<bool>): (b: bool)
    ensures b <==> payload == Some(true)
  {
    match payload
    case Some(v) => v
    case None => false
  }

  function UiReducer(state: UiState, action: Action): (r: UiState)
    ensures action.UiSetGlobalLoading? ==>
      r.globalLoading == (action.loading == Some(true))
      && r.theme == state.theme && r.sidebarOpen == state.sidebarOpen
    // ui/setTheme: the payload when present, otherwise the old theme
    ensures action.UiSetTheme? ==>
      r.theme == action.theme.GetOr(state.theme)
      && r.globalLoading == state.globalLoading && r.sidebarOpen == state.sidebarOpen
    ensures action.UiToggleSidebar? ==>
      r.sidebarOpen != state.sidebarOpen
      && r.globalLoading == state.globalLoading && r.theme == state.theme
    ensures action.UiSetSidebarOpen? ==>
      r.sidebarOpen == (action.open == Some(true))
      && r.globalLoading == state.globalLoading && r.theme == state.theme
    ensures !IsUiAction(action) ==> r == state
  {
    match action
    case UiSetGlobalLoading(loading) => state.(globalLoading := Truthy(loading))
    case UiSetTheme(theme) => state.(theme := if theme.Some? then theme.value else state.theme)
    case UiToggleSidebar => state.(sidebarOpen := !state.sidebarOpen)
    case UiSetSidebarOpen(open) => state.(sidebarOpen := Truthy(open))
    case _ => state
  }

  /** How many of the three fields differ between two states. */
  function ChangedFields(s: UiState, t: UiState): (n: nat)
    ensures n == 0 <==> s == t
    ensures n <= 3
  {
    (if s.globalLoading != t.globalLoading then 1 else 0)
    + (if s.theme != t.theme then 1 else 0)
    + (if s.sidebarOpen != t.sidebarOpen then 1 else 0)
  }

  /** Every action changes at most one field of the slice. */
  lemma AtMostOneFieldChanges(s: UiState, a: Action)
    ensures ChangedFields(s, UiReducer(s, a)) <= 1
    ensures a.UiToggleSidebar? ==> ChangedFields(s, UiReducer(s, a)) == 1
  {
  }

  lemma ToggleSidebarTwiceRestores(s: UiState)
    ensures UiReducer(UiReducer(s, UiToggleSidebar), UiToggleSidebar) == s
  {
  }

  lemma SetSidebarOpenIdempotent(s: UiState, open: Option<bool>)
    ensures UiReducer(UiReducer(s, UiSetSidebarOpen(open)), UiSetSidebarOpen(open))
         == UiReducer(s, UiSetSidebarOpen(open))
  {
  }

  lemma SetThemeIdempotent(s: UiState, theme: Option<UiTheme>)
    ensures UiReducer(UiReducer(s, UiSetTheme(theme)), UiSetTheme(theme))
         == UiReducer(s, UiSetTheme(theme))
  {
  }
}
