/**
 * The global action type of the store (`types/AppAction.ts`), closed over
 * the action kinds the two slice reducers recognise. The source's action is
 * `{ type: string, payload?: unknown }`; here every known `type` string is
 * one constructor carrying its payload with the type the reducer casts it
 * to, and `Other` stands for every other `type` string.
 */
module AppAction {
  import opened Wrappers

  /** The user record of the `Auth` slice, as returned by `/api/me`. */
  datatype AuthUser = AuthUser(id: string, email: string, name: Option<string>, avatarUrl: Option<string>)

  /** The theme preference of the `Ui` slice. */
  datatype UiTheme = Light | Dark | System

  /** The eight `type` strings the two slice reducers have a case for. */
  predicate IsKnownKind(k: string) {
    k == "auth/check/start" || k == "auth/check/success" || k == "auth/check/failure" || k == "auth/logout"
    || k == "ui/setGlobalLoading" || k == "ui/setTheme" || k == "ui/toggleSidebar" || k == "ui/setSidebarOpen"
  }

  /** Any other `type` string: the reducers' `default` branch. */
  type UnknownKind = k: string | !IsKnownKind(k) witness ""

  datatype Action =
    | AuthCheckStart                               // "auth/check/start"
    | AuthCheckSuccess(user: Option<AuthUser>)     // "auth/check/success", payload cast to AuthUser
    | AuthCheckFailure(message: Option<string>)    // "auth/check/failure", optional string payload
    | AuthLogout                                   // "auth/logout"
    | UiSetGlobalLoading(loading: Option<bool>)    // "ui/setGlobalLoading"
    | UiSetTheme(theme: Option<UiTheme>)           // "ui/setTheme", payload cast to UiTheme
    | UiToggleSidebar                              // "ui/toggleSidebar"
    | UiSetSidebarOpen(open: Option<bool>)         // "ui/setSidebarOpen"
    | Other(kind: UnknownKind)                     // any other `type`

  predicate IsAuthAction(a: Action) {
    a.AuthCheckStart? || a.AuthCheckSuccess? || a.AuthCheckFailure? || a.AuthLogout?
  }

  predicate IsUiAction(a: Action) {
    a.UiSetGlobalLoading? || a.UiSetTheme? || a.UiToggleSidebar? || a.UiSetSidebarOpen?
  }

  /** The `type` string of an action: `auth/…` for the auth slice, `ui/…` for the UI slice. */
  function Kind(a: Action): (k: string)
    ensures IsAuthAction(a) ==> |k| > 5 && k[..5] == "auth/"
    ensures IsUiAction(a) ==> |k| > 3 && k[..3] == "ui/"
    ensures a.Other? ==> k == a.kind
    ensures IsKnownKind(k) <==> !a.Other?
  {
    match a
    case AuthCheckStart => "auth/check/start"
    case AuthCheckSuccess(_) => "auth/check/success"
    case AuthCheckFailure(_) => "auth/check/failure"
    case AuthLogout => "auth/logout"
    case UiSetGlobalLoading(_) => "ui/setGlobalLoading"
    case UiSetTheme(_) => "ui/setTheme"
    case UiToggleSidebar => "ui/toggleSidebar"
    case UiSetSidebarOpen(_) => "ui/setSidebarOpen"
    case Other(k) => k
  }

  /**
   * Every kind has its own `type` string: two actions with the same `type`
   * are of the same kind, and two unknown actions with the same `type` are equal.
   */
  lemma KindInjective(a: Action, b: Action)
    requires Kind(a) == Kind(b)
    ensures a.AuthCheckStart? == b.AuthCheckStart? && a.AuthCheckSuccess? == b.AuthCheckSuccess?
    ensures a.AuthCheckFailure? == b.AuthCheckFailure? && a.AuthLogout? == b.AuthLogout?
    ensures a.UiSetGlobalLoading? == b.UiSetGlobalLoading? && a.UiSetTheme? == b.UiSetTheme?
    ensures a.UiToggleSidebar? == b.UiToggleSidebar? && a.UiSetSidebarOpen? == b.UiSetSidebarOpen?
    ensures a.Other? == b.Other? && (a.Other? ==> a == b)
  {
  }
}
