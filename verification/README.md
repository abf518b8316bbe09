# Atlas Studio: the client state, page hooks and user table, in Dafny

This project models the logic core of Atlas Studio. It is a Next.js front end with a global store, and a Spring back end that keeps a user table.

- **Global store.** The modules `AppAction`, `AuthSlice`, `UiSlice` and `AppStore` hold the auth and UI slice reducers. The root reducer broadcasts each action to both. The provider's state cell is a `Store` class whose `Dispatch` keeps the state equal to the left fold of the root reducer over everything dispatched.
- **Theme resolution.** `ThemeInitializer` and `ChangeTheme` hold the tri-state preference `light`/`dark`/`system` and its resolution to `light`/`dark`. This covers validating the stored string, the reconcile dispatch, the `data-theme` marker, the persisted raw value, the OS-signal listener and the toggle rule.
- **Page hooks.** `UseLogin`, `UseRegister`, `UseWebCreator` and `UseIntroScreen` hold classes whose fields are the hooks' state. `CheckSession.UseCheckSession` is a function of the auth slice, because that hook only reads the store.
  - A `fetch` round trip is an input `FetchResult` (module `Fetch`): a network error, or a status with a body.
  - The requests issued, the route changes, and the `setTimeout` redirects are outputs.
  - A backend URL of `""` stands for `NEXT_PUBLIC_BACKEND_URL` being undefined.
- **Export-line appender.** `ReducerIndex` models `tools/add-reducer-to-index.mjs`. It covers JavaScript's `trim`/`trimEnd` whitespace set, the `/\r?\n/` split, the already-exists check and the new-content template. The script's run is a method over a directory object holding `index.ts`, with the read and write failures as inputs.
- **User table.** `UserRepository`, `AuthController` and `OAuth2UserService` hold the user table and its two services.
  - The table is a sequence of rows whose position is their generated id, with the two derived finders and `save`.
  - `register` and `me` are on the controller, and `loadUser` is on the OAuth2 user service.
  - The password encoder is a function given to the controller.

Three behaviours of the code are worth stating outright:

- With no window, `useChangeTheme` resolves `system` to `light` (`atlasstudio-frontend/src/hooks/useChangeTheme/useChangeTheme.ts:38-41`), and `ChangeTheme.Resolve` does the same.
- `useCheckSession` issues no request and dispatches nothing. It only reads the auth slice (`atlasstudio-frontend/src/hooks/useCheckSession/useCheckSession.ts:48-62`).
- `auth/check/start` clears `checkingSession` rather than setting it (`atlasstudio-frontend/src/store/reducers/Auth/AuthReducer.ts:84-89`).

## Model

| member | source | states |
|---|---|---|
| AppAction.Kind | atlasstudio-frontend/src/store/reducers/Auth/AuthReducer.ts:83-118 | Every auth action's `type` starts with `auth/` and every UI action's with `ui/`; any other action keeps its own `type` string, which is never one of the eight known ones. |
| AppAction.KindInjective | atlasstudio-frontend/src/store/reducers/Auth/AuthReducer.ts:83-123 | Two actions with the same `type` string are the same kind of action, and two unknown actions with the same `type` are equal. So the `switch` cases of the two reducers never overlap, and no `Other` action can carry a known `type`. |
| AuthSlice.AuthInitialState | atlasstudio-frontend/src/store/reducers/Auth/AuthReducer.ts:53-58 | The slice starts checking the session, signed out, with no user and no error. |
| AuthSlice.LoggedOut | atlasstudio-frontend/src/store/reducers/Auth/AuthReducer.ts:112-118 | The logged-out state has every flag false and no user or error. |
| AuthSlice.AuthReducer | atlasstudio-frontend/src/store/reducers/Auth/AuthReducer.ts:79-123 | `auth/check/start` clears the check flag and the error and keeps the session. `auth/check/success` signs in the payload user. `auth/check/failure` signs out with the payload message or `Session check failed`. `auth/logout` yields the logged-out state. Any other action returns the input state. |
| AuthSlice.LogoutForgetsHistory | atlasstudio-frontend/src/store/reducers/Auth/AuthReducer.ts:112-118 | Logging out from any two states gives the same logged-out state. |
| AuthSlice.AbsentSuccessPayloadBreaksConsistency | atlasstudio-frontend/src/store/reducers/Auth/AuthReducer.ts:91-98 | A success action with no user sets `isAuthenticated` without a user, so the invariant needs success payloads to be present. |
| AuthSlice.ReducerPreservesConsistency | atlasstudio-frontend/src/store/reducers/Auth/AuthReducer.ts:79-123 | One reduction keeps `isAuthenticated` equivalent to `user` being present. |
| AuthSlice.RunPreservesConsistency | atlasstudio-frontend/src/store/reducers/Auth/AuthReducer.ts:53-123 | The equivalence of `isAuthenticated` and a present `user` holds after any sequence of well-formed actions. |
| AuthSlice.InitialConsistent | atlasstudio-frontend/src/store/reducers/Auth/AuthReducer.ts:53-58 | The initial state satisfies the invariant. |
| AuthSlice.CheckingOnlyWhenUntouched | atlasstudio-frontend/src/store/reducers/Auth/AuthReducer.ts:84-118 | From the initial state, `checkingSession` is still true exactly when none of the reduced actions was an auth action. |
| UiSlice.UiInitialState | atlasstudio-frontend/src/store/reducers/Ui/UiReducer.ts:39-43 | The UI slice starts not loading, in the `light` theme, with the sidebar closed. |
| UiSlice.Truthy | atlasstudio-frontend/src/store/reducers/Ui/UiReducer.ts:69-93 | `Boolean(payload)` is true exactly for the payload `true`. |
| UiSlice.UiReducer | atlasstudio-frontend/src/store/reducers/Ui/UiReducer.ts:64-98 | Each of the four actions sets only its own field: loading to the payload's truthiness; the theme to the payload, or the old theme when there is none; the sidebar flag negated or set. Any other action returns the input state. |
| UiSlice.ChangedFields | atlasstudio-frontend/src/store/reducers/Ui/UiReducer.ts:16-32 | The count of differing fields is zero exactly when the two states are equal. |
| UiSlice.AtMostOneFieldChanges | atlasstudio-frontend/src/store/reducers/Ui/UiReducer.ts:68-97 | Every action changes at most one field; the sidebar toggle changes exactly one. |
| UiSlice.ToggleSidebarTwiceRestores | atlasstudio-frontend/src/store/reducers/Ui/UiReducer.ts:83-87 | Toggling the sidebar twice gives back the original state. |
| UiSlice.SetSidebarOpenIdempotent | atlasstudio-frontend/src/store/reducers/Ui/UiReducer.ts:89-93 | Setting the sidebar flag twice with the same payload equals setting it once. |
| UiSlice.SetThemeIdempotent | atlasstudio-frontend/src/store/reducers/Ui/UiReducer.ts:75-81 | Setting the theme twice with the same payload equals setting it once. |
| AppStore.InitialState | atlasstudio-frontend/src/store/AppStore.tsx:27-30 | The app state starts as the two slices' initial states. |
| AppStore.RootReducer | atlasstudio-frontend/src/store/AppStore.tsx:32-37 | An auth action leaves the UI slice unchanged, a UI action leaves the auth slice unchanged, and any other action leaves the whole state unchanged. |
| AppStore.RunConcat | atlasstudio-frontend/src/store/AppStore.tsx:47 | Dispatching two sequences one after the other is the same as dispatching their concatenation. |
| AppStore.RunProjectsToAuth | atlasstudio-frontend/src/store/AppStore.tsx:32-37 | The auth slice of the store evolves as the auth reducer alone would on the same actions. |
| AppStore.UiUnchangedWithoutUiActions | atlasstudio-frontend/src/store/AppStore.tsx:32-37 | A sequence with no UI action leaves the UI slice unchanged. |
| AppStore.ReachableAuthConsistent | atlasstudio-frontend/src/store/AppStore.tsx:27-47 | In every state reached from the initial one through well-formed actions, `isAuthenticated` holds exactly when `user` is present. |
| AppStore.Store.constructor | atlasstudio-frontend/src/store/AppStore.tsx:47 | The provider's state starts at the initial state, with nothing dispatched. |
| AppStore.Store.Dispatch | atlasstudio-frontend/src/store/AppStore.tsx:47 | The new state is the root reducer applied to the old state. The state remains the left fold over all dispatched actions, and it is consistent whenever every dispatched action is well formed. |
| AppStore.UseAppStore | atlasstudio-frontend/src/store/AppStore.tsx:56-62 | It succeeds exactly when a provider value is present, returning that value. Otherwise it fails with the provider-missing message. |
| ThemeInitializer.ParseStored | atlasstudio-frontend/src/hooks/useThemeInitializer/useThemeInitializer.ts:31-33 | A stored value is accepted exactly when it is `light`, `dark` or `system`. The accepted theme's name is the stored string. |
| ThemeInitializer.ThemeNameRoundTrip | atlasstudio-frontend/src/hooks/useThemeInitializer/useThemeInitializer.ts:31-57 | Reading back the persisted name of a theme gives that theme. |
| ThemeInitializer.ReconcileAction | atlasstudio-frontend/src/hooks/useThemeInitializer/useThemeInitializer.ts:33-40 | A `ui/setTheme` is produced exactly when the stored value is valid and differs from the store's theme, and it carries the stored theme. |
| ThemeInitializer.EffectiveTheme | atlasstudio-frontend/src/hooks/useThemeInitializer/useThemeInitializer.ts:46-53 | The effective theme is never `system`. It is `dark` exactly for `dark`, or for `system` with the OS dark signal. |
| ThemeInitializer.RestartRestoresPersistedTheme | atlasstudio-frontend/src/hooks/useThemeInitializer/useThemeInitializer.ts:28-57 | After a theme is persisted, a cold start from any UI state ends, after the reconcile dispatch, with that theme in the store. |
| ThemeInitializer.Browser.Stored | atlasstudio-frontend/src/hooks/useThemeInitializer/useThemeInitializer.ts:31 | The stored value is present exactly when local storage holds the theme key, and it is the value at that key. |
| ThemeInitializer.MountEffect | atlasstudio-frontend/src/hooks/useThemeInitializer/useThemeInitializer.ts:28-41 | Without a window there is no dispatch. Otherwise it makes the reconcile dispatch computed from storage. Any dispatch sets a present theme (`light`, `dark` or `system`) different from the current one. |
| ThemeInitializer.ThemeEffect | atlasstudio-frontend/src/hooks/useThemeInitializer/useThemeInitializer.ts:43-58 | Without a window and a document nothing is written. Otherwise `data-theme` becomes the effective theme (never `system`) and storage maps the key to the raw theme; every other storage key is kept. |
| ChangeTheme.InitialResolved | atlasstudio-frontend/src/hooks/useChangeTheme/useChangeTheme.ts:33-35 | The first resolved theme is `dark` exactly for `dark`, and never `system`. |
| ChangeTheme.Resolve | atlasstudio-frontend/src/hooks/useChangeTheme/useChangeTheme.ts:37-59 | The effect resolves an explicit theme to itself. It resolves `system` to `dark` exactly when there is a window and the OS signal is dark. |
| ChangeTheme.ResolveAgreesWithEffectiveTheme | atlasstudio-frontend/src/hooks/useChangeTheme/useChangeTheme.ts:43-58 | With a window, the hook's resolution equals the effective theme written to the document. |
| ChangeTheme.ToggleTarget | atlasstudio-frontend/src/hooks/useChangeTheme/useChangeTheme.ts:68-75 | The toggle target is never `system`. It is the opposite of an explicit theme, and for `system` it is the opposite of the resolved theme. |
| ChangeTheme.ToggleExplicitTwice | atlasstudio-frontend/src/hooks/useChangeTheme/useChangeTheme.ts:74 | Toggling an explicit theme twice restores it. |
| ChangeTheme.ToggleLeavesSystem | atlasstudio-frontend/src/hooks/useChangeTheme/useChangeTheme.ts:69-72 | After the store reduces the toggle's action, the theme is no longer `system`. |
| ChangeTheme.ThemeHook.constructor | atlasstudio-frontend/src/hooks/useChangeTheme/useChangeTheme.ts:33-35 | The first render's resolved theme is `dark` only for `dark`, and no listener is registered. |
| ChangeTheme.ThemeHook.RunEffect | atlasstudio-frontend/src/hooks/useChangeTheme/useChangeTheme.ts:37-59 | The effect sets the resolved theme to the resolution of the current theme. It subscribes exactly when the theme is `system` and there is a window. |
| ChangeTheme.ThemeHook.Rerender | atlasstudio-frontend/src/hooks/useChangeTheme/useChangeTheme.ts:37-59 | An unchanged theme leaves the hook alone. A new theme tears down the old listener and runs the effect for the new theme. |
| ChangeTheme.ThemeHook.MediaChange | atlasstudio-frontend/src/hooks/useChangeTheme/useChangeTheme.ts:46-51 | While subscribed, the resolved theme follows the OS signal. Otherwise it is unchanged. |
| ChangeTheme.ThemeHook.Unmount | atlasstudio-frontend/src/hooks/useChangeTheme/useChangeTheme.ts:53-55 | Teardown leaves no listener registered. |
| ChangeTheme.ThemeHook.SetTheme | atlasstudio-frontend/src/hooks/useChangeTheme/useChangeTheme.ts:61-66 | `setTheme(t)` dispatches `ui/setTheme` with payload `t`. |
| ChangeTheme.ThemeHook.ToggleTheme | atlasstudio-frontend/src/hooks/useChangeTheme/useChangeTheme.ts:68-75 | `toggleTheme` dispatches an explicit theme. It differs from the current explicit theme, or from the resolved theme when in `system` mode. |
| CheckSession.UseCheckSession | atlasstudio-frontend/src/hooks/useCheckSession/useCheckSession.ts:48-62 | `checkingSession` is always false. A redirect happens exactly when the user is authenticated and a non-empty target is given, and it replaces the route with that target. |
| CheckSession.OnlyAuthenticationMatters | atlasstudio-frontend/src/hooks/useCheckSession/useCheckSession.ts:53-59 | The hook's result depends on the auth slice only through `isAuthenticated`. |
| Fetch.Message | atlasstudio-frontend/src/hooks/useRegister/useRegister.ts:206-207 | `data?.message` is present exactly when the body is an object with a `message` field. |
| UseLogin.LoginPage.constructor | atlasstudio-frontend/src/hooks/useLogin/useLogin.ts:124-130 | The login page starts checking the session, with no loading flag and no error. |
| UseLogin.LoginPage.CheckSessionOnMount | atlasstudio-frontend/src/hooks/useLogin/useLogin.ts:133-158 | With no backend URL there is no request and the check ends. An ok `/api/me` replaces the route with `/WebCreator` and keeps `checkingSession`. A non-ok status or a network error ends the check with no redirect. |
| UseLogin.LoginPage.HandleGoogleLogin | atlasstudio-frontend/src/hooks/useLogin/useLogin.ts:160-167 | With a URL it sets `loadingGoogle` and assigns the Google authorization URL. Without one nothing changes. |
| UseLogin.LoginPage.HandleLocalLogin | atlasstudio-frontend/src/hooks/useLogin/useLogin.ts:169-204 | It clears the error first. With no URL nothing else happens. Otherwise it posts to `/api/auth/login`: ok redirects to `/WebCreator`, non-ok sets `Invalid credentials`, and a network error sets the unexpected-error message. `localLoading` is false afterwards. |
| UseRegister.PasswordsMismatch | atlasstudio-frontend/src/hooks/useRegister/useRegister.ts:217-220 | The warning shows exactly when both fields are non-empty and differ. |
| UseRegister.RejectionMessage | atlasstudio-frontend/src/hooks/useRegister/useRegister.ts:205-208 | A rejected registration shows the body's `message`, or `Could not register. Try again.` when there is none or the body does not parse. |
| UseRegister.MismatchWarningIsStricterThanSubmitCheck | atlasstudio-frontend/src/hooks/useRegister/useRegister.ts:188-220 | The warning implies that submission is refused. The converse fails: a non-empty password with an empty confirmation is refused without a warning. |
| UseRegister.RegisterPage.constructor | atlasstudio-frontend/src/hooks/useRegister/useRegister.ts:162-168 | Every field starts empty and no flag is set. |
| UseRegister.RegisterPage.HandleGoogleRegister | atlasstudio-frontend/src/hooks/useRegister/useRegister.ts:170-177 | With a URL it sets `loadingGoogle` and assigns the Google authorization URL. Without one nothing changes. |
| UseRegister.RegisterPage.HandleRegister | atlasstudio-frontend/src/hooks/useRegister/useRegister.ts:179-215 | It clears the error first. A missing URL, or unequal passwords (`Passwords do not match`), means no request. Otherwise it posts to `/api/auth/register`: ok pushes `/Login`, non-ok shows the rejection message, and a network error shows the unexpected-error message. `loading` is false afterwards. |
| UseWebCreator.WebCreatorPage.constructor | atlasstudio-frontend/src/hooks/useWebCreator/useWebCreator.ts:65-66 | The page starts with no user and loading. |
| UseWebCreator.WebCreatorPage.FetchUser | atlasstudio-frontend/src/hooks/useWebCreator/useWebCreator.ts:68-98 | `loading` is false after every path. A 401 replaces the route with `/Login`. An ok status with a parsed body stores that body as the user. Every other outcome leaves the user unchanged, with no redirect. |
| UseIntroScreen.IntroScreen.constructor | atlasstudio-frontend/src/hooks/useIntroScreen/useIntroScreen.ts:114-124 | The defaults are breakpoint 1024, path `/Login` and 650 ms. The intro starts undecided, with no animation and the guard open. |
| UseIntroScreen.IntroScreen.IsSliding | atlasstudio-frontend/src/hooks/useIntroScreen/useIntroScreen.ts:188 | Sliding holds exactly when the animation is `slide`. |
| UseIntroScreen.IntroScreen.IsFading | atlasstudio-frontend/src/hooks/useIntroScreen/useIntroScreen.ts:186-191 | Fading holds exactly when the animation is `fade`, and it excludes sliding. |
| UseIntroScreen.IntroScreen.Mount | atlasstudio-frontend/src/hooks/useIntroScreen/useIntroScreen.ts:148-157 | At desktop width or wider, the intro is refused and the route is replaced with the redirect path. Otherwise the intro is allowed. |
| UseIntroScreen.IntroScreen.StartTransition | atlasstudio-frontend/src/hooks/useIntroScreen/useIntroScreen.ts:126-146 | The first trigger sets its animation and schedules one redirect after the duration. Every later trigger does nothing. |
| UseIntroScreen.IntroScreen.TriggerSlideToLogin | atlasstudio-frontend/src/hooks/useIntroScreen/useIntroScreen.ts:126-135 | The first trigger starts the slide and schedules the redirect. After that it does nothing. |
| UseIntroScreen.IntroScreen.TriggerFadeToLogin | atlasstudio-frontend/src/hooks/useIntroScreen/useIntroScreen.ts:137-146 | The first trigger starts the fade and schedules the redirect. After that it does nothing. |
| UseIntroScreen.IntroScreen.OnWheel | atlasstudio-frontend/src/hooks/useIntroScreen/useIntroScreen.ts:159-171 | The slide is triggered only when the intro is allowed and the absolute value of `deltaY` exceeds 20. A started animation never changes. |
| UseIntroScreen.IntroScreen.OnResize | atlasstudio-frontend/src/hooks/useIntroScreen/useIntroScreen.ts:173-184 | The fade is triggered only when the intro is allowed and the width reaches the breakpoint. A started animation never changes. |
| UseIntroScreen.TwoTriggersScheduleOneRedirect | atlasstudio-frontend/src/hooks/useIntroScreen/useIntroScreen.ts:124-146 | A slide followed by any resize schedules exactly one redirect, and the animation stays `slide`. |
| ReducerIndex.TrimEnd | tools/add-reducer-to-index.mjs:73 | `trimEnd` returns a prefix that does not end in whitespace and drops only whitespace. |
| ReducerIndex.TrimStart | tools/add-reducer-to-index.mjs:62 | Trimming the start returns a suffix that does not start with whitespace and drops only whitespace. |
| ReducerIndex.Trim | tools/add-reducer-to-index.mjs:62 | `trim` is no longer than its input, and a non-empty result neither starts nor ends with whitespace. |
| ReducerIndex.TrimIsSlice | tools/add-reducer-to-index.mjs:62 | `trim` is a contiguous slice of its input that ends where `trimEnd` ends, and everything cut from either side is whitespace. |
| ReducerIndex.TrimFixed | tools/add-reducer-to-index.mjs:62 | A string that neither starts nor ends with whitespace is its own trim. |
| ReducerIndex.TrimEmptyIffBlank | tools/add-reducer-to-index.mjs:72 | The trim is empty exactly when the content is all whitespace. |
| ReducerIndex.SplitLines | tools/add-reducer-to-index.mjs:61 | Splitting on `\r?\n` yields at least one line, and no line contains a line feed. |
| ReducerIndex.SingleLine | tools/add-reducer-to-index.mjs:61 | A string without a line feed splits into itself alone. |
| ReducerIndex.SplitAtLineFeed | tools/add-reducer-to-index.mjs:61 | Splitting `x + "\n" + y`, where `x` does not end in CR and has no line feed, gives `x`'s lines followed by `y`'s. |
| ReducerIndex.SplitAtCarriageReturnLineFeed | tools/add-reducer-to-index.mjs:61 | Splitting `x + "\r\n" + y`, where `x` does not end in CR, gives `x`'s lines followed by `y`'s: a CRLF separates lines and leaves no CR behind. |
| ReducerIndex.ExportLine | tools/add-reducer-to-index.mjs:37 | The export line is `export * from "./`, then the name, then `";`, so it is 19 characters longer than the name. |
| ReducerIndex.ExportLineShape | tools/add-reducer-to-index.mjs:37 | The export line is its own trim and ends in `;`, and it has a line feed exactly when the name does. |
| ReducerIndex.ExportLineFeeds | tools/add-reducer-to-index.mjs:37 | The export line contains a line feed exactly when the name does. |
| ReducerIndex.AlreadyExists | tools/add-reducer-to-index.mjs:61-62 | The check holds exactly when some line of the `\r?\n` split, once trimmed, equals the export line. |
| ReducerIndex.NewContent | tools/add-reducer-to-index.mjs:71-74 | The new content keeps the old content without its trailing whitespace as a prefix, followed by a line feed, the export line and a final line feed, and is exactly that long. When the old content is blank it is just the export line and a line feed. |
| ReducerIndex.ValidateName | tools/add-reducer-to-index.mjs:20-31 | A name is accepted exactly when the argument is present and not blank after trimming, and the accepted name is the trimmed argument. |
| ReducerIndex.Apply | tools/add-reducer-to-index.mjs:61-77 | Its ensures are the script's own decision (unchanged when a trimmed line equals the export line, otherwise the new content). What it guarantees is proved in `ReducerIndex.NewContentHasLine` and `ReducerIndex.ApplyIdempotent`. |
| ReducerIndex.NewContentHasLine | tools/add-reducer-to-index.mjs:61-74 | After an append, the export line is found by the already-exists check. |
| ReducerIndex.ApplyIdempotent | tools/add-reducer-to-index.mjs:61-74 | For a name without a line feed, running the tool twice leaves what running it once left. |
| ReducerIndex.TrimKeepsLineFeedOut | tools/add-reducer-to-index.mjs:62 | Trimming a line without a line feed yields no line feed. |
| ReducerIndex.NeverFoundWithLineFeed | tools/add-reducer-to-index.mjs:61-62 | An export line containing a line feed is never found in any content. |
| ReducerIndex.NameWithLineFeedNotIdempotent | tools/add-reducer-to-index.mjs:61-74 | For a name containing a line feed, every run appends again. |
| ReducerIndex.OnceEndsWithLine | tools/add-reducer-to-index.mjs:71-74 | After an append, the content ends with the export line and a line feed, preceded by at least one character. |
| ReducerIndex.TrimEndOfLineFeedTerminated | tools/add-reducer-to-index.mjs:72-73 | Content ending in `...;\n` is not blank, and `trimEnd` drops only the final line feed. |
| ReducerIndex.AddReducerToIndex | tools/add-reducer-to-index.mjs:18-87 | A missing or blank name exits 1 without writing. A failed read of an existing file exits 1. A missing file reads as empty. A present line exits 0 without writing. A failed write exits 1. Otherwise the index becomes the new content. |
| UserRepository.FirstIndex | atlasstudio/src/main/java/com/reimii/atlasstudio/repository/UserRepository.java:11-13 | The first matching row's index, and `None` exactly when no row matches. |
| UserRepository.FindUnique | atlasstudio/src/main/java/com/reimii/atlasstudio/repository/UserRepository.java:11-13 | A single-result finder: no match exactly when no row matches; a match names the only matching row; several matches (an error in Spring Data) exactly when two distinct rows match. |
| UserRepository.UserRepository.FindByEmail | atlasstudio/src/main/java/com/reimii/atlasstudio/repository/UserRepository.java:13 | No match exactly when no row has the email; a match is the only row with it; several matches exactly when two rows have it. |
| UserRepository.UserRepository.FindByProviderAndProviderId | atlasstudio/src/main/java/com/reimii/atlasstudio/repository/UserRepository.java:11 | No match exactly when no row has the (provider, providerId) key; a match is the only row with it; several matches exactly when two rows have it. |
| UserRepository.UserRepository.UniqueEmailsFindAtMostOne | atlasstudio/src/main/java/com/reimii/atlasstudio/repository/UserRepository.java:13 | When emails are unique, the email finder never reports several matches. |
| UserRepository.UserRepository.UniqueKeysFindAtMostOne | atlasstudio/src/main/java/com/reimii/atlasstudio/repository/UserRepository.java:11 | When provider keys are unique, the key finder never reports several matches. |
| UserRepository.UserRepository.Save | atlasstudio/src/main/java/com/reimii/atlasstudio/repository/UserRepository.java:9 | A row with a known id is replaced in place. Any other row is appended with the next id. |
| AuthController.IsBlank | atlasstudio-backend/src/main/java/com/reimii/atlasstudio/controller/AuthController.java:45-46 | `isBlank`: every character is Java whitespace, so the empty string is blank. |
| AuthController.HasCredentials | atlasstudio-backend/src/main/java/com/reimii/atlasstudio/controller/AuthController.java:45-46 | The first check of `register` passes exactly when email and password are both present and neither is blank. |
| AuthController.Attribute | atlasstudio-backend/src/main/java/com/reimii/atlasstudio/controller/AuthController.java:82-85 | `getAttribute` returns the attribute when present and null otherwise. |
| AuthController.LocalUser | atlasstudio-backend/src/main/java/com/reimii/atlasstudio/controller/AuthController.java:56-61 | The registered row has provider `local`, providerId and email equal to the request's email, the request's name, and the encoded password. For an encoder that changes every input, it never holds the raw password. |
| AuthController.GoogleUser | atlasstudio-backend/src/main/java/com/reimii/atlasstudio/controller/AuthController.java:91-96 | The created row has provider `google`, with providerId, email, name and avatar taken from `sub`, `email`, `name` and `picture`. |
| AuthController.AuthController.Register | atlasstudio-backend/src/main/java/com/reimii/atlasstudio/controller/AuthController.java:44-65 | A null or blank email or password returns 400 with no write. Several rows with the email make the finder throw: 500 with no write. A taken email returns 409 with no write. Otherwise exactly one local user is appended with the next id and returned with 201. Unique emails stay unique. |
| AuthController.AuthController.Me | atlasstudio-backend/src/main/java/com/reimii/atlasstudio/controller/AuthController.java:73-113 | No authentication, an unauthenticated one, or an unknown principal kind returns 401. For an OAuth2 principal, several `(google, sub)` rows give 500; one row is returned unchanged with 200; none creates and appends a row, returned with 200. A `UserDetails` principal never writes: 500 for several rows with the email, 200 with the row, or 404. Provider keys stay unique. |
| OAuth2UserService.NewProviderUser | atlasstudio-backend/src/main/java/com/reimii/atlasstudio/service/CustomOAuth2UserService.java:40-49 | A first-time row carries the registration id, `sub`, `email`, `name` and `picture`. |
| OAuth2UserService.Refreshed | atlasstudio-backend/src/main/java/com/reimii/atlasstudio/service/CustomOAuth2UserService.java:38-49 | An existing row keeps its id, key, email and password, and only its name and avatar change. |
| OAuth2UserService.CustomOAuth2UserService.LoadUser | atlasstudio-backend/src/main/java/com/reimii/atlasstudio/service/CustomOAuth2UserService.java:25-57 | Several rows for `(registrationId, sub)` fail with a non-unique result and no write. Otherwise one save: the row is refreshed in place, or a new row is appended. If the attributes lack `sub`, the principal cannot be built and the transaction undoes that save, so the table is unchanged. On success a row holds the key, it is the only one when keys were unique, keys stay unique, and the principal carries the attributes with `sub` as its name key. |

## Left out

- ReducerIndex.ApplyIdempotent: requires a name without a line feed, because for a name containing one the script appends the line again on every run. `ReducerIndex.NameWithLineFeedNotIdempotent` proves this.
- AuthController.LocalUser: "never the raw password" is stated only for an encoder that changes every input, because the `PasswordEncoder` is not part of this model.
- AuthController.AuthController.Register: the request body's deserialisation is not modelled; the request arrives as three optional strings.
- AuthController.AuthController.Me: the Spring `Authentication` and principal types are reduced to an optional authenticated flag with three principal kinds. OAuth2 attributes are string-valued only.
- OAuth2UserService.CustomOAuth2UserService.LoadUser: the call to `DefaultOAuth2UserService.loadUser` that fetches the attributes from the provider is not part of this model; its attributes are an input. Authorities are not modelled, and the two exceptions are failure values rather than the authentication errors Spring Security reports.
- UserRepository.UserRepository.Save: JPA's persistence, generated ids beyond "next position", and merge semantics are reduced to "replace at a known id, else append". `UserModel.java` is not part of this model: the table is assumed to have no unique constraint on email or on (provider, providerId), so every finder can meet several rows, and only `register` keeps emails unique.
- Error responses: the 500 that Spring returns when a single-result finder meets several rows carries Spring's error JSON; the model gives it no body.
- Payload casts: the TypeScript casts of `action.payload` do not validate. The model types each payload as the reducer casts it, so an invalid theme string or a non-boolean loading payload cannot be expressed. `UiSlice.Truthy` covers only boolean or absent payloads.
- JSON bodies: `Fetch.Json` keeps only string-valued fields, and a body is either parsed or unparsable.
- Request bodies: the login form's URL-encoded credentials and the registration JSON are not modelled. A `Request` carries only its verb and URL.
- Numbers: `innerWidth` and `deltaY` are integers, not floating-point values.
- React scheduling: effect ordering, re-renders and their dependency lists are not modelled, nor late responses that arrive after unmount. Each effect or handler is one method call, and the listeners that exist only while `allowIntro` is true are the guards in `OnWheel` and `OnResize`.
- Form setters (`setEmail`, `setPassword`, `setName`, `setConfirmPassword`): these are plain field assignments and carry no logic.
- Console output, `fs.mkdir` and `process.exit`: the script's outcome is its exit code, and the directory is assumed to exist.
- The page and presentational components, `useDashboard`, the legacy `atlasstudio` `AuthController` and the Spring configuration are not part of this model.
