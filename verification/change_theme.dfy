/**
 * `hooks/useChangeTheme`: resolves the store's tri-state theme to `light` or
 * `dark` (following the OS dark-mode signal for `system`) and offers
 * `setTheme` and `toggleTheme`, which dispatch `ui/setTheme`.
 */
module ChangeTheme {
  import opened Wrappers
  import opened AppAction
  import opened UiSlice
  import ThemeInitializer

  /** The first `resolvedTheme`, before any effect: `dark` only for `dark`. */
  function InitialResolved(theme: UiTheme): (r: UiTheme)
    ensures r != System
    ensures r == Dark <==> theme == Dark
  {
    if theme == Dark then Dark else Light
  }

  /**
   * The value the effect gives `resolvedTheme`: an explicit theme stands for
   * itself; `system` follows the OS signal when there is a window, and
   * resolves to `light` when there is none.
   */
  function Resolve(theme: UiTheme, hasWindow: bool, prefersDark: bool): (r: UiTheme)
    ensures r != System
    ensures theme != System ==> r == theme
    ensures theme == System ==> (r == Dark <==> hasWindow && prefersDark)
  {
    if !hasWindow then InitialResolved(theme)
    else if theme == System then (if prefersDark then Dark else Light)
    else InitialResolved(theme)
  }

  /** With a window, the hook resolves exactly as the document marker is computed. */
  lemma ResolveAgreesWithEffectiveTheme(theme: UiTheme, prefersDark: bool)
    ensures Resolve(theme, true, prefersDark) == ThemeInitializer.EffectiveTheme(theme, prefersDark)
  {
  }

  /** The theme `toggleTheme` dispatches. */
  function ToggleTarget(theme: UiTheme, resolved: UiTheme): (t: UiTheme)
    ensures t != System
    ensures theme != System ==> t != theme
    ensures theme == System && resolved != System ==> t != resolved
  {
    if theme == System then (if resolved == Dark then Light else Dark)
    else if theme == Dark then Light else Dark
  }

  /** Toggling an explicit theme twice gives it back, whatever was resolved in between. */
  lemma ToggleExplicitTwice(theme: UiTheme, r1: UiTheme, r2: UiTheme)
    requires theme != System
    ensures ToggleTarget(ToggleTarget(theme, r1), r2) == theme
  {
  }

  /** After the store reduces the toggle action, the stored theme has left `system`. */
  lemma ToggleLeavesSystem(ui: UiState, resolved: UiTheme)
    ensures UiReducer(ui, UiSetTheme(Some(ToggleTarget(ui.theme, resolved)))).theme != System
  {
  }

  /** One mounted consumer of the hook. */
  class ThemeHook {
    var theme: UiTheme          // the store's theme at the last render
    var resolvedTheme: UiTheme
    var listening: bool         // a change listener is registered on the media query
    const hasWindow: bool

    ghost predicate Valid()
      reads this
    {
      && resolvedTheme != System
      && (theme != System ==> resolvedTheme == theme)
      && (listening ==> theme == System && hasWindow)
      && (!hasWindow ==> resolvedTheme == InitialResolved(theme))
    }

    /** First render: `resolvedTheme` is initialised, the effect has not run yet. */
    constructor (theme: UiTheme, hasWindow: bool)
      ensures Valid()
      ensures this.theme == theme && this.hasWindow == hasWindow
      ensures resolvedTheme == InitialResolved(theme) && !listening
    {
      this.theme := theme;
      this.hasWindow := hasWindow;
      resolvedTheme := InitialResolved(theme);
      listening := false;
    }

    /** The effect for the current theme; subscribes to the media query only for `system`. */
    method RunEffect(prefersDark: bool)
      requires !listening
      modifies this
      ensures Valid()
      ensures theme == old(theme)
      ensures resolvedTheme == Resolve(theme, hasWindow, prefersDark)
      ensures listening <==> theme == System && hasWindow
    {
      if !hasWindow {
        resolvedTheme := InitialResolved(theme);
        return;
      }
      if theme == System {
        resolvedTheme := if prefersDark then Dark else Light;
        listening := true;
        return;
      }
      resolvedTheme := InitialResolved(theme);
    }

    /** A render with a new store theme: the old effect is torn down and the effect runs again. */
    method Rerender(newTheme: UiTheme, prefersDark: bool)
      requires Valid()
      modifies this
      ensures Valid()
      ensures newTheme == old(theme) ==>
        (theme == old(theme) && resolvedTheme == old(resolvedTheme) && listening == old(listening))
      ensures newTheme != old(theme) ==>
        (theme == newTheme && resolvedTheme == Resolve(newTheme, hasWindow, prefersDark)
         && (listening <==> newTheme == System && hasWindow))
    {
      if newTheme == theme {
        return;
      }
      listening := false;
      theme := newTheme;
      RunEffect(prefersDark);
    }

    /** The media query reported a change of the OS dark-mode signal. */
    method MediaChange(prefersDark: bool)
      requires Valid()
      modifies this`resolvedTheme
      ensures Valid()
      ensures listening ==> (resolvedTheme == Dark <==> prefersDark)
      ensures !listening ==> resolvedTheme == old(resolvedTheme)
    {
      if listening {
        resolvedTheme := if prefersDark then Dark else Light;
      }
    }

    /** Teardown: the listener is removed. */
    method Unmount()
      requires Valid()
      modifies this`listening
      ensures Valid() && !listening
    {
      listening := false;
    }

    /** `setTheme(t)`: the action dispatched. */
    method SetTheme(next: UiTheme) returns (action: Action)
      ensures action.UiSetTheme? && action.theme == Some(next)
    {
      action := UiSetTheme(Some(next));
    }

    /** `toggleTheme()`: the action dispatched, never setting `system`. */
    method ToggleTheme() returns (action: Action)
      requires Valid()
      ensures action.UiSetTheme? && action.theme.Some? && action.theme.value != System
      ensures theme != System ==> action.theme.value != theme
      ensures theme == System ==> action.theme.value != resolvedTheme
    {
      action := SetTheme(ToggleTarget(theme, resolvedTheme));
    }
  }
}
