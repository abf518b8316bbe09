/**
 * `hooks/useThemeInitializer`: on first mount it reconciles the store with
 * the theme kept in local storage; on every change of the stored theme it
 * writes the effective theme to the document's `data-theme` marker and the
 * raw preference back to local storage.
 */
module ThemeInitializer {
  import opened Wrappers
  import opened AppAction
  import opened UiSlice

  const StorageKey: string := "atlas-ui-theme"

  /** The string form of a theme, as stored and as written to `data-theme`. */
  function ThemeName(t: UiTheme): string {
    match t
    case Light => "light"
    case Dark => "dark"
    case System => "system"
  }

  /** A stored value is accepted only if it is one of the three theme names. */
  function ParseStored(stored: Option<string>): (r: Option<UiTheme>)
    ensures r.Some? <==> stored.Some? && (stored.value == "light" || stored.value == "dark" || stored.value == "system")
    ensures r.Some? ==> ThemeName(r.value) == stored.value
  {
    if stored == Some("light") then Some(Light)
    else if stored == Some("dark") then Some(Dark)
    else if stored == Some("system") then Some(System)
    else None
  }

  lemma ThemeNameRoundTrip(t: UiTheme)
    ensures ParseStored(Some(ThemeName(t))) == Some(t)
  {
  }

  /** The reconcile dispatch of the mount effect, if any. */
  function ReconcileAction(stored: Option<string>, current: UiTheme): (a: Option<Action>)
    ensures a.Some? <==> ParseStored(stored).Some? && ParseStored(stored).value != current
    ensures a.Some? ==> a.value == UiSetTheme(ParseStored(stored))
  {
    var parsed := ParseStored(stored);
    if parsed.Some? && parsed.value != current then Some(UiSetTheme(parsed)) else None
  }

  /** `effectiveTheme`: `system` follows the OS dark-mode signal; the result is never `system`. */
  function EffectiveTheme(theme: UiTheme, prefersDark: bool): (r: UiTheme)
    ensures r != System
    ensures r == Dark <==> theme == Dark || (theme == System && prefersDark)
  {
    if theme == System then (if prefersDark then Dark else Light)
    else if theme == Dark then Dark
    else Light
  }

  /**
   * After the raw theme `t` was persisted, a cold start with the store at any
   * UI state ends, after the reconcile dispatch, with the store's theme `t`.
   */
  lemma RestartRestoresPersistedTheme(t: UiTheme, ui: UiState)
    ensures var a := ReconcileAction(Some(ThemeName(t)), ui.theme);
      (if a.Some? then UiReducer(ui, a.value) else ui).theme == t
  {
    ThemeNameRoundTrip(t);
  }

  /** The browser state the effects touch: local storage and the root element's `data-theme`. */
  class Browser {
    const hasWindow: bool
    const hasDocument: bool
    var storage: map<string, string>
    var dataTheme: Option<string>

    constructor (hasWindow: bool, hasDocument: bool, storage: map<string, string>)
      ensures this.hasWindow == hasWindow && this.hasDocument == hasDocument
      ensures this.storage == storage && dataTheme == None
    {
      this.hasWindow := hasWindow;
      this.hasDocument := hasDocument;
      this.storage := storage;
      dataTheme := None;
    }

    function Stored(): (v: Option<string>)
      reads this
      ensures v.Some? <==> StorageKey in storage
      ensures v.Some? ==> v.value == storage[StorageKey]
    {
      if StorageKey in storage then Some(storage[StorageKey]) else None
    }
  }

  /** The mount effect: reads storage and returns the single action it dispatches, if any. */
  method MountEffect(browser: Browser, currentTheme: UiTheme) returns (dispatched: Option<Action>)
    ensures !browser.hasWindow ==> dispatched == None
    ensures browser.hasWindow ==> dispatched == ReconcileAction(browser.Stored(), currentTheme)
    ensures dispatched.Some? ==>
      (dispatched.value.UiSetTheme? && dispatched.value.theme.Some?
       && dispatched.value.theme.value != currentTheme)
  {
    if !browser.hasWindow {
      return None;
    }
    var stored := browser.Stored();
    dispatched := ReconcileAction(stored, currentTheme);
  }

  /** The theme effect, run whenever the store's theme changes. */
  method ThemeEffect(browser: Browser, currentTheme: UiTheme, prefersDark: bool)
    modifies browser
    ensures !(browser.hasWindow && browser.hasDocument) ==>
      browser.storage == old(browser.storage) && browser.dataTheme == old(browser.dataTheme)
    ensures browser.hasWindow && browser.hasDocument ==>
      browser.dataTheme == Some(ThemeName(EffectiveTheme(currentTheme, prefersDark)))
      && browser.dataTheme != Some("system")
      && browser.storage == old(browser.storage)[StorageKey := ThemeName(currentTheme)]
  {
    if !browser.hasWindow || !browser.hasDocument {
      return;
    }
    var effective := EffectiveTheme(currentTheme, prefersDark);
    browser.dataTheme := Some(ThemeName(effective));
    browser.storage := browser.storage[StorageKey := ThemeName(currentTheme)];
  }
}
