/**
 * The light/dark theme hook (hooks/useTheme.ts): the initial theme, the toggle, and
 * the effect that mirrors the theme into the root element's classes and into storage.
 */
module UseTheme {
  import opened Wrappers

  datatype Theme = Light | Dark

  /** The string stored under 'theme'. */
  function Name(t: Theme): string {
    match t
    case Light => "light"
    case Dark => "dark"
  }

  /**
   * `getInitialTheme`: a stored 'light' or 'dark' wins, then the system dark
   * preference, then 'light'. Without window storage it is always 'light'.
   */
  function InitialTheme(hasStorage: bool, stored: Option<string>, prefersDark: bool): (t: Theme)
    ensures hasStorage && stored == Some("light") ==> t == Light
    ensures hasStorage && stored == Some("dark") ==> t == Dark
    ensures hasStorage && stored != Some("light") && stored != Some("dark") ==> (t == Dark <==> prefersDark)
    ensures !hasStorage ==> t == Light
  {
    if hasStorage && stored.Some? && (stored.value == "light" || stored.value == "dark") then
      (if stored.value == "light" then Light else Dark)
    else if hasStorage && prefersDark then Dark
    else Light
  }

  /** The toggle updater: light becomes dark and dark becomes light. */
  function Toggled(t: Theme): (r: Theme)
    ensures r != t
  {
    if t == Light then Dark else Light
  }

  lemma ToggleTwiceIsIdentity(t: Theme)
    ensures Toggled(Toggled(t)) == t
  {
  }

  /** A theme the effect saved is the one the next start-up picks, whatever the system prefers. */
  lemma SavedThemeIsRestored(t: Theme, prefersDark: bool)
    ensures InitialTheme(true, Some(Name(t)), prefersDark) == t
  {
  }

  /** The hook's state together with the document root's classes and the stored theme. */
  class ThemeHost {
    var theme: Theme
    var rootClasses: set<string>
    var storedTheme: Option<string>

    /** `useState(getInitialTheme)`, reading the stored value and the system preference. */
    constructor (hasStorage: bool, stored: Option<string>, prefersDark: bool, classes: set<string>)
      ensures theme == InitialTheme(hasStorage, stored, prefersDark)
      ensures rootClasses == classes && storedTheme == stored
    {
      theme := InitialTheme(hasStorage, stored, prefersDark);
      rootClasses := classes;
      storedTheme := stored;
    }

    /** `toggleTheme` */
    method ToggleTheme()
      modifies this
      ensures theme == Toggled(old(theme))
      ensures rootClasses == old(rootClasses) && storedTheme == old(storedTheme)
    {
      theme := Toggled(theme);
    }

    /** The effect run after each theme change; a failed save is swallowed. */
    method SyncEffect(writeOk: bool)
      modifies this
      ensures theme == old(theme)
      ensures "dark" in rootClasses <==> theme == Dark
      ensures rootClasses - {"dark"} == old(rootClasses) - {"dark"}
      ensures writeOk ==> storedTheme == Some(Name(theme))
      ensures !writeOk ==> storedTheme == old(storedTheme)
    {
      if theme == Dark {
        rootClasses := rootClasses + {"dark"};
      } else {
        rootClasses := rootClasses - {"dark"};
      }
      if writeOk {
        storedTheme := Some(Name(theme));
      }
    }
  }
}
