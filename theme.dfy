/** The theme preference of src/hooks/useTheme.js.  The stored value and
    the system's dark-mode preference are inputs. */
module Theme {
  import opened Common

  predicate IsTheme(t: string) {
    t == "dark" || t == "light"
  }

  /** The initial theme: a stored 'dark' or 'light' wins, then the system
      preference, then 'light'. */
  function InitialTheme(stored: Option<string>, prefersDark: bool): (r: string)
    ensures IsTheme(r)
    ensures stored.Some? && IsTheme(stored.value) ==> r == stored.value
    ensures !(stored.Some? && IsTheme(stored.value)) ==> (r == "dark" <==> prefersDark)
  {
    if stored.Some? && IsTheme(stored.value) then stored.value
    else if prefersDark then "dark"
    else "light"
  }

  /** `prev === 'dark' ? 'light' : 'dark'` */
  function ToggledTheme(t: string): (r: string)
    ensures IsTheme(r) && r != t
  {
    if t == "dark" then "light" else "dark"
  }

  class ThemeStore {
    var theme: string
    ghost var stored: Option<string>

    /** A valid theme, mirrored into storage by the effect. */
    ghost predicate Valid()
      reads this
    {
      IsTheme(theme) && stored == Some(theme)
    }

    constructor(storedValue: Option<string>, prefersDark: bool)
      ensures theme == InitialTheme(storedValue, prefersDark) && Valid()
    {
      theme := InitialTheme(storedValue, prefersDark);
      stored := Some(theme);
    }

    method ToggleTheme()
      modifies this
      ensures theme == ToggledTheme(old(theme)) && Valid()
    {
      theme := ToggledTheme(theme);
      stored := Some(theme);
    }

    /** `theme === 'dark'` */
    predicate IsDark()
      reads this
    {
      theme == "dark"
    }
  }

  /** Toggling twice restores a valid theme, through the other one. */
  lemma ToggleTwice(t: string)
    requires IsTheme(t)
    ensures ToggledTheme(t) != t && ToggledTheme(ToggledTheme(t)) == t
  {
  }
}
