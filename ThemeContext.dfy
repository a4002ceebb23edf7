/**
 * The theme provider: a stored preference (initially "auto") resolved against
 * the system colour scheme. The preference is read back from device storage at
 * start, where any non-empty stored string is taken as it is, and is changed
 * only after it has been written to storage. The storage read and write are
 * parameters carrying their outcome.
 */
module ThemeContext {
  import opened Common
  import opened Types

  /** What the system reports as its colour scheme. */
  datatype SystemScheme = SystemLight | SystemDark | SystemUnspecified

  /** The two colour sets. */
  datatype Palette = LightColors | DarkColors

  /** The values of the `Theme` type. */
  predicate IsThemeName(t: string) {
    t == "light" || t == "dark" || t == "auto"
  }

  /** `isDark`: under "auto" the system decides; otherwise only "dark" is dark. */
  function IsDark(theme: string, system: SystemScheme): (dark: bool)
    ensures theme == "auto" ==> (dark <==> system == SystemDark)
    ensures theme != "auto" ==> (dark <==> theme == "dark")
  {
    if theme == "auto" then system == SystemDark else theme == "dark"
  }

  /** `themeColors`: the dark colours exactly when the resolved theme is dark. */
  function ThemeColors(theme: string, system: SystemScheme): (p: Palette)
    ensures p == DarkColors <==> IsDark(theme, system)
  {
    if IsDark(theme, system) then DarkColors else LightColors
  }

  /** A stored value that is not a theme name resolves to light, whatever the system says. */
  lemma UnknownStoredThemeIsLight(theme: string, system: SystemScheme)
    requires !IsThemeName(theme)
    ensures ThemeColors(theme, system) == LightColors
  {
  }

  class ThemeStore {
    var theme: string

    constructor ()
      ensures theme == "auto"
    {
      theme := "auto";
    }

    /**
     * `loadTheme`: a non-empty stored string replaces the theme unchecked; an
     * empty or missing value, or a failed read, leaves it.
     */
    method LoadTheme(read: Outcome<Option<string>>)
      modifies this
      ensures read.Resolved? && Truthy(read.value) ==> theme == read.value.value
      ensures !(read.Resolved? && Truthy(read.value)) ==> theme == old(theme)
    {
      if read.Resolved? && Truthy(read.value) {
        theme := read.value.value;
      }
    }

    /** `setTheme`: the theme changes only once it has been written to storage. */
    method SetTheme(newTheme: string, persisted: bool)
      requires IsThemeName(newTheme)
      modifies this
      ensures persisted ==> theme == newTheme
      ensures !persisted ==> theme == old(theme)
    {
      if persisted {
        theme := newTheme;
      }
    }
  }
}
