/**
 * The theme switcher button: a press asks for "light" when the resolved theme
 * is dark and for "dark" otherwise, and the icon is a sun when dark and a moon
 * when light.
 */
module ThemeSwitcher {
  import opened ThemeContext

  datatype Icon = Sun | Moon

  /**
   * The theme a press asks for: never "auto", and dark exactly when the
   * current resolved theme is not, whatever the system scheme.
   */
  function RequestedTheme(isDark: bool): (t: string)
    ensures IsThemeName(t) && t != "auto"
    ensures forall system :: IsDark(t, system) == !isDark
  {
    if isDark then "light" else "dark"
  }

  /** The icon shown. */
  function IconFor(isDark: bool): (icon: Icon)
    ensures icon == Sun <==> isDark
  {
    if isDark then Sun else Moon
  }

  /**
   * A press: when the write to storage succeeds the resolved theme flips,
   * including from "auto" under either system scheme; when it fails nothing
   * changes.
   */
  method Press(store: ThemeStore, system: SystemScheme, persisted: bool)
    modifies store
    ensures persisted ==> IsDark(store.theme, system) == !old(IsDark(store.theme, system))
    ensures persisted ==> store.theme != "auto"
    ensures !persisted ==> store.theme == old(store.theme)
  {
    store.SetTheme(RequestedTheme(IsDark(store.theme, system)), persisted);
  }
}
