/** The light/dark theme of `WeddingInvitation` (scripts/main.js): the
    choice made at start-up, the toggle button, and the listener for the
    system colour-scheme preference. The page state is the `data-theme`
    attribute of the body, the toggle button's icon and the value stored
    under the key `wedding-theme`. */
module Theme {
  import opened Wrappers

  const Sun := "\U{2600}\U{FE0F}"
  const Moon := "\U{1F319}"

  datatype Page = Page(dataTheme: Option<string>, toggleIcon: string, stored: Option<string>)

  /** A stored value counts only when it is a non-empty string (`if (savedTheme)`). */
  predicate HasSavedTheme(p: Page) {
    p.stored.Some? && p.stored.value != ""
  }

  /** The page as `applyTheme` leaves it, whatever it was before. */
  predicate ShowsTheme(p: Page, dark: bool) {
    if dark then p == Page(Some("dark"), Sun, Some("dark"))
    else p == Page(None, Moon, Some("light"))
  }

  /** `applyTheme`: "dark" gives the dark page; any other name gives the
      light page, and the choice is stored either way. */
  function ApplyTheme(theme: string): (r: Page)
    ensures ShowsTheme(r, theme == "dark")
    ensures HasSavedTheme(r)
  {
    if theme == "dark" then Page(Some("dark"), Sun, Some("dark"))
    else Page(None, Moon, Some("light"))
  }

  /** `initTheme`: the stored theme if there is one, otherwise dark when the
      system prefers it, otherwise the page is left as it is. */
  function InitTheme(p: Page, systemPrefersDark: bool): Page {
    if HasSavedTheme(p) then ApplyTheme(p.stored.value)
    else if systemPrefersDark then ApplyTheme("dark")
    else p
  }

  /** `toggleTheme`: dark becomes light, anything else becomes dark. */
  function ToggleTheme(p: Page): Page {
    ApplyTheme(if p.dataTheme == Some("dark") then "light" else "dark")
  }

  /** The `change` listener on the colour-scheme query. */
  function SystemThemeChange(p: Page, matchesDark: bool): Page {
    if HasSavedTheme(p) then p else ApplyTheme(if matchesDark then "dark" else "light")
  }

  /** A saved theme takes precedence over the system preference: the result
      does not depend on it, and is dark exactly when "dark" was saved. */
  lemma SavedThemeWins(p: Page)
    requires HasSavedTheme(p)
    ensures InitTheme(p, true) == InitTheme(p, false)
    ensures ShowsTheme(InitTheme(p, true), p.stored.value == "dark")
  {
  }

  /** Without a saved theme, the system preference decides: dark when it is
      dark, untouched otherwise. */
  lemma SystemPreferenceWithoutSaved(p: Page, systemPrefersDark: bool)
    requires !HasSavedTheme(p)
    ensures systemPrefersDark ==> ShowsTheme(InitTheme(p, systemPrefersDark), true)
    ensures !systemPrefersDark ==> InitTheme(p, systemPrefersDark) == p
  {
  }

  /** The toggle gives the dark page exactly when the page was not dark. */
  lemma ToggleFlips(p: Page)
    ensures ShowsTheme(ToggleTheme(p), p.dataTheme != Some("dark"))
    ensures ToggleTheme(p).dataTheme == Some("dark") <==> p.dataTheme != Some("dark")
  {
  }

  /** On a page `applyTheme` produced, toggling twice changes nothing. */
  lemma ToggleTwice(theme: string)
    ensures ToggleTheme(ToggleTheme(ApplyTheme(theme))) == ApplyTheme(theme)
  {
  }

  /** Every theme application stores a theme, so once one has happened the
      system-preference listener never changes the page again. */
  lemma SystemChangeIgnoredAfterApply(theme: string, matchesDark: bool)
    ensures SystemThemeChange(ApplyTheme(theme), matchesDark) == ApplyTheme(theme)
  {
  }

  /** Before any theme is stored, the listener shows the system's new
      preference. */
  lemma SystemChangeFollowsPreference(p: Page, matchesDark: bool)
    requires !HasSavedTheme(p)
    ensures ShowsTheme(SystemThemeChange(p, matchesDark), matchesDark)
  {
  }
}
