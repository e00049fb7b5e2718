/**
 * The page theme of script.js: `state.theme`, its copy in local storage under
 * "theme", and the `data-theme` attribute of the document element that
 * `applyTheme` sets or removes. `toggleTheme` steps through
 * auto → light → dark → auto.
 */
module Theme {
  import opened Common

  const Themes: seq<string> := ["auto", "light", "dark"]

  /**
   * The theme `toggleTheme` moves to. A value outside the list has index -1,
   * so it moves to index 0, "auto".
   */
  function NextTheme(current: string): (next: string)
    ensures next in Themes
    ensures current == "auto" ==> next == "light"
    ensures current == "light" ==> next == "dark"
    ensures current == "dark" ==> next == "auto"
    ensures current !in Themes ==> next == "auto"
  {
    Themes[(IndexOf(Themes, current) + 1) % |Themes|]
  }

  /** The `data-theme` attribute `applyTheme` leaves: set to the theme for light and dark, removed otherwise. */
  function DataThemeAttribute(theme: string): (attribute: Option<string>)
    ensures attribute.Some? <==> theme == "light" || theme == "dark"
    ensures attribute.Some? ==> attribute.value == theme
  {
    if theme == "light" then Some("light")
    else if theme == "dark" then Some("dark")
    else None
  }

  /**
   * Toggling has period three on the listed themes; from any other value the
   * first toggle lands on "auto" and the cycle proceeds from there.
   */
  lemma ToggleCycle(theme: string)
    ensures theme in Themes ==> NextTheme(NextTheme(NextTheme(theme))) == theme
    ensures NextTheme(NextTheme(NextTheme(NextTheme(theme)))) == NextTheme(theme)
  {
    if theme in Themes {
      assert theme == "auto" || theme == "light" || theme == "dark";
    }
    var first := NextTheme(theme);
    assert first == "auto" || first == "light" || first == "dark";
  }

  class ThemeState {
    var theme: string
    /** The "theme" entry of local storage. */
    var stored: Option<string>
    /** The document element's `data-theme` attribute. */
    var dataTheme: Option<string>

    /**
     * Script start: the stored theme if it is set and not empty, else "auto".
     * The attribute is still the one `markup` gives the document element.
     */
    constructor (saved: Option<string>, markup: Option<string>)
      ensures theme == (if saved.Some? && saved.value != "" then saved.value else "auto")
      ensures stored == saved
      ensures dataTheme == markup
    {
      theme := if saved.Some? && saved.value != "" then saved.value else "auto";
      stored := saved;
      dataTheme := markup;
    }

    /** `init` starts by applying the theme held in state; the theme and storage stay. */
    method Init()
      modifies this
      ensures theme == old(theme) && stored == old(stored)
      ensures dataTheme == DataThemeAttribute(theme)
    {
      dataTheme := DataThemeAttribute(theme);
    }

    /** `toggleTheme`: the next theme is the one kept in state, stored and applied. */
    method ToggleTheme()
      modifies this
      ensures theme == NextTheme(old(theme))
      ensures stored == Some(theme)
      ensures dataTheme == DataThemeAttribute(theme)
    {
      var currentIndex := IndexOf(Themes, theme);
      var nextTheme := Themes[(currentIndex + 1) % |Themes|];
      theme := nextTheme;
      stored := Some(nextTheme);
      dataTheme := DataThemeAttribute(nextTheme);
    }
  }
}
