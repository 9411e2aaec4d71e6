/** The theme state of client/src/context/ThemeContext.jsx: a `darkMode` flag, and the two
    effects every change of it has, on the stored preference and on the document's
    `data-theme` attribute. Storage and the document are fields of the state; the system
    colour-scheme preference is a parameter. */
module ThemeContext {
  import opened Values

  /** `getCurrentTheme` for a given flag. */
  function ThemeName(darkMode: bool): (name: string)
    ensures name == "dark" <==> darkMode
    ensures name == "light" <==> !darkMode
  {
    if darkMode then "dark" else "light"
  }

  /** The `data-theme` attribute the effect leaves: none for dark, "light" otherwise. */
  function DataTheme(darkMode: bool): (attr: Option<string>)
    ensures attr.None? <==> darkMode
    ensures attr.Some? ==> attr.value == "light"
  {
    if darkMode then None else Some("light")
  }

  class ThemeState {
    var darkMode: bool
    /** The `darkMode` key of local storage. */
    var stored: Option<bool>
    /** The `data-theme` attribute of the document element. */
    var dataTheme: Option<string>

    /** After every render the effect has run: storage and document follow the flag. */
    predicate Valid()
      reads this
    {
      stored == Some(darkMode) && dataTheme == DataTheme(darkMode)
    }

    function CurrentTheme(): (name: string)
      reads this
      ensures name == "dark" <==> darkMode
      ensures name == "light" <==> !darkMode
    {
      ThemeName(darkMode)
    }

    /** Mounting with the stored preference `saved`: dark unless a preference is stored. */
    constructor(saved: Option<bool>)
      ensures Valid()
      ensures darkMode == saved.GetOr(true)
    {
      darkMode := saved.GetOr(true);
      stored := Some(saved.GetOr(true));
      dataTheme := DataTheme(saved.GetOr(true));
    }

    /** The effect of a change of `darkMode`. */
    method ApplyEffect()
      modifies this
      ensures Valid() && darkMode == old(darkMode)
    {
      dataTheme := DataTheme(darkMode);
      stored := Some(darkMode);
    }

    method ToggleTheme()
      requires Valid()
      modifies this
      ensures Valid()
      ensures darkMode == !old(darkMode)
    {
      darkMode := !darkMode;
      ApplyEffect();
    }

    /** `setTheme`: "dark" and "light" set the flag, "auto" follows the system
        preference, and any other value changes nothing. */
    method SetTheme(theme: string, prefersDark: bool)
      requires Valid()
      modifies this
      ensures Valid()
      ensures theme == "dark" ==> darkMode
      ensures theme == "light" ==> !darkMode
      ensures theme == "auto" ==> darkMode == prefersDark
      ensures theme != "dark" && theme != "light" && theme != "auto" ==>
        darkMode == old(darkMode) && stored == old(stored) && dataTheme == old(dataTheme)
    {
      if theme == "dark" {
        darkMode := true;
      } else if theme == "light" {
        darkMode := false;
      } else if theme == "auto" {
        darkMode := prefersDark;
      }
      ApplyEffect();
    }
  }

  /** Toggling twice restores the whole theme state. */
  method ToggleTwice(t: ThemeState)
    requires t.Valid()
    modifies t
    ensures t.Valid()
    ensures t.darkMode == old(t.darkMode) && t.stored == old(t.stored) && t.dataTheme == old(t.dataTheme)
  {
    t.ToggleTheme();
    t.ToggleTheme();
  }

  /** `setTheme` with "dark" or "light" makes `getCurrentTheme` answer that name. */
  method SetThenRead(t: ThemeState, theme: string, prefersDark: bool) returns (current: string)
    requires t.Valid()
    requires theme == "dark" || theme == "light"
    modifies t
    ensures current == theme
  {
    t.SetTheme(theme, prefersDark);
    current := t.CurrentTheme();
  }
}
