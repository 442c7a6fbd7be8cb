/**
 * The theme toggle of components/layout/navigation/main-navigation.tsx: the
 * checkbox state, `swapThemes` and the theme load of the navigation's effect.
 * `theme` is the shared theme and `stored` the raw text under the
 * `codePillTheme` key of local storage (`None` when the key is absent).
 */
module MainNavigation {
  import opened Wrappers

  /** The theme after a swap: dark and light trade places, any other value stays. */
  function Toggled(theme: string): (t: string)
    ensures theme == "dark" ==> t == "light"
    ensures theme == "light" ==> t == "dark"
    ensures theme != "dark" && theme != "light" ==> t == theme
  {
    if theme == "dark" then "light" else if theme == "light" then "dark" else theme
  }

  /** `theme === "dark" ? "light" : "dark"`: the value a swap saves. */
  function Persisted(theme: string): (t: string)
    ensures t == "light" <==> theme == "dark"
    ensures t == "dark" <==> theme != "dark"
  {
    if theme == "dark" then "light" else "dark"
  }

  lemma ToggleTwiceRestores(theme: string)
    ensures Toggled(Toggled(theme)) == theme
  {
  }

  /** The saved value is the new theme unless the theme was neither dark nor light; then "dark" is saved. */
  lemma PersistedMatchesToggled(theme: string)
    ensures theme == "dark" || theme == "light" ==> Persisted(theme) == Toggled(theme)
    ensures theme != "dark" && theme != "light" ==> Toggled(theme) == theme && Persisted(theme) == "dark"
  {
  }

  /** A string JSON writes as its characters between quotes, with no escape needed. */
  predicate PlainJson(s: string)
  {
    forall i :: 0 <= i < |s| ==> s[i] != '"' && s[i] != '\\' && s[i] >= ' '
  }

  /** `JSON.stringify` of a string that needs no escapes. */
  function JsonString(s: string): string
  {
    "\"" + s + "\""
  }

  /** `JSON.parse` of a quoted string without escapes; `None` for any other text. */
  function ParseJsonString(raw: string): (r: Option<string>)
    ensures r.Some? ==> JsonString(r.value) == raw && PlainJson(r.value)
  {
    if |raw| >= 2 && raw[0] == '"' && raw[|raw| - 1] == '"' && PlainJson(raw[1..|raw| - 1])
    then Some(raw[1..|raw| - 1])
    else None
  }

  lemma {:induction false} JsonRoundTrip(s: string)
    requires PlainJson(s)
    ensures ParseJsonString(JsonString(s)) == Some(s)
  {
    var raw := JsonString(s);
    assert raw[1..|raw| - 1] == s;
  }

  /** The theme the effect sets from storage: the stored value if present, else "light". */
  function LoadedTheme(stored: Option<string>): Option<string>
  {
    if stored.None? || stored.value == "" then Some("light")
    else ParseJsonString(stored.value)
  }

  /** After any swap, a reload restores the value the swap saved. */
  lemma ReloadAfterSwap(theme: string)
    ensures LoadedTheme(Some(JsonString(Persisted(theme)))) == Some(Persisted(theme))
  {
    JsonRoundTrip(Persisted(theme));
  }

  class ThemeToggle {
    var theme: string
    var stored: Option<string>
    const hasWindow: bool

    constructor (theme: string, stored: Option<string>, hasWindow: bool)
      ensures this.theme == theme && this.stored == stored && this.hasWindow == hasWindow
    {
      this.theme := theme;
      this.stored := stored;
      this.hasWindow := hasWindow;
    }

    /** The checkbox is checked exactly in the dark theme. */
    function Checked(): (c: bool)
      reads this
      ensures c <==> theme == "dark"
    {
      theme == "dark"
    }

    /**
     * `swapThemes`. Both tests read the theme from before the call (a state
     * update is not visible inside the same handler), so dark turns light and
     * stays light.
     */
    method SwapThemes()
      modifies this`theme, this`stored
      ensures theme == Toggled(old(theme))
      ensures hasWindow ==> stored == Some(JsonString(Persisted(old(theme))))
      ensures !hasWindow ==> stored == old(stored)
    {
      var current := theme;
      if current == "dark" {
        theme := "light";
      }
      if current == "light" {
        theme := "dark";
      }
      if hasWindow {
        var themeToSave := if current == "dark" then "light" else "dark";
        stored := Some(JsonString(themeToSave));
      }
    }

    /**
     * The effect's load: the stored theme, or "light" without one. `ok` is
     * false when the stored text is not a plain JSON string; the theme then
     * stays as it was.
     */
    method LoadTheme() returns (ok: bool)
      modifies this`theme
      ensures ok == LoadedTheme(stored).Some?
      ensures ok ==> theme == LoadedTheme(stored).value
      ensures !ok ==> theme == old(theme)
    {
      var loaded := LoadedTheme(stored);
      ok := loaded.Some?;
      if ok {
        theme := loaded.value;
      }
    }
  }
}
