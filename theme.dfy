/**
 * Light/dark theme choice of the Bathroom Builder page.
 *
 * The page reads the `theme` entry of the browser's local storage and, when
 * nothing usable is saved there, the system's `prefers-color-scheme: dark`
 * media query. Both are inputs here: the saved entry is `None` when the key
 * is absent (`getItem` returns `null`) and the media query is a boolean.
 */
module Theme {
  import opened Wrappers

  const Dark := "dark"
  const Light := "light"

  /** JavaScript truthiness of the string returned by `localStorage.getItem`:
      `null` and the empty string are falsy, every other string is truthy. */
  predicate Falsy(saved: Option<string>)
  {
    saved == None || saved == Some("")
  }

  /** `getInitialTheme`: true means dark mode. */
  function InitialTheme(saved: Option<string>, systemPrefersDark: bool): (isDark: bool)
    ensures saved == Some(Dark) ==> isDark
    ensures saved == Some(Light) ==> !isDark
    ensures Falsy(saved) ==> isDark == systemPrefersDark
    ensures saved != Some(Dark) && !Falsy(saved) ==> !isDark
  {
    if saved == Some(Dark) then true
    else if Falsy(saved) && systemPrefersDark then true
    else false
  }

  /** The value the dark-mode effect writes under the `theme` key. */
  function StoredName(isDarkMode: bool): (name: string)
    ensures name == Dark || name == Light
    ensures name != ""
  {
    if isDarkMode then Dark else Light
  }

  /** `toggleDarkMode` hands `prevMode => !prevMode` to the state setter. */
  function Toggled(isDarkMode: bool): (r: bool)
    ensures r != isDarkMode
  {
    !isDarkMode
  }

  /** Dark exactly when `'dark'` is saved, or nothing usable is saved and the
      system prefers dark. */
  lemma InitialThemeIsDarkIff(saved: Option<string>, systemPrefersDark: bool)
    ensures InitialTheme(saved, systemPrefersDark)
        <==> saved == Some(Dark) || ((saved == None || saved == Some("")) && systemPrefersDark)
  {
  }

  /** A saved value other than `'dark'` and other than the empty string (for
      example `'light'`) gives light mode whatever the system prefers. */
  lemma OtherSavedValueIsLight(v: string, systemPrefersDark: bool)
    requires v != Dark && v != ""
    ensures !InitialTheme(Some(v), systemPrefersDark)
  {
  }

  /** Toggling twice gives back the mode. */
  lemma ToggleTwice(isDarkMode: bool)
    ensures Toggled(Toggled(isDarkMode)) == isDarkMode
    ensures Toggled(isDarkMode) != isDarkMode
  {
  }

  /** Persist then reload: reading back what the effect stored yields the same
      mode, whatever the system preference is at reload time. */
  lemma PersistReloadRoundTrip(isDarkMode: bool, systemPrefersDark: bool)
    ensures InitialTheme(Some(StoredName(isDarkMode)), systemPrefersDark) == isDarkMode
  {
  }
}
