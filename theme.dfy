/** The colour theme (app.js:684-765): the `data-theme` attribute of the
    document, the toggle button's pressed state, and the preference kept in
    the store or, when the store fails, in `localStorage`. */
module Theme {
  import opened Wrappers
  import opened Store

  const Dark := "dark"
  const Light := "light"

  /** `applyTheme`: the attribute is `dark` for `dark` and `light` for
      anything else. */
  function Attribute(theme: string): (a: string)
    ensures a == Dark || a == Light
    ensures a == Dark <==> theme == Dark
  {
    if theme == Dark then Dark else Light
  }

  /** The preference read at start-up: the store's value when the store
      answers (even when it holds nothing), and `localStorage` only when
      the store fails; an empty `localStorage` entry counts as none. A
      stored value that is not text is no theme. */
  function StoredTheme(store: map<string, Value>, local: map<string, string>,
                       primaryUp: bool, fallbackUp: bool): Option<string> {
    if primaryUp then
      (if ThemeKey in store && store[ThemeKey].Str? then Some(store[ThemeKey].text) else None)
    else if fallbackUp && ThemeKey in local && local[ThemeKey] != "" then Some(local[ThemeKey])
    else None
  }

  /** `initThemeFromPreference`: a stored `dark` or `light` is used, anything
      else gives `light`. */
  function InitialTheme(stored: Option<string>): string {
    if stored == Some(Dark) || stored == Some(Light) then stored.value else Light
  }

  /** `toggleTheme`: the theme after the current attribute. */
  function Next(attr: Option<string>): string {
    if attr == Some(Dark) then Light else Dark
  }

  /** Where the toggle writes its choice: the store, else `localStorage`, else
      nowhere. */
  function Persist(store: map<string, Value>, local: map<string, string>,
                   primaryUp: bool, fallbackUp: bool, next: string): (map<string, Value>, map<string, string>) {
    if primaryUp then (store[ThemeKey := Str(next)], local)
    else if fallbackUp then (store, local[ThemeKey := next])
    else (store, local)
  }

  /** The start-up theme is `dark` or `light`, and `dark` only when `dark` was
      stored: light is the default. */
  lemma InitialThemeSpec(stored: Option<string>)
    ensures InitialTheme(stored) == Dark || InitialTheme(stored) == Light
    ensures InitialTheme(stored) == Dark <==> stored == Some(Dark)
  {
  }

  /** Toggling flips the theme, and toggling twice restores it. */
  lemma ToggleFlips(attr: Option<string>)
    ensures Attribute(Next(attr)) != (if attr == Some(Dark) then Dark else Light)
    ensures Attribute(Next(Some(Attribute(Next(attr))))) == (if attr == Some(Dark) then Dark else Light)
  {
  }

  /** A toggled theme that could be written is the theme of the next start. */
  lemma PersistThenInit(store: map<string, Value>, local: map<string, string>,
                        primaryUp: bool, fallbackUp: bool, attr: Option<string>)
    requires primaryUp || fallbackUp
    ensures var next := Next(attr);
      var (s, l) := Persist(store, local, primaryUp, fallbackUp, next);
      InitialTheme(StoredTheme(s, l, primaryUp, fallbackUp)) == next
  {
  }

  /** When neither store works the choice is lost and the next start is
      light. */
  lemma NothingPersisted(store: map<string, Value>, local: map<string, string>)
    ensures InitialTheme(StoredTheme(store, local, false, false)) == Light
  {
  }

  /** While the store answers, `localStorage` is never read. */
  lemma FallbackUnread(store: map<string, Value>, local: map<string, string>, local': map<string, string>, fallbackUp: bool)
    ensures StoredTheme(store, local, true, fallbackUp) == StoredTheme(store, local', true, fallbackUp)
  {
  }
}
