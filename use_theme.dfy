/** The `useTheme` hook: the initial theme read from storage with a fallback, `setTheme`,
    `toggleTheme`, and the effect that writes storage and the root `data-theme` attribute
    after each change. Storage is a map and the attribute a field. */
module UseTheme {
  import opened Wrappers

  datatype Theme = Dark | Light

  const StorageKey: string := "gends-theme"
  const DefaultTheme: Theme := Dark

  /** The string a theme is stored as. */
  function Name(t: Theme): (s: string)
    ensures t.Dark? <==> s == "dark"
    ensures t.Light? <==> s == "light"
  {
    if t == Dark then "dark" else "light"
  }

  /** The lazy initial state: the stored value when it is exactly `"dark"` or `"light"`,
      else `defaultTheme`. */
  function Initial(stored: Option<string>, defaultTheme: Theme): (t: Theme)
    ensures stored == Some("dark") ==> t == Dark
    ensures stored == Some("light") ==> t == Light
    ensures stored != Some("dark") && stored != Some("light") ==> t == defaultTheme
  {
    if stored == Some("dark") then Dark
    else if stored == Some("light") then Light
    else defaultTheme
  }

  /** What is persisted is read back unchanged on the next mount, whatever the default. */
  lemma PersistRoundTrip(t: Theme, defaultTheme: Theme)
    ensures Initial(Some(Name(t)), defaultTheme) == t
  {
  }

  /** A stored value that is not a theme name, such as `"Dark"` or `""`, is ignored. */
  lemma InvalidStoredIgnored(defaultTheme: Theme)
    ensures Initial(Some("Dark"), defaultTheme) == defaultTheme
    ensures Initial(Some(""), defaultTheme) == defaultTheme
    ensures Initial(None, defaultTheme) == defaultTheme
  {
  }

  /** The `toggleTheme` updater. */
  function Toggled(t: Theme): (r: Theme)
    ensures r != t
  {
    if t == Dark then Light else Dark
  }

  /** Toggling twice is the identity. */
  lemma ToggleInvolution(t: Theme)
    ensures Toggled(Toggled(t)) == t
  {
  }

  /** The root `data-theme` attribute for a theme: `"light"` for light, removed for dark. */
  function Attribute(t: Theme): (a: Option<string>)
    ensures a.Some? <==> t == Light
    ensures a.Some? ==> a.value == Name(t)
  {
    if t == Light then Some("light") else None
  }

  /** `isDark` and `isLight` for a theme. */
  predicate IsDark(t: Theme) { t == Dark }
  predicate IsLight(t: Theme) { t == Light }

  /** Exactly one of `isDark` and `isLight` holds. */
  lemma DarkXorLight(t: Theme)
    ensures IsDark(t) != IsLight(t)
  {
  }

  /** One mounted use of the hook with the storage and root element it writes. */
  class ThemeState {
    var theme: Theme
    var storage: map<string, string>
    var dataTheme: Option<string>

    /** The effect has run for the current theme. */
    predicate Applied()
      reads this
    {
      StorageKey in storage && storage[StorageKey] == Name(theme) && dataTheme == Attribute(theme)
    }

    /** Mounts from what `storage` holds, then runs the effect once. */
    constructor (storage: map<string, string>, dataTheme: Option<string>, defaultTheme: Theme)
      ensures theme == Initial(if StorageKey in storage then Some(storage[StorageKey]) else None, defaultTheme)
      ensures this.storage == storage[StorageKey := Name(theme)]
      ensures Applied()
    {
      var stored := if StorageKey in storage then Some(storage[StorageKey]) else None;
      theme := Initial(stored, defaultTheme);
      this.storage := storage;
      this.dataTheme := dataTheme;
      new;
      ApplyEffect();
    }

    /** The effect body: set or remove the attribute, then persist. */
    method ApplyEffect()
      modifies this`storage, this`dataTheme
      ensures storage == old(storage)[StorageKey := Name(theme)]
      ensures Applied()
    {
      if theme == Light {
        dataTheme := Some("light");
      } else {
        dataTheme := None;
      }
      storage := storage[StorageKey := Name(theme)];
    }

    /** `setTheme(t)`: the theme becomes exactly `t`; the effect runs when it changed. Keys
        other than the theme key are never touched. */
    method SetTheme(t: Theme)
      requires Applied()
      modifies this
      ensures theme == t && Applied()
      ensures storage == old(storage)[StorageKey := Name(t)]
    {
      if t != theme {
        theme := t;
        ApplyEffect();
      } else {
        assert storage == storage[StorageKey := Name(t)];
      }
    }

    /** `toggleTheme`: dark becomes light and light dark, and the effect runs. */
    method ToggleTheme()
      requires Applied()
      modifies this
      ensures theme == Toggled(old(theme)) && Applied()
      ensures storage == old(storage)[StorageKey := Name(theme)]
    {
      theme := Toggled(theme);
      ApplyEffect();
    }
  }
}
