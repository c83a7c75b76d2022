/**
 * The theme provider of src/context/ThemeContext.tsx: a `dark` flag that
 * starts dark, is loaded once from local storage, flips on `toggle`, and
 * after every change is written back to storage and mirrored by the
 * document's "dark" class. Storage is a string map, the class list a set.
 */
module ThemeContext {
  import opened Wrappers

  const ThemeKey := "theme"
  const DarkClass := "dark"

  /** `localStorage.getItem(key)`: `null` when the key is missing. */
  function GetItem(storage: map<string, string>, key: string): Option<string> {
    if key in storage then Some(storage[key]) else None
  }

  /** The flag the load effect leaves, from the stored value: only "light"
      switches to light. */
  function LoadedDark(saved: Option<string>): (dark: bool)
    ensures !dark <==> saved == Some("light")
  {
    !(saved.Some? && saved.value == "light")
  }

  /** The value the persist effect stores. */
  function StoredTheme(dark: bool): (value: string)
    ensures value == "dark" <==> dark
    ensures value == "light" <==> !dark
  {
    if dark then "dark" else "light"
  }

  /** Storing a flag and loading it on the next start gives the flag back. */
  lemma {:induction false} PersistLoadRoundTrip(dark: bool, storage: map<string, string>)
    ensures LoadedDark(GetItem(storage[ThemeKey := StoredTheme(dark)], ThemeKey)) == dark
  {
  }

  /** What a consumer reads from the context: the flag and the effect of
      calling `toggle` on the provider's flag. */
  datatype ContextValue = ContextValue(dark: bool, toggle: bool -> bool)

  /** The value consumers see without a provider. */
  const DefaultContext := ContextValue(true, (d: bool) => d)

  /** The value a provider renders: `toggle` sets the flag to the negation
      of the flag captured at render time. */
  function ProvidedContext(dark: bool): ContextValue {
    ContextValue(dark, (d: bool) => !dark)
  }

  /** Without a provider the theme is dark and `toggle` changes nothing;
      with one, a `toggle` taken from the current render flips the flag. */
  lemma ContextToggles(dark: bool)
    ensures DefaultContext.dark
    ensures forall d: bool :: DefaultContext.toggle(d) == d
    ensures ProvidedContext(dark).dark == dark
    ensures ProvidedContext(dark).toggle(dark) == !dark
  {
  }

  /** The provider's `dark` state with the two browser resources it writes. */
  class ThemeProvider {
    var dark: bool
    var storage: map<string, string>
    var classes: set<string>

    /** Storage and the document class agree with the flag. */
    predicate Persisted()
      reads this
    {
      GetItem(storage, ThemeKey) == Some(StoredTheme(dark)) && (DarkClass in classes <==> dark)
    }

    /** `useState(true)`, before any effect has run. */
    constructor (storage: map<string, string>, classes: set<string>)
      ensures dark && this.storage == storage && this.classes == classes
    {
      dark := true;
      this.storage := storage;
      this.classes := classes;
    }

    /** The persist effect, run after each commit in which `dark` changed. */
    method PersistEffect()
      modifies this
      ensures Persisted() && dark == old(dark)
      ensures storage == old(storage)[ThemeKey := StoredTheme(dark)]
      ensures classes == if dark then old(classes) + {DarkClass} else old(classes) - {DarkClass}
    {
      if dark {
        classes := classes + {DarkClass};
        storage := storage[ThemeKey := "dark"];
      } else {
        classes := classes - {DarkClass};
        storage := storage[ThemeKey := "light"];
      }
    }

    /** The first commit: the load effect reads storage, then the persist
        effect runs for the initial dark state; if the load switched to
        light, the next commit persists that. */
    method Mount()
      requires dark
      modifies this
      ensures dark == LoadedDark(GetItem(old(storage), ThemeKey))
      ensures Persisted()
      ensures storage == old(storage)[ThemeKey := StoredTheme(dark)]
      ensures classes == if dark then old(classes) + {DarkClass} else old(classes) - {DarkClass}
    {
      var saved := GetItem(storage, ThemeKey);
      var switchToLight := saved == Some("light");
      PersistEffect();
      if switchToLight {
        dark := false;
        PersistEffect();
      }
    }

    /** `toggle` followed by the persist effect of the commit it causes. */
    method Toggle()
      modifies this
      ensures dark == !old(dark)
      ensures Persisted()
      ensures storage == old(storage)[ThemeKey := StoredTheme(dark)]
      ensures classes == if dark then old(classes) + {DarkClass} else old(classes) - {DarkClass}
    {
      dark := !dark;
      PersistEffect();
    }
  }
}
