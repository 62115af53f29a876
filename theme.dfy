/**
 * The theme provider (frontend/components/providers/theme-provider.tsx): the chosen theme, the theme it resolves
 * to, the `light`/`dark` class on the document root, persistence in `localStorage` (a map here) and the
 * listener on the system colour-scheme preference. Whether the system prefers dark is an input.
 */
module Theme {
  const THEME_STORAGE_KEY := "theme"
  const SYSTEM := "system"
  const LIGHT := "light"
  const DARK := "dark"
  /** The values the theme's type admits. */
  const THEMES: set<string> := {"light", "dark", "system"}

  /** `getResolvedTheme`: the system preference for `system`, otherwise the theme itself. */
  function ResolveTheme(theme: string, prefersDark: bool): (resolved: string)
    ensures theme in THEMES ==> resolved == LIGHT || resolved == DARK
    ensures theme == SYSTEM ==> (resolved == DARK <==> prefersDark)
    ensures theme != SYSTEM ==> resolved == theme
  {
    if theme == SYSTEM then (if prefersDark then DARK else LIGHT) else theme
  }

  /** The characters a class-list token may not contain: ASCII whitespace. */
  predicate IsAsciiWhitespace(c: char) {
    c == ' ' || c == '\t' || c == '\n' || c == '\r' || c == '\U{C}'
  }

  /** What `classList.add` accepts: a non-empty token without ASCII whitespace; anything else throws. */
  predicate IsClassToken(token: string) {
    token != [] && forall i :: 0 <= i < |token| ==> !IsAsciiWhitespace(token[i])
  }

  /** Every theme the type admits resolves to an acceptable token, so the class is always added. */
  lemma ResolvedThemesAreTokens(theme: string, prefersDark: bool)
    requires theme in THEMES
    ensures IsClassToken(ResolveTheme(theme, prefersDark))
  {
    assert ResolveTheme(theme, prefersDark) == LIGHT || ResolveTheme(theme, prefersDark) == DARK;
  }

  /** A stored theme such as `"dark mode"` is no token, so applying it throws. */
  lemma SpacedThemeRefused()
    ensures !IsClassToken("dark mode")
  {
    assert "dark mode"[4] == ' ';
  }

  /** `classList.remove("light", "dark")` then `classList.add(resolved)`. */
  function RootClasses(classes: set<string>, resolved: string): (r: set<string>)
    ensures resolved in r
    ensures resolved == LIGHT || resolved == DARK ==> (LIGHT in r <==> resolved == LIGHT) && (DARK in r <==> resolved == DARK)
    ensures resolved != LIGHT && resolved != DARK ==> LIGHT !in r && DARK !in r
    ensures forall c :: c in classes && c != LIGHT && c != DARK ==> c in r
    ensures forall c :: c in r ==> c == resolved || (c in classes && c != LIGHT && c != DARK)
  {
    (classes - {LIGHT, DARK}) + {resolved}
  }

  /** Applying the classes twice for the same theme is applying them once. */
  lemma RootClassesIdempotent(classes: set<string>, resolved: string)
    ensures RootClasses(RootClasses(classes, resolved), resolved) == RootClasses(classes, resolved)
  {
  }

  class ThemeStore {
    var theme: string
    var resolvedTheme: string
    var rootClasses: set<string>
    var storage: map<string, string>
    /** Whether the colour-scheme listener is registered. */
    var listening: bool

    /** The provider as first rendered: `system`, shown as light. */
    constructor (initialStorage: map<string, string>, initialClasses: set<string>)
      ensures theme == SYSTEM && resolvedTheme == LIGHT && !listening
      ensures storage == initialStorage && rootClasses == initialClasses
    {
      theme := SYSTEM;
      resolvedTheme := LIGHT;
      rootClasses := initialClasses;
      storage := initialStorage;
      listening := false;
    }

    /** The mount effect: a non-empty stored theme is adopted unchecked; without one `system` is stored. */
    method Restore()
      modifies this
      ensures THEME_STORAGE_KEY in old(storage) && old(storage)[THEME_STORAGE_KEY] != [] ==>
        theme == old(storage)[THEME_STORAGE_KEY] && storage == old(storage)
      ensures !(THEME_STORAGE_KEY in old(storage) && old(storage)[THEME_STORAGE_KEY] != []) ==>
        theme == old(theme) && storage == old(storage)[THEME_STORAGE_KEY := SYSTEM]
      ensures resolvedTheme == old(resolvedTheme) && rootClasses == old(rootClasses) && listening == old(listening)
    {
      if THEME_STORAGE_KEY in storage && storage[THEME_STORAGE_KEY] != [] {
        theme := storage[THEME_STORAGE_KEY];
      } else {
        storage := storage[THEME_STORAGE_KEY := SYSTEM];
      }
    }

    /** `setTheme` as the provider exposes it: the raw state setter. */
    method SetTheme(newTheme: string)
      modifies this
      ensures theme == newTheme
      ensures resolvedTheme == old(resolvedTheme) && rootClasses == old(rootClasses)
      ensures storage == old(storage) && listening == old(listening)
    {
      theme := newTheme;
    }

    /**
     * The effect run after each theme change: resolve, set the root class, persist any theme other than
     * `system`, and listen to the system preference exactly while the theme is `system`. A resolved theme
     * `classList.add` refuses (empty, or holding whitespace as in `"dark mode"`) throws once the light and dark
     * classes are gone: nothing is stored and no listener is registered.
     */
    method ApplyTheme(prefersDark: bool) returns (threw: bool)
      modifies this
      ensures resolvedTheme == ResolveTheme(theme, prefersDark)
      ensures threw <==> !IsClassToken(resolvedTheme)
      ensures !threw ==> rootClasses == RootClasses(old(rootClasses), resolvedTheme)
      ensures !threw ==> listening == (theme == SYSTEM)
      ensures !threw ==> storage == if theme == SYSTEM then old(storage) else old(storage)[THEME_STORAGE_KEY := theme]
      ensures threw ==> rootClasses == old(rootClasses) - {LIGHT, DARK} && storage == old(storage) && !listening
      ensures theme == old(theme)
      ensures theme in THEMES ==> !threw && (LIGHT in rootClasses) != (DARK in rootClasses)
    {
      resolvedTheme := ResolveTheme(theme, prefersDark);
      if !IsClassToken(resolvedTheme) {
        rootClasses := rootClasses - {LIGHT, DARK};
        listening := false;
        return true;
      }
      if theme in THEMES {
        ResolvedThemesAreTokens(theme, prefersDark);
      }
      rootClasses := RootClasses(rootClasses, resolvedTheme);
      if theme != SYSTEM {
        storage := storage[THEME_STORAGE_KEY := theme];
      }
      listening := theme == SYSTEM;
      threw := false;
    }

    /** The system preference changes: only a registered listener re-resolves and resets the class. */
    method PreferenceChanged(prefersDark: bool)
      modifies this
      ensures !old(listening) ==> unchanged(this)
      ensures old(listening) ==> (resolvedTheme == (if prefersDark then DARK else LIGHT)
        && rootClasses == RootClasses(old(rootClasses), resolvedTheme))
      ensures theme == old(theme) && storage == old(storage) && listening == old(listening)
    {
      if listening {
        resolvedTheme := if prefersDark then DARK else LIGHT;
        rootClasses := RootClasses(rootClasses, resolvedTheme);
      }
    }
  }

  /** A stored value outside the theme's type resolves to itself, so the root gets neither `light` nor `dark`. */
  lemma UnknownStoredThemeLeavesNoScheme(classes: set<string>, stored: string, prefersDark: bool)
    requires stored !in THEMES
    ensures LIGHT !in RootClasses(classes, ResolveTheme(stored, prefersDark))
    ensures DARK !in RootClasses(classes, ResolveTheme(stored, prefersDark))
  {
  }
}
