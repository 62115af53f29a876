/**
 * The site header (frontend/components/header.tsx): the hide-on-scroll behaviour and the theme and language
 * toggles, which act on the theme and language providers.
 */
module HeaderBar {
  import Theme
  import Language

  /** Scrolling above this offset counts as being at the top. */
  const TOP_OFFSET: real := 10.0
  /** Scroll movements of at most this many pixels leave the header as it is. */
  const SCROLL_SLACK: real := 5.0

  /** The theme the toggle switches to: light from dark, dark from anything else. */
  function ToggledTheme(theme: string): (next: string)
    ensures next == Theme.LIGHT || next == Theme.DARK
    ensures (next == Theme.LIGHT) <==> theme == Theme.DARK
  {
    if theme == Theme.DARK then Theme.LIGHT else Theme.DARK
  }

  /** The language the toggle switches to: English from Chinese, Chinese from anything else. */
  function ToggledLanguage(language: string): (next: string)
    ensures next in Language.LANGUAGES
    ensures (next == "en") <==> language == "zh"
  {
    if language == "zh" then "en" else "zh"
  }

  /** Toggling twice from a supported value comes back to it. */
  lemma ToggleTwice(theme: string, language: string)
    ensures theme == Theme.LIGHT || theme == Theme.DARK ==> ToggledTheme(ToggledTheme(theme)) == theme
    ensures language in Language.LANGUAGES ==> ToggledLanguage(ToggledLanguage(language)) == language
  {
  }

  class ScrollState {
    var isVisible: bool
    var isAtTop: bool
    var lastScrollY: real

    /** At the top the header is always shown. */
    predicate Valid()
      reads this
    {
      isAtTop ==> isVisible
    }

    /** The header as mounted: shown, at the top, offset zero. */
    constructor ()
      ensures Valid()
      ensures isVisible && isAtTop && lastScrollY == 0.0
    {
      isVisible := true;
      isAtTop := true;
      lastScrollY := 0.0;
    }

    /**
     * `handleScroll` at offset `y`. Near the top the header shows; further down, scrolling up more than the slack
     * shows it, scrolling down more than the slack hides it, and a smaller movement leaves it. The offset is
     * remembered in every case.
     */
    method HandleScroll(y: real)
      requires Valid()
      modifies this
      ensures Valid()
      ensures lastScrollY == y
      ensures isAtTop <==> y < TOP_OFFSET
      ensures y < TOP_OFFSET ==> isVisible
      ensures y >= TOP_OFFSET && y - old(lastScrollY) < -SCROLL_SLACK ==> isVisible
      ensures y >= TOP_OFFSET && y - old(lastScrollY) > SCROLL_SLACK ==> !isVisible
      ensures y >= TOP_OFFSET && -SCROLL_SLACK <= y - old(lastScrollY) <= SCROLL_SLACK ==> isVisible == old(isVisible)
    {
      var diff := y - lastScrollY;
      if y < TOP_OFFSET {
        isVisible := true;
        isAtTop := true;
      } else {
        isAtTop := false;
        if diff < -SCROLL_SLACK {
          isVisible := true;
        } else if diff > SCROLL_SLACK {
          isVisible := false;
        }
      }
      lastScrollY := y;
    }
  }

  /** `toggleTheme`: the provider's theme becomes the toggled one. */
  method ToggleTheme(provider: Theme.ThemeStore)
    modifies provider
    ensures provider.theme == ToggledTheme(old(provider.theme))
    ensures provider.storage == old(provider.storage) && provider.rootClasses == old(provider.rootClasses)
    ensures provider.resolvedTheme == old(provider.resolvedTheme) && provider.listening == old(provider.listening)
  {
    provider.SetTheme(ToggledTheme(provider.theme));
  }

  /** `toggleLanguage`: the provider's language becomes the toggled one, and is stored. */
  method ToggleLanguage(provider: Language.LanguageStore)
    modifies provider
    ensures provider.language == ToggledLanguage(old(provider.language))
    ensures provider.storage == old(provider.storage)[Language.LANGUAGE_STORAGE_KEY := provider.language]
  {
    provider.SetLanguage(ToggledLanguage(provider.language));
  }
}
