/**
 * The language provider (frontend/components/providers/language-provider.tsx): the current language, its
 * restoration from and persistence to `localStorage` (a map here), and the lookup `t(key)`.
 * The translation tables are a parameter.
 */
module Language {
  import opened Wrappers

  const LANGUAGE_STORAGE_KEY := "language"
  const DEFAULT_LANGUAGE := "zh"
  /** The languages the tables have. */
  const LANGUAGES: set<string> := {"zh", "en"}

  /**
   * The property names every object inherits from `Object.prototype`. `translations[language]` with one of
   * these as the language finds the inherited property rather than failing; the model does not follow that.
   */
  const OBJECT_PROTOTYPE_NAMES: set<string> := {
    "constructor", "__proto__", "hasOwnProperty", "isPrototypeOf", "propertyIsEnumerable", "toLocaleString",
    "toString", "valueOf", "__defineGetter__", "__defineSetter__", "__lookupGetter__", "__lookupSetter__"}

  /** Per language, the translated strings by key. */
  type Tables = map<string, map<string, string>>

  /** Tables shaped like the source's: one for each supported language. */
  predicate WellShaped(tables: Tables) {
    tables.Keys == LANGUAGES
  }

  /**
   * `t(key)`: the translation when it exists and is not empty, otherwise the key itself. A language without a
   * table makes the lookup throw, which is `None` (for names in `OBJECT_PROTOTYPE_NAMES` the source reads an
   * inherited property instead).
   */
  function Translate(tables: Tables, language: string, key: string): (r: Option<string>)
    ensures r.None? <==> language !in tables
    ensures r.Some? && key in tables[language] && tables[language][key] != [] ==> r.value == tables[language][key]
    ensures r.Some? && (key !in tables[language] || tables[language][key] == []) ==> r.value == key
    ensures r.Some? ==> r.value != [] || key == []
  {
    if language !in tables then None
    else if key in tables[language] && tables[language][key] != [] then Some(tables[language][key])
    else Some(key)
  }

  /** With well-shaped tables every lookup in a supported language succeeds. */
  lemma TranslateTotal(tables: Tables, language: string, key: string)
    requires WellShaped(tables) && language in LANGUAGES
    ensures Translate(tables, language, key).Some?
  {
  }

  class LanguageStore {
    var language: string
    var storage: map<string, string>

    /** The provider as first rendered: Chinese. */
    constructor (initialStorage: map<string, string>)
      ensures language == DEFAULT_LANGUAGE && storage == initialStorage
    {
      language := DEFAULT_LANGUAGE;
      storage := initialStorage;
    }

    /** The mount effect: a non-empty stored language is adopted as it is, without checking it is supported. */
    method Restore()
      modifies this
      ensures storage == old(storage)
      ensures LANGUAGE_STORAGE_KEY in storage && storage[LANGUAGE_STORAGE_KEY] != [] ==>
        language == storage[LANGUAGE_STORAGE_KEY]
      ensures !(LANGUAGE_STORAGE_KEY in storage && storage[LANGUAGE_STORAGE_KEY] != []) ==> language == old(language)
    {
      if LANGUAGE_STORAGE_KEY in storage && storage[LANGUAGE_STORAGE_KEY] != [] {
        language := storage[LANGUAGE_STORAGE_KEY];
      }
    }

    /** `handleSetLanguage`: state and storage take the language together. */
    method SetLanguage(lang: string)
      modifies this
      ensures language == lang
      ensures storage == old(storage)[LANGUAGE_STORAGE_KEY := lang]
    {
      language := lang;
      storage := storage[LANGUAGE_STORAGE_KEY := lang];
    }
  }

  /** After choosing a language, a reload restores the same one. */
  method ChoiceSurvivesReload(lang: string) returns (reloaded: LanguageStore)
    requires lang != []
    ensures reloaded.language == lang
  {
    var before := new LanguageStore(map[]);
    before.SetLanguage(lang);
    reloaded := new LanguageStore(before.storage);
    reloaded.Restore();
  }

  /**
   * A stored value outside the supported languages that is not an inherited property name is adopted, and
   * every lookup then throws.
   */
  lemma UnsupportedStoredLanguageBreaksLookup(tables: Tables, stored: string, key: string)
    requires WellShaped(tables) && stored != [] && stored !in LANGUAGES && stored !in OBJECT_PROTOTYPE_NAMES
    ensures Translate(tables, stored, key).None?
  {
  }
}
