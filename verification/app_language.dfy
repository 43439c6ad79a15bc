/** The interface-language context (`src/contexts/AppLanguageContext.tsx`): the chosen
    interface language, its copy in browser storage, and the label lookup with its fallback
    to English and then to the key itself. Storage is a plain map. */
module AppLanguage {
  import opened Optional
  import opened SongModel

  /** Language code to (label key to label). */
  type Table = map<LanguageCode, map<string, string>>

  /** Browser storage: key to stored string. */
  type Storage = map<string, string>

  const StorageKey := "appLanguage"
  const InitialLanguage: LanguageCode := "en"

  datatype Context = Context(appLanguage: LanguageCode, storage: Storage)

  /** `table[lang]?.[key]`. */
  function Lookup(table: Table, lang: LanguageCode, key: string): Option<string> {
    if lang in table && key in table[lang] then Some(table[lang][key]) else None
  }

  /** JavaScript `a || b` on an optional string: `undefined` and `''` both fall through. */
  function OrElse(a: Option<string>, b: string): (r: string)
    ensures a.Some? && a.value != "" ==> r == a.value
    ensures a.None? || a.value == "" ==> r == b
  {
    if a.Some? && a.value != "" then a.value else b
  }

  /** A present, non-empty label of `lang` for `key`. */
  predicate HasLabel(table: Table, lang: LanguageCode, key: string) {
    lang in table && key in table[lang] && table[lang][key] != ""
  }

  /** `getTranslation`: the active language's label, else the English one, else the key;
      an empty label counts as missing. */
  function GetTranslation(table: Table, lang: LanguageCode, key: string): (r: string)
    requires InitialLanguage in table
    ensures HasLabel(table, lang, key) ==> r == table[lang][key]
    ensures !HasLabel(table, lang, key) && HasLabel(table, "en", key) ==> r == table["en"][key]
    ensures !HasLabel(table, lang, key) && !HasLabel(table, "en", key) ==> r == key
  {
    OrElse(Lookup(table, lang, key), OrElse(Lookup(table, "en", key), key))
  }

  /** A non-empty key never yields an empty label. */
  lemma TranslationNeverEmpty(table: Table, lang: LanguageCode, key: string)
    requires InitialLanguage in table && key != ""
    ensures GetTranslation(table, lang, key) != ""
  {
  }

  /** With English active the lookup is the English label, or the key when there is none. */
  lemma EnglishLookup(table: Table, key: string)
    requires InitialLanguage in table
    ensures GetTranslation(table, "en", key) == if HasLabel(table, "en", key) then table["en"][key] else key
  {
  }

  /** The result is always one of the three candidates. */
  lemma TranslationIsACandidate(table: Table, lang: LanguageCode, key: string)
    requires InitialLanguage in table
    ensures var r := GetTranslation(table, lang, key);
      r == key || Lookup(table, lang, key) == Some(r) || Lookup(table, "en", key) == Some(r)
  {
  }

  /** The context as first rendered, then after its mount effect has read storage: a stored
      language is adopted only when it is non-empty and a code of the catalogue. */
  function Mount(catalog: seq<Language>, storage: Storage): (c: Context)
    ensures c.storage == storage
    ensures c.appLanguage == InitialLanguage
      || (StorageKey in storage && storage[StorageKey] == c.appLanguage && c.appLanguage != ""
          && InCatalog(catalog, c.appLanguage))
    ensures StorageKey in storage && storage[StorageKey] != "" && InCatalog(catalog, storage[StorageKey])
      ==> c.appLanguage == storage[StorageKey]
  {
    var initial := Context(InitialLanguage, storage);
    if StorageKey in storage && storage[StorageKey] != "" && InCatalog(catalog, storage[StorageKey]) then
      initial.(appLanguage := storage[StorageKey])
    else initial
  }

  /** `setAppLanguage`: the state and the stored value both become `lang`; nothing else in
      storage changes. */
  function SetAppLanguage(c: Context, lang: LanguageCode): (r: Context)
    ensures r.appLanguage == lang
    ensures StorageKey in r.storage && r.storage[StorageKey] == lang
    ensures forall k | k in c.storage && k != StorageKey :: k in r.storage && r.storage[k] == c.storage[k]
    ensures r.storage.Keys == c.storage.Keys + {StorageKey}
  {
    Context(lang, c.storage[StorageKey := lang])
  }

  /** When the catalogue holds English, the mounted language is always a catalogue code. */
  lemma MountedLanguageInCatalog(catalog: seq<Language>, storage: Storage)
    requires InCatalog(catalog, InitialLanguage)
    ensures InCatalog(catalog, Mount(catalog, storage).appLanguage)
  {
  }

  /** A catalogue language chosen now is the language found again on the next load. */
  lemma ChoiceSurvivesReload(catalog: seq<Language>, c: Context, lang: LanguageCode)
    requires lang != "" && InCatalog(catalog, lang)
    ensures Mount(catalog, SetAppLanguage(c, lang).storage).appLanguage == lang
  {
  }

  /** A stored value outside the catalogue is ignored: the interface starts in English. */
  lemma UnknownStoredLanguageIgnored(catalog: seq<Language>, storage: Storage)
    requires StorageKey in storage && !InCatalog(catalog, storage[StorageKey])
    ensures Mount(catalog, storage).appLanguage == InitialLanguage
  {
  }

  lemma GospelCatalogueRejectsSpanish()
    ensures Mount(GospelLanguages, map[StorageKey := "es"]).appLanguage == "en"
    ensures Mount(GospelLanguages, map[StorageKey := "kn"]).appLanguage == "kn"
  {
    assert GospelLanguages[3].code == "kn";
    assert !InCatalog(GospelLanguages, "es") by {
      forall i | 0 <= i < |GospelLanguages|
        ensures GospelLanguages[i].code != "es"
      {
      }
    }
  }

  /** The settings page offers and stores the editor's catalogue (en, es, fr) under the same
      storage key, but the context accepts only gospel codes: every non-English choice made
      there is stored and then ignored on the next load. */
  lemma SettingsChoiceIgnoredOnReload(storage: Storage, code: LanguageCode)
    requires InCatalog(EditorLanguages, code) && code != InitialLanguage
    ensures Mount(GospelLanguages, storage[StorageKey := code]).appLanguage == InitialLanguage
  {
    var i :| 0 <= i < |EditorLanguages| && EditorLanguages[i].code == code;
    assert code == "es" || code == "fr";
    assert !InCatalog(GospelLanguages, code) by {
      forall j | 0 <= j < |GospelLanguages|
        ensures GospelLanguages[j].code != code
      {
      }
    }
  }
}
