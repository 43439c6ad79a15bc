/** The data model of the songbook (`Song`, `LanguageVersion`, `Language`),
    the language catalogues the components read, and the free-text search predicate that the
    browse page and the song list share. */
module SongModel {
  import opened Optional
  import opened Text

  /** A language code such as "en" or "kn"; filters compare it as a plain string. */
  type LanguageCode = string

  /** An alternate title, artist, lyrics and chords for one additional language. */
  datatype LanguageVersion = LanguageVersion(title: string, artist: string, lyrics: string, chords: string)

  /** A catalogue entry. Optional fields are `None` when the record does not carry them;
      `category` is carried by the gospel catalogue only, and `languageVersions` only when
      the song has translations. */
  datatype Song = Song(
    id: string,
    title: string,
    artist: string,
    lyrics: string,
    chords: Option<string>,
    key: Option<string>,
    tempo: Option<int>,
    genre: Option<string>,
    language: LanguageCode,
    category: Option<string>,
    collections: seq<string>,
    tags: seq<string>,
    difficulty: Option<string>,
    languageVersions: Option<map<LanguageCode, LanguageVersion>>)

  datatype Language = Language(code: LanguageCode, name: string, flag: string)

  /** The catalogue of the gospel songbook, its language cards and its interface languages. */
  const GospelLanguages: seq<Language> := [
    Language("en", "English", "🇺🇸"),
    Language("hi", "हिंदी", "🇮🇳"),
    Language("mr", "मराठी", "🇮🇳"),
    Language("kn", "ಕನ್ನಡ", "🇮🇳"),
    Language("te", "తెలుగు", "🇮🇳")
  ]

  /** The catalogue the language-version editor offers. */
  const EditorLanguages: seq<Language> := [
    Language("en", "English", "🇺🇸"),
    Language("es", "Español", "🇪🇸"),
    Language("fr", "Français", "🇫🇷")
  ]

  /** The value the filters use for "no restriction". */
  const AllValues := "all"

  /** `languages.find(l => l.code === code)` finds an entry. */
  predicate InCatalog(catalog: seq<Language>, code: LanguageCode) {
    exists i | 0 <= i < |catalog| :: catalog[i].code == code
  }

  /** Codes are distinct, as in both catalogues of the application. */
  predicate DistinctCodes(catalog: seq<Language>) {
    forall i, j | 0 <= i < j < |catalog| :: catalog[i].code != catalog[j].code
  }

  /** The free-text search of the browse page and the song list: an empty term matches every
      song, otherwise the lower-cased term must occur in the lower-cased title, artist or lyrics. */
  predicate MatchesSearch(song: Song, term: string) {
    || term == ""
    || Contains(Lower(song.title), Lower(term))
    || Contains(Lower(song.artist), Lower(term))
    || Contains(Lower(song.lyrics), Lower(term))
  }

  /** Lower-casing the term before searching changes nothing. */
  lemma SearchIgnoresTermCase(song: Song, term: string)
    ensures MatchesSearch(song, Lower(term)) == MatchesSearch(song, term)
  {
    LowerIdempotent(term);
  }

  /** The gospel catalogue has distinct codes and offers English. */
  lemma GospelCatalogueWellFormed()
    ensures DistinctCodes(GospelLanguages)
    ensures InCatalog(GospelLanguages, "en")
  {
    assert GospelLanguages[0].code == "en";
  }

  /** The editor's catalogue has distinct codes and offers English. */
  lemma EditorCatalogueWellFormed()
    ensures DistinctCodes(EditorLanguages)
    ensures InCatalog(EditorLanguages, "en")
  {
    assert EditorLanguages[0].code == "en";
  }
}
