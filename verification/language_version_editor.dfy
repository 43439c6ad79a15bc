/** The language-version editor (`src/components/LanguageVersionEditor.tsx`): a map from
    language code to an alternate title, artist, lyrics and chords, edited by hand (add,
    remove) or filled by machine translation. The translation service is a parameter. */
module LanguageVersionEditor {
  import opened Optional
  import opened Seqs
  import opened SongModel

  type Versions = map<LanguageCode, LanguageVersion>

  /** The `currentSong` the editor may be given, the source of bulk translation. */
  datatype CurrentSong = CurrentSong(title: string, artist: string, lyrics: string, language: LanguageCode)

  /** The translation service: given a text and the source and target languages, the
      `translatedText` of its answer, or `None` when the request fails or the field is missing. */
  type Translator = (string, LanguageCode, LanguageCode) -> Option<string>

  /** The request always names English as the source language. */
  const SourceLanguage: LanguageCode := "en"

  const EmptyVersion := LanguageVersion("", "", "", "")

  /** The editor's own state together with the map it edits. */
  datatype Editor = Editor(
    versions: Versions,
    selectedLanguage: string,
    editing: LanguageVersion,
    translateSelection: seq<LanguageCode>)

  /** The toasts the editor raises. */
  datatype Notice = MissingInformation | VersionAdded(code: LanguageCode) | VersionRemoved(code: LanguageCode) | TranslationCompleted(count: nat)

  function Offered(exclude: seq<LanguageCode>, versions: Versions): Language -> bool {
    (l: Language) => l.code !in exclude && l.code !in versions
  }

  function TranslateOffered(exclude: seq<LanguageCode>, versions: Versions, current: Option<CurrentSong>): Language -> bool {
    (l: Language) => l.code !in exclude && l.code !in versions && (current.None? || l.code != current.value.language)
  }

  /** `availableLanguages`: the catalogue entries neither excluded nor already given a version. */
  function AvailableLanguages(catalog: seq<Language>, exclude: seq<LanguageCode>, versions: Versions): (r: seq<Language>)
    ensures forall l {:trigger l in r} :: l in r <==> l in catalog && l.code !in exclude && l.code !in versions
    ensures IsSubsequence(r, catalog)
  {
    FilterIsSubsequence(Offered(exclude, versions), catalog);
    Filter(Offered(exclude, versions), catalog)
  }

  /** `availableTranslateLanguages`: as `availableLanguages`, and never the current song's own
      language. */
  function AvailableTranslateLanguages(catalog: seq<Language>, exclude: seq<LanguageCode>, versions: Versions,
                                       current: Option<CurrentSong>): (r: seq<Language>)
    ensures forall l {:trigger l in r} ::
      l in r <==> l in AvailableLanguages(catalog, exclude, versions) && (current.None? || l.code != current.value.language)
    ensures IsSubsequence(r, AvailableLanguages(catalog, exclude, versions))
  {
    FilterMonotone(TranslateOffered(exclude, versions, current), Offered(exclude, versions), catalog);
    Filter(TranslateOffered(exclude, versions, current), catalog)
  }

  /** `addLanguageVersion`: with a language, a title and lyrics, the edited version is stored
      under the selected language and the form is cleared; otherwise nothing changes. */
  function AddLanguageVersion(ed: Editor): (r: (Editor, Notice))
    ensures ed.selectedLanguage == "" || ed.editing.title == "" || ed.editing.lyrics == "" ==>
      r == (ed, MissingInformation)
    ensures ed.selectedLanguage != "" && ed.editing.title != "" && ed.editing.lyrics != "" ==>
      && r.0.versions.Keys == ed.versions.Keys + {ed.selectedLanguage}
      && r.0.versions[ed.selectedLanguage] == ed.editing
      && (forall k | k in ed.versions && k != ed.selectedLanguage :: r.0.versions[k] == ed.versions[k])
      && r.0.selectedLanguage == "" && r.0.editing == EmptyVersion
      && r.0.translateSelection == ed.translateSelection
      && r.1 == VersionAdded(ed.selectedLanguage)
  {
    if ed.selectedLanguage == "" || ed.editing.title == "" || ed.editing.lyrics == "" then
      (ed, MissingInformation)
    else
      (ed.(versions := ed.versions[ed.selectedLanguage := ed.editing], selectedLanguage := "", editing := EmptyVersion),
       VersionAdded(ed.selectedLanguage))
  }

  /** `removeLanguageVersion`: the language loses its version; every other entry stays. */
  function RemoveLanguageVersion(ed: Editor, code: LanguageCode): (r: (Editor, Notice))
    ensures r.0.versions.Keys == ed.versions.Keys - {code}
    ensures forall k | k in r.0.versions :: r.0.versions[k] == ed.versions[k]
    ensures code !in ed.versions ==> r.0.versions == ed.versions
    ensures r.0.selectedLanguage == ed.selectedLanguage && r.0.editing == ed.editing
    ensures r.0.translateSelection == ed.translateSelection
    ensures r.1 == VersionRemoved(code)
  {
    (ed.(versions := ed.versions - {code}), VersionRemoved(code))
  }

  /** Choosing or un-choosing a language for bulk translation: a chosen language goes to the
      end of the selection, an un-chosen one leaves it, and nothing else in the editor changes. */
  function ToggleTranslateLanguage(ed: Editor, code: LanguageCode): (r: Editor)
    ensures code in r.translateSelection <==> code !in ed.translateSelection
    ensures forall c {:trigger c in r.translateSelection} ::
      c != code ==> (c in r.translateSelection <==> c in ed.translateSelection)
    ensures code !in ed.translateSelection ==> r.translateSelection == ed.translateSelection + [code]
    ensures code in ed.translateSelection ==> IsSubsequence(r.translateSelection, ed.translateSelection)
    ensures code in ed.translateSelection ==>
      forall c {:trigger multiset(r.translateSelection)[c]} ::
        c != code ==> multiset(r.translateSelection)[c] == multiset(ed.translateSelection)[c]
    ensures r == ed.(translateSelection := r.translateSelection)
  {
    ed.(translateSelection := Toggle(ed.translateSelection, code))
  }

  /** `translateText`: the service's translation when it gives a non-empty one, otherwise the
      original text. */
  function TranslateText(translate: Translator, text: string, target: LanguageCode): (r: string)
    ensures r == text || (translate(text, SourceLanguage, target) == Some(r) && r != "")
    ensures translate(text, SourceLanguage, target).Some? && translate(text, SourceLanguage, target).value != "" ==>
      r == translate(text, SourceLanguage, target).value
    ensures translate(text, SourceLanguage, target).None? ==> r == text
    ensures translate(text, SourceLanguage, target) == Some("") ==> r == text
    ensures text != "" ==> r != ""
  {
    match translate(text, SourceLanguage, target)
    case Some(t) => if t != "" then t else text
    case None => text
  }

  /** The version bulk translation creates for `target`: translated title and lyrics, the
      song's artist and no chords. */
  predicate IsTranslatedVersion(v: LanguageVersion, song: CurrentSong, target: LanguageCode, translate: Translator) {
    && v.title == TranslateText(translate, song.title, target)
    && v.lyrics == TranslateText(translate, song.lyrics, target)
    && v.artist == song.artist
    && v.chords == ""
  }

  /** `handleBulkTranslate`: every selected language without a version receives a translated
      one, one language after the other; existing versions are never overwritten. Without a
      current song or a selection nothing changes. */
  method BulkTranslate(ed: Editor, current: Option<CurrentSong>, translate: Translator) returns (next: Editor, notice: Notice)
    ensures current.None? || |ed.translateSelection| == 0 ==> next == ed && notice == MissingInformation
    ensures current.Some? && |ed.translateSelection| > 0 ==>
      && next.versions.Keys == ed.versions.Keys + (set l | l in ed.translateSelection)
      && (forall k | k in ed.versions :: next.versions[k] == ed.versions[k])
      && (forall k | k in next.versions && k !in ed.versions ::
            IsTranslatedVersion(next.versions[k], current.value, k, translate))
      && next.translateSelection == []
      && next.selectedLanguage == ed.selectedLanguage && next.editing == ed.editing
      && notice == TranslationCompleted(|ed.translateSelection|)
  {
    if current.None? || |ed.translateSelection| == 0 {
      return ed, MissingInformation;
    }
    var song := current.value;
    var selection := ed.translateSelection;
    var versions := ed.versions;
    var i := 0;
    while i < |selection|
      invariant 0 <= i <= |selection|
      invariant versions.Keys == ed.versions.Keys + (set j | 0 <= j < i :: selection[j])
      invariant forall k | k in ed.versions :: versions[k] == ed.versions[k]
      invariant forall k | k in versions && k !in ed.versions :: IsTranslatedVersion(versions[k], song, k, translate)
    {
      var target := selection[i];
      if target !in versions {
        var title := TranslateText(translate, song.title, target);
        var lyrics := TranslateText(translate, song.lyrics, target);
        versions := versions[target := LanguageVersion(title, song.artist, lyrics, "")];
      }
      assert (set j | 0 <= j < i + 1 :: selection[j]) == (set j | 0 <= j < i :: selection[j]) + {target};
      i := i + 1;
    }
    assert (set j | 0 <= j < |selection| :: selection[j]) == (set l | l in selection);
    next := ed.(versions := versions, translateSelection := []);
    notice := TranslationCompleted(|selection|);
  }
}
