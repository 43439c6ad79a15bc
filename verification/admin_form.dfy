/** The "Add New Song" form of the admin page (`src/pages/Admin.tsx`): the schema the form is
    validated against, the tag and collection pickers, and the record built on submission. */
module AdminForm {
  import opened Optional
  import opened Seqs
  import opened Text
  import opened SongModel
  import LanguageVersionEditor

  /** The values the form holds when it is submitted. */
  datatype SongForm = SongForm(
    title: string,
    artist: string,
    lyrics: string,
    chords: Option<string>,
    key: Option<string>,
    tempo: Option<int>,
    genre: Option<string>,
    language: string,
    difficulty: Option<string>)

  /** The form's `defaultValues`, which `form.reset()` restores. */
  const DefaultForm := SongForm("", "", "", Some(""), Some(""), None, Some(""), "en", None)

  /** The languages and difficulties the schema's enumerations admit, and the tempo bounds. */
  const SchemaLanguages: seq<string> := ["en", "es", "fr", "hi", "ta", "te"]
  const Difficulties: seq<string> := ["beginner", "intermediate", "advanced"]
  const MinTempo := 1
  const MaxTempo := 300

  /** The schema as a predicate: required texts are non-empty, the optional tempo lies in
      [1, 300], and the language and optional difficulty come from their enumerations. */
  predicate ValidForm(f: SongForm) {
    && |f.title| >= 1
    && |f.artist| >= 1
    && |f.lyrics| >= 1
    && (f.tempo.Some? ==> MinTempo <= f.tempo.value <= MaxTempo)
    && f.language in SchemaLanguages
    && (f.difficulty.Some? ==> f.difficulty.value in Difficulties)
  }

  datatype FieldError =
    | TitleRequired
    | ArtistRequired
    | LyricsRequired
    | TempoTooSmall
    | TempoTooLarge
    | LanguageNotAllowed
    | DifficultyNotAllowed

  /** Whether the form breaks the schema rule that reports `e`. */
  predicate Violates(f: SongForm, e: FieldError) {
    match e
    case TitleRequired => |f.title| < 1
    case ArtistRequired => |f.artist| < 1
    case LyricsRequired => |f.lyrics| < 1
    case TempoTooSmall => f.tempo.Some? && f.tempo.value < MinTempo
    case TempoTooLarge => f.tempo.Some? && f.tempo.value > MaxTempo
    case LanguageNotAllowed => f.language !in SchemaLanguages
    case DifficultyNotAllowed => f.difficulty.Some? && f.difficulty.value !in Difficulties
  }

  /** Every rule, in the schema's field order. */
  const SchemaRules: seq<FieldError> :=
    [TitleRequired, ArtistRequired, LyricsRequired, TempoTooSmall, TempoTooLarge, LanguageNotAllowed, DifficultyNotAllowed]

  function RuleBroken(f: SongForm): FieldError -> bool {
    e => Violates(f, e)
  }

  lemma AllRulesListed()
    ensures forall e: FieldError :: e in SchemaRules
  {
    forall e: FieldError
      ensures e in SchemaRules
    {
      var i := match e
        case TitleRequired => 0
        case ArtistRequired => 1
        case LyricsRequired => 2
        case TempoTooSmall => 3
        case TempoTooLarge => 4
        case LanguageNotAllowed => 5
        case DifficultyNotAllowed => 6;
      assert SchemaRules[i] == e;
    }
  }

  /** The form meets the schema exactly when it breaks none of its rules. */
  lemma ValidIffNoRuleBroken(f: SongForm)
    ensures ValidForm(f) <==> forall e: FieldError :: !Violates(f, e)
  {
    if !ValidForm(f) {
      if |f.title| < 1 { assert Violates(f, TitleRequired); }
      else if |f.artist| < 1 { assert Violates(f, ArtistRequired); }
      else if |f.lyrics| < 1 { assert Violates(f, LyricsRequired); }
      else if f.tempo.Some? && f.tempo.value < MinTempo { assert Violates(f, TempoTooSmall); }
      else if f.tempo.Some? && f.tempo.value > MaxTempo { assert Violates(f, TempoTooLarge); }
      else if f.language !in SchemaLanguages { assert Violates(f, LanguageNotAllowed); }
      else { assert Violates(f, DifficultyNotAllowed); }
    }
  }

  /** The schema check: every broken rule, in the schema's field order, and nothing else. */
  function Validate(f: SongForm): (errors: seq<FieldError>)
    ensures forall e {:trigger e in errors} :: e in errors <==> Violates(f, e)
    ensures errors == [] <==> ValidForm(f)
    ensures IsSubsequence(errors, SchemaRules)
  {
    var errors := Filter(RuleBroken(f), SchemaRules);
    FilterIsSubsequence(RuleBroken(f), SchemaRules);
    BrokenRulesListed(f, errors);
    NoBrokenRuleIffValid(f, errors);
    errors
  }

  /** Keeping the broken rules of the full rule list keeps exactly the broken rules. */
  lemma BrokenRulesListed(f: SongForm, errors: seq<FieldError>)
    requires errors == Filter(RuleBroken(f), SchemaRules)
    ensures forall e {:trigger e in errors} :: e in errors <==> Violates(f, e)
  {
    AllRulesListed();
  }

  /** A list holding exactly the broken rules is empty exactly for a valid form. */
  lemma NoBrokenRuleIffValid(f: SongForm, errors: seq<FieldError>)
    requires forall e {:trigger e in errors} :: e in errors <==> Violates(f, e)
    ensures errors == [] <==> ValidForm(f)
  {
    ValidIffNoRuleBroken(f);
    assert errors != [] ==> errors[0] in errors;
    if !ValidForm(f) {
      var e :| Violates(f, e);
      assert e in errors;
    }
  }

  /** Each required text is reported exactly when it is empty. */
  lemma ValidateReportsEmptyTexts(f: SongForm)
    ensures TitleRequired in Validate(f) <==> f.title == ""
    ensures ArtistRequired in Validate(f) <==> f.artist == ""
    ensures LyricsRequired in Validate(f) <==> f.lyrics == ""
  {
  }

  /** The tempo is reported exactly when it is given and lies outside [1, 300]. */
  lemma ValidateReportsTempo(f: SongForm)
    ensures (TempoTooSmall in Validate(f) || TempoTooLarge in Validate(f))
      <==> f.tempo.Some? && !(1 <= f.tempo.value <= 300)
  {
    TempoReported(f, Validate(f));
  }

  lemma TempoReported(f: SongForm, errors: seq<FieldError>)
    requires forall e {:trigger e in errors} :: e in errors <==> Violates(f, e)
    ensures (TempoTooSmall in errors || TempoTooLarge in errors)
      <==> f.tempo.Some? && !(1 <= f.tempo.value <= 300)
  {
  }

  /** The language is reported exactly when it is not one the schema lists. */
  lemma ValidateReportsLanguage(f: SongForm)
    ensures LanguageNotAllowed in Validate(f) <==> f.language !in SchemaLanguages
  {
  }

  /** The difficulty is reported exactly when it is given and not listed. */
  lemma ValidateReportsDifficulty(f: SongForm)
    ensures DifficultyNotAllowed in Validate(f)
      <==> f.difficulty.Some? && f.difficulty.value !in Difficulties
  {
  }

  /** The page's own state besides the form: chosen collections, tags, the tag being typed and
      the language versions edited below the form. */
  datatype AdminState = AdminState(
    selectedCollections: seq<string>,
    tags: seq<string>,
    newTag: string,
    languageVersions: map<LanguageCode, LanguageVersion>)

  const InitialAdmin := AdminState([], [], "", map[])

  /** `addTag`: the trimmed input is appended when it is non-empty and new, and the input box
      is cleared; otherwise nothing changes. */
  function AddTag(st: AdminState): (r: AdminState)
    ensures r.tags == st.tags || r.tags == st.tags + [Trim(st.newTag)]
    ensures r.tags != st.tags <==> Trim(st.newTag) != "" && Trim(st.newTag) !in st.tags
    ensures r.tags == st.tags ==> r == st
    ensures r.tags != st.tags ==> r.newTag == ""
    ensures r.selectedCollections == st.selectedCollections && r.languageVersions == st.languageVersions
  {
    var t := Trim(st.newTag);
    if t != "" && t !in st.tags then
      assert (st.tags + [t])[|st.tags|] == t;
      st.(tags := st.tags + [t], newTag := "")
    else st
  }

  /** `removeTag`: every occurrence of the tag goes, the other tags stay in order. */
  function RemoveTag(st: AdminState, tag: string): (r: AdminState)
    ensures tag !in r.tags
    ensures forall t {:trigger t in r.tags} :: t != tag ==> (t in r.tags <==> t in st.tags)
    ensures IsSubsequence(r.tags, st.tags)
    ensures forall t {:trigger multiset(r.tags)[t]} :: t != tag ==> multiset(r.tags)[t] == multiset(st.tags)[t]
    ensures r.selectedCollections == st.selectedCollections && r.newTag == st.newTag
    ensures r.languageVersions == st.languageVersions
  {
    st.(tags := Remove(st.tags, tag))
  }

  /** `toggleCollection`: the collection leaves the selection when present and joins it at
      the end when absent; other collections keep their membership. */
  function ToggleCollection(st: AdminState, id: string): (r: AdminState)
    ensures id in r.selectedCollections <==> id !in st.selectedCollections
    ensures forall c {:trigger c in r.selectedCollections} ::
      c != id ==> (c in r.selectedCollections <==> c in st.selectedCollections)
    ensures id !in st.selectedCollections ==> r.selectedCollections == st.selectedCollections + [id]
    ensures id in st.selectedCollections ==> IsSubsequence(r.selectedCollections, st.selectedCollections)
    ensures id in st.selectedCollections ==>
      forall c {:trigger multiset(r.selectedCollections)[c]} ::
        c != id ==> multiset(r.selectedCollections)[c] == multiset(st.selectedCollections)[c]
    ensures NoDuplicates(st.selectedCollections) ==> NoDuplicates(r.selectedCollections)
    ensures r.tags == st.tags && r.newTag == st.newTag && r.languageVersions == st.languageVersions
  {
    st.(selectedCollections := Toggle(st.selectedCollections, id))
  }

  /** Tags as the pickers keep them: no duplicates, each non-empty with no white space at
      either end (so none is blank). */
  predicate WellFormedTags(tags: seq<string>) {
    && NoDuplicates(tags)
    && forall t | t in tags :: t != "" && IsTrimmed(t)
  }

  datatype TagAction = Type(text: string) | Add | Delete(tag: string)

  function ApplyTagAction(st: AdminState, a: TagAction): AdminState {
    match a
    case Type(text) => st.(newTag := text)
    case Add => AddTag(st)
    case Delete(tag) => RemoveTag(st, tag)
  }

  function ApplyTagActions(st: AdminState, actions: seq<TagAction>): AdminState
    decreases |actions|
  {
    if |actions| == 0 then st else ApplyTagActions(ApplyTagAction(st, actions[0]), actions[1..])
  }

  lemma AddTagKeepsWellFormed(st: AdminState)
    requires WellFormedTags(st.tags)
    ensures WellFormedTags(AddTag(st).tags)
  {
    var t := Trim(st.newTag);
    if t != "" && t !in st.tags {
      var tags := st.tags + [t];
      assert AddTag(st).tags == tags;
      AppendFreshKeepsNoDuplicates(st.tags, t);
      assert forall x | x in tags :: x in st.tags || x == t;
    }
  }

  lemma RemoveTagKeepsWellFormed(st: AdminState, tag: string)
    requires WellFormedTags(st.tags)
    ensures WellFormedTags(RemoveTag(st, tag).tags)
  {
    assert forall x | x in RemoveTag(st, tag).tags :: x in st.tags;
  }

  lemma TagActionKeepsWellFormed(st: AdminState, a: TagAction)
    requires WellFormedTags(st.tags)
    ensures WellFormedTags(ApplyTagAction(st, a).tags)
  {
    match a
    case Type(_) =>
    case Add => AddTagKeepsWellFormed(st);
    case Delete(tag) => RemoveTagKeepsWellFormed(st, tag);
  }

  /** Whatever is typed, added or removed, starting from the empty list the tags stay
      duplicate-free and free of empty or blank entries. */
  lemma {:induction false} TagsStayWellFormed(st: AdminState, actions: seq<TagAction>)
    requires WellFormedTags(st.tags)
    ensures WellFormedTags(ApplyTagActions(st, actions).tags)
    decreases |actions|
  {
    if |actions| > 0 {
      TagActionKeepsWellFormed(st, actions[0]);
      TagsStayWellFormed(ApplyTagAction(st, actions[0]), actions[1..]);
    }
  }

  /** The page starts with no tags, so every tag list it ever shows is well formed. */
  lemma TagsFromStartWellFormed(actions: seq<TagAction>)
    ensures WellFormedTags(ApplyTagActions(InitialAdmin, actions).tags)
  {
    TagsStayWellFormed(InitialAdmin, actions);
  }

  /** Toggling a collection that is not selected, twice, restores the selection. */
  lemma ToggleTwiceRestoresSelection(st: AdminState, id: string)
    requires id !in st.selectedCollections
    ensures ToggleCollection(ToggleCollection(st, id), id) == st
  {
    ToggleTwiceRestores(st.selectedCollections, id);
  }

  /** The id of a new song: the lower-cased title with every white-space run turned into
      `-`, then `-` and the decimal timestamp. */
  function SongId(title: string, now: nat): (id: string)
    ensures SpaceFree(id)
    ensures Slug(Lower(title)) <= id
    ensures var n := |Slug(Lower(title))|; n < |id| && id[n] == '-' && id[n + 1..] == DecimalString(now)
  {
    var slug := Slug(Lower(title));
    var stamp := DecimalString(now);
    var id := slug + "-" + stamp;
    assert forall i | 0 <= i < |stamp| :: id[|slug| + 1 + i] == stamp[i];
    id
  }

  /** The text after the last `-` of `s` (all of `s` when it has none). */
  function AfterLastDash(s: string): string
    decreases |s|
  {
    if |s| == 0 || s[|s| - 1] == '-' then "" else AfterLastDash(s[..|s| - 1]) + [s[|s| - 1]]
  }

  /** The creation time an id records, when its last part is a decimal number. */
  function TimestampOf(id: string): Option<nat> {
    var tail := AfterLastDash(id);
    if |tail| > 0 && forall i | 0 <= i < |tail| :: IsDigit(tail[i]) then Some(ParseDecimal(tail)) else None
  }

  lemma {:induction false} AfterLastDashOfSuffix(prefix: string, tail: string)
    requires forall i | 0 <= i < |tail| :: tail[i] != '-'
    ensures AfterLastDash(prefix + "-" + tail) == tail
    decreases |tail|
  {
    var s := prefix + "-" + tail;
    if |tail| > 0 {
      assert s[..|s| - 1] == prefix + "-" + tail[..|tail| - 1];
      AfterLastDashOfSuffix(prefix, tail[..|tail| - 1]);
      assert tail[..|tail| - 1] + [tail[|tail| - 1]] == tail;
    }
  }

  /** The timestamp can be read back from the id, whatever the title holds. */
  lemma SongIdRecordsTimestamp(title: string, now: nat)
    ensures TimestampOf(SongId(title, now)) == Some(now)
  {
    var stamp := DecimalString(now);
    assert SongId(title, now) == Slug(Lower(title)) + "-" + stamp;
    AfterLastDashOfSuffix(Slug(Lower(title)), stamp);
    ParseDecimalString(now);
  }

  /** The record `onSubmit` builds: the form's fields, the chosen collections and tags, and
      the language versions only when there is at least one. */
  function BuildRecord(f: SongForm, st: AdminState, now: nat): (song: Song)
    ensures song.id == SongId(f.title, now)
    ensures SpaceFree(song.id) && TimestampOf(song.id) == Some(now)
    ensures song.languageVersions.Some? <==> |st.languageVersions| > 0
    ensures song.languageVersions.Some? ==> song.languageVersions.value == st.languageVersions
    ensures song.title == f.title && song.artist == f.artist && song.lyrics == f.lyrics
    ensures song.language == f.language && song.tempo == f.tempo && song.difficulty == f.difficulty
    ensures song.collections == st.selectedCollections && song.tags == st.tags
    ensures song.chords == f.chords && song.key == f.key && song.genre == f.genre
    ensures song.category == None
  {
    SongIdRecordsTimestamp(f.title, now);
    Song(
      SongId(f.title, now), f.title, f.artist, f.lyrics, f.chords, f.key, f.tempo, f.genre, f.language,
      None, st.selectedCollections, st.tags, f.difficulty,
      if |st.languageVersions| > 0 then Some(st.languageVersions) else None)
  }

  datatype SubmitResult =
    | Rejected(errors: seq<FieldError>)
    | Added(song: Song, next: AdminState, form: SongForm)

  /** Submitting: an invalid form is rejected with its errors and nothing changes; a valid one
      yields the new record and resets the form, collections, tags and language versions
      (the tag being typed is kept). */
  function Submit(st: AdminState, f: SongForm, now: nat): (r: SubmitResult)
    ensures r.Added? <==> ValidForm(f)
    ensures r.Rejected? ==> |r.errors| > 0 && r.errors == Validate(f)
    ensures r.Added? ==> r.song == BuildRecord(f, st, now)
    ensures r.Added? ==> r.next == AdminState([], [], st.newTag, map[]) && r.form == DefaultForm
  {
    var errors := Validate(f);
    if errors != [] then Rejected(errors)
    else Added(BuildRecord(f, st, now), st.(selectedCollections := [], tags := [], languageVersions := map[]), DefaultForm)
  }

  /** `excludeLanguages` handed to the language-version editor: the form's language, unless
      it is empty. */
  function EditorExclusions(f: SongForm): (r: seq<LanguageCode>)
    ensures forall code {:trigger code in r} :: code in r <==> code == f.language && code != ""
  {
    if f.language != "" then [f.language] else []
  }

  /** Nothing stops a version in the song's own language from reaching the record: the
      exclusion only hides the language while it is the form's language, so a version added
      earlier stays when the language is switched to it. */
  lemma OwnLanguageVersionNotRejected()
    ensures
      var st := AdminState([], [], "", map["es" := LanguageVersion("Gracia", "J", "Letra", "")]);
      var f := SongForm("Grace", "J", "Lyrics", None, None, None, None, "es", None);
      && Submit(st, f, 0).Added?
      && f.language in Submit(st, f, 0).song.languageVersions.value
  {
    var st := AdminState([], [], "", map["es" := LanguageVersion("Gracia", "J", "Letra", "")]);
    var f := SongForm("Grace", "J", "Lyrics", None, None, None, None, "es", None);
    assert f.language in SchemaLanguages;
    assert ValidForm(f);
  }

  /** While the form has a language, the editor below it never offers that language. */
  lemma EditorHidesFormLanguage(catalog: seq<Language>, f: SongForm, versions: map<LanguageCode, LanguageVersion>)
    requires f.language != ""
    ensures forall l | l in LanguageVersionEditor.AvailableLanguages(catalog, EditorExclusions(f), versions) ::
      l.code != f.language
  {
  }
}
