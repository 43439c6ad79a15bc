/** The browse page (`src/pages/Index.tsx`): four conjunctive filters over the song catalogue,
    the "active filters" flag, the reset, and the "Showing N of M songs" line. */
module CatalogFilter {
  import opened Optional
  import opened Seqs
  import opened Text
  import opened SongModel

  /** The four filter controls of the page; `AllValues` ("all") means no restriction. */
  datatype Filters = Filters(searchTerm: string, language: string, collection: string, difficulty: string)

  /** The initial state of the controls, and the state `clearFilters` restores. */
  const Defaults := Filters("", AllValues, AllValues, AllValues)

  /** The browse page: its filters and the song open in the viewer, if any. */
  datatype IndexPage = IndexPage(filters: Filters, selectedSong: Option<Song>)

  predicate MatchesLanguage(f: Filters, song: Song) {
    f.language == AllValues || song.language == f.language
  }

  predicate MatchesCollection(f: Filters, song: Song) {
    f.collection == AllValues || f.collection in song.collections
  }

  /** A song without a difficulty never equals a chosen difficulty. */
  predicate MatchesDifficulty(f: Filters, song: Song) {
    f.difficulty == AllValues || song.difficulty == Some(f.difficulty)
  }

  predicate Matches(f: Filters, song: Song) {
    && MatchesSearch(song, f.searchTerm)
    && MatchesLanguage(f, song)
    && MatchesCollection(f, song)
    && MatchesDifficulty(f, song)
  }

  function Criterion(f: Filters): Song -> bool {
    song => Matches(f, song)
  }

  /** The memoised `filteredSongs` of the page. */
  function FilteredSongs(songs: seq<Song>, f: Filters): (r: seq<Song>)
    ensures forall song {:trigger song in r} ::
      song in r <==>
        && song in songs
        && (f.searchTerm == ""
            || Contains(Lower(song.title), Lower(f.searchTerm))
            || Contains(Lower(song.artist), Lower(f.searchTerm))
            || Contains(Lower(song.lyrics), Lower(f.searchTerm)))
        && (f.language == AllValues || song.language == f.language)
        && (f.collection == AllValues || f.collection in song.collections)
        && (f.difficulty == AllValues || song.difficulty == Some(f.difficulty))
    ensures forall song {:trigger multiset(r)[song]} ::
      multiset(r)[song] == if Matches(f, song) then multiset(songs)[song] else 0
    ensures IsSubsequence(r, songs)
  {
    FilterIsSubsequence(Criterion(f), songs);
    Filter(Criterion(f), songs)
  }

  /** `hasActiveFilters`: some control differs from its initial value. */
  predicate HasActiveFilters(f: Filters) {
    f.searchTerm != "" || f.language != AllValues || f.collection != AllValues || f.difficulty != AllValues
  }

  /** `clearFilters`: every control back to its initial value; the open song stays open. */
  function ClearFilters(page: IndexPage): (r: IndexPage)
    ensures !HasActiveFilters(r.filters)
    ensures r.selectedSong == page.selectedSong
  {
    page.(filters := Defaults)
  }

  /** The pair shown as "Showing N of M songs". */
  function ResultsInfo(songs: seq<Song>, f: Filters): (r: (nat, nat))
    ensures r.0 == |FilteredSongs(songs, f)|
    ensures r.0 <= r.1 == |songs|
    ensures r.0 == |songs| <==> FilteredSongs(songs, f) == songs
  {
    var shown := FilteredSongs(songs, f);
    SubsequenceMultiset(shown, songs);
    FilterAllKept(songs, f);
    (|shown|, |songs|)
  }

  /** A filter result as long as its input is the input itself. */
  lemma FilterAllKept(songs: seq<Song>, f: Filters)
    ensures |FilteredSongs(songs, f)| == |songs| ==> FilteredSongs(songs, f) == songs
  {
    if |FilteredSongs(songs, f)| == |songs| {
      SubsequenceOfSameLength(FilteredSongs(songs, f), songs);
    }
  }

  /** The flag is clear exactly when every control is at its initial value. */
  lemma ActiveIffNotDefaults(f: Filters)
    ensures !HasActiveFilters(f) <==> f == Defaults
  {
  }

  /** With the controls at their initial values every song is listed, in order. */
  lemma {:induction false} DefaultsShowEverything(songs: seq<Song>)
    ensures FilteredSongs(songs, Defaults) == songs
  {
    FilterKeepsAll(Criterion(Defaults), songs);
  }

  /** After `clearFilters` the flag is clear and the count equals the catalogue size. */
  lemma ClearShowsEverything(songs: seq<Song>, page: IndexPage)
    ensures !HasActiveFilters(ClearFilters(page).filters)
    ensures ResultsInfo(songs, ClearFilters(page).filters) == (|songs|, |songs|)
  {
    DefaultsShowEverything(songs);
  }

  /** Choosing a difficulty hides every song that has none. */
  lemma NoDifficultyHidden(songs: seq<Song>, f: Filters, song: Song)
    requires song.difficulty == None && f.difficulty != AllValues
    ensures song !in FilteredSongs(songs, f)
  {
  }

  /** `g` restricts at least as much as `f`: every control of `f` is at its initial value or
      kept in `g`, and `g`'s search term contains `f`'s (typing more letters). */
  predicate Narrows(g: Filters, f: Filters) {
    && (f.searchTerm == "" || Contains(Lower(g.searchTerm), Lower(f.searchTerm)))
    && (f.language == AllValues || g.language == f.language)
    && (f.collection == AllValues || g.collection == f.collection)
    && (f.difficulty == AllValues || g.difficulty == f.difficulty)
  }

  lemma NarrowedMatch(g: Filters, f: Filters, song: Song)
    requires Narrows(g, f) && Matches(g, song)
    ensures Matches(f, song)
  {
    if f.searchTerm != "" && g.searchTerm != "" {
      if Contains(Lower(song.title), Lower(g.searchTerm)) {
        ContainsTransitive(Lower(song.title), Lower(g.searchTerm), Lower(f.searchTerm));
      } else if Contains(Lower(song.artist), Lower(g.searchTerm)) {
        ContainsTransitive(Lower(song.artist), Lower(g.searchTerm), Lower(f.searchTerm));
      } else {
        ContainsTransitive(Lower(song.lyrics), Lower(g.searchTerm), Lower(f.searchTerm));
      }
    }
  }

  /** Narrowing the filters lists a subsequence of what was listed before. */
  lemma NarrowingYieldsSubsequence(songs: seq<Song>, g: Filters, f: Filters)
    requires Narrows(g, f)
    ensures IsSubsequence(FilteredSongs(songs, g), FilteredSongs(songs, f))
  {
    forall song | song in songs && Matches(g, song)
      ensures Matches(f, song)
    {
      NarrowedMatch(g, f, song);
    }
    FilterMonotone(Criterion(g), Criterion(f), songs);
  }

  /** Changing one control away from "all" (or typing into an empty search box) narrows. */
  lemma SettingOneFilterNarrows(f: Filters, v: string)
    ensures f.searchTerm == "" ==> Narrows(f.(searchTerm := v), f)
    ensures f.language == AllValues ==> Narrows(f.(language := v), f)
    ensures f.collection == AllValues ==> Narrows(f.(collection := v), f)
    ensures f.difficulty == AllValues ==> Narrows(f.(difficulty := v), f)
  {
    if f.searchTerm != "" {
      assert f.(language := v).searchTerm == f.searchTerm;
      ContainsSelf(Lower(f.searchTerm));
    }
  }

  lemma ContainsSelf(s: string)
    ensures Contains(s, s)
  {
    assert s <= s[0..];
  }

  /** Searching "grace" among English songs finds "Amazing Grace" and leaves out a Hindi song
      whose lyrics also contain the word. */
  lemma GraceExample()
    ensures
      var grace := Song("hymn-amazing-grace", "Amazing Grace", "John Newton", "sweet", None, None, None, None,
                        "en", Some("hymns"), [], [], Some("beginner"), None);
      var other := Song("hymn-hi", "Kripa", "Anon", "grace", None, None, None, None,
                        "hi", Some("hymns"), [], [], None, None);
      FilteredSongs([grace, other], Filters("grace", "en", AllValues, AllValues)) == [grace]
  {
    var grace := Song("hymn-amazing-grace", "Amazing Grace", "John Newton", "sweet", None, None, None, None,
                      "en", Some("hymns"), [], [], Some("beginner"), None);
    var other := Song("hymn-hi", "Kripa", "Anon", "grace", None, None, None, None,
                      "hi", Some("hymns"), [], [], None, None);
    var f := Filters("grace", "en", AllValues, AllValues);
    assert Lower("grace") == "grace";
    assert Lower(grace.title) == "amazing grace";
    assert "grace" <= Lower(grace.title)[8..];
    assert Matches(f, grace);
    assert !Matches(f, other);
    assert [grace, other][1..] == [other];
  }
}
