/** The song list of the gospel songbook (`src/components/SongList.tsx`): the songs of one
    category and language that match the search box, and the "Showing N of M songs" line. */
module SongList {
  import opened Optional
  import opened Seqs
  import opened Text
  import opened SongModel

  /** A song belongs to the list's (category, language) cell. */
  function InCell(category: string, language: LanguageCode): Song -> bool {
    (s: Song) => s.category == Some(category) && s.language == language
  }

  function ShownCriterion(category: string, language: LanguageCode, term: string): Song -> bool {
    (song: Song) => song.category == Some(category) && song.language == language && MatchesSearch(song, term)
  }

  /** The songs of the cell, the total behind "of M". */
  function CellSongs(songs: seq<Song>, category: string, language: LanguageCode): (r: seq<Song>)
    ensures forall song {:trigger song in r} ::
      song in r <==> song in songs && song.category == Some(category) && song.language == language
    ensures forall song {:trigger multiset(r)[song]} ::
      multiset(r)[song] == if song.category == Some(category) && song.language == language then multiset(songs)[song] else 0
    ensures IsSubsequence(r, songs)
  {
    FilterIsSubsequence(InCell(category, language), songs);
    Filter(InCell(category, language), songs)
  }

  /** The component's `filteredSongs`. */
  function ShownSongs(songs: seq<Song>, category: string, language: LanguageCode, term: string): (r: seq<Song>)
    ensures forall song {:trigger song in r} ::
      song in r <==>
        && song in songs
        && song.category == Some(category)
        && song.language == language
        && (term == ""
            || Contains(Lower(song.title), Lower(term))
            || Contains(Lower(song.artist), Lower(term))
            || Contains(Lower(song.lyrics), Lower(term)))
    ensures forall song {:trigger multiset(r)[song]} ::
      multiset(r)[song] ==
        if song.category == Some(category) && song.language == language && MatchesSearch(song, term)
        then multiset(songs)[song] else 0
    ensures IsSubsequence(r, songs)
  {
    FilterIsSubsequence(ShownCriterion(category, language, term), songs);
    Filter(ShownCriterion(category, language, term), songs)
  }

  /** The numbers of "Showing N of M songs". */
  function ResultsLine(songs: seq<Song>, category: string, language: LanguageCode, term: string): (r: (nat, nat))
    ensures r.0 == |ShownSongs(songs, category, language, term)|
    ensures r.1 == |CellSongs(songs, category, language)|
    ensures r.0 <= r.1 <= |songs|
    ensures term == "" ==> r.0 == r.1
  {
    ShownWithinCell(songs, category, language, term);
    EmptySearchShowsCell(songs, category, language);
    (|ShownSongs(songs, category, language, term)|, |CellSongs(songs, category, language)|)
  }

  /** The shown songs are a subsequence of the cell, so "N" never exceeds "M". */
  lemma ShownWithinCell(songs: seq<Song>, category: string, language: LanguageCode, term: string)
    ensures IsSubsequence(ShownSongs(songs, category, language, term), CellSongs(songs, category, language))
    ensures |ShownSongs(songs, category, language, term)| <= |CellSongs(songs, category, language)|
  {
    FilterMonotone(ShownCriterion(category, language, term), InCell(category, language), songs);
    SubsequenceMultiset(ShownSongs(songs, category, language, term), CellSongs(songs, category, language));
  }

  /** An empty search box shows the whole cell. */
  lemma EmptySearchShowsCell(songs: seq<Song>, category: string, language: LanguageCode)
    ensures ShownSongs(songs, category, language, "") == CellSongs(songs, category, language)
  {
    FilterExtensional(ShownCriterion(category, language, ""), InCell(category, language), songs);
  }

  /** Lower-casing the search term first gives the same list. */
  lemma LowerTermSameList(songs: seq<Song>, category: string, language: LanguageCode, term: string)
    ensures ShownSongs(songs, category, language, Lower(term)) == ShownSongs(songs, category, language, term)
  {
    forall song | song in songs
      ensures ShownCriterion(category, language, Lower(term))(song) == ShownCriterion(category, language, term)(song)
    {
      SearchIgnoresTermCase(song, term);
    }
    FilterExtensional(ShownCriterion(category, language, Lower(term)), ShownCriterion(category, language, term), songs);
  }
}
