/** The language cards of one category (`src/components/LanguageCards.tsx`): one card per
    catalogue language, each showing how many songs of the category are in that language. */
module LanguageCards {
  import opened Optional
  import opened Seqs
  import opened SongModel
  import SongList

  function StatsCriterion(category: string, code: LanguageCode): Song -> bool {
    (song: Song) => song.language == code && song.category == Some(category)
  }

  function InCategory(category: string): Song -> bool {
    (song: Song) => song.category == Some(category)
  }

  /** The songs of the category whose language is one of the catalogue's codes. */
  function InCatalogCategory(category: string, catalog: seq<Language>): Song -> bool {
    (song: Song) => song.category == Some(category) && InCatalog(catalog, song.language)
  }

  /** `getLanguageStats(code)`: how many songs have that language and the card's category. */
  function LanguageStats(songs: seq<Song>, category: string, code: LanguageCode): (n: nat)
    ensures n <= |songs|
    ensures n == 0 <==> forall song | song in songs :: !(song.language == code && song.category == Some(category))
  {
    var kept := Filter(StatsCriterion(category, code), songs);
    assert |kept| > 0 ==> kept[0] in kept;
    assert forall song | song in songs :: StatsCriterion(category, code)(song) ==> song in kept;
    |kept|
  }

  /** The badge numbers of the cards, in catalogue order (`languages.map(...)`). */
  function CardCounts(songs: seq<Song>, category: string, catalog: seq<Language>): (r: seq<nat>)
    ensures |r| == |catalog|
    ensures forall i | 0 <= i < |catalog| :: r[i] == LanguageStats(songs, category, catalog[i].code)
    decreases |catalog|
  {
    if |catalog| == 0 then []
    else [LanguageStats(songs, category, catalog[0].code)] + CardCounts(songs, category, catalog[1..])
  }

  function Sum(xs: seq<nat>): nat
    decreases |xs|
  {
    if |xs| == 0 then 0 else xs[0] + Sum(xs[1..])
  }

  /** A card shows the same number as the "of M" total of the song list it opens. */
  lemma StatsEqualListTotal(songs: seq<Song>, category: string, code: LanguageCode)
    ensures LanguageStats(songs, category, code) == |SongList.CellSongs(songs, category, code)|
  {
    FilterExtensional(StatsCriterion(category, code), SongList.InCell(category, code), songs);
  }

  /** Adding a song raises exactly the count of its own (category, language) by one. */
  lemma StatsAfterAppend(songs: seq<Song>, song: Song, category: string, code: LanguageCode)
    ensures LanguageStats(songs + [song], category, code)
      == LanguageStats(songs, category, code) + (if song.language == code && song.category == Some(category) then 1 else 0)
  {
    FilterAppend(StatsCriterion(category, code), songs, [song]);
  }

  lemma InCatalogSplit(catalog: seq<Language>, code: LanguageCode)
    requires |catalog| > 0
    ensures InCatalog(catalog, code) <==> catalog[0].code == code || InCatalog(catalog[1..], code)
  {
    if InCatalog(catalog, code) && catalog[0].code != code {
      var i :| 0 <= i < |catalog| && catalog[i].code == code;
      assert catalog[1..][i - 1].code == code;
    }
    if InCatalog(catalog[1..], code) {
      var i :| 0 <= i < |catalog| - 1 && catalog[1..][i].code == code;
      assert catalog[i + 1].code == code;
    }
  }

  /** For a catalogue with distinct codes the badges add up to the songs of the category
      whose language is in the catalogue. */
  lemma {:induction false} SumOfCardsCountsCatalogSongs(songs: seq<Song>, category: string, catalog: seq<Language>)
    requires DistinctCodes(catalog)
    ensures Sum(CardCounts(songs, category, catalog)) == |Filter(InCatalogCategory(category, catalog), songs)|
    decreases |catalog|
  {
    if |catalog| == 0 {
      var none := Filter(InCatalogCategory(category, catalog), songs);
      assert |none| > 0 ==> none[0] in none;
    } else {
      var rest := catalog[1..];
      assert DistinctCodes(rest) by {
        forall i, j | 0 <= i < j < |rest|
          ensures rest[i].code != rest[j].code
        {
          assert rest[i] == catalog[i + 1] && rest[j] == catalog[j + 1];
        }
      }
      SumOfCardsCountsCatalogSongs(songs, category, rest);
      assert !InCatalog(rest, catalog[0].code);
      forall song | song in songs
        ensures InCatalogCategory(category, catalog)(song)
          == (StatsCriterion(category, catalog[0].code)(song) || InCatalogCategory(category, rest)(song))
      {
        InCatalogSplit(catalog, song.language);
      }
      FilterDisjointCount(StatsCriterion(category, catalog[0].code), InCatalogCategory(category, rest),
        InCatalogCategory(category, catalog), songs);
    }
  }

  /** The badges of distinct catalogue languages never add up to more than the songs of the
      category, and exactly to that number when every such song is in a catalogue language. */
  lemma SumOfCardsBounded(songs: seq<Song>, category: string, catalog: seq<Language>)
    requires DistinctCodes(catalog)
    ensures Sum(CardCounts(songs, category, catalog)) <= |Filter(InCategory(category), songs)|
    ensures (forall song | song in songs && song.category == Some(category) :: InCatalog(catalog, song.language))
      ==> Sum(CardCounts(songs, category, catalog)) == |Filter(InCategory(category), songs)|
  {
    SumOfCardsCountsCatalogSongs(songs, category, catalog);
    FilterMonotone(InCatalogCategory(category, catalog), InCategory(category), songs);
    SubsequenceMultiset(Filter(InCatalogCategory(category, catalog), songs), Filter(InCategory(category), songs));
    if forall song | song in songs && song.category == Some(category) :: InCatalog(catalog, song.language) {
      FilterExtensional(InCatalogCategory(category, catalog), InCategory(category), songs);
    }
  }
}
