# Songbook core logic in Dafny

A model of the browsing, editing and navigation rules of the multi-language songbook web
application: the catalogue filters of the browse page, the song list and language cards of the
gospel songbook, the admin "Add New Song" form (schema, tag and collection pickers, id and
record construction), the language-version editor (manual add/remove and bulk machine
translation), the interface-language context (label lookup with fallback, stored preference),
and the three-state view machine of the gospel songbook page.

Everything is written as pure functions over immutable datatypes, plus one method with a loop
(bulk translation, which the source runs as a sequential `for ... await` loop).

| file | module | models |
|---|---|---|
| `optional.dfy` | `Optional` | `undefined`-able values |
| `seqs.dfy` | `Seqs` | `Array.prototype.filter`, subsequences, duplicate-free lists, the add-or-remove toggle |
| `text.dfy` | `Text` | `toLowerCase` (ASCII), `includes`, `trim`, `.replace(/\s+/g, '-')`, decimal rendering |
| `song.dfy` | `SongModel` | `Song`, `LanguageVersion`, `Language`, the two language catalogues, the shared search predicate |
| `catalog_filter.dfy` | `CatalogFilter` | `src/pages/Index.tsx` |
| `song_list.dfy` | `SongList` | `src/components/SongList.tsx` |
| `language_cards.dfy` | `LanguageCards` | `src/components/LanguageCards.tsx` |
| `admin_form.dfy` | `AdminForm` | `src/pages/Admin.tsx` |
| `language_version_editor.dfy` | `LanguageVersionEditor` | `src/components/LanguageVersionEditor.tsx` |
| `app_language.dfy` | `AppLanguage` | `src/contexts/AppLanguageContext.tsx` |
| `songbook_view.dfy` | `SongbookView` | `src/pages/GospelSongbook.tsx` |

Modelling choices:

- Language codes, categories, collection ids and filter values are strings. That is how the
  code compares them, and it keeps the `'all'` wildcard literal.
- Optional fields of a song are `Option` values. `Song` carries `category` and
  `languageVersions` because the gospel catalogue and the admin record use them, although the
  `Song` interface in `src/types/song.ts` does not declare them. For the same reason language
  codes include `mr` and `kn`.
- The catalogues differ by consumer:
  - the language-version editor reads the catalogue of `src/data/songs.ts` (en, es, fr), kept
    as `EditorLanguages`;
  - the context and the language cards read the one of `src/data/gospelSongs.ts`
    (en, hi, mr, kn, te), kept as `GospelLanguages`;
  - every function takes its catalogue as a parameter.
- The translation service is a function parameter `(text, source, target) -> Option<string>`.
  `None` stands for a failed request or a missing `translatedText`. The source language is
  always `"en"`, as in the request URL, whatever the song's language.
- `Date.now()` is a `nat` parameter. Browser storage is a `map<string, string>`.
- Nothing on submission keeps a song's language versions from including its own language.
  The editor hides only the form's current language (src/pages/Admin.tsx:359), so a version
  added before the language is switched reaches the record.
  `AdminForm.OwnLanguageVersionNotRejected` exhibits this.

## Model

| member | source | states |
|---|---|---|
| `CatalogFilter.FilteredSongs` | src/pages/Index.tsx:18-31 | a song is listed iff the search term is empty or occurs (lower-cased) in title, artist or lyrics, and language, collection and difficulty are 'all' or match; every song keeps its multiplicity and the result is an order-preserving subsequence |
| `CatalogFilter.DefaultsShowEverything` | src/pages/Index.tsx:20-29 | with '', 'all', 'all', 'all' the result is the whole list |
| `CatalogFilter.HasActiveFilters` | src/pages/Index.tsx:33-34 | (predicate; characterised by `ActiveIffNotDefaults`) some control differs from its initial value |
| `CatalogFilter.ActiveIffNotDefaults` | src/pages/Index.tsx:33-34 | the active-filters flag is off exactly at the four initial values |
| `CatalogFilter.ClearFilters` | src/pages/Index.tsx:36-41 | after the reset no filter is active and the open song is untouched |
| `CatalogFilter.ClearShowsEverything` | src/pages/Index.tsx:36-41 | after the reset the count shown equals the catalogue size |
| `CatalogFilter.ResultsInfo` | src/pages/Index.tsx:82 | "Showing N of M": N is the length of the filtered list, M the catalogue size, N ≤ M, and N = M exactly when nothing is filtered out |
| `CatalogFilter.NoDifficultyHidden` | src/pages/Index.tsx:27 | a song without difficulty is hidden whenever a difficulty is chosen |
| `CatalogFilter.NarrowingYieldsSubsequence` | src/pages/Index.tsx:19-29 | restricting filters further (or extending the search term) lists a subsequence of the previous result |
| `CatalogFilter.SettingOneFilterNarrows` | src/pages/Index.tsx:25-29 | moving one filter away from 'all' (or typing into an empty search box) is such a restriction |
| `CatalogFilter.GraceExample` | src/pages/Index.tsx:18-31 | searching "grace" in English keeps "Amazing Grace" and drops a Hindi song with the word in its lyrics |
| `Text.Lower` | src/components/SongList.tsx:29-31 | same length; each ASCII capital becomes its small letter (code + 32) and every other character is kept |
| `Text.Contains` | src/pages/Index.tsx:21-23 | (predicate; characterised by `ContainsIffSplit`) `includes`: the needle occurs at some offset of the text |
| `Text.ContainsIffSplit` | src/components/SongList.tsx:29-31 | the text contains the needle exactly when it is a head, then the needle, then a tail |
| `Text.ContainsTransitive` | src/pages/Index.tsx:21-23 | a text containing a term contains every part of that term |
| `SongModel.MatchesSearch` | src/pages/Index.tsx:20-23 | (predicate; shared with src/components/SongList.tsx:28-31) an empty term matches every song, otherwise the lower-cased term must occur in the lower-cased title, artist or lyrics |
| `SongModel.SearchIgnoresTermCase` | src/components/SongList.tsx:29-31 | lower-casing the search term beforehand does not change whether a song matches |
| `SongModel.GospelCatalogueWellFormed` | src/data/gospelSongs.ts:3-9 | the gospel catalogue has distinct codes and contains English |
| `SongModel.EditorCatalogueWellFormed` | src/data/songs.ts:3-7 | the editor's catalogue (en, es, fr) has distinct codes and contains English |
| `SongList.ShownSongs` | src/components/SongList.tsx:25-32 | a song is shown iff it has the list's category and language and matches the search; every shown song keeps all its occurrences, and the result is an order-preserving subsequence |
| `SongList.CellSongs` | src/components/SongList.tsx:65 | the "of M" songs are exactly those of the category and language, with all their occurrences, in order |
| `SongList.ResultsLine` | src/components/SongList.tsx:65 | N is the length of the shown list and M that of the cell's list; N ≤ M ≤ catalogue size, and N = M for an empty search |
| `SongList.ShownWithinCell` | src/components/SongList.tsx:25-32 | the shown songs are a subsequence of the category-and-language songs |
| `SongList.EmptySearchShowsCell` | src/components/SongList.tsx:28 | with an empty search the whole category-and-language list is shown |
| `SongList.LowerTermSameList` | src/components/SongList.tsx:29-31 | lower-casing the term first yields the same list |
| `LanguageCards.LanguageStats` | src/components/LanguageCards.tsx:14-16 | the badge is at most the number of songs, and zero exactly when no song has that language and category |
| `LanguageCards.CardCounts` | src/components/LanguageCards.tsx:20-21 | one badge per catalogue language, in catalogue order, each that language's count |
| `LanguageCards.StatsEqualListTotal` | src/components/LanguageCards.tsx:15 | a card's number equals the "of M" total of the song list it opens |
| `LanguageCards.StatsAfterAppend` | src/components/LanguageCards.tsx:15 | appending a song raises its own (category, language) count by one and no other |
| `LanguageCards.SumOfCardsCountsCatalogSongs` | src/components/LanguageCards.tsx:20-21 | for distinct codes the badges add up to the category's songs in catalogue languages |
| `LanguageCards.SumOfCardsBounded` | src/components/LanguageCards.tsx:20-21 | the badges never add up to more than the category's songs, and exactly to them when all are in catalogue languages |
| `AdminForm.Validate` | src/pages/Admin.tsx:20-30 | the schema reports exactly the broken rules, in field order, and nothing iff the form is valid |
| `AdminForm.ValidIffNoRuleBroken` | src/pages/Admin.tsx:20-30 | the validity predicate holds exactly when no schema rule is broken |
| `AdminForm.ValidateReportsEmptyTexts` | src/pages/Admin.tsx:21-23 | title, artist and lyrics are each reported exactly when empty |
| `AdminForm.ValidateReportsTempo` | src/pages/Admin.tsx:26 | the tempo is reported exactly when given and outside [1, 300] |
| `AdminForm.ValidateReportsLanguage` | src/pages/Admin.tsx:28 | the language is reported exactly when not in {en, es, fr, hi, ta, te} |
| `AdminForm.ValidateReportsDifficulty` | src/pages/Admin.tsx:29 | the difficulty is reported exactly when given and not beginner, intermediate or advanced |
| `AdminForm.AddTag` | src/pages/Admin.tsx:55-60 | the trimmed input is appended iff non-empty and new, and the box is cleared; otherwise nothing changes |
| `AdminForm.RemoveTag` | src/pages/Admin.tsx:62-64 | every occurrence of the tag goes; the other tags stay, in order and with their occurrences |
| `AdminForm.TagsStayWellFormed` | src/pages/Admin.tsx:55-64 | any sequence of typing, adding and removing keeps tags duplicate-free, non-empty and trimmed |
| `AdminForm.TagsFromStartWellFormed` | src/pages/Admin.tsx:36-64 | starting from the empty tag list, every tag list the page reaches is well formed |
| `AdminForm.ToggleCollection` | src/pages/Admin.tsx:66-72 | an absent collection is appended at the end; a present one is dropped while the others keep their order and occurrences; the selection stays duplicate-free and nothing else changes |
| `AdminForm.ToggleTwiceRestoresSelection` | src/pages/Admin.tsx:66-72 | toggling an unselected collection twice restores the selection |
| `AdminForm.SongId` | src/pages/Admin.tsx:76 | the id is the slug of the lower-cased title, then `-`, then the decimal timestamp, and contains no white space |
| `Text.Slug` | src/pages/Admin.tsx:76 | the replacement leaves no white space and never lengthens the text |
| `Text.SlugReplacesRun` | src/pages/Admin.tsx:76 | each maximal white-space run becomes exactly one '-' |
| `Text.Trim` | src/pages/Admin.tsx:56 | the trimmed tag starts after the input's leading white space, is followed only by white space, and has no white space at either end |
| `Text.TrimFixedIffTrimmed` | src/pages/Admin.tsx:56 | `trim()` leaves a string unchanged exactly when it has no white space at either end |
| `Text.DecimalString` | src/pages/Admin.tsx:76 | `${Date.now()}` is a non-empty run of decimal digits without a leading zero |
| `Text.ParseDecimalString` | src/pages/Admin.tsx:76 | reading the rendered digits back gives the number |
| `AdminForm.SongIdRecordsTimestamp` | src/pages/Admin.tsx:76 | the timestamp is read back from the part after the id's last '-' |
| `AdminForm.BuildRecord` | src/pages/Admin.tsx:75-81 | the record's id is the one built from the title and time, it copies every form field, the collections and the tags, has no category, and holds languageVersions iff there is at least one |
| `AdminForm.Submit` | src/pages/Admin.tsx:74-96 | only valid forms are added; an added song resets form, collections, tags and versions; a rejected one reports its errors |
| `AdminForm.EditorExclusions` | src/pages/Admin.tsx:359 | the editor excludes exactly the form's language, unless it is empty |
| `AdminForm.EditorHidesFormLanguage` | src/pages/Admin.tsx:359 | the editor never offers the form's current language |
| `AdminForm.OwnLanguageVersionNotRejected` | src/pages/Admin.tsx:74-81 | a version in the song's own language can reach the record |
| `LanguageVersionEditor.AvailableLanguages` | src/components/LanguageVersionEditor.tsx:45-47 | exactly the catalogue languages neither excluded nor already versioned, in catalogue order |
| `LanguageVersionEditor.AvailableTranslateLanguages` | src/components/LanguageVersionEditor.tsx:155-159 | the available languages minus the current song's own, as a subsequence |
| `LanguageVersionEditor.AddLanguageVersion` | src/components/LanguageVersionEditor.tsx:49-79 | a missing language, title or lyrics changes nothing; otherwise the version is stored at the selected key, other keys unchanged, form cleared |
| `LanguageVersionEditor.RemoveLanguageVersion` | src/components/LanguageVersionEditor.tsx:81-90 | the key goes, every other entry stays, and removing an absent key is a no-op |
| `LanguageVersionEditor.ToggleTranslateLanguage` | src/components/LanguageVersionEditor.tsx:183-188 | a chosen language is appended to the selection, an un-chosen one leaves it with the rest kept in order; the versions, selected language and edited version are unchanged |
| `LanguageVersionEditor.TranslateText` | src/components/LanguageVersionEditor.tsx:92-103 | a non-empty translation from the service is returned; failure or an empty answer gives the original text |
| `LanguageVersionEditor.BulkTranslate` | src/components/LanguageVersionEditor.tsx:105-149 | no current song or no selection changes nothing; otherwise every selected language gets a version, existing ones are never overwritten, new ones carry translated title and lyrics, the song's artist and no chords |
| `AppLanguage.GetTranslation` | src/contexts/AppLanguageContext.tsx:167-169 | active label if present and non-empty, else English label if so, else the key |
| `AppLanguage.TranslationNeverEmpty` | src/contexts/AppLanguageContext.tsx:168 | a non-empty key never yields an empty label |
| `AppLanguage.EnglishLookup` | src/contexts/AppLanguageContext.tsx:168 | with English active the result is the English label or the key |
| `AppLanguage.TranslationIsACandidate` | src/contexts/AppLanguageContext.tsx:168 | the result is the key or a label stored for the active language or English |
| `AppLanguage.Mount` | src/contexts/AppLanguageContext.tsx:152-160 | the language starts as English and adopts a stored value only when it is a non-empty catalogue code |
| `AppLanguage.MountedLanguageInCatalog` | src/contexts/AppLanguageContext.tsx:154-160 | the mounted language is always a catalogue code |
| `AppLanguage.UnknownStoredLanguageIgnored` | src/contexts/AppLanguageContext.tsx:156-159 | a stored code outside the catalogue leaves the interface in English |
| `AppLanguage.GospelCatalogueRejectsSpanish` | src/contexts/AppLanguageContext.tsx:157 | a stored "es" is ignored and a stored "kn" adopted with the gospel catalogue |
| `AppLanguage.SettingsChoiceIgnoredOnReload` | src/pages/Settings.tsx:30-32 | a non-English language chosen on the settings page (en, es, fr catalogue) is stored under the context's key but ignored by the context on the next load, which stays in English |
| `AppLanguage.SetAppLanguage` | src/contexts/AppLanguageContext.tsx:162-165 | state and stored value both become the language; other stored keys stay |
| `AppLanguage.ChoiceSurvivesReload` | src/contexts/AppLanguageContext.tsx:154-165 | a catalogue language set now is the one adopted on the next load |
| `SongbookView.LanguageSelect` | src/pages/GospelSongbook.tsx:25-28 | moves to the song list with the chosen category and language and no song |
| `SongbookView.SongSelect` | src/pages/GospelSongbook.tsx:30-33 | moves to the viewer with the song, keeping category and language |
| `SongbookView.BackToCategories` | src/pages/GospelSongbook.tsx:35-38 | moves to the tabs with empty view data |
| `SongbookView.BackToSongs` | src/pages/GospelSongbook.tsx:40-43 | moves to the list, clears the song, keeps category and language |
| `SongbookView.CloseSongViewer` | src/pages/GospelSongbook.tsx:45-47 | moves to the list with the view data unchanged |
| `SongbookView.Render` | src/pages/GospelSongbook.tsx:84-103 | the tabs show iff in the category state; the list shows iff in the song state with a non-empty category and language, and shows that cell; the viewer is open iff in the viewer state |
| `SongbookView.RunKeepsConsistent` | src/pages/GospelSongbook.tsx:84-96 | under the events the mounted controls can raise, list and viewer states always carry category and language, and the viewer a song |
| `SongbookView.ConsistentPageShowsOneView` | src/pages/GospelSongbook.tsx:84-103 | a consistent page shows exactly one of tabs, list and open viewer, and the open viewer has a song |
| `SongbookView.ReachablePagesShowOneView` | src/pages/GospelSongbook.tsx:84-103 | no reachable page is blank or shows an empty viewer |
| `SongbookView.UnguardedCloseLeavesBlankPage` | src/pages/GospelSongbook.tsx:88 | the list's guard matters: a song state without a cell renders no list |

## Left out

- OCR: `DocumentScanner` and the `handleTextExtracted` callbacks are left out. They wrap a foreign OCR library and file I/O.
- The translation request (`fetch` and JSON decoding) is replaced by the `Translator` parameter. Because that parameter is a function, repeated requests in the model always get the same answer.
- `BulkTranslate` does not model the outer `catch`. `translateText` already catches every failure, so nothing in the loop can reach it.
- `BulkTranslate` does not model the spinner flag `isTranslating`.
- Toasts are not modelled, except in the editor, where they are returned as `Notice` values.
- `console.log` output and all JSX rendering are left out. For the songbook page, `Render` keeps only which views are mounted.
- react-hook-form and zod are left out: the resolver, `form.watch` and zod's default message texts. The schema is the `ValidForm` predicate together with `Validate`.
- `AdminForm.SongForm` models the tempo as an integer: the tempo input converts its text with `parseInt` (src/pages/Admin.tsx:185), so the form never holds a fractional tempo. A `NaN` from unparsable text is not modelled.
- `Text.Lower` lower-cases ASCII letters only. Full Unicode case mapping is left out. The Indic scripts of the catalogue have no case, but Spanish and French text (the editor's catalogue and the form's es/fr languages) can carry capitals such as É or Ç: `toLowerCase` lowers them and `Text.Lower` keeps them, so for such titles the model's song id and search results differ from the source's.
- String length is counted in code points rather than UTF-16 units. Only emptiness depends on it, and that is the same under both counts.
- `Text.DecimalString` renders the timestamp as the integer `Date.now()` returns. Number-to-string conversion of fractional or huge numbers is left out.
- `BulkTranslate` runs the whole loop as one atomic step. In the source each iteration awaits the service twice, and meanwhile the add, remove and language-toggle controls stay usable (only the translate button is disabled). The final write-back uses the copy of the versions taken before the loop and then clears the selection. So in the source an add or remove made during the awaits is lost, and a version added by hand meanwhile for a selected language is overwritten. "Existing versions are never overwritten" therefore holds only against the versions as they were when the loop started.
- `SongbookView.Enabled` admits `PickLanguage` only with a category id of `src/data/categories.ts` and a code of the gospel catalogue, the values the tabs and cards emit.
- `SongbookView.Enabled` lets `handleBackToSongs` fire from the open viewer. In the source no child component is handed this callback, so nothing can trigger it.
- The selected-song modal of the browse page is left out. It is a plain nullable assignment.
- The search box state of `SongList` is taken as a parameter.
- The admin scanner toggle is left out.
- `src/pages/Settings.tsx` is modelled only through `AppLanguage.SettingsChoiceIgnoredOnReload`. The page keeps its own language state, checked against the catalogue of `src/data/songs.ts` (en, es, fr), while the context accepts only gospel codes. Its theme toggle, which uses a foreign library, is left out.
- `AppLanguage.SetAppLanguage` models the context's setter, although no component calls it: the songbook page uses the context only for `getTranslation`.
- Rendering-only components, routing and configuration files are not part of this model.
- `src/data/gospelSongs.ts` and `src/data/songs.ts` enter only as the two language catalogues. The fixture of `CatalogFilter.GraceExample` is modelled on the first gospel entry; its Hindi song is invented and appears in neither file.
- The admin password gate, hosted-table CRUD and transliteration are not part of this model. Their source files are not among those modelled.
