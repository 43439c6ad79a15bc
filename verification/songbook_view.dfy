/** The gospel songbook page (`src/pages/GospelSongbook.tsx`): a three-state view machine
    (category tabs, song list, song viewer) carrying the chosen category, language and song. */
module SongbookView {
  import opened Optional
  import opened SongModel

  datatype ViewState = Categories | Songs | Viewer

  datatype ViewData = ViewData(category: Option<string>, language: Option<LanguageCode>, song: Option<Song>)

  datatype Page = Page(state: ViewState, data: ViewData)

  /** The category ids of the tabs (`src/data/categories.ts`). */
  const CategoryIds: seq<string> := ["hymns", "psalms", "praise", "worship"]

  /** JavaScript truthiness of an optional string: present and non-empty. */
  predicate Truthy(o: Option<string>) {
    o.Some? && o.value != ""
  }

  const EmptyData := ViewData(None, None, None)
  const InitialPage := Page(Categories, EmptyData)

  /** `handleLanguageSelect`: open the list of one category and language, with no song. */
  function LanguageSelect(p: Page, category: string, language: LanguageCode): (r: Page)
    ensures r.state == Songs
    ensures r.data.category == Some(category) && r.data.language == Some(language) && r.data.song == None
  {
    Page(Songs, ViewData(Some(category), Some(language), None))
  }

  /** `handleSongSelect`: open the viewer on the song; category and language are kept. */
  function SongSelect(p: Page, song: Song): (r: Page)
    ensures r.state == Viewer && r.data.song == Some(song)
    ensures r.data.category == p.data.category && r.data.language == p.data.language
  {
    Page(Viewer, p.data.(song := Some(song)))
  }

  /** `handleBackToCategories`: back to the tabs with nothing chosen. */
  function BackToCategories(p: Page): (r: Page)
    ensures r.state == Categories && r.data == EmptyData
  {
    Page(Categories, EmptyData)
  }

  /** `handleBackToSongs`: back to the list, forgetting the song but not the list's cell. */
  function BackToSongs(p: Page): (r: Page)
    ensures r.state == Songs && r.data.song == None
    ensures r.data.category == p.data.category && r.data.language == p.data.language
  {
    Page(Songs, p.data.(song := None))
  }

  /** `handleCloseSongViewer`: back to the list; the chosen song is still remembered. */
  function CloseSongViewer(p: Page): (r: Page)
    ensures r.state == Songs && r.data == p.data
  {
    Page(Songs, p.data)
  }

  /** What the page mounts: the tabs, the list of a (category, language) cell, and the viewer
      dialog with its open flag and song. */
  datatype Screen = Screen(categoryTabs: bool, songList: Option<(string, LanguageCode)>, viewerOpen: bool, viewerSong: Option<Song>)

  /** The tabs show in the category state; the list needs the song state and a truthy
      category and language, and shows that cell; the viewer is open exactly in the viewer state. */
  function Render(p: Page): (s: Screen)
    ensures s.viewerOpen <==> p.state == Viewer
    ensures s.categoryTabs <==> p.state == Categories
    ensures s.songList.Some? <==> p.state == Songs && Truthy(p.data.category) && Truthy(p.data.language)
    ensures s.songList.Some? ==> s.songList.value == (p.data.category.value, p.data.language.value)
    ensures s.viewerSong == p.data.song
  {
    Screen(
      p.state == Categories,
      if p.state == Songs && Truthy(p.data.category) && Truthy(p.data.language)
      then Some((p.data.category.value, p.data.language.value)) else None,
      p.state == Viewer,
      p.data.song)
  }

  datatype Event =
    | PickLanguage(category: string, language: LanguageCode)
    | PickSong(song: Song)
    | ListBack
    | ViewerBack
    | ViewerClose

  /** The events the mounted components can raise: the tabs pick one of their categories and
      a language card of the gospel catalogue, the list picks a song or goes back, the open
      viewer closes. `handleBackToSongs` is handed to no child of the page; it is admitted
      here from the open viewer, where a back action would sit. */
  predicate Enabled(p: Page, e: Event) {
    match e
    case PickLanguage(c, l) => Render(p).categoryTabs && c in CategoryIds && InCatalog(GospelLanguages, l)
    case PickSong(_) => Render(p).songList.Some?
    case ListBack => Render(p).songList.Some?
    case ViewerBack => Render(p).viewerOpen
    case ViewerClose => Render(p).viewerOpen
  }

  function Step(p: Page, e: Event): Page {
    match e
    case PickLanguage(c, l) => LanguageSelect(p, c, l)
    case PickSong(s) => SongSelect(p, s)
    case ListBack => BackToCategories(p)
    case ViewerBack => BackToSongs(p)
    case ViewerClose => CloseSongViewer(p)
  }

  /** A session: each event takes effect when its control is on screen and is impossible
      (ignored) otherwise. */
  function Run(p: Page, events: seq<Event>): Page
    decreases |events|
  {
    if |events| == 0 then p
    else Run(if Enabled(p, events[0]) then Step(p, events[0]) else p, events[1..])
  }

  /** The tabs carry nothing; the list and the viewer always know their category and language;
      the viewer always has a song. */
  predicate Consistent(p: Page) {
    && (p.state == Categories ==> p.data == EmptyData)
    && (p.state != Categories ==> Truthy(p.data.category) && Truthy(p.data.language))
    && (p.state == Viewer ==> p.data.song.Some?)
  }

  lemma StepKeepsConsistent(p: Page, e: Event)
    requires Consistent(p) && Enabled(p, e)
    ensures Consistent(Step(p, e))
  {
  }

  /** Every page reachable from the first render is consistent. */
  lemma {:induction false} RunKeepsConsistent(p: Page, events: seq<Event>)
    requires Consistent(p)
    ensures Consistent(Run(p, events))
    decreases |events|
  {
    if |events| > 0 {
      var q := if Enabled(p, events[0]) then Step(p, events[0]) else p;
      if Enabled(p, events[0]) {
        StepKeepsConsistent(p, events[0]);
      }
      RunKeepsConsistent(q, events[1..]);
    }
  }

  /** On a consistent page exactly one view is up: the tabs, the list, or the open viewer,
      and the open viewer has a song to show. */
  lemma ConsistentPageShowsOneView(p: Page)
    requires Consistent(p)
    ensures Render(p).songList.Some? <==> p.state == Songs
    ensures (if Render(p).categoryTabs then 1 else 0) + (if Render(p).songList.Some? then 1 else 0)
      + (if Render(p).viewerOpen then 1 else 0) == 1
    ensures Render(p).viewerOpen ==> Render(p).viewerSong.Some?
  {
  }

  /** Whatever the user does, the page never ends up blank or with an empty viewer. */
  lemma ReachablePagesShowOneView(events: seq<Event>)
    ensures var p := Run(InitialPage, events);
      && (Render(p).songList.Some? <==> p.state == Songs)
      && (Render(p).viewerOpen ==> Render(p).viewerSong.Some?)
  {
    RunKeepsConsistent(InitialPage, events);
    ConsistentPageShowsOneView(Run(InitialPage, events));
  }

  /** Without the guard the list needs, a songs state can lack its cell: closing a viewer that
      was never opened would leave a blank page. */
  lemma UnguardedCloseLeavesBlankPage()
    ensures CloseSongViewer(InitialPage).state == Songs
    ensures Render(CloseSongViewer(InitialPage)).songList == None
  {
  }
}
