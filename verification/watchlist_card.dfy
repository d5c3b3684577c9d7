/**
 * The watchlist cards on the profile page. Both variants
 * (components/watchlist/WatchlistCard, newer, and components/WatchlistCard,
 * older) page the watchlist's movies on the client and send the update
 * payloads below; they differ only in how `saveName` treats the draft.
 */
module WatchlistCards {
  import opened Wrappers
  import opened Text
  import opened Seqs
  import opened Paging
  import opened Domain
  import opened MoviesApi

  /** The body of `updateWatchlist`. */
  datatype WatchlistUpdate = WatchlistUpdate(id: string, name: string, username: string, moviesId: seq<string>)

  /** The movies behind a card: an empty id list is answered locally, without calling `getMoviesByIds`. */
  function CardMovies(env: Env, moviesId: seq<string>): (r: Served<seq<DetailedMovie>>)
    ensures moviesId == [] ==> r == Local([])
    ensures moviesId != [] ==> r == GetMoviesByIds(env, moviesId)
  {
    if |moviesId| == 0 then Local([]) else GetMoviesByIds(env, moviesId)
  }

  /** `totalPages`: `Math.max(1, Math.ceil(n / pageSize))`. */
  function TotalPages(n: nat, pageSize: int): (t: int)
    requires pageSize >= 1
    ensures t >= 1
    ensures n <= t * pageSize
    ensures n > 0 ==> (t - 1) * pageSize < n
    ensures n == 0 ==> t == 1
  {
    Max(1, CeilDiv(n, pageSize))
  }

  /** The movies on page `page`. */
  function PageSlice(movies: seq<DetailedMovie>, page: int, pageSize: int): (r: seq<DetailedMovie>)
    requires pageSize >= 1
    ensures page >= 1 ==> |r| <= pageSize
    ensures page >= 1 ==> r == movies[Min((page - 1) * pageSize, |movies|)..Min(page * pageSize, |movies|)]
  {
    if page >= 1 then PageContents(movies, page, pageSize); PageOf(movies, page, pageSize)
    else PageOf(movies, page, pageSize)
  }

  /** The header "Showing from–to of n". */
  function Showing(page: int, pageSize: int, n: int): (int, int) {
    ((page - 1) * pageSize + 1, Min((page - 1) * pageSize + pageSize, n))
  }

  /** On every page the pager can reach of a non-empty list, the header counts exactly the movies shown. */
  lemma ShowingMatchesSlice(movies: seq<DetailedMovie>, page: int, pageSize: int)
    requires pageSize >= 1 && movies != []
    requires 1 <= page <= TotalPages(|movies|, pageSize)
    ensures var (from, to) := Showing(page, pageSize, |movies|);
      1 <= from <= to <= |movies| && to - from + 1 == |PageSlice(movies, page, pageSize)|
  {
    var t := TotalPages(|movies|, pageSize);
    var start := (page - 1) * pageSize;
    MulMono(page - 1, t - 1, pageSize);
    MulMono(0, page - 1, pageSize);
    assert page * pageSize == start + pageSize;
    assert start < |movies|;
    assert |PageSlice(movies, page, pageSize)| == Min(start + pageSize, |movies|) - start;
  }

  /** The page after the list changes and the pager is used: reset to 1, then any clicks; it never leaves [1, totalPages]. */
  lemma PageStaysInRange(n: nat, pageSize: int, clicks: seq<Click>)
    requires pageSize >= 1
    ensures 1 <= Clicked(1, clicks, TotalPages(n, pageSize)) <= TotalPages(n, pageSize)
  {
    ClicksStayInRange(1, clicks, TotalPages(n, pageSize));
  }

  /** `removeMovie`: every occurrence of the movie goes; name, owner and the other ids stay. */
  function RemoveMovie(item: Watchlist, movieId: string): (u: WatchlistUpdate)
    ensures u.id == item.id && u.name == item.name && u.username == item.username
    ensures movieId !in u.moviesId
    ensures forall x :: x != movieId ==> (x in u.moviesId <==> x in item.moviesId)
    ensures multiset(u.moviesId) == multiset(item.moviesId)[movieId := 0]
    ensures IsSubseq(u.moviesId, item.moviesId)
  {
    WatchlistUpdate(item.id, item.name, item.username, RemoveAll(item.moviesId, movieId))
  }

  /** The ids of the shown movies. */
  function MovieIds(ms: seq<DetailedMovie>): seq<string> {
    Project(ms, (m: DetailedMovie) => m.id)
  }

  /** `removeAllOnPage`: every id shown on the page goes, the rest stays in order. */
  function RemoveAllOnPage(item: Watchlist, pageSlice: seq<DetailedMovie>): (u: WatchlistUpdate)
    ensures u.id == item.id && u.name == item.name && u.username == item.username
    ensures forall x :: x in u.moviesId <==> x in item.moviesId && x !in MovieIds(pageSlice)
    ensures forall x :: multiset(u.moviesId)[x] == if x in MovieIds(pageSlice) then 0 else multiset(item.moviesId)[x]
    ensures IsSubseq(u.moviesId, item.moviesId)
  {
    WatchlistUpdate(item.id, item.name, item.username, Without(item.moviesId, MovieIds(pageSlice)))
  }

  /**
   * The effects of a settled card update (rename, remove one, remove the
   * page): on success `invalidateQueries({ queryKey: invalidateKey })`, where
   * an undefined key matches every query; nothing on failure.
   */
  function UpdateSettled(invalidateKey: Option<QueryKey>, succeeded: bool): (effects: seq<CacheAction>)
    ensures !succeeded ==> effects == []
    ensures succeeded ==> |effects| == 1
    ensures succeeded ==> forall k :: Refreshes(effects[0], k) <==> invalidateKey.None? || Matches(k, invalidateKey.value)
  {
    if !succeeded then []
    else if invalidateKey.None? then [InvalidateAll]
    else [Invalidate(invalidateKey.value)]
  }

  /** The name editor's state. */
  datatype NameEditor = NameEditor(editing: bool, draft: string)

  /** Whether `saveName` sends an update: the trimmed draft is non-blank and differs from the current name. */
  predicate RenameWanted(item: Watchlist, draft: string) {
    !AllSpace(draft) && Trim(draft) != item.name
  }

  /** The update `saveName` sends when a rename is wanted: the trimmed name, everything else as it was. */
  function Rename(item: Watchlist, draft: string): (u: WatchlistUpdate)
    ensures u == WatchlistUpdate(item.id, Trim(draft), item.username, item.moviesId)
    ensures RenameWanted(item, draft) ==> u.name != "" && u.name != item.name
  {
    TrimEmptyIff(draft);
    WatchlistUpdate(item.id, Trim(draft), item.username, item.moviesId)
  }
}

/** `saveName` of the newer card: a cancelled rename also puts the draft back to the current name. */
module WatchlistCard {
  import opened Wrappers
  import opened Text
  import opened Domain
  import opened WatchlistCards

  function SaveName(item: Watchlist, editor: NameEditor): (r: (NameEditor, Option<WatchlistUpdate>))
    ensures !r.0.editing
    ensures r.1.Some? <==> RenameWanted(item, editor.draft)
    ensures r.1.Some? ==> r.1.value == Rename(item, editor.draft) && r.0.draft == editor.draft
    ensures r.1.None? ==> r.0.draft == item.name
  {
    TrimEmptyIff(editor.draft);
    var trimmed := Trim(editor.draft);
    if trimmed == "" || trimmed == item.name then (NameEditor(false, item.name), None)
    else (NameEditor(false, editor.draft), Some(Rename(item, editor.draft)))
  }
}

/** `saveName` of the older card: a cancelled rename leaves the draft as typed. */
module LegacyWatchlistCard {
  import opened Wrappers
  import opened Text
  import opened Domain
  import opened WatchlistCards
  import WatchlistCard

  function SaveName(item: Watchlist, editor: NameEditor): (r: (NameEditor, Option<WatchlistUpdate>))
    ensures !r.0.editing && r.0.draft == editor.draft
    ensures r.1.Some? <==> RenameWanted(item, editor.draft)
    ensures r.1.Some? ==> r.1.value == Rename(item, editor.draft)
  {
    TrimEmptyIff(editor.draft);
    var trimmed := Trim(editor.draft);
    if trimmed == "" || trimmed == item.name then (NameEditor(false, editor.draft), None)
    else (NameEditor(false, editor.draft), Some(Rename(item, editor.draft)))
  }

  /** The two cards send the same update for every draft; they differ only in the draft left after a cancelled rename. */
  lemma VariantsAgreeOnUpdates(item: Watchlist, editor: NameEditor)
    ensures SaveName(item, editor).1 == WatchlistCard.SaveName(item, editor).1
    ensures SaveName(item, editor).0 != WatchlistCard.SaveName(item, editor).0 <==>
      !RenameWanted(item, editor.draft) && editor.draft != item.name
  {
  }
}
