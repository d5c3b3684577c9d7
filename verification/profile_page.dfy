/** The profile page (app/profile/page): creating and deleting watchlists and the list's three states. */
module ProfilePage {
  import opened Wrappers
  import opened Text
  import opened Domain
  import opened WatchlistSelection
  import WatchlistCards

  /** The body of `createWatchlist`. */
  datatype NewWatchlist = NewWatchlist(name: string, username: string, moviesId: seq<string>)

  /** `handleCreateWatchlist`: nothing for a blank name, else the trimmed name, the current user and no movies. */
  function HandleCreate(input: string, username: string): (r: Option<NewWatchlist>)
    ensures r.None? <==> AllSpace(input)
    ensures r.Some? ==> r.value == NewWatchlist(Trim(input), username, [])
    ensures r.Some? ==> r.value.name != "" && !IsSpace(r.value.name[0]) && !IsSpace(r.value.name[|r.value.name| - 1])
  {
    TrimEmptyIff(input);
    TrimIdempotent(input);
    var name := Trim(input);
    if name == "" then None else Some(NewWatchlist(name, username, []))
  }

  /** The page after a create or delete request settles: cache effects and the text left in the name input. */
  datatype Settled = Settled(effects: seq<CacheAction>, input: string)

  /** A successful create invalidates the user's watchlists and clears the input; a failure changes neither. */
  function CreateSettled(username: Option<string>, input: string, succeeded: bool): (r: Settled)
    ensures succeeded ==> r == Settled([Invalidate(WatchlistsKey(username))], "")
    ensures !succeeded ==> r == Settled([], input)
  {
    if succeeded then Settled([Invalidate(WatchlistsKey(username))], "") else Settled([], input)
  }

  /** A successful delete of any watchlist invalidates the same key the create does; the input is untouched. */
  function DeleteSettled(username: Option<string>, input: string, succeeded: bool): (r: Settled)
    ensures r.input == input
    ensures succeeded <==> r.effects == [Invalidate(WatchlistsKey(username))]
    ensures !succeeded ==> r.effects == []
  {
    if succeeded then Settled([Invalidate(WatchlistsKey(username))], input) else Settled([], input)
  }

  /** Create and delete refresh the very list the page and the dialogs read. */
  lemma MutationsRefreshTheList(username: Option<string>, input: string)
    ensures CreateSettled(username, input, true).effects == DeleteSettled(username, input, true).effects
    ensures CreateSettled(username, input, true).effects[0].key == [Some("watchlists"), username]
  {
  }

  /**
   * The page renders its cards without an `invalidateKey`, so a card's
   * successful update invalidates every query: the watchlist list, and
   * everything else the client has cached as well.
   */
  lemma CardUpdatesRefreshEverything(username: Option<string>)
    ensures var effects := WatchlistCards.UpdateSettled(None, true);
      effects == [InvalidateAll] && Refreshes(effects[0], WatchlistsKey(username)) &&
      forall k :: Refreshes(effects[0], k)
  {
  }

  datatype ListView = Spinner | NoWatchlists | Cards(items: seq<Watchlist>)

  /** The watchlist area: spinner while loading, the empty message on error or no elements, else one card per watchlist. */
  function ListArea(isLoading: bool, isError: bool, elements: Option<seq<Watchlist>>): (v: ListView)
    ensures isLoading ==> v == Spinner
    ensures !isLoading ==> (v == NoWatchlists <==> isError || elements.None? || elements.value == [])
    ensures v.Cards? ==> elements == Some(v.items) && v.items != []
  {
    if isLoading then Spinner
    else if isError || elements.None? || |elements.value| == 0 then NoWatchlists
    else Cards(elements.value)
  }
}
