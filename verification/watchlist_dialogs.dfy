/**
 * What the two "Add to Watchlist" dialogs share: flipping one watchlist in
 * the selection, and turning a selection into per-watchlist updates when
 * saving. The update request itself is an abstract effect.
 */
module WatchlistSelection {
  import opened Wrappers
  import opened Seqs
  import opened Domain

  /** The ids of the listed watchlists. */
  function Ids(ws: seq<Watchlist>): seq<string> {
    Project(ws, (w: Watchlist) => w.id)
  }

  /** Taking ids commutes with putting one watchlist in front. */
  lemma IdsCons(w: Watchlist, ws: seq<Watchlist>)
    ensures Ids([w] + ws) == [w.id] + Ids(ws)
  {
    assert forall i :: 0 <= i < |ws| + 1 ==> Ids([w] + ws)[i] == ([w.id] + Ids(ws))[i];
  }

  /** `toggleOne` / `handleToggle`: drop the id if selected, else append it. */
  function Toggle(selected: seq<string>, id: string): (r: seq<string>)
    ensures id in r <==> id !in selected
    ensures forall x :: x != id ==> (x in r <==> x in selected)
    ensures Distinct(selected) ==> Distinct(r)
  {
    if id in selected then
      if Distinct(selected) then RemoveAllDistinct(selected, id); RemoveAll(selected, id)
      else RemoveAll(selected, id)
    else selected + [id]
  }

  /** Ticking an unselected watchlist and unticking it again gives back the selection as it was. */
  lemma ToggleTwice(selected: seq<string>, id: string)
    requires id !in selected
    ensures Toggle(Toggle(selected, id), id) == selected
  {
    var t := selected + [id];
    assert RemoveAll(t, id) == RemoveAll(selected, id) + RemoveAll([id], id) by {
      RemoveAllAppend(selected, [id], id);
    }
    RemoveAllAbsent(selected, id);
  }

  /**
   * The save plan for one watchlist: an update when its membership of
   * `movieId` disagrees with the selection (append at the end, or drop every
   * occurrence), nothing when it already agrees.
   */
  function Plan(wl: Watchlist, selected: seq<string>, movieId: string): (op: Option<Watchlist>)
    ensures op.None? <==> (wl.id in selected <==> movieId in wl.moviesId)
    ensures op.Some? ==> op.value == wl.(moviesId := op.value.moviesId)
    ensures op.Some? && wl.id in selected ==> op.value.moviesId == wl.moviesId + [movieId]
    ensures op.Some? && wl.id !in selected ==> op.value.moviesId == RemoveAll(wl.moviesId, movieId)
  {
    var shouldHave := wl.id in selected;
    var alreadyHas := movieId in wl.moviesId;
    if shouldHave && !alreadyHas then Some(wl.(moviesId := wl.moviesId + [movieId]))
    else if !shouldHave && alreadyHas then Some(wl.(moviesId := RemoveAll(wl.moviesId, movieId)))
    else None
  }

  /** A watchlist as stored after its plan has been carried out. */
  function After(wl: Watchlist, op: Option<Watchlist>): Watchlist {
    op.GetOr(wl)
  }

  /** One plan per watchlist, in order (`all.map(...)`). */
  function SavePlans(all: seq<Watchlist>, selected: seq<string>, movieId: string): (ops: seq<Option<Watchlist>>)
    ensures |ops| == |all|
    ensures forall i :: 0 <= i < |all| ==> ops[i] == Plan(all[i], selected, movieId)
  {
    seq(|all|, i requires 0 <= i < |all| => Plan(all[i], selected, movieId))
  }

  /** After saving, a watchlist holds the movie exactly when it is selected; its other ids are untouched. */
  lemma SaveMatchesSelection(all: seq<Watchlist>, selected: seq<string>, movieId: string, i: int)
    requires 0 <= i < |all|
    ensures var w := After(all[i], SavePlans(all, selected, movieId)[i]);
      (movieId in w.moviesId <==> all[i].id in selected) &&
      (forall x :: x != movieId ==> (x in w.moviesId <==> x in all[i].moviesId)) &&
      w.id == all[i].id && w.name == all[i].name && w.username == all[i].username
  {
  }

  /** The query-cache key of a user's watchlists. */
  function WatchlistsKey(username: Option<string>): QueryKey {
    [Some("watchlists"), username]
  }

  /** The dialog after a save: its update plans, the cache effects and whether it stays open. */
  datatype SaveResult = SaveResult(ops: seq<Option<Watchlist>>, effects: seq<CacheAction>, open: bool)

  /** A save: on success the user's watchlists are invalidated and the dialog closes; on failure it stays open. */
  function Save(all: seq<Watchlist>, selected: seq<string>, movieId: string, username: Option<string>,
                succeeded: bool): (r: SaveResult)
    ensures r.ops == SavePlans(all, selected, movieId)
    ensures succeeded ==> r.effects == [Invalidate(WatchlistsKey(username))] && !r.open
    ensures !succeeded ==> r.effects == [] && r.open
  {
    var ops := SavePlans(all, selected, movieId);
    if succeeded then SaveResult(ops, [Invalidate(WatchlistsKey(username))], false)
    else SaveResult(ops, [], true)
  }
}

/** The newer dialog (components/watchlist/AddToWatchlistsDialog): search, select-all and an empty initial selection. */
module AddToWatchlists {
  import opened Wrappers
  import opened Text
  import opened Seqs
  import opened Domain
  import opened WatchlistSelection

  /** The dialog's own state. */
  datatype DialogState = DialogState(selected: seq<string>, query: string)

  /** Opening clears the selection and the search. */
  const Opened := DialogState([], "")

  /** `filtered`: every watchlist for a blank search, else those whose lower-cased name contains the search, in order. */
  function Filtered(all: seq<Watchlist>, query: string): (r: seq<Watchlist>)
    ensures AllSpace(query) ==> r == all
    ensures !AllSpace(query) ==> forall w :: w in r <==> w in all && Contains(ToLower(w.name), ToLower(Trim(query)))
    ensures !AllSpace(query) ==>
      forall w :: multiset(r)[w] == if Contains(ToLower(w.name), ToLower(Trim(query))) then multiset(all)[w] else 0
    ensures IsSubseq(r, all)
  {
    TrimEmptyIff(query);
    var q := ToLower(Trim(query));
    if q == "" then
      assert IsSubseq(all, all) by { SubseqRefl(all); }
      all
    else Filter(all, (w: Watchlist) => Contains(ToLower(w.name), q))
  }

  /** `isAllFilteredSelected`. */
  predicate AllFilteredSelected(filtered: seq<Watchlist>, selected: seq<string>) {
    |filtered| > 0 && forall w :: w in filtered ==> w.id in selected
  }

  /**
   * `toggleAllFiltered`: when every listed watchlist is selected, exactly
   * their ids leave the selection; otherwise they join it, without duplicates:
   * the selection's first occurrences come first, then the listed ids it
   * lacks, in list order.
   */
  function ToggleAllFiltered(filtered: seq<Watchlist>, selected: seq<string>): (r: seq<string>)
    ensures AllFilteredSelected(filtered, selected) ==>
      forall x :: x in r <==> x in selected && x !in Ids(filtered)
    ensures AllFilteredSelected(filtered, selected) ==>
      forall x :: multiset(r)[x] == if x in Ids(filtered) then 0 else multiset(selected)[x]
    ensures !AllFilteredSelected(filtered, selected) ==>
      (forall x :: x in r <==> x in selected || x in Ids(filtered)) && Distinct(r)
    ensures !AllFilteredSelected(filtered, selected) ==>
      r == Dedup(selected) + Dedup(Without(Ids(filtered), selected))
    ensures !AllFilteredSelected(filtered, selected) && Distinct(selected) ==>
      r == selected + Dedup(Without(Ids(filtered), selected))
    ensures AllFilteredSelected(filtered, selected) ==> IsSubseq(r, selected)
  {
    if AllFilteredSelected(filtered, selected) then Without(selected, Ids(filtered))
    else
      DedupConcat(selected, Ids(filtered));
      if Distinct(selected) then DedupOfDistinct(selected); Dedup(selected + Ids(filtered))
      else Dedup(selected + Ids(filtered))
  }

  /** Pressing select-all twice after it selected the listed watchlists removes them again, leaving no listed id selected. */
  lemma SelectAllThenClear(filtered: seq<Watchlist>, selected: seq<string>)
    requires |filtered| > 0 && !AllFilteredSelected(filtered, selected)
    ensures var once := ToggleAllFiltered(filtered, selected);
      AllFilteredSelected(filtered, once) &&
      forall x :: x in ToggleAllFiltered(filtered, once) <==> x in selected && x !in Ids(filtered)
  {
    var once := ToggleAllFiltered(filtered, selected);
    forall w | w in filtered
      ensures w.id in once
    {
      var i :| 0 <= i < |filtered| && filtered[i] == w;
      assert Ids(filtered)[i] == w.id;
    }
  }

  /** `clearAll`: the selection empties; the search stays as typed. */
  function ClearAll(st: DialogState): (r: DialogState)
    ensures forall x :: x !in r.selected
    ensures r.query == st.query
  {
    st.(selected := [])
  }

  /** Clearing and then saving sends the same updates as saving straight after opening, whatever was selected. */
  lemma ClearThenSaveIsLikeOpened(st: DialogState, all: seq<Watchlist>, movieId: string)
    ensures SavePlans(all, ClearAll(st).selected, movieId) == SavePlans(all, Opened.selected, movieId)
  {
  }

  /** Saving straight after opening removes the movie from every watchlist that has it and adds it nowhere. */
  lemma SaveWithoutTicking(all: seq<Watchlist>, movieId: string, i: int)
    requires 0 <= i < |all|
    ensures var op := SavePlans(all, Opened.selected, movieId)[i];
      (op.Some? <==> movieId in all[i].moviesId) &&
      movieId !in After(all[i], op).moviesId
  {
  }
}

/** The older dialog (components/AddToWatchlistsDialog): the selection starts from the current memberships. */
module LegacyAddToWatchlists {
  import opened Wrappers
  import opened Seqs
  import opened Domain
  import opened WatchlistSelection

  /** `elements.filter(wl => wl.movies_id.includes(movieId))`. */
  function Holding(all: seq<Watchlist>, movieId: string): seq<Watchlist> {
    Filter(all, (w: Watchlist) => movieId in w.moviesId)
  }

  /**
   * The selection on opening, walked watchlist by watchlist: the ids of the
   * watchlists that already hold the movie, in order. It equals the source's
   * `filter(...).map(wl => wl.id)`.
   */
  function InitialSelection(all: seq<Watchlist>, movieId: string): (r: seq<string>)
    ensures |r| <= |all|
    ensures forall id :: id in r <==> exists w :: w in all && w.id == id && movieId in w.moviesId
    ensures r == Ids(Holding(all, movieId))
  {
    if all == [] then []
    else
      var rest := InitialSelection(all[1..], movieId);
      assert forall w :: w in all <==> w == all[0] || w in all[1..];
      HoldingCons(all, movieId);
      if movieId in all[0].moviesId then [all[0].id] + rest else rest
  }

  /** One step of the filter-then-map: the first watchlist contributes its id exactly when it holds the movie. */
  lemma HoldingCons(all: seq<Watchlist>, movieId: string)
    requires all != []
    ensures Ids(Holding(all, movieId)) ==
      (if movieId in all[0].moviesId then [all[0].id] else []) + Ids(Holding(all[1..], movieId))
  {
    assert all == [all[0]] + all[1..];
    if movieId in all[0].moviesId {
      assert Holding(all, movieId) == [all[0]] + Holding(all[1..], movieId);
      IdsCons(all[0], Holding(all[1..], movieId));
    } else {
      assert Holding(all, movieId) == Holding(all[1..], movieId);
    }
  }

  /** With distinct watchlist ids, opening and saving straight away sends no update at all. */
  lemma OpenThenSaveIsQuiet(all: seq<Watchlist>, movieId: string)
    requires forall i, j :: 0 <= i < j < |all| ==> all[i].id != all[j].id
    ensures forall i :: 0 <= i < |all| ==> SavePlans(all, InitialSelection(all, movieId), movieId)[i].None?
  {
    var sel := InitialSelection(all, movieId);
    forall i | 0 <= i < |all|
      ensures Plan(all[i], sel, movieId).None?
    {
      if all[i].id in sel {
        var w :| w in all && w.id == all[i].id && movieId in w.moviesId;
        var j :| 0 <= j < |all| && all[j] == w;
        assert i == j;
      }
    }
  }
}
