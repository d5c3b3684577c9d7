/**
 * The recommendations page (app/recommend/page): the paged search results
 * beside the first recommendations. Query state (fetching, error, data) is
 * an input; the debounce delay is left out.
 */
module RecommendPage {
  import opened Wrappers
  import opened Text
  import opened Seqs
  import opened Paging
  import opened JsValues
  import opened ErrorMessages
  import opened Domain
  import opened MoviesApi

  const PageSize := 8
  const MaxRecommendations := 6

  /** The search query runs only for a query that is not blank. */
  predicate SearchEnabled(debounced: string) {
    |Trim(debounced)| > 0
  }

  /** The search data once settled: none while disabled, else the catalogue search. */
  function SearchData(debounced: string): (r: Option<seq<DetailedMovie>>)
    ensures r.None? <==> AllSpace(debounced)
    ensures r.Some? ==> r.value == SearchMovies(debounced)
  {
    TrimEmptyIff(debounced);
    if SearchEnabled(debounced) then Some(SearchMovies(debounced)) else None
  }

  /** `totalPages`: `Math.ceil(n / 8)` once there are results, 0 before. */
  function TotalPages(results: Option<seq<DetailedMovie>>): (t: int)
    ensures results.None? ==> t == 0
    ensures results.Some? ==> t >= 0 && (t - 1) * PageSize < |results.value| <= t * PageSize
    ensures results.Some? ==> (t == 0 <==> results.value == [])
  {
    if results.None? then 0 else CeilDiv(|results.value|, PageSize)
  }

  /** `paginatedResults`: the current page of eight, or nothing before there are results. */
  function PaginatedResults(results: Option<seq<DetailedMovie>>, page: int): (r: seq<DetailedMovie>)
    ensures results.None? ==> r == []
    ensures |r| <= PageSize
    ensures results.Some? && page >= 1 ==>
      r == results.value[Min((page - 1) * PageSize, |results.value|)..Min(page * PageSize, |results.value|)]
  {
    if results.None? then []
    else if page >= 1 then PageContents(results.value, page, PageSize); PageOf(results.value, page, PageSize)
    else PageOf(results.value, page, PageSize)
  }

  /** A new debounced query starts again at page 1; Prev and Next then keep any non-empty result list on a non-empty page. */
  lemma PagerShowsResults(results: seq<DetailedMovie>, clicks: seq<Click>)
    requires results != []
    ensures var t := TotalPages(Some(results));
      var page := Clicked(1, clicks, t);
      1 <= page <= t && PaginatedResults(Some(results), page) != []
  {
    var t := TotalPages(Some(results));
    ClicksStayInRange(1, clicks, t);
    var page := Clicked(1, clicks, t);
    assert (page - 1) * PageSize <= (t - 1) * PageSize by {
      assert (t - page) * PageSize >= 0;
    }
  }

  /** Reading the pages 1 to totalPages in turn shows every result once, in order. */
  lemma PagesShowAllResults(results: seq<DetailedMovie>)
    ensures AllPages(results, PageSize, TotalPages(Some(results))) == results
  {
    PagesCover(results, PageSize);
  }

  /** What the results column shows. */
  datatype ResultsView = ResultsView(skeleton: bool, error: Option<string>, noResults: bool, cards: seq<DetailedMovie>)

  function ResultsArea(isSearching: bool, isSearchError: bool, searchError: JsValue, debounced: string,
                       results: Option<seq<DetailedMovie>>, page: int): (v: ResultsView)
    ensures v.skeleton == isSearching
    ensures v.error.Some? <==> isSearchError
    ensures isSearchError ==> v.error.value == GetErrorMessage(searchError)
    ensures v.noResults <==> !isSearching && debounced != "" && results == Some([])
    ensures v.cards != [] ==> !isSearching && v.cards == PaginatedResults(results, page)
    ensures !isSearching && results.Some? && results.value != [] ==> v.cards == PaginatedResults(results, page)
    ensures isSearching || results.None? || results.value == [] ==> v.cards == []
    ensures !v.noResults || v.cards == []
  {
    var list := !isSearching && results.Some? && |results.value| > 0;
    ResultsView(
      isSearching,
      if isSearchError then Some(GetErrorMessage(searchError)) else None,
      !isSearching && debounced != "" && results == Some([]),
      if list then PaginatedResults(results, page) else [])
  }

  /** Once a search has answered with results, any page the pager reaches shows cards and never "No results". */
  lemma SettledSearchShowsCards(isSearchError: bool, searchError: JsValue, debounced: string,
                                results: seq<DetailedMovie>, clicks: seq<Click>)
    requires results != []
    ensures var v := ResultsArea(false, isSearchError, searchError, debounced, Some(results),
                                 Clicked(1, clicks, TotalPages(Some(results))));
      v.cards != [] && !v.noResults && !v.skeleton
  {
    PagerShowsResults(results, clicks);
  }

  /** The recommendations shown: at most the first six, in order, once loaded. */
  function ShownRecommendations(isRecsLoading: bool, recommended: Option<seq<RecommendedItem>>): (r: seq<RecommendedItem>)
    ensures |r| <= MaxRecommendations
    ensures isRecsLoading ==> r == []
    ensures !isRecsLoading && recommended.Some? ==> r == recommended.value[..Min(MaxRecommendations, |recommended.value|)]
    ensures recommended.None? ==> r == []
  {
    var recs := recommended.GetOr([]);
    if isRecsLoading || |recs| == 0 then [] else JsSlice(recs, 0, MaxRecommendations)
  }

  /** The recommendations error box as written: it renders the message of the search query's error. */
  function RecsErrorMessageAsWritten(isRecsError: bool, recsError: JsValue, searchError: JsValue): (r: Option<string>)
    ensures r.Some? <==> isRecsError
    ensures isRecsError ==> r.value == GetErrorMessage(searchError)
  {
    if isRecsError then Some(GetErrorMessage(searchError)) else None
  }

  /** When only the recommendations fail, the box shows the generic fallback instead of the failure's own message. */
  lemma RecsErrorShowsWrongMessage()
    ensures var recsError := NewError(Str("Recommendations unavailable"));
      RecsErrorMessageAsWritten(true, recsError, Null) == Some(UnknownError) &&
      GetErrorMessage(recsError) == "Recommendations unavailable"
  {
  }

  /** The recommendations error box reading the recommendations query's own error. */
  function RecsErrorMessage(isRecsError: bool, recsError: JsValue): (r: Option<string>)
    ensures r.Some? <==> isRecsError
    ensures isRecsError && recsError.Err? && !HasUserMessage(recsError) ==> r.value == recsError.message
    ensures isRecsError && recsError.Str? ==> r.value == recsError.s
  {
    if isRecsError then Some(GetErrorMessage(recsError)) else None
  }

  /** The corrected box is independent of the search query and agrees with the as-written one exactly when both queries report the same error. */
  lemma RecsErrorIgnoresSearch(recsError: JsValue, searchError: JsValue)
    ensures RecsErrorMessage(true, recsError) == RecsErrorMessageAsWritten(true, recsError, recsError)
    ensures RecsErrorMessageAsWritten(true, recsError, searchError) == RecsErrorMessage(true, searchError)
  {
  }
}
