/** Backend watchlist records and pages to client watchlists (types/mapper/watchlistMapper). */
module WatchlistMapper {
  import opened Wrappers
  import opened JsValues
  import opened Domain
  import opened MongoDb

  /** A watchlist as the backend sends it; `moviesId` is `None` when the field is not an array. */
  datatype BackendWatchlist = BackendWatchlist(
    mongoId: MongoId,
    id: Option<string>,
    name: string,
    username: string,
    moviesId: Option<seq<string>>,
    updatedDate: MongoDate)

  /** A page of watchlists as the backend sends it; every field may be missing. */
  datatype BackendPage = BackendPage(
    pageNo: Option<int>,
    pageSize: Option<int>,
    totalElements: Option<int>,
    totalPages: Option<int>,
    isLast: Option<bool>,
    elements: Option<seq<BackendWatchlist>>)

  /** The `TypeError` thrown when `raw.elements.length` is read off a missing list. */
  const MissingElementsError: JsValue := Err("Cannot read properties of undefined (reading 'length')", map[])

  /** `mapWatchlist`. */
  function MapWatchlist(raw: BackendWatchlist, iso: string -> string): (w: Watchlist)
    ensures w.id == ParseMongoId(CoalesceId(raw.mongoId, IdOf(raw.id)))
    ensures w.name == raw.name && w.username == raw.username
    ensures raw.moviesId.Some? ==> w.moviesId == raw.moviesId.value
    ensures raw.moviesId.None? ==> w.moviesId == []
    ensures w.updatedDate == ParseMongoDate(raw.updatedDate, iso)
  {
    Watchlist(
      ParseMongoId(CoalesceId(raw.mongoId, IdOf(raw.id))),
      raw.name,
      raw.username,
      raw.moviesId.GetOr([]),
      ParseMongoDate(raw.updatedDate, iso))
  }

  /** `(raw.elements ?? []).map(mapWatchlist)`. */
  function MapAll(raws: seq<BackendWatchlist>, iso: string -> string): (ws: seq<Watchlist>)
    ensures |ws| == |raws|
    ensures forall i :: 0 <= i < |raws| ==> ws[i] == MapWatchlist(raws[i], iso)
  {
    seq(|raws|, i requires 0 <= i < |raws| => MapWatchlist(raws[i], iso))
  }

  /**
   * `mapPaginatedWatchlists`: missing page fields take the defaults 1, 10,
   * 1 and true; a missing total falls back to the element count, and throws
   * when the element list is missing as well.
   */
  function MapPaginatedWatchlists(raw: BackendPage, iso: string -> string): (r: Result<Paginated<Watchlist>, JsValue>)
    ensures r.Failure? <==> raw.totalElements.None? && raw.elements.None?
    ensures r.Failure? ==> r.error == MissingElementsError
    ensures r.Success? ==> r.value.pageNo == raw.pageNo.GetOr(1) && r.value.pageSize == raw.pageSize.GetOr(10)
    ensures r.Success? ==> r.value.totalPages == raw.totalPages.GetOr(1) && r.value.isLast == raw.isLast.GetOr(true)
    ensures r.Success? ==> r.value.elements == MapAll(raw.elements.GetOr([]), iso)
    ensures r.Success? && raw.totalElements.Some? ==> r.value.totalElements == raw.totalElements.value
    ensures r.Success? && raw.totalElements.None? ==> r.value.totalElements == |raw.elements.value|
  {
    if raw.totalElements.None? && raw.elements.None? then Failure(MissingElementsError)
    else
      var elements := raw.elements.GetOr([]);
      Success(Paginated(
        MapAll(elements, iso),
        raw.pageNo.GetOr(1),
        raw.pageSize.GetOr(10),
        if raw.totalElements.Some? then raw.totalElements.value else |elements|,
        raw.totalPages.GetOr(1),
        raw.isLast.GetOr(true)))
  }

  /** A bare list of records maps to a single, complete, last page whose total matches what it holds. */
  lemma BareListIsOnePage(raws: seq<BackendWatchlist>, iso: string -> string)
    ensures var r := MapPaginatedWatchlists(BackendPage(None, None, None, None, None, Some(raws)), iso);
      r.Success? && r.value.totalElements == |r.value.elements| == |raws|
      && r.value.pageNo == 1 == r.value.totalPages && r.value.isLast
  {
  }

  /** `_id` wins over `id` whenever it is present, in either encoding. */
  lemma MongoIdWins(raw: BackendWatchlist, iso: string -> string)
    requires !raw.mongoId.IdAbsent?
    ensures MapWatchlist(raw, iso).id == ParseMongoId(raw.mongoId)
  {
  }

  /** A record sent with extended-JSON wrappers maps to the same watchlist as its plain-string form. */
  lemma EncodingsMapAlike(raw: BackendWatchlist, oid: string, date: string, iso: string -> string)
    ensures MapWatchlist(raw.(mongoId := IdWrapper(Some(oid)), updatedDate := DateWrapper(date)), iso)
         == MapWatchlist(raw.(mongoId := IdText(oid), updatedDate := DateText(iso(date))), iso)
  {
  }
}
