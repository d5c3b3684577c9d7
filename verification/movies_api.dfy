/**
 * The movie service client (lib/api/moviesApi). The development build
 * answers from the in-memory catalogue; otherwise each call is one
 * authenticated request, recorded here as the endpoint it targets.
 */
module MoviesApi {
  import opened Wrappers
  import opened Text
  import opened Seqs
  import opened Paging
  import opened Sorting
  import opened JsValues
  import opened Domain
  import opened MockMovies

  /** The request a live call makes, through `fetchApiWithAuth`. */
  datatype Endpoint =
    | MovieById(id: string)
    | MoviesByIds(ids: seq<string>)
    | MovieIdsByGenres(genres: seq<string>)
    | AllMovies(page: int, size: int, sortBy: string, order: string)

  /** An answer served from memory, or the single request sent instead. */
  datatype Served<T> = Local(value: T) | Remote(endpoint: Endpoint)

  /** The normalised search text: trimmed, then lower-cased. */
  function SearchQuery(query: string): string {
    ToLower(Trim(query))
  }

  /** The search predicate: `q` occurs in the title, in some genre name, or in "first last" of the director, all lower-cased. */
  predicate MovieMatches(m: DetailedMovie, q: string) {
    || Contains(ToLower(m.title), q)
    || (exists g :: g in m.genres && Contains(ToLower(g.name), q))
    || Contains(ToLower(m.director.firstName + " " + m.director.lastName), q)
  }

  /**
   * `searchMovies`: the catalogue movies matching the normalised query, in
   * catalogue order; a blank query finds nothing. Always served from memory.
   */
  function SearchMovies(query: string): (r: seq<DetailedMovie>)
    ensures AllSpace(query) ==> r == []
    ensures forall m :: m in r <==> !AllSpace(query) && m in MockDetailedMovies() && MovieMatches(m, SearchQuery(query))
    ensures IsSubseq(r, MockDetailedMovies())
  {
    TrimEmptyIff(query);
    var q := SearchQuery(query);
    if q == "" then []
    else Filter(MockDetailedMovies(), m => MovieMatches(m, q))
  }

  /** Search ignores letter case and surrounding white space of the query. */
  lemma SearchNormalises(query: string)
    ensures SearchMovies(ToLower(query)) == SearchMovies(query)
    ensures SearchMovies(Trim(query)) == SearchMovies(query)
  {
    TrimLower(query);
    ToLowerIdempotent(Trim(query));
    TrimIdempotent(query);
    TrimEmptyIff(query);
    TrimEmptyIff(ToLower(query));
    TrimEmptyIff(Trim(query));
  }

  /**
   * `getMovieById`: the catalogue movie or its placeholder in development.
   * It is built on the corrected lookup; for every id that is not a member
   * name of `Object.prototype` that is also what the code as written returns.
   */
  function GetMovieById(env: Env, id: string): (r: Served<DetailedMovie>)
    ensures env == Development ==> r.Local? && r.value.id == id
    ensures env == Development && id !in CatalogueIds ==> r.value.title == "Unknown Movie"
    ensures env == Development && id !in ObjectPrototypeKeys ==> MockDetailedMovieAsWritten(id) == Own(r.value)
    ensures env == Deployed ==> r == Remote(MovieById(id))
  {
    if env == Development then Local(MockDetailedMovie(id)) else Remote(MovieById(id))
  }

  /**
   * `getMoviesByIds`: in development, the catalogue movies whose id is
   * requested, in catalogue order and each once however often it is asked for.
   */
  function GetMoviesByIds(env: Env, ids: seq<string>): (r: Served<seq<DetailedMovie>>)
    ensures env == Development ==> r.Local?
    ensures env == Development ==> forall m :: m in r.value <==> m in MockDetailedMovies() && m.id in ids
    ensures env == Development ==> IsSubseq(r.value, MockDetailedMovies())
    ensures env == Development && ids == [] ==> r.value == []
    ensures env == Deployed ==> r == Remote(MoviesByIds(ids))
  {
    if env == Development then Local(Filter(MockDetailedMovies(), (m: DetailedMovie) => m.id in ids))
    else Remote(MoviesByIds(ids))
  }

  /** The development answer never repeats a movie, even for repeated ids. */
  lemma MoviesByIdsDistinct(ids: seq<string>)
    ensures Distinct(GetMoviesByIds(Development, ids).value)
  {
    MockDetailedMoviesIds();
    var ms := MockDetailedMovies();
    assert Distinct(ms) by {
      forall i, j | 0 <= i < j < |ms|
        ensures ms[i] != ms[j]
      {
        assert ms[i].id != ms[j].id;
      }
    }
    FilterDistinct(ms, (m: DetailedMovie) => m.id in ids);
  }

  /** The property key `genres[0]` reads: `String(undefined)` for an empty list. */
  function FirstGenreKey(genres: seq<string>): (k: string)
    ensures genres != [] ==> k == genres[0]
  {
    if genres == [] then "undefined" else genres[0]
  }

  /** `getMovieIdsByGenres` in development, reading only the index's own keys: the first genre's ids, or none. */
  function GetMovieIdsByGenres(env: Env, genres: seq<string>): (r: Served<seq<string>>)
    ensures env == Development ==> r.Local?
    ensures env == Development && genres != [] && genres[0] in MockMovieIdsByGenre ==>
      r.value == MockMovieIdsByGenre[genres[0]]
    ensures env == Development && (genres == [] || genres[0] !in MockMovieIdsByGenre) ==> r.value == []
    ensures env == Deployed ==> r == Remote(MovieIdsByGenres(genres))
  {
    if env == Deployed then Remote(MovieIdsByGenres(genres))
    else
      var k := FirstGenreKey(genres);
      assert genres == [] ==> k !in MockMovieIdsByGenre;
      Local(if k in MockMovieIdsByGenre then MockMovieIdsByGenre[k] else [])
  }

  /** `mockMovieIdsByGenre[genres[0]] ?? []` as written: an inherited member is not nullish and is returned. */
  function GetMovieIdsByGenresAsWritten(genres: seq<string>): (r: Lookup<seq<string>>)
    ensures r.Own? ==> Local(r.value) == GetMovieIdsByGenres(Development, genres)
    ensures r.Inherited? <==> FirstGenreKey(genres) !in MockMovieIdsByGenre && FirstGenreKey(genres) in ObjectPrototypeKeys
    ensures !r.Missing?
  {
    var k := FirstGenreKey(genres);
    var own := if k in MockMovieIdsByGenre then Some(MockMovieIdsByGenre[k]) else None;
    match LiteralLookup(own, k)
    case Own(ids) => Own(ids)
    case Inherited(name) => Inherited(name)
    case Missing => Own([])
  }

  /** The genre "constructor" yields the inherited `Object` constructor rather than an empty id list. */
  lemma GenreLookupServesInheritedMember()
    ensures GetMovieIdsByGenresAsWritten(["constructor"]) == Inherited("constructor")
    ensures GetMovieIdsByGenres(Development, ["constructor"]) == Local([])
  {
  }

  /** `String(list)` for a list of plain objects. */
  function ObjectListText(n: nat): (t: string)
    ensures n == 0 <==> t == ""
  {
    if n == 0 then "" else if n == 1 then "[object Object]" else "[object Object]," + ObjectListText(n - 1)
  }

  /**
   * `String(f)` for an inherited member `f`: the same text for every movie.
   * `__proto__` is `Object.prototype` itself and `constructor` is `Object`.
   */
  function InheritedMemberText(k: string): string {
    if k == "__proto__" then "[object Object]"
    else if k == "constructor" then "function Object() { [native code] }"
    else "function " + k + "() { [native code] }"
  }

  /** The own keys of a catalogue movie object. */
  const MovieKeys: set<string> := {
    "id", "title", "genres", "director", "casts", "synopsis",
    "releaseDate", "language", "rating", "reviews", "posterUrl"
  }

  /**
   * The sort key of the development listing: `releaseDate` for
   * "releaseDate", `String(movie[sortBy] ?? '')` for any key `sortBy in movie`
   * (own or inherited), and the title otherwise.
   */
  function SortKey(m: DetailedMovie, sortBy: string): (k: string)
    ensures sortBy == "releaseDate" ==> k == m.releaseDate
    ensures sortBy == "title" ==> k == m.title
    ensures sortBy == "id" ==> k == m.id
    ensures sortBy !in MovieKeys && sortBy !in ObjectPrototypeKeys ==> k == m.title
    ensures sortBy !in MovieKeys && sortBy in ObjectPrototypeKeys ==> k == InheritedMemberText(sortBy)
  {
    if sortBy == "releaseDate" then m.releaseDate
    else if sortBy == "id" then m.id
    else if sortBy == "title" then m.title
    else if sortBy == "synopsis" then m.synopsis
    else if sortBy == "language" then m.language
    else if sortBy == "posterUrl" then m.posterUrl.GetOr("")
    else if sortBy == "rating" then (if m.rating.Some? then "[object Object]" else "")
    else if sortBy == "director" then "[object Object]"
    else if sortBy == "genres" then ObjectListText(|m.genres|)
    else if sortBy == "casts" then ObjectListText(|m.casts|)
    else if sortBy == "reviews" then ObjectListText(|m.reviews|)
    else if sortBy in ObjectPrototypeKeys then InheritedMemberText(sortBy)
    else m.title
  }

  /** The listing's sort key for `sortBy`, as a function of the movie. */
  function ListingKey(sortBy: string): DetailedMovie -> string {
    m => SortKey(m, sortBy)
  }

  /** `Math.ceil(n / size)` in double arithmetic: a count, or Infinity / NaN for a zero size. */
  datatype PageCount = Count(pages: int) | Infinity | NotANumber

  function PageCountOf(n: nat, size: int): (c: PageCount)
    ensures size > 0 ==> c == Count(CeilDiv(n, size))
    ensures size == 0 ==> (c.NotANumber? <==> n == 0) && (c.Infinity? <==> n > 0)
    ensures size < 0 ==> c.Count? && c.pages * size <= n < (c.pages - 1) * size
  {
    if size > 0 then Count(CeilDiv(n, size))
    else if size == 0 then (if n == 0 then NotANumber else Infinity)
    else
      var q := n / -size;
      assert q * -size <= n < (q + 1) * -size;
      Count(-q)
  }

  /** One page of the movie listing. */
  datatype MoviePage = MoviePage(
    elements: seq<DetailedMovie>,
    pageNo: int,
    pageSize: int,
    totalElements: int,
    totalPages: PageCount,
    isLast: bool)

  /** The catalogue in listing order: stably sorted by key, descending unless `order` is "ASC". */
  function SortedCatalogue(sortBy: string, order: string): (ms: seq<DetailedMovie>)
    ensures multiset(ms) == multiset(MockDetailedMovies())
    ensures Sorted(ms, ListingKey(sortBy), order != "ASC")
    ensures forall k :: WithKey(ms, ListingKey(sortBy), k) == WithKey(MockDetailedMovies(), ListingKey(sortBy), k)
  {
    SortBy(MockDetailedMovies(), ListingKey(sortBy), order != "ASC")
  }

  /** One page of `ms` with the page count and the last-page flag taken from its length. */
  function Listing(ms: seq<DetailedMovie>, page: int, size: int): (p: MoviePage)
    ensures p.elements == JsSlice(ms, (page - 1) * size, (page - 1) * size + size)
    ensures size >= 0 ==> |p.elements| <= size
    ensures p.pageNo == page && p.pageSize == size
    ensures p.totalElements == |ms|
    ensures p.totalPages == PageCountOf(|ms|, size)
    ensures size > 0 ==> (p.isLast <==> page >= CeilDiv(|ms|, size))
    ensures size <= 0 ==> (p.isLast <==> page * size >= |ms|)
  {
    var start := (page - 1) * size;
    var listing := MoviePage(JsSlice(ms, start, start + size), page, size, |ms|, PageCountOf(|ms|, size), start + size >= |ms|);
    assert start + size == page * size;
    if size > 0 then LastPageIff(page, size, |ms|); listing else listing
  }

  /**
   * `getAllMovies`: in development, page `page` of the sorted catalogue with
   * the page count and the last-page flag derived from the catalogue size.
   */
  function GetAllMovies(env: Env, page: int, size: int, sortBy: string, order: string): (r: Served<MoviePage>)
    ensures env == Deployed ==> r == Remote(AllMovies(page, size, sortBy, order))
    ensures env == Development ==> r.Local?
    ensures env == Development ==> r.value.elements == JsSlice(SortedCatalogue(sortBy, order), (page - 1) * size, (page - 1) * size + size)
    ensures env == Development && size >= 0 ==> |r.value.elements| <= size
    ensures env == Development ==> r.value.pageNo == page && r.value.pageSize == size
    ensures env == Development ==> r.value.totalElements == |MockDetailedMovies()| == 5
    ensures env == Development ==> r.value.totalPages == PageCountOf(5, size)
    ensures env == Development && size > 0 ==> (r.value.isLast <==> page >= CeilDiv(5, size))
    ensures env == Development && size <= 0 ==> (r.value.isLast <==> page * size >= 5)
  {
    if env == Deployed then Remote(AllMovies(page, size, sortBy, order))
    else
      var sorted := SortedCatalogue(sortBy, order);
      assert |sorted| == |MockDetailedMovies()| == 5 by {
        assert |CatalogueIds| == 5;
        assert |multiset(sorted)| == |multiset(MockDetailedMovies())|;
      }
      Local(Listing(sorted, page, size))
  }

  /** Reading pages 1 to totalPages of the development listing returns every catalogue movie once. */
  lemma ListingPagesCoverCatalogue(size: int, sortBy: string, order: string)
    requires size >= 1
    ensures var pages := CeilDiv(5, size);
      multiset(AllPages(SortedCatalogue(sortBy, order), size, pages)) == multiset(MockDetailedMovies())
  {
    PagesCover(SortedCatalogue(sortBy, order), size);
  }

  /** A key that is the same for every movie leaves the catalogue in its original order (the sort is stable). */
  lemma InheritedKeyKeepsOrder(sortBy: string, order: string)
    requires sortBy !in MovieKeys && sortBy in ObjectPrototypeKeys
    ensures SortedCatalogue(sortBy, order) == MockDetailedMovies()
  {
    SortByConstantKey(MockDetailedMovies(), ListingKey(sortBy), order != "ASC", InheritedMemberText(sortBy));
  }
}
