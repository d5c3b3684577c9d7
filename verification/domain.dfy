/** The client's entities, as the mappers produce them and the pages consume them. */
module Domain {
  import opened Wrappers

  datatype Genre = Genre(id: string, name: string)

  /** The names of a genre list, in order. */
  function AllGenreNames(genres: seq<Genre>): (r: seq<string>)
    ensures |r| == |genres|
    ensures forall i :: 0 <= i < |genres| ==> r[i] == genres[i].name
  {
    seq(|genres|, i requires 0 <= i < |genres| => genres[i].name)
  }

  /** A name is among the genre names exactly when some genre carries it. */
  lemma AllGenreNamesHas(genres: seq<Genre>)
    ensures forall x :: x in AllGenreNames(genres) <==> exists i :: 0 <= i < |genres| && genres[i].name == x
  {
    var all := AllGenreNames(genres);
    forall x | x in all ensures exists i :: 0 <= i < |genres| && genres[i].name == x {
      var i :| 0 <= i < |all| && all[i] == x;
      assert genres[i].name == x;
    }
  }

  datatype Person = Person(firstName: string, lastName: string)

  datatype RatingSummary = RatingSummary(average: real, count: int)

  /** A review embedded in a movie record (the development catalogue's shape). */
  datatype EmbeddedReview = EmbeddedReview(user: string, comment: string, rating: int, dateCreated: string)

  /** The full movie record behind the detail page and the movie cards. */
  datatype DetailedMovie = DetailedMovie(
    id: string,
    title: string,
    genres: seq<Genre>,
    director: Person,
    casts: seq<Person>,
    synopsis: string,
    releaseDate: string,
    language: string,
    rating: Option<RatingSummary>,
    reviews: seq<EmbeddedReview>,
    posterUrl: Option<string>)

  /** The lightweight movie inside a recommendation; a missing genre list or rating is `None`. */
  datatype Movie = Movie(
    id: string,
    title: string,
    genres: Option<seq<string>>,
    releaseYear: int,
    rating: Option<real>,
    posterUrl: Option<string>)

  datatype Explanation = Explanation(seedMovieId: string, seedMovieTitle: string, similarity: real, activityType: string)

  datatype RecommendedItem = RecommendedItem(movie: Movie, score: real, explanations: Option<seq<Explanation>>)

  datatype Watchlist = Watchlist(id: string, name: string, username: string, moviesId: seq<string>, updatedDate: string)

  /** One page of a server-side listing. */
  datatype Paginated<T> = Paginated(
    elements: seq<T>,
    pageNo: int,
    pageSize: int,
    totalElements: int,
    totalPages: int,
    isLast: bool)

  /** A user's rating of a movie; the timestamps are absent until the server has stored it. */
  datatype MovieRating = MovieRating(
    id: string,
    movieId: string,
    username: string,
    rate: int,
    review: string,
    tags: seq<string>,
    createdAt: Option<string>,
    updatedAt: Option<string>)

  datatype UserRole = Root | Admin | Moderator | User

  datatype UserDetails = UserDetails(
    id: int,
    username: string,
    email: string,
    fullName: Option<string>,
    enabled: bool,
    notBanned: bool,
    roles: seq<UserRole>)

  /** The body of a successful login or registration. */
  datatype AuthResponse = AuthResponse(userDetails: UserDetails, accessToken: string, refreshToken: string)

  /** The route table (`ROUTES`); its values live outside this model, so pages take it as a parameter. */
  datatype Routes = Routes(home: string, login: string, register: string, recommend: string, movieDetailsPrefix: string)

  /** `NEXT_PUBLIC_NODE_ENV`: the development build serves the movie catalogue from memory. */
  datatype Env = Development | Deployed

  /** A react-query key; `None` is an `undefined` element (e.g. a missing username). */
  type QueryKey = seq<Option<string>>

  /**
   * Cache effects the pages request from the query client:
   * `invalidateQueries({ queryKey })`, and the same call with an undefined
   * key, which matches every query.
   */
  datatype CacheAction = Invalidate(key: QueryKey) | InvalidateAll

  /** A query's key matches a filter key when the filter is a prefix of it (react-query's partial matching). */
  predicate Matches(key: QueryKey, filter: QueryKey) {
    |filter| <= |key| && key[..|filter|] == filter
  }

  /** Whether an effect marks the query under `key` stale. */
  predicate Refreshes(a: CacheAction, key: QueryKey) {
    a.InvalidateAll? || Matches(key, a.key)
  }
}
