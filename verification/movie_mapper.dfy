/** Backend movie and rating records to client records (types/mapper/movieMapper). */
module MovieMapper {
  import opened Wrappers
  import opened Text
  import opened Domain
  import opened MongoDb

  /** `s.replace(/\s+/g, "-")`: every maximal run of white space becomes a single hyphen. */
  function ReplaceSpaceRuns(s: string): (r: string)
    ensures NoSpace(r)
    ensures |r| <= |s|
    ensures NoSpace(s) ==> r == s
    ensures s != [] && AllSpace(s) ==> r == "-"
    ensures forall i :: 0 <= i < |r| ==> r[i] == '-' || r[i] in s
    decreases |s|
  {
    if s == [] then []
    else if IsSpace(s[0]) then
      var rest := TrimStart(s);
      "-" + ReplaceSpaceRuns(rest)
    else [s[0]] + ReplaceSpaceRuns(s[1..])
  }

  /** What the scan writes for one character: a hyphen opening a run, nothing inside one, else the character. */
  function Emit(c: char, afterSpace: bool): string {
    if !IsSpace(c) then [c] else if afterSpace then "" else "-"
  }

  /**
   * The same replacement as a left-to-right scan: a white-space character
   * opens a hyphen unless the previous character was white space too.
   */
  function ScanHyphenate(s: string, afterSpace: bool): string
    decreases |s|
  {
    if s == [] then [] else Emit(s[0], afterSpace) + ScanHyphenate(s[1..], IsSpace(s[0]))
  }

  /** Inside a run, the rest of the run adds nothing. */
  lemma {:induction false} ScanSkipsRun(s: string)
    ensures ScanHyphenate(s, true) == ScanHyphenate(TrimStart(s), true)
    decreases |s|
  {
    if s != [] && IsSpace(s[0]) {
      ScanSkipsRun(s[1..]);
    }
  }

  /** `ReplaceSpaceRuns` agrees with the scan on every string. */
  lemma {:induction false} ReplaceSpaceRunsIsScan(s: string)
    ensures ReplaceSpaceRuns(s) == ScanHyphenate(s, false)
    decreases |s|
  {
    if s != [] {
      if IsSpace(s[0]) {
        var rest := TrimStart(s);
        assert rest == TrimStart(s[1..]);
        ScanSkipsRun(s[1..]);
        ReplaceSpaceRunsIsScan(rest);
        assert rest == [] || !IsSpace(rest[0]);
        assert ScanHyphenate(rest, true) == ScanHyphenate(rest, false);
      } else {
        ReplaceSpaceRunsIsScan(s[1..]);
      }
    }
  }

  lemma ConcatAssoc(x: string, y: string, z: string)
    ensures x + (y + z) == (x + y) + z
  {
  }

  /** A character that is not white space is copied as it is. */
  lemma PlainCons(c: char, u: string)
    requires !IsSpace(c)
    ensures ReplaceSpaceRuns([c] + u) == [c] + ReplaceSpaceRuns(u)
  {
    assert ([c] + u)[0] == c && ([c] + u)[1..] == u;
  }

  /** A prefix without white space is copied as it is. */
  lemma {:induction false} PlainPrefix(a: string, t: string)
    requires NoSpace(a)
    ensures ReplaceSpaceRuns(a + t) == a + ReplaceSpaceRuns(t)
    decreases |a|
  {
    if a == [] {
      assert a + t == t;
    } else {
      var c, tail := a[0], a[1..];
      assert a == [c] + tail;
      ConcatAssoc([c], tail, t);
      PlainCons(c, tail + t);
      PlainPrefix(tail, t);
      ConcatAssoc([c], tail, ReplaceSpaceRuns(t));
    }
  }

  /** A white-space run before a word, or before the end, becomes one hyphen. */
  lemma RunBeforeWord(w: string, b: string)
    requires w != [] && AllSpace(w)
    requires b == [] || !IsSpace(b[0])
    ensures ReplaceSpaceRuns(w + b) == "-" + ReplaceSpaceRuns(b)
  {
    var s := w + b;
    var r := TrimStart(s);
    assert s[0] == w[0];
    assert forall i :: 0 <= i < |w| ==> s[i] == w[i];
    assert b != [] ==> s[|w|] == b[0];
    assert |r| == |b|;
    assert r == b;
  }

  /** The URL-safe genre id derived from a genre name: lower-cased, white-space runs hyphenated. */
  function GenreSlug(name: string): (id: string)
    ensures NoSpace(id)
    ensures NoSpace(name) ==> id == ToLower(name)
    ensures id == ScanHyphenate(ToLower(name), false)
  {
    ReplaceSpaceRunsIsScan(ToLower(name));
    ReplaceSpaceRuns(ToLower(name))
  }

  /** Two words apart by any white space give the lower-cased words joined by one hyphen. */
  lemma SlugOfTwoWords(a: string, w: string, b: string)
    requires a != [] && NoSpace(a) && b != [] && NoSpace(b)
    requires w != [] && AllSpace(w)
    ensures GenreSlug(a + w + b) == ToLower(a) + "-" + ToLower(b)
  {
    var la, lb := ToLower(a), ToLower(b);
    assert ToLower(a + w + b) == la + w + lb by {
      ToLowerAppend(a + w, b);
      ToLowerAppend(a, w);
      ToLowerSpace(w);
    }
    assert NoSpace(la) && NoSpace(lb) by {
      ToLowerIdempotent(a);
      ToLowerIdempotent(b);
    }
    ConcatAssoc(la, w, lb);
    PlainPrefix(la, w + lb);
    RunBeforeWord(w, lb);
    assert ReplaceSpaceRuns(lb) == lb;
    ConcatAssoc(la, "-", lb);
  }

  /** A slug is already lower case. */
  lemma SlugIsLower(name: string)
    ensures ToLower(GenreSlug(name)) == GenreSlug(name)
  {
    var t := ToLower(name);
    var id := GenreSlug(name);
    forall i | 0 <= i < |id|
      ensures LowerChar(id[i]) == id[i]
    {
      if id[i] != '-' {
        var j :| 0 <= j < |t| && t[j] == id[i];
        assert t[j] == LowerChar(name[j]);
      }
    }
  }

  /** Slugging a slug changes nothing. */
  lemma SlugIdempotent(name: string)
    ensures GenreSlug(GenreSlug(name)) == GenreSlug(name)
  {
    SlugIsLower(name);
  }

  /** A movie as the backend sends it; list fields are `None` when they are not arrays. */
  datatype BackendMovie = BackendMovie(
    mongoId: MongoId,
    id: Option<string>,
    title: string,
    genres: Option<seq<string>>,
    director: Person,
    casts: Option<seq<Person>>,
    synopsis: string,
    timestamp: MongoDate,
    releaseDate: Option<string>,
    language: string,
    rating: Option<RatingSummary>,
    reviews: seq<EmbeddedReview>,
    posterUrl: Option<string>)

  /** The genres of a backend movie: one per name, its id the name's slug. */
  function GenresOf(names: seq<string>): (gs: seq<Genre>)
    ensures |gs| == |names|
    ensures forall i :: 0 <= i < |names| ==> gs[i].name == names[i] && gs[i].id == GenreSlug(names[i])
  {
    seq(|names|, i requires 0 <= i < |names| => Genre(GenreSlug(names[i]), names[i]))
  }

  /** `mapBackendMovie`. */
  function MapBackendMovie(m: BackendMovie, iso: string -> string): (d: DetailedMovie)
    ensures d.id == ParseMongoId(CoalesceId(m.mongoId, IdOf(m.id)))
    ensures d.title == m.title && d.synopsis == m.synopsis && d.language == m.language
    ensures d.director == m.director && d.rating == m.rating && d.reviews == m.reviews
    ensures d.genres == (if m.genres.Some? then GenresOf(m.genres.value) else [])
    ensures d.casts == m.casts.GetOr([])
    ensures d.releaseDate == ParseMongoDate(CoalesceDate(m.timestamp, DateOf(m.releaseDate)), iso)
    ensures d.posterUrl.Some? <==> m.posterUrl.Some? && m.posterUrl.value != ""
    ensures d.posterUrl.Some? ==> d.posterUrl == m.posterUrl
  {
    DetailedMovie(
      ParseMongoId(CoalesceId(m.mongoId, IdOf(m.id))),
      m.title,
      if m.genres.Some? then GenresOf(m.genres.value) else [],
      m.director,
      m.casts.GetOr([]),
      m.synopsis,
      ParseMongoDate(CoalesceDate(m.timestamp, DateOf(m.releaseDate)), iso),
      m.language,
      m.rating,
      m.reviews,
      if m.posterUrl.Some? && m.posterUrl.value != "" then m.posterUrl else None)
  }

  /** Every genre id a backend movie maps to is a slug: lower case, free of white space, stable under re-slugging. */
  lemma MappedGenreIdsAreSlugs(m: BackendMovie, iso: string -> string)
    ensures forall g :: g in MapBackendMovie(m, iso).genres ==>
      NoSpace(g.id) && ToLower(g.id) == g.id && GenreSlug(g.id) == g.id
  {
    forall g | g in MapBackendMovie(m, iso).genres
      ensures NoSpace(g.id) && ToLower(g.id) == g.id && GenreSlug(g.id) == g.id
    {
      var i :| 0 <= i < |m.genres.value| && MapBackendMovie(m, iso).genres[i] == g;
      SlugIsLower(m.genres.value[i]);
      SlugIdempotent(m.genres.value[i]);
    }
  }

  /** `mapBackendMovies`: a non-array maps to no movies. */
  function MapBackendMovies(arr: Option<seq<BackendMovie>>, iso: string -> string): (ds: seq<DetailedMovie>)
    ensures arr.None? ==> ds == []
    ensures arr.Some? ==> |ds| == |arr.value|
    ensures arr.Some? ==> forall i :: 0 <= i < |arr.value| ==> ds[i] == MapBackendMovie(arr.value[i], iso)
  {
    if arr.None? then [] else
      seq(|arr.value|, i requires 0 <= i < |arr.value| => MapBackendMovie(arr.value[i], iso))
  }

  /** Positional genre ids `${i}` for names that carry no id. */
  function IndexedGenres(names: seq<string>): (gs: seq<Genre>)
    ensures |gs| == |names|
    ensures forall i :: 0 <= i < |names| ==> gs[i].name == names[i] && gs[i].id == NatToString(i)
  {
    seq(|names|, i requires 0 <= i < |names| => Genre(NatToString(i), names[i]))
  }

  /** The positional ids are distinct and each reads back as its position. */
  lemma IndexedGenreIds(names: seq<string>)
    ensures forall i, j :: 0 <= i < j < |names| ==> IndexedGenres(names)[i].id != IndexedGenres(names)[j].id
    ensures forall i :: 0 <= i < |names| ==> DigitsValue(IndexedGenres(names)[i].id) == i
  {
    var gs := IndexedGenres(names);
    forall i | 0 <= i < |names|
      ensures DigitsValue(gs[i].id) == i
    {
      NatToStringRoundTrip(i);
    }
  }

  /**
   * `detailedMovieFromMovie`: widen a recommendation's movie to a detailed
   * record, filling the fields it lacks with placeholders.
   */
  function DetailedMovieFromMovie(m: Movie): (d: DetailedMovie)
    ensures d.id == m.id && d.title == m.title
    ensures d.genres == IndexedGenres(m.genres.GetOr([]))
    ensures d.director == Person("", "") && d.casts == [] && d.reviews == []
    ensures d.synopsis == "" && d.language == ""
    ensures m.releaseYear != 0 ==> d.releaseDate == IntToString(m.releaseYear) + "-01-01"
    ensures m.releaseYear == 0 ==> d.releaseDate == ""
    ensures d.rating == Some(RatingSummary(m.rating.GetOr(0.0), 0))
    ensures d.posterUrl == m.posterUrl
  {
    DetailedMovie(
      m.id,
      m.title,
      IndexedGenres(m.genres.GetOr([])),
      Person("", ""),
      [],
      "",
      if m.releaseYear != 0 then IntToString(m.releaseYear) + "-01-01" else "",
      "",
      Some(RatingSummary(m.rating.GetOr(0.0), 0)),
      [],
      m.posterUrl)
  }

  /**
   * The two conversions treat an empty poster URL differently: a backend
   * movie's `""` becomes null (`||`), a recommendation's `""` is kept (`??`).
   */
  lemma EmptyPosterUrl(b: BackendMovie, m: Movie, iso: string -> string)
    requires b.posterUrl == Some("") && m.posterUrl == Some("")
    ensures MapBackendMovie(b, iso).posterUrl == None
    ensures DetailedMovieFromMovie(m).posterUrl == Some("")
  {
  }

  /** A rating as the backend sends it; the review text and the dates come under two names each. */
  datatype BackendRating = BackendRating(
    mongoId: MongoId,
    id: Option<string>,
    movieId: string,
    username: string,
    rate: int,
    reviewText: Option<string>,
    review: Option<string>,
    tags: Option<seq<string>>,
    timestamp: MongoDate,
    createdAt: Option<string>,
    updateDate: MongoDate,
    updatedAt: Option<string>)

  /** `mapMovieRating`. */
  function MapMovieRating(raw: BackendRating, iso: string -> string): (r: MovieRating)
    ensures r.id == ParseMongoId(CoalesceId(raw.mongoId, IdOf(raw.id)))
    ensures r.movieId == raw.movieId && r.username == raw.username && r.rate == raw.rate
    ensures raw.reviewText.Some? ==> r.review == raw.reviewText.value
    ensures raw.reviewText.None? && raw.review.Some? ==> r.review == raw.review.value
    ensures raw.reviewText.None? && raw.review.None? ==> r.review == ""
    ensures r.tags == raw.tags.GetOr([])
    ensures r.createdAt == Some(ParseMongoDate(CoalesceDate(raw.timestamp, DateOf(raw.createdAt)), iso))
    ensures r.updatedAt == Some(ParseMongoDate(CoalesceDate(raw.updateDate, DateOf(raw.updatedAt)), iso))
  {
    MovieRating(
      ParseMongoId(CoalesceId(raw.mongoId, IdOf(raw.id))),
      raw.movieId,
      raw.username,
      raw.rate,
      if raw.reviewText.Some? then raw.reviewText.value else raw.review.GetOr(""),
      raw.tags.GetOr([]),
      Some(ParseMongoDate(CoalesceDate(raw.timestamp, DateOf(raw.createdAt)), iso)),
      Some(ParseMongoDate(CoalesceDate(raw.updateDate, DateOf(raw.updatedAt)), iso)))
  }

  /** A mapped rating always carries both timestamps, "" standing for one the backend did not send. */
  lemma RatingTimestampsAlwaysSet(raw: BackendRating, iso: string -> string)
    ensures MapMovieRating(raw, iso).createdAt.Some? && MapMovieRating(raw, iso).updatedAt.Some?
    ensures raw.timestamp.DateAbsent? && raw.createdAt.None? ==> MapMovieRating(raw, iso).createdAt == Some("")
  {
  }
}
