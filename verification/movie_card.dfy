/**
 * The catalogue tile (components/movie/MovieCard): the year, the link
 * target, the rating badge, the genre line and the director line.
 */
module MovieCard {
  import opened Wrappers
  import opened Text
  import opened Seqs
  import opened Domain

  const NoYear := "—"
  const GenreSeparator := " · "
  const MoreGenres := "…"
  const ShownGenres := 2

  /** The year: the first four characters of the release date, or a dash for a shorter one. */
  function Year(releaseDate: string): (r: string)
    ensures |releaseDate| >= 4 ==> |r| == 4 && r == releaseDate[..4]
    ensures |releaseDate| < 4 ==> r == NoYear
  {
    if releaseDate != "" && |releaseDate| >= 4 then releaseDate[..4] else NoYear
  }

  /** The link target: the detail route, a slash, the movie id. */
  function Href(prefix: string, id: string): (r: string)
    ensures |r| == |prefix| + 1 + |id|
    ensures r[..|prefix|] == prefix && r[|prefix|] == '/' && r[|prefix| + 1..] == id
  {
    prefix + "/" + id
  }

  /** Two tiles link to the same page only when they show the same movie id. */
  lemma HrefInjective(prefix: string, a: string, b: string)
    requires Href(prefix, a) == Href(prefix, b)
    ensures a == b
  {
    assert a == Href(prefix, a)[|prefix| + 1..];
    assert b == Href(prefix, b)[|prefix| + 1..];
  }

  /**
   * The rating badge is drawn when the movie has a rating summary; the
   * summary's average is a number by its type, so never null here.
   */
  predicate ShowsRatingBadge(m: DetailedMovie) {
    m.rating.Some?
  }

  /** The genre line: absent without genres, else the first two names and an ellipsis for more. */
  function GenreLine(genres: seq<Genre>): (r: Option<string>)
    ensures r.None? <==> genres == []
    ensures |genres| == 1 ==> r == Some(genres[0].name)
    ensures |genres| == 2 ==> r == Some(genres[0].name + GenreSeparator + genres[1].name)
    ensures |genres| > 2 ==> r == Some(genres[0].name + GenreSeparator + genres[1].name + MoreGenres)
  {
    var names := AllGenreNames(genres);
    if |names| > 0 then
      var first := names[..Min(ShownGenres, |names|)];
      var joined := Join(first, GenreSeparator);
      assert |names| == 1 ==> joined == names[0] by {
        if |names| == 1 { assert first == [names[0]]; }
      }
      assert |names| >= 2 ==> joined == names[0] + GenreSeparator + names[1] by {
        if |names| >= 2 {
          assert first == [names[0], names[1]] && first[1..] == [names[1]];
          assert joined == names[0] + GenreSeparator + Join([names[1]], GenreSeparator);
        }
      }
      assert joined + "" == joined;
      Some(joined + (if |names| > ShownGenres then MoreGenres else ""))
    else None
  }

  /** The director line appears for a director with a first name, as "first last". */
  function DirectorLine(director: Person): (r: Option<string>)
    ensures r.Some? <==> director.firstName != ""
    ensures r.Some? ==> r.value == director.firstName + " " + director.lastName
  {
    if director.firstName != "" then Some(director.firstName + " " + director.lastName) else None
  }
}
