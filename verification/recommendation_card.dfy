/**
 * The recommendation tile (components/RecommendationCard): the match badge
 * and the "why this recommendation" list. The percentage is the rounded
 * `score * 100`; the rounding is floating point, so it is an input here.
 */
module RecommendationCard {
  import opened Wrappers
  import opened Text
  import opened Domain

  const TopMoviesLabel := "From Top Movies"
  const MatchSuffix := "% match"

  /** A zero percentage marks a filler taken from the top-movies list. */
  predicate IsTopMovie(pct: int) {
    pct == 0
  }

  /** The badge text. */
  function Label(pct: int): (r: string)
    ensures r == TopMoviesLabel <==> IsTopMovie(pct)
    ensures !IsTopMovie(pct) ==> r == IntToString(pct) + MatchSuffix
  {
    if IsTopMovie(pct) then TopMoviesLabel
    else
      var r := IntToString(pct) + MatchSuffix;
      assert r[|r| - 1] == 'h';
      r
  }

  /** Different match percentages never share a badge. */
  lemma {:induction false} LabelInjective(a: int, b: int)
    requires Label(a) == Label(b)
    ensures a == b
  {
    if !IsTopMovie(a) && !IsTopMovie(b) {
      var sa, sb := IntToString(a), IntToString(b);
      assert |sa| == |sb|;
      assert sa == Label(a)[..|sa|];
      assert sb == Label(b)[..|sb|];
      IntToStringRoundTrip(a);
      IntToStringRoundTrip(b);
    }
  }

  /** The explanations listed under the tile: none for a top movie, else all of them in order. */
  function ShownExplanations(pct: int, explanations: Option<seq<Explanation>>): (r: seq<Explanation>)
    ensures r != [] <==> !IsTopMovie(pct) && explanations.Some? && explanations.value != []
    ensures r != [] ==> r == explanations.value
  {
    if !IsTopMovie(pct) && explanations.Some? && |explanations.value| > 0 then explanations.value else []
  }
}
