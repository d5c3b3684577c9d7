/**
 * The movie summary block (components/movie/Summary): language and genre
 * badges, the synopsis fallback and the community-rating cell.
 */
module Summary {
  import opened Wrappers
  import opened Seqs
  import opened Domain
  import Stars

  const MaxGenreBadges := 4
  const NoSynopsis := "No synopsis available."

  /** The language badge is rendered only for a non-empty language. */
  function LanguageBadge(language: string): (r: Option<string>)
    ensures r.Some? <==> language != ""
    ensures r.Some? ==> r.value == language
  {
    if language != "" then Some(language) else None
  }

  /** The genre badges: the names shown, and the "+k" badge for the rest. */
  datatype GenreBadges = GenreBadges(shown: seq<string>, more: Option<int>)

  function Badges(genreNames: seq<string>): (b: GenreBadges)
    ensures |b.shown| == Min(MaxGenreBadges, |genreNames|)
    ensures b.shown == genreNames[..|b.shown|]
    ensures b.more.Some? <==> |genreNames| > MaxGenreBadges
    ensures b.more.Some? ==> b.more.value > 0
  {
    var shown := genreNames[..Min(MaxGenreBadges, |genreNames|)];
    if |genreNames| > MaxGenreBadges then GenreBadges(shown, Some(|genreNames| - MaxGenreBadges))
    else GenreBadges(shown, None)
  }

  /** Every genre is either shown as a badge or counted in the "+k" badge, never both. */
  lemma BadgesAccountForEveryGenre(genreNames: seq<string>)
    ensures var b := Badges(genreNames);
      b.shown + genreNames[|b.shown|..] == genreNames &&
      |b.shown| + b.more.GetOr(0) == |genreNames|
  {
    var b := Badges(genreNames);
    assert b.shown + genreNames[|b.shown|..] == genreNames;
  }

  /** The synopsis paragraph never renders empty. */
  function SynopsisText(synopsis: string): (r: string)
    ensures r != ""
    ensures synopsis != "" ==> r == synopsis
    ensures synopsis == "" ==> r == NoSynopsis
  {
    if synopsis != "" then synopsis else NoSynopsis
  }

  /** The community-rating cell. */
  datatype RatingCell = StarsWithCount(stars: seq<bool>, count: nat) | Spinner | Dash

  /**
   * Stars for the rounded average plus the number of ratings once there is
   * at least one rating; otherwise a spinner while loading, else a dash.
   * The average is floating point, so its rounded value is a parameter.
   */
  function CommunityRating(ratings: seq<MovieRating>, isLoading: bool, roundedAverage: int): (c: RatingCell)
    ensures c.StarsWithCount? <==> |ratings| > 0
    ensures c.StarsWithCount? ==> c.count == |ratings| && c.stars == Stars.RenderStars(roundedAverage)
    ensures c.Spinner? <==> |ratings| == 0 && isLoading
    ensures c.Dash? <==> |ratings| == 0 && !isLoading
  {
    if |ratings| > 0 then StarsWithCount(Stars.RenderStars(roundedAverage), |ratings|)
    else if isLoading then Spinner
    else Dash
  }

  /** Once ratings are there, a refetch in flight does not hide them. */
  lemma RatingsOutrankLoading(ratings: seq<MovieRating>, roundedAverage: int)
    requires |ratings| > 0
    ensures CommunityRating(ratings, true, roundedAverage) == CommunityRating(ratings, false, roundedAverage)
  {
  }
}

/**
 * The summary's row helpers (components/movie/SummaryBits): the labelled
 * value with its dash fallback and the collapsible cast list.
 */
module SummaryBits {
  import opened Text
  import opened Seqs
  import opened Wrappers

  const NoValue := "—"
  const MaxCast := 6
  const CastSeparator := ", "
  const ShowMore := "Show more"
  const ShowLess := "Show less"

  /** `MetaRow`: a falsy value is shown as a dash. */
  function MetaRow(value: string): (shown: string)
    ensures shown != ""
    ensures value != "" ==> shown == value
    ensures value == "" ==> shown == NoValue
  {
    if value != "" then value else NoValue
  }

  /** The names `CastRow` lists: all when open, else the first six. */
  function ShownCast(cast: seq<string>, open: bool): (shown: seq<string>)
    ensures open ==> shown == cast
    ensures !open ==> |shown| == Min(MaxCast, |cast|) && shown == cast[..|shown|]
  {
    if open then cast else cast[..Min(MaxCast, |cast|)]
  }

  datatype CastRowView = CastRowView(text: string, ellipsis: bool, toggle: Option<string>)

  /** `CastRow`: the listed names or a dash, a trailing ellipsis and the show more/less button. */
  function CastRow(cast: seq<string>, open: bool): (v: CastRowView)
    ensures v.text != ""
    ensures cast == [] ==> v.text == NoValue
    ensures v.toggle.Some? <==> |cast| > MaxCast
    ensures v.toggle.Some? ==> v.toggle.value == (if open then ShowLess else ShowMore)
    ensures v.ellipsis <==> !open && |cast| > MaxCast
  {
    var joined := Join(ShownCast(cast, open), CastSeparator);
    CastRowView(
      if joined != "" then joined else NoValue,
      |cast| > MaxCast && !open,
      if |cast| > MaxCast then Some(if open then ShowLess else ShowMore) else None)
  }

  /** The button flips between the two states. */
  function ToggleCast(open: bool): (r: bool)
    ensures r != open
  {
    !open
  }

  /** A cast of six or fewer looks the same collapsed and expanded, and has no button. */
  lemma ShortCastIgnoresToggle(cast: seq<string>)
    requires |cast| <= MaxCast
    ensures CastRow(cast, true) == CastRow(cast, false)
    ensures CastRow(cast, false).toggle.None?
  {
    assert ShownCast(cast, false) == cast;
  }

  lemma {:induction false} JoinKeepsFirst(xs: seq<string>, sep: string)
    requires |xs| > 0
    ensures |Join(xs, sep)| >= |xs[0]|
  {
  }

  /** A non-empty cast of named people lists the shown names, not the dash. */
  lemma NamedCastIsListed(cast: seq<string>, open: bool)
    requires cast != [] && forall i :: 0 <= i < |cast| ==> cast[i] != ""
    ensures CastRow(cast, open).text == Join(ShownCast(cast, open), CastSeparator)
  {
    var shown := ShownCast(cast, open);
    assert shown[0] == cast[0];
    JoinKeepsFirst(shown, CastSeparator);
  }

  /** Expanding a long cast lists everyone; collapsing it hides exactly the names past the sixth. */
  lemma ToggleRevealsTheRest(cast: seq<string>)
    requires |cast| > MaxCast
    ensures ShownCast(cast, ToggleCast(false)) == cast
    ensures ShownCast(cast, false) + cast[MaxCast..] == cast
    ensures CastRow(cast, false).ellipsis && !CastRow(cast, ToggleCast(false)).ellipsis
  {
    assert ShownCast(cast, false) == cast[..MaxCast];
  }
}
