/**
 * The review list under a movie (components/movie/ReviewSection): the
 * loading / list / empty choice and, per entry, the author label and the
 * "You" badge on the signed-in user's own review.
 */
module ReviewSection {
  import opened Wrappers
  import opened Domain
  import Stars
  import MovieView

  const Anonymous := "Anonymous"

  /** One listed review. Its date is locale-formatted and is not modelled. */
  datatype Entry = Entry(id: string, author: string, mine: bool, stars: seq<bool>, review: string, tags: seq<string>)

  datatype ReviewsView = Spinner | List(entries: seq<Entry>) | NoReviews

  /** An author with an empty username is shown as "Anonymous". */
  function Author(username: string): (r: string)
    ensures r != ""
    ensures username != "" ==> r == username
    ensures username == "" ==> r == Anonymous
  {
    if username != "" then username else Anonymous
  }

  /** The "You" badge: the entry carries the id of the user's own rating. */
  predicate IsMine(r: MovieRating, myRating: Option<MovieRating>) {
    myRating.Some? && r.id == myRating.value.id
  }

  function EntryFor(r: MovieRating, myRating: Option<MovieRating>): (e: Entry)
    ensures e.id == r.id && e.review == r.review && e.tags == r.tags
    ensures e.author == Author(r.username)
    ensures e.mine <==> myRating.Some? && r.id == myRating.value.id
    ensures e.stars == Stars.RenderStars(r.rate)
  {
    Entry(r.id, Author(r.username), IsMine(r, myRating), Stars.RenderStars(r.rate), r.review, r.tags)
  }

  /** The spinner while loading, whatever is cached; then every rating in order, or the empty message. */
  function Reviews(isLoading: bool, ratings: seq<MovieRating>, myRating: Option<MovieRating>): (v: ReviewsView)
    ensures v.Spinner? <==> isLoading
    ensures v.List? <==> !isLoading && |ratings| > 0
    ensures v.NoReviews? <==> !isLoading && |ratings| == 0
    ensures v.List? ==> |v.entries| == |ratings|
    ensures v.List? ==> forall i :: 0 <= i < |ratings| ==> v.entries[i] == EntryFor(ratings[i], myRating)
  {
    if isLoading then Spinner
    else if |ratings| > 0 then List(seq(|ratings|, i requires 0 <= i < |ratings| => EntryFor(ratings[i], myRating)))
    else NoReviews
  }

  predicate DistinctIds(ratings: seq<MovieRating>) {
    forall i, j :: 0 <= i < j < |ratings| ==> ratings[i].id != ratings[j].id
  }

  /**
   * With the detail page's `myRating` and ratings whose ids are distinct,
   * the "You" badge sits on exactly one entry: the first one written under
   * the signed-in user's name. Nobody signed in means no badge.
   */
  lemma YouBadgeMarksFirstOwnReview(user: Option<UserDetails>, ratings: seq<MovieRating>, i: int)
    requires DistinctIds(ratings)
    requires 0 <= i < |ratings|
    ensures IsMine(ratings[i], MovieView.MyRating(user, ratings)) <==>
      (user.Some? && ratings[i].username == user.value.username &&
        forall j :: 0 <= j < i ==> ratings[j].username != user.value.username)
  {
    var my := MovieView.MyRating(user, ratings);
    if my.Some? {
      var u := user.value;
      var k :| 0 <= k < |ratings| && ratings[k] == my.value &&
        (forall j :: 0 <= j < k ==> ratings[j].username != my.value.username);
      if ratings[i].username == u.username && forall j :: 0 <= j < i ==> ratings[j].username != u.username {
        assert i == k;
      }
      if IsMine(ratings[i], my) {
        assert ratings[i].id == ratings[k].id;
        assert i == k;
      }
    }
  }
}
