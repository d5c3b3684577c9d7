/**
 * The review form under a movie (components/movie/ReviewComposer): when a
 * review may be sent, the optimistic edits to the cached rating list with
 * their rollback, and the tag editor. The rating requests are abstract
 * effects that succeed or fail; the random id and the clock are parameters.
 */
module ReviewComposer {
  import opened Wrappers
  import opened Text
  import opened Seqs
  import opened Domain

  const MaxChars := 800
  const MinChars := 10
  const OptimisticPrefix := "optimistic-"

  /** The form's fields. */
  datatype Draft = Draft(rating: int, review: string, tags: seq<string>)

  /** The form as it opens: the user's existing rating, or a blank form. */
  function DraftFor(myRating: Option<MovieRating>): (d: Draft)
    ensures myRating.None? ==> d == Draft(0, "", [])
    ensures myRating.Some? ==> d == Draft(myRating.value.rate, myRating.value.review, myRating.value.tags)
  {
    match myRating
    case None => Draft(0, "", [])
    case Some(m) => Draft(m.rate, m.review, m.tags)
  }

  /** The textarea keeps the typed text up to 800 UTF-16 code units, cut at a whole character. */
  function TypeReview(value: string): (r: string)
    ensures JsLength(r) <= MaxChars
    ensures |r| <= |value| && r == value[..|r|]
    ensures JsLength(value) <= MaxChars ==> r == value
    ensures |r| < |value| ==> JsLength(r) + Utf16Units(value[|r|]) > MaxChars
  {
    TakeUnits(value, MaxChars)
  }

  /** `canSubmit`: a star chosen, at least ten UTF-16 code units once trimmed, within the limit, and someone signed in. */
  predicate CanSubmit(d: Draft, user: Option<UserDetails>) {
    d.rating > 0 && JsLength(Trim(d.review)) >= MinChars && MaxChars - JsLength(d.review) >= 0 && user.Some?
  }

  /** Text entered through the textarea never exceeds the limit, so only the rating, the trimmed length and the user can block a submit. */
  lemma TypedReviewWithinLimit(rating: int, value: string, tags: seq<string>, user: Option<UserDetails>)
    ensures var d := Draft(rating, TypeReview(value), tags);
      CanSubmit(d, user) <==> rating > 0 && JsLength(Trim(d.review)) >= MinChars && user.Some?
  {
  }

  /** The body of `submitRating`. */
  datatype RatingPayload = RatingPayload(movieId: string, username: string, rate: int, review: string, tags: seq<string>)

  /** The optimistic edits. */
  datatype Mutation =
    | Submit(payload: RatingPayload)
    | Update(id: string, rate: int, review: string, tags: seq<string>)
    | Delete(id: string)

  /** `handleSubmit`: nothing unless `canSubmit`; an update of the existing rating, else a new one from the form. */
  function HandleSubmit(d: Draft, user: Option<UserDetails>, myRating: Option<MovieRating>, movieId: string): (r: Option<Mutation>)
    ensures r.None? <==> !CanSubmit(d, user)
    ensures r.Some? && myRating.Some? ==> r.value == Update(myRating.value.id, d.rating, d.review, d.tags)
    ensures r.Some? && myRating.None? ==>
      r.value == Submit(RatingPayload(movieId, user.value.username, d.rating, d.review, d.tags))
  {
    if !CanSubmit(d, user) then None
    else if myRating.Some? then Some(Update(myRating.value.id, d.rating, d.review, d.tags))
    else Some(Submit(RatingPayload(movieId, user.value.username, d.rating, d.review, d.tags)))
  }

  /** The placeholder entry a submit appends: a fresh local id, the payload's fields and two clock readings. */
  function OptimisticEntry(p: RatingPayload, uuid: string, createdAt: string, updatedAt: string): (m: MovieRating)
    ensures |m.id| >= |OptimisticPrefix| && m.id[..|OptimisticPrefix|] == OptimisticPrefix
    ensures m.movieId == p.movieId && m.username == p.username && m.rate == p.rate
    ensures m.review == p.review && m.tags == p.tags
    ensures m.createdAt == Some(createdAt) && m.updatedAt == Some(updatedAt)
  {
    MovieRating(OptimisticPrefix + uuid, p.movieId, p.username, p.rate, p.review, p.tags, Some(createdAt), Some(updatedAt))
  }

  /** The cached list with the entry for `id` patched by an update. */
  function Patch(previous: seq<MovieRating>, id: string, rate: int, review: string, tags: seq<string>, now: string): (r: seq<MovieRating>)
    ensures |r| == |previous|
    ensures forall i :: 0 <= i < |r| && previous[i].id != id ==> r[i] == previous[i]
    ensures forall i :: 0 <= i < |r| && previous[i].id == id ==>
      r[i] == previous[i].(rate := rate, review := review, tags := tags, updatedAt := Some(now))
  {
    seq(|previous|, i requires 0 <= i < |previous| =>
      if previous[i].id == id then previous[i].(rate := rate, review := review, tags := tags, updatedAt := Some(now))
      else previous[i])
  }

  /** The clock readings a mutation takes: `created_at` and `updated_at` each read `new Date()` on their own. */
  datatype Stamps = Stamps(createdAt: string, updatedAt: string)

  /** The cached list as the mutation presents it before the server answers. */
  function Optimistic(previous: seq<MovieRating>, m: Mutation, uuid: string, t: Stamps): (r: seq<MovieRating>)
    ensures m.Submit? ==> |r| == |previous| + 1 && r[..|previous|] == previous
    ensures m.Submit? ==> r[|previous|] == OptimisticEntry(m.payload, uuid, t.createdAt, t.updatedAt)
    ensures m.Update? ==> |r| == |previous| && forall i :: 0 <= i < |r| && previous[i].id != m.id ==> r[i] == previous[i]
    ensures m.Update? ==> forall i :: 0 <= i < |r| && previous[i].id == m.id ==>
      r[i] == previous[i].(rate := m.rate, review := m.review, tags := m.tags, updatedAt := Some(t.updatedAt))
    ensures m.Delete? ==> forall x :: x in r ==> x.id != m.id
    ensures m.Delete? ==> forall x :: multiset(r)[x] == if x.id == m.id then 0 else multiset(previous)[x]
    ensures m.Delete? ==> IsSubseq(r, previous)
  {
    match m
    case Submit(p) => previous + [OptimisticEntry(p, uuid, t.createdAt, t.updatedAt)]
    case Update(id, rate, review, tags) => Patch(previous, id, rate, review, tags, t.updatedAt)
    case Delete(id) => Filter(previous, (x: MovieRating) => x.id != id)
  }

  /** The cache after a mutation has run: the optimistic list, or on failure the snapshot taken before it. */
  function Settle(cache: Option<seq<MovieRating>>, m: Mutation, succeeded: bool, uuid: string, t: Stamps): (r: seq<MovieRating>)
    ensures !succeeded ==> r == cache.GetOr([])
    ensures !succeeded && cache.Some? ==> r == cache.value
    ensures succeeded && m.Delete? ==> forall x :: x in r ==> x.id != m.id
    ensures succeeded && m.Submit? ==> |r| == |cache.GetOr([])| + 1
  {
    var previous := cache.GetOr([]);
    if succeeded then Optimistic(previous, m, uuid, t) else previous
  }

  /** Deleting after an update leaves no entry of that rating, whichever way the update went. */
  lemma UpdateThenDelete(cache: Option<seq<MovieRating>>, id: string, rate: int, review: string, tags: seq<string>,
                         ok: bool, uuid: string, t: Stamps)
    ensures var afterUpdate := Settle(cache, Update(id, rate, review, tags), ok, uuid, t);
      forall x :: x in Settle(Some(afterUpdate), Delete(id), true, uuid, t) ==> x.id != id
  {
  }

  /** The form after a successful delete: cleared. */
  const Cleared := Draft(0, "", [])

  /** `['ratings', movieId]`: the key of the rating list the composer edits. */
  function RatingsKey(movieId: string): QueryKey {
    [Some("ratings"), Some(movieId)]
  }

  /** A settled mutation: the cached list, the cache effects, whether `refetchRatings` ran, and the form. */
  datatype Finished = Finished(cache: seq<MovieRating>, effects: seq<CacheAction>, refetched: bool, draft: Draft)

  /**
   * A mutation run to the end. The cache holds the optimistic list or the
   * rollback; whatever the outcome, `onSettled` invalidates the rating list
   * and calls `refetchRatings`; a successful delete also clears the form.
   */
  function Finish(movieId: string, d: Draft, cache: Option<seq<MovieRating>>, m: Mutation, succeeded: bool,
                  uuid: string, t: Stamps): (f: Finished)
    ensures f.cache == Settle(cache, m, succeeded, uuid, t)
    ensures f.effects == [Invalidate(RatingsKey(movieId))] && f.refetched
    ensures succeeded && m.Delete? ==> f.draft == Cleared
    ensures !(succeeded && m.Delete?) ==> f.draft == d
  {
    var draft := if succeeded && m.Delete? then Cleared else d;
    Finished(Settle(cache, m, succeeded, uuid, t), [Invalidate(RatingsKey(movieId))], true, draft)
  }

  /** Every settled mutation, failed or not, marks this movie's rating list stale and no other movie's. */
  lemma EveryMutationRefreshesRatings(movieId: string, d: Draft, cache: Option<seq<MovieRating>>, m: Mutation,
                                      succeeded: bool, uuid: string, t: Stamps, other: string)
    ensures var f := Finish(movieId, d, cache, m, succeeded, uuid, t);
      f.refetched && Refreshes(f.effects[0], RatingsKey(movieId)) &&
      (other != movieId ==> !Refreshes(f.effects[0], RatingsKey(other)))
  {
    var key := RatingsKey(other);
    if other != movieId {
      assert key[..2][1] != RatingsKey(movieId)[1];
    }
  }

  /** After a successful delete the form is blank: it cannot be sent again until a star and a review are entered. */
  lemma DeletedReviewCannotBeResent(movieId: string, d: Draft, cache: Option<seq<MovieRating>>, id: string,
                                    uuid: string, t: Stamps, user: Option<UserDetails>, myRating: Option<MovieRating>)
    ensures var f := Finish(movieId, d, cache, Delete(id), true, uuid, t);
      f.draft == Cleared && !CanSubmit(f.draft, user) && HandleSubmit(f.draft, user, myRating, movieId).None?
  {
  }

  /** Pressing Enter in the tag field: a trimmed, non-blank value joins the tags once and the field empties. */
  function AddTag(tags: seq<string>, value: string): (r: (seq<string>, string))
    ensures AllSpace(value) ==> r == (tags, value)
    ensures !AllSpace(value) ==> r.1 == "" && Distinct(r.0) && forall t :: t in r.0 <==> t in tags || t == Trim(value)
    ensures !AllSpace(value) ==> r.0 == if Trim(value) in tags then Dedup(tags) else Dedup(tags) + [Trim(value)]
    ensures !AllSpace(value) && Distinct(tags) ==> r.0 == if Trim(value) in tags then tags else tags + [Trim(value)]
  {
    TrimEmptyIff(value);
    var v := Trim(value);
    if v == "" then (tags, value)
    else
      DedupSnoc(tags, v);
      if Distinct(tags) then DedupOfDistinct(tags); (Dedup(tags + [v]), "")
      else (Dedup(tags + [v]), "")
  }

  /** The × on a tag removes it, and every copy of it; the other tags keep their order. */
  function RemoveTag(tags: seq<string>, tag: string): (r: seq<string>)
    ensures tag !in r
    ensures forall t :: t != tag ==> (t in r <==> t in tags)
    ensures multiset(r) == multiset(tags)[tag := 0]
    ensures IsSubseq(r, tags)
    ensures Distinct(tags) ==> Distinct(r)
  {
    if Distinct(tags) then RemoveAllDistinct(tags, tag); RemoveAll(tags, tag)
    else RemoveAll(tags, tag)
  }

  datatype TagEdit = Enter(value: string) | Remove(tag: string)

  /** The tags after a run of edits. */
  function EditTags(tags: seq<string>, edits: seq<TagEdit>): seq<string>
    decreases |edits|
  {
    if edits == [] then tags
    else
      var next := match edits[0]
        case Enter(v) => AddTag(tags, v).0
        case Remove(t) => RemoveTag(tags, t);
      EditTags(next, edits[1..])
  }

  /** The tag editor never introduces a duplicate: starting from distinct tags, any run of edits keeps them distinct. */
  lemma {:induction false} TagsStayDistinct(tags: seq<string>, edits: seq<TagEdit>)
    requires Distinct(tags)
    ensures Distinct(EditTags(tags, edits))
    decreases |edits|
  {
    if edits != [] {
      var next := match edits[0]
        case Enter(v) => AddTag(tags, v).0
        case Remove(t) => RemoveTag(tags, t);
      TagsStayDistinct(next, edits[1..]);
    }
  }
}
