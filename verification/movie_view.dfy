/**
 * The values the movie detail page (components/movie/MovieView) derives
 * before it renders: the signed-in user's own rating and the display
 * names of the genres, the director and the cast.
 */
module MovieView {
  import opened Wrappers
  import opened Text
  import opened Seqs
  import opened Domain

  predicate NonEmpty(s: string) {
    s != ""
  }

  /** Index of the first rating written under `name`, or `|ratings|` when there is none. */
  function FirstRatingBy(ratings: seq<MovieRating>, name: string, from: nat): (k: nat)
    requires from <= |ratings|
    ensures from <= k <= |ratings|
    ensures forall j :: from <= j < k ==> ratings[j].username != name
    ensures k < |ratings| ==> ratings[k].username == name
    decreases |ratings| - from
  {
    if from == |ratings| then from
    else if ratings[from].username == name then from
    else FirstRatingBy(ratings, name, from + 1)
  }

  /**
   * `myRating`: the first rating whose username is the signed-in user's;
   * nothing when nobody is signed in or the user has not rated the movie.
   */
  function MyRating(user: Option<UserDetails>, ratings: seq<MovieRating>): (r: Option<MovieRating>)
    ensures user.None? ==> r.None?
    ensures user.Some? && r.None? ==> forall i :: 0 <= i < |ratings| ==> ratings[i].username != user.value.username
    ensures r.Some? ==> user.Some? && r.value.username == user.value.username
    ensures r.Some? ==>
      (exists i :: 0 <= i < |ratings| && ratings[i] == r.value &&
        (forall j :: 0 <= j < i ==> ratings[j].username != r.value.username))
  {
    match user
    case None => None
    case Some(u) =>
      var k := FirstRatingBy(ratings, u.username, 0);
      if k < |ratings| then Some(ratings[k]) else None
  }

  /** `[first, last].filter(Boolean).join(' ')`: the non-empty name parts, one space apart. */
  function FullName(p: Person): (r: string)
    ensures r == "" <==> p.firstName == "" && p.lastName == ""
    ensures p.firstName != "" && p.lastName != "" ==> r == p.firstName + " " + p.lastName
    ensures p.firstName != "" && p.lastName == "" ==> r == p.firstName
    ensures p.firstName == "" && p.lastName != "" ==> r == p.lastName
  {
    var parts := Filter([p.firstName, p.lastName], NonEmpty);
    if p.firstName != "" && p.lastName != "" then
      assert parts == [p.firstName, p.lastName] by {
        assert [p.firstName, p.lastName][1..] == [p.lastName];
        assert Filter([p.lastName], NonEmpty) == [p.lastName];
      }
      assert parts[1..] == [p.lastName];
      assert Join(parts, " ") == p.firstName + " " + Join([p.lastName], " ");
      Join(parts, " ")
    else if p.firstName != "" then
      assert parts == [p.firstName] by {
        assert [p.firstName, p.lastName][1..] == [p.lastName];
        assert Filter([p.lastName], NonEmpty) == [];
      }
      Join(parts, " ")
    else if p.lastName != "" then
      assert parts == [p.lastName] by {
        assert [p.firstName, p.lastName][1..] == [p.lastName];
        assert Filter([p.lastName], NonEmpty) == [p.lastName];
      }
      Join(parts, " ")
    else
      assert parts == [] by {
        assert [p.firstName, p.lastName][1..] == [p.lastName];
        assert Filter([p.lastName], NonEmpty) == [];
      }
      Join(parts, " ")
  }

  const NoDirector := "—"

  /** `directorName`: the director's full name, or a dash when both parts are empty. */
  function DirectorName(director: Person): (r: string)
    ensures r != ""
    ensures director.firstName == "" && director.lastName == "" ==> r == NoDirector
    ensures director.firstName != "" && director.lastName != "" ==> r == director.firstName + " " + director.lastName
    ensures director.firstName != "" && director.lastName == "" ==> r == director.firstName
    ensures director.firstName == "" && director.lastName != "" ==> r == director.lastName
  {
    var name := FullName(director);
    if name == "" then NoDirector else name
  }

  /** `genreNames`: the genres' names in order, empty names dropped. */
  function GenreNames(genres: seq<Genre>): (r: seq<string>)
    ensures forall x :: x in r <==> x != "" && exists i :: 0 <= i < |genres| && genres[i].name == x
    ensures multiset(r) == multiset(AllGenreNames(genres))["" := 0]
    ensures IsSubseq(r, AllGenreNames(genres))
  {
    var all := AllGenreNames(genres);
    var r := Filter(all, NonEmpty);
    assert multiset(r) == multiset(all)["" := 0] by {
      forall x ensures multiset(r)[x] == multiset(all)["" := 0][x] {
        assert multiset(r)[x] == if NonEmpty(x) then multiset(all)[x] else 0;
      }
    }
    AllGenreNamesHas(genres);
    r
  }

  function FullNames(casts: seq<Person>): (r: seq<string>)
    ensures |r| == |casts|
    ensures forall i :: 0 <= i < |casts| ==> r[i] == FullName(casts[i])
  {
    seq(|casts|, i requires 0 <= i < |casts| => FullName(casts[i]))
  }

  /** Every member with some name has that full name in any list that keeps the non-empty full names. */
  lemma NamedMembersListed(casts: seq<Person>, r: seq<string>)
    requires forall x :: x in r <==> x in FullNames(casts) && NonEmpty(x)
    ensures forall i :: 0 <= i < |casts| && (casts[i].firstName != "" || casts[i].lastName != "") ==> FullName(casts[i]) in r
  {
    var all := FullNames(casts);
    forall i | 0 <= i < |casts| && (casts[i].firstName != "" || casts[i].lastName != "")
      ensures FullName(casts[i]) in r
    {
      assert all[i] == FullName(casts[i]) && NonEmpty(all[i]);
      assert all[i] in all;
    }
  }

  /** `castNames`: each member's full name, in order; members with no name at all are dropped. */
  function CastNames(casts: seq<Person>): (r: seq<string>)
    ensures |r| <= |casts|
    ensures forall x :: x in r ==> x != ""
    ensures forall i :: 0 <= i < |casts| && (casts[i].firstName != "" || casts[i].lastName != "") ==> FullName(casts[i]) in r
    ensures multiset(r) == multiset(FullNames(casts))["" := 0]
    ensures IsSubseq(r, FullNames(casts))
  {
    var all := FullNames(casts);
    var r := Filter(all, NonEmpty);
    assert multiset(r) == multiset(all)["" := 0] by {
      forall x ensures multiset(r)[x] == multiset(all)["" := 0][x] {
        assert multiset(r)[x] == if NonEmpty(x) then multiset(all)[x] else 0;
      }
    }
    NamedMembersListed(casts, r);
    r
  }
}
