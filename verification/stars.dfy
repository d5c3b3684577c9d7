/**
 * The star widgets (components/movie/Stars): the read-only row of five
 * stars and the five-radio rating input with its hover preview.
 */
module Stars {
  import opened Wrappers
  import opened Seqs

  const StarCount := 5

  /** `renderStars`: star `i` (counted from 1) is filled iff `i <= rating`. */
  function RenderStars(rating: int): (filled: seq<bool>)
    ensures |filled| == StarCount
    ensures forall i :: 0 <= i < StarCount ==> (filled[i] <==> i + 1 <= rating)
  {
    seq(StarCount, i requires 0 <= i < StarCount => i + 1 <= rating)
  }

  function CountFilled(s: seq<bool>): nat
    ensures CountFilled(s) <= |s|
  {
    if s == [] then 0 else (if s[|s| - 1] then 1 else 0) + CountFilled(s[..|s| - 1])
  }

  /** A row whose first `k` stars, and no others, are filled has `k` filled stars. */
  lemma {:induction false} CountFilledPrefix(s: seq<bool>, k: int)
    requires 0 <= k <= |s|
    requires forall i :: 0 <= i < |s| ==> (s[i] <==> i < k)
    ensures CountFilled(s) == k
    decreases |s|
  {
    if s != [] {
      var init := s[..|s| - 1];
      if k == |s| {
        CountFilledPrefix(init, k - 1);
      } else {
        CountFilledPrefix(init, k);
      }
    }
  }

  /** The number of filled stars is the rating clamped into 0..5. */
  lemma FilledStarsCount(rating: int)
    ensures CountFilled(RenderStars(rating)) == Max(0, Min(StarCount, rating))
    ensures rating <= 0 ==> forall i :: 0 <= i < StarCount ==> !RenderStars(rating)[i]
    ensures rating >= StarCount ==> forall i :: 0 <= i < StarCount ==> RenderStars(rating)[i]
  {
    CountFilledPrefix(RenderStars(rating), Max(0, Min(StarCount, rating)));
  }

  /** One radio of `StarsInput`: its value, whether its star is lit, whether it is checked. */
  datatype InputStar = InputStar(val: int, active: bool, checked: bool)

  /** `StarsInput`: star `val` is lit iff the hovered value (else the chosen one) reaches it. */
  function InputStars(value: int, hover: Option<int>): (stars: seq<InputStar>)
    ensures |stars| == StarCount
    ensures forall i :: 0 <= i < StarCount ==> stars[i].val == i + 1
    ensures forall i :: 0 <= i < StarCount ==> (stars[i].active <==> hover.GetOr(value) >= i + 1)
    ensures forall i :: 0 <= i < StarCount ==> (stars[i].checked <==> value == i + 1)
  {
    var shown := hover.GetOr(value);
    seq(StarCount, i requires 0 <= i < StarCount => InputStar(i + 1, shown >= i + 1, value == i + 1))
  }

  /** At most one radio is checked, and exactly one when the value is a star. */
  lemma AtMostOneChecked(value: int, hover: Option<int>, i: int, j: int)
    requires 0 <= i < StarCount && 0 <= j < StarCount
    requires InputStars(value, hover)[i].checked && InputStars(value, hover)[j].checked
    ensures i == j
  {
  }

  /** Without a hover the input lights exactly the stars the read-only row fills for the value. */
  lemma InputMatchesRow(value: int, hover: Option<int>, i: int)
    requires 0 <= i < StarCount
    ensures InputStars(value, hover)[i].active == RenderStars(hover.GetOr(value))[i]
    ensures hover.None? ==> InputStars(value, hover)[i].active == RenderStars(value)[i]
  {
  }

  /** The mouse and keyboard events of the input. */
  datatype StarEvent = Choose(val: int) | Enter(val: int) | Leave

  /** What an event does: the new hover value and the value handed to `onChange`, if any. */
  datatype StarOutcome = StarOutcome(hover: Option<int>, changed: Option<int>)

  function OnStarEvent(hover: Option<int>, e: StarEvent): (r: StarOutcome)
    ensures e.Choose? ==> r.hover == hover && r.changed == Some(e.val)
    ensures e.Enter? ==> r.hover == Some(e.val) && r.changed.None?
    ensures e.Leave? ==> r.hover.None? && r.changed.None?
  {
    match e
    case Choose(v) => StarOutcome(hover, Some(v))
    case Enter(v) => StarOutcome(Some(v), None)
    case Leave => StarOutcome(None, None)
  }

  /**
   * Choosing star `val` (with the parent storing the value it is handed)
   * checks exactly that radio, and once the mouse leaves, exactly the
   * first `val` stars are lit.
   */
  lemma {:induction false} ChooseThenLeave(value: int, hover: Option<int>, val: int)
    requires 1 <= val <= StarCount
    ensures var chosen := OnStarEvent(hover, Choose(val)).changed.value;
      var left := OnStarEvent(hover, Leave).hover;
      forall i :: 0 <= i < StarCount ==>
        (InputStars(chosen, left)[i].checked <==> i + 1 == val) &&
        (InputStars(chosen, left)[i].active <==> i < val)
  {
    var chosen := OnStarEvent(hover, Choose(val)).changed.value;
    var left := OnStarEvent(hover, Leave).hover;
    assert chosen == val && left == None;
  }
}
