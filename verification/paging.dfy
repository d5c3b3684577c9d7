/**
 * Client-side pagination shared by the movie list, the watchlist cards and
 * the search results: 1-based pages of a fixed size taken with `slice`,
 * `Math.ceil` page counts, and the clamped Prev/Next buttons.
 */
module Paging {
  import opened Seqs

  /** `Math.ceil(n / d)` for a positive divisor, characterised by its bracketing. */
  function CeilDiv(n: int, d: int): (c: int)
    requires d > 0
    ensures (c - 1) * d < n <= c * d
    ensures n >= 0 ==> c >= 0
  {
    if n % d == 0 then n / d else n / d + 1
  }

  /** Page `page` (1-based) of `s`: `s.slice((page - 1) * size, (page - 1) * size + size)`. */
  function PageOf<T>(s: seq<T>, page: int, size: int): seq<T> {
    JsSlice(s, (page - 1) * size, (page - 1) * size + size)
  }

  /** Scaling by a non-negative factor keeps the order of two integers. */
  lemma MulMono(a: int, b: int, d: int)
    requires a <= b && d >= 0
    ensures a * d <= b * d
  {
    assert b * d - a * d == (b - a) * d;
  }

  /** A page past the first holds exactly the elements between its bounds, clipped to the end. */
  lemma PageContents<T>(s: seq<T>, page: int, size: int)
    requires page >= 1 && size >= 1
    ensures (page - 1) * size >= 0
    ensures PageOf(s, page, size) == s[Min((page - 1) * size, |s|)..Min(page * size, |s|)]
    ensures |PageOf(s, page, size)| <= size
  {
    var start := (page - 1) * size;
    MulMono(0, page - 1, size);
    assert start + size == page * size;
    assert JsSlice(s, start, start + size) == s[Min(start, |s|)..Min(start + size, |s|)];
  }

  /** Pages 1 to k, concatenated. */
  function AllPages<T>(s: seq<T>, size: int, k: nat): seq<T> {
    if k == 0 then [] else AllPages(s, size, k - 1) + PageOf(s, k, size)
  }

  /** Pages 1 to k together are the first k * size elements. */
  lemma {:induction false} AllPagesPrefix<T>(s: seq<T>, size: int, k: nat)
    requires size >= 1
    ensures AllPages(s, size, k) == s[..Min(k * size, |s|)]
  {
    if k > 0 {
      AllPagesPrefix(s, size, k - 1);
      PageContents(s, k, size);
      assert (k - 1) * size + size == k * size;
      assert (k - 1) * size <= k * size;
    }
  }

  /** Reading every page from 1 to `Math.ceil(n / size)` returns the whole sequence, once, in order. */
  lemma PagesCover<T>(s: seq<T>, size: int)
    requires size >= 1
    ensures AllPages(s, size, CeilDiv(|s|, size)) == s
  {
    AllPagesPrefix(s, size, CeilDiv(|s|, size));
  }

  /** The last page is reached exactly when page * size covers all n elements. */
  lemma LastPageIff(page: int, size: int, n: int)
    requires size >= 1
    ensures (page - 1) * size + size >= n <==> page >= CeilDiv(n, size)
  {
    var c := CeilDiv(n, size);
    assert (page - 1) * size + size == page * size;
    if page >= c {
      MulMono(c, page, size);
    } else {
      MulMono(page, c - 1, size);
    }
  }

  /** The Prev button: `Math.max(1, p - 1)`. */
  function Prev(p: int): (r: int)
    ensures r >= 1
    ensures p > 1 ==> r == p - 1
    ensures p <= 1 ==> r == 1
  {
    Max(1, p - 1)
  }

  /** The Next button: `Math.min(totalPages, p + 1)`. */
  function Next(p: int, totalPages: int): (r: int)
    ensures r <= totalPages
    ensures p < totalPages ==> r == p + 1
    ensures p >= totalPages ==> r == totalPages
    ensures 1 <= p <= totalPages ==> 1 <= r
  {
    Min(totalPages, p + 1)
  }

  /** Prev and Next keep a page inside [1, totalPages]. */
  lemma PagerStaysInRange(p: int, totalPages: int)
    requires 1 <= p <= totalPages
    ensures 1 <= Prev(p) <= totalPages
    ensures 1 <= Next(p, totalPages) <= totalPages
  {
  }

  datatype Click = PrevClick | NextClick

  /** The page after a run of Prev/Next clicks. */
  function Clicked(p: int, clicks: seq<Click>, totalPages: int): int
    decreases |clicks|
  {
    if clicks == [] then p
    else Clicked(if clicks[0].PrevClick? then Prev(p) else Next(p, totalPages), clicks[1..], totalPages)
  }

  /** No run of clicks leads out of [1, totalPages]. */
  lemma {:induction false} ClicksStayInRange(p: int, clicks: seq<Click>, totalPages: int)
    requires 1 <= p <= totalPages
    ensures 1 <= Clicked(p, clicks, totalPages) <= totalPages
    decreases |clicks|
  {
    if clicks != [] {
      PagerStaysInRange(p, totalPages);
      ClicksStayInRange(if clicks[0].PrevClick? then Prev(p) else Next(p, totalPages), clicks[1..], totalPages);
    }
  }
}
