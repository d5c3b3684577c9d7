/**
 * Sequence helpers with the JavaScript array semantics the client relies on:
 * `filter`, de-duplication through `Array.from(new Set(xs))`, and `slice`.
 */
module Seqs {

  predicate Distinct<T(==,!new)>(s: seq<T>) {
    forall i, j :: 0 <= i < j < |s| ==> s[i] != s[j]
  }

  /** `r` is `s` with some elements dropped and the rest kept in order. */
  predicate IsSubseq<T(==,!new)>(r: seq<T>, s: seq<T>)
    decreases |s|
  {
    if |r| == 0 then true
    else if |s| == 0 then false
    else if r[0] == s[0] then IsSubseq(r[1..], s[1..])
    else IsSubseq(r, s[1..])
  }

  /** Every sequence is a subsequence of itself. */
  lemma {:induction false} SubseqRefl<T(!new)>(s: seq<T>)
    ensures IsSubseq(s, s)
    decreases |s|
  {
    if s != [] {
      SubseqRefl(s[1..]);
    }
  }

  /** `s.map(f)`: one image per element, in order. */
  function Project<T, U>(s: seq<T>, f: T -> U): (r: seq<U>)
    ensures |r| == |s|
    ensures forall i :: 0 <= i < |s| ==> r[i] == f(s[i])
  {
    seq(|s|, i requires 0 <= i < |s| => f(s[i]))
  }

  /** `s.filter(p)`: every copy of a passing element stays, in order, and nothing else. */
  function Filter<T(==,!new)>(s: seq<T>, p: T -> bool): (r: seq<T>)
    ensures |r| <= |s|
    ensures forall x :: x in r <==> x in s && p(x)
    ensures forall x :: multiset(r)[x] == if p(x) then multiset(s)[x] else 0
    ensures IsSubseq(r, s)
  {
    if |s| == 0 then []
    else
      assert s == [s[0]] + s[1..];
      if p(s[0]) then [s[0]] + Filter(s[1..], p)
      else Filter(s[1..], p)
  }

  /** Filtering a duplicate-free sequence leaves it duplicate-free. */
  lemma {:induction false} FilterDistinct<T(!new)>(s: seq<T>, p: T -> bool)
    requires Distinct(s)
    ensures Distinct(Filter(s, p))
  {
    if |s| > 0 {
      FilterDistinct(s[1..], p);
      assert s[0] !in s[1..];
    }
  }

  /** Filtering keeps everything exactly when every element passes. */
  lemma {:induction false} FilterKeepsAll<T(!new)>(s: seq<T>, p: T -> bool)
    requires forall x :: x in s ==> p(x)
    ensures Filter(s, p) == s
  {
    if |s| > 0 {
      FilterKeepsAll(s[1..], p);
    }
  }

  /** `s.filter(y => y !== x)`: every occurrence of `x` goes, everything else stays in order. */
  function RemoveAll<T(==,!new)>(s: seq<T>, x: T): (r: seq<T>)
    ensures x !in r
    ensures forall y :: y != x ==> (y in r <==> y in s)
    ensures multiset(r) == multiset(s)[x := 0]
    ensures IsSubseq(r, s)
  {
    if |s| == 0 then []
    else if s[0] == x then
      assert s == [s[0]] + s[1..];
      RemoveAll(s[1..], x)
    else
      assert s == [s[0]] + s[1..];
      [s[0]] + RemoveAll(s[1..], x)
  }

  /** Removing a value from a duplicate-free sequence leaves it duplicate-free. */
  lemma {:induction false} RemoveAllDistinct<T(!new)>(s: seq<T>, x: T)
    requires Distinct(s)
    ensures Distinct(RemoveAll(s, x))
    decreases |s|
  {
    if |s| > 0 {
      RemoveAllDistinct(s[1..], x);
      assert s[0] !in s[1..];
    }
  }

  /** Removal distributes over concatenation. */
  lemma {:induction false} RemoveAllAppend<T(!new)>(a: seq<T>, b: seq<T>, x: T)
    ensures RemoveAll(a + b, x) == RemoveAll(a, x) + RemoveAll(b, x)
    decreases |a|
  {
    if a != [] {
      assert (a + b)[0] == a[0];
      assert (a + b)[1..] == a[1..] + b;
      RemoveAllAppend(a[1..], b, x);
      if a[0] == x {
        assert RemoveAll(a + b, x) == RemoveAll(a[1..] + b, x);
        assert RemoveAll(a, x) == RemoveAll(a[1..], x);
      } else {
        assert RemoveAll(a + b, x) == [a[0]] + RemoveAll(a[1..] + b, x);
        assert RemoveAll(a, x) == [a[0]] + RemoveAll(a[1..], x);
        assert [a[0]] + (RemoveAll(a[1..], x) + RemoveAll(b, x)) == ([a[0]] + RemoveAll(a[1..], x)) + RemoveAll(b, x);
      }
    } else {
      assert a + b == b;
    }
  }

  /** Removing an absent value changes nothing. */
  lemma {:induction false} RemoveAllAbsent<T(!new)>(s: seq<T>, x: T)
    requires x !in s
    ensures RemoveAll(s, x) == s
    decreases |s|
  {
    if s != [] {
      RemoveAllAbsent(s[1..], x);
      assert s == [s[0]] + s[1..];
    }
  }

  /** `s.filter(y => !xs.includes(y))`. */
  function Without<T(==,!new)>(s: seq<T>, xs: seq<T>): (r: seq<T>)
    ensures forall y :: y in r <==> y in s && y !in xs
    ensures forall y :: multiset(r)[y] == if y in xs then 0 else multiset(s)[y]
    ensures IsSubseq(r, s)
    ensures |r| <= |s|
  {
    Filter(s, y => y !in xs)
  }

  /** Filtering out `xs` distributes over concatenation. */
  lemma {:induction false} WithoutAppend<T(!new)>(a: seq<T>, b: seq<T>, xs: seq<T>)
    ensures Without(a + b, xs) == Without(a, xs) + Without(b, xs)
    decreases |a|
  {
    if a == [] {
      assert a + b == b;
    } else {
      assert (a + b)[0] == a[0];
      assert (a + b)[1..] == a[1..] + b;
      WithoutAppend(a[1..], b, xs);
    }
  }

  /** `Array.from(new Set(s))`: first occurrences, in order of first appearance. */
  function Dedup<T(==,!new)>(s: seq<T>): (r: seq<T>)
    ensures Distinct(r)
    ensures forall x :: x in r <==> x in s
    ensures |r| <= |s|
  {
    if |s| == 0 then []
    else
      var init := Dedup(s[..|s| - 1]);
      var last := s[|s| - 1];
      assert forall x :: x in s <==> x in s[..|s| - 1] || x == last by {
        assert s == s[..|s| - 1] + [last];
      }
      if last in init then init else init + [last]
  }

  /** A value appended after `s` survives de-duplication exactly when `s` does not hold it already. */
  lemma DedupSnoc<T(!new)>(s: seq<T>, x: T)
    ensures Dedup(s + [x]) == if x in s then Dedup(s) else Dedup(s) + [x]
  {
    assert (s + [x])[..|s|] == s;
  }

  /**
   * De-duplicating `a + b` keeps the first occurrences from `a`, then the
   * first occurrences of the elements of `b` that `a` lacks, in order.
   */
  lemma {:induction false} DedupConcat<T(!new)>(a: seq<T>, b: seq<T>)
    ensures Dedup(a + b) == Dedup(a) + Dedup(Without(b, a))
    decreases |b|
  {
    if b == [] {
      assert a + b == a;
      assert Without(b, a) == [];
    } else {
      var init, y := b[..|b| - 1], b[|b| - 1];
      var w := Without(init, a);
      assert b == init + [y];
      assert a + b == (a + init) + [y];
      DedupConcat(a, init);
      DedupSnoc(a + init, y);
      WithoutAppend(init, [y], a);
      WithoutSingle(y, a);
      if y in a {
        assert Without(b, a) == w + [] == w;
        assert y in a + init;
        assert Dedup(a + b) == Dedup(a + init);
      } else {
        assert Without(b, a) == w + [y];
        assert y in a + init <==> y in w;
        DedupSnoc(w, y);
        if y in w {
          assert Dedup(a + b) == Dedup(a + init);
        } else {
          var da, dw := Dedup(a), Dedup(w);
          assert Dedup(Without(b, a)) == dw + [y];
          assert Dedup(a + b) == (da + dw) + [y];
          ConcatAssoc(da, dw, [y]);
        }
      }
    }
  }

  /** Concatenation is associative; stated apart to keep it out of larger proof contexts. */
  lemma ConcatAssoc<T>(x: seq<T>, y: seq<T>, z: seq<T>)
    ensures (x + y) + z == x + (y + z)
  {
  }

  /** Filtering a one-element sequence keeps the element exactly when it is not excluded. */
  lemma WithoutSingle<T(!new)>(y: T, xs: seq<T>)
    ensures Without([y], xs) == if y in xs then [] else [y]
  {
    assert [y][1..] == [];
  }

  /** De-duplicating a duplicate-free sequence changes nothing. */
  lemma {:induction false} DedupOfDistinct<T(!new)>(s: seq<T>)
    requires Distinct(s)
    ensures Dedup(s) == s
  {
    if |s| > 0 {
      DedupOfDistinct(s[..|s| - 1]);
      assert s == s[..|s| - 1] + [s[|s| - 1]];
    }
  }

  function Min(a: int, b: int): int {
    if a <= b then a else b
  }

  function Max(a: int, b: int): int {
    if a >= b then a else b
  }

  /** How `Array.prototype.slice` resolves a relative index against a length. */
  function SliceIndex(rel: int, len: nat): (k: nat)
    ensures k <= len
    ensures 0 <= rel ==> k == Min(rel, len)
    ensures rel < 0 ==> k == Max(len + rel, 0)
  {
    if rel < 0 then Max(len + rel, 0) else Min(rel, len)
  }

  /** A slice never spans more than its requested width. */
  lemma SliceWidth(start: int, end: int, len: nat)
    ensures start <= end ==> SliceIndex(end, len) - SliceIndex(start, len) <= end - start
  {
    if start < 0 && end >= 0 {
      assert SliceIndex(start, len) >= len + start;
    }
  }

  /** `s.slice(start, end)`, negative indices counting from the end. */
  function JsSlice<T>(s: seq<T>, start: int, end: int): (r: seq<T>)
    ensures start <= end ==> |r| <= end - start
    ensures 0 <= start ==> forall k :: 0 <= k < |r| ==> start + k < |s| && r[k] == s[start + k]
    ensures 0 <= start <= end ==> |r| == Max(Min(end, |s|) - start, 0)
  {
    var from := SliceIndex(start, |s|);
    var to := SliceIndex(end, |s|);
    SliceWidth(start, end, |s|);
    if from < to then s[from..to] else []
  }
}
