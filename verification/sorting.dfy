/**
 * The in-memory sort behind the development movie listing: a stable sort on
 * string keys compared character by character (by code point), ascending or
 * descending.
 */
module Sorting {
  /** Lexicographic order by code point: the stand-in for `a.localeCompare(b) <= 0`. */
  predicate LexLe(a: string, b: string)
    decreases |a|
  {
    a == [] || (b != [] && (a[0] < b[0] || (a[0] == b[0] && LexLe(a[1..], b[1..]))))
  }

  lemma {:induction false} LexLeRefl(a: string)
    ensures LexLe(a, a)
    decreases |a|
  {
    if a != [] {
      LexLeRefl(a[1..]);
    }
  }

  /** Any two keys are comparable. */
  lemma {:induction false} LexLeTotal(a: string, b: string)
    ensures LexLe(a, b) || LexLe(b, a)
    decreases |a|
  {
    if a != [] && b != [] && a[0] == b[0] {
      LexLeTotal(a[1..], b[1..]);
    }
  }

  lemma {:induction false} LexLeTrans(a: string, b: string, c: string)
    requires LexLe(a, b) && LexLe(b, c)
    ensures LexLe(a, c)
    decreases |a|
  {
    if a != [] && b != [] && c != [] && a[0] == b[0] == c[0] {
      LexLeTrans(a[1..], b[1..], c[1..]);
    }
  }

  /** Mutual `LexLe` only between equal strings: the order is antisymmetric. */
  lemma {:induction false} LexLeAntisym(a: string, b: string)
    requires LexLe(a, b) && LexLe(b, a)
    ensures a == b
    decreases |a|
  {
    if a != [] {
      LexLeAntisym(a[1..], b[1..]);
    }
  }

  /**
   * Whether key `ka` may stay before key `kb`: `ASC` compares
   * `a.localeCompare(b)`, `DESC` compares `b.localeCompare(a)`.
   */
  predicate InOrder(ka: string, kb: string, descending: bool) {
    if descending then LexLe(kb, ka) else LexLe(ka, kb)
  }

  /** Descending order is ascending order with the comparison's arguments swapped. */
  lemma DescendingSwapsArguments(ka: string, kb: string)
    ensures InOrder(ka, kb, true) == InOrder(kb, ka, false)
  {
  }

  lemma InOrderTotal(ka: string, kb: string, descending: bool)
    ensures InOrder(ka, kb, descending) || InOrder(kb, ka, descending)
  {
    LexLeTotal(ka, kb);
  }

  lemma InOrderTrans(ka: string, kb: string, kc: string, descending: bool)
    requires InOrder(ka, kb, descending) && InOrder(kb, kc, descending)
    ensures InOrder(ka, kc, descending)
  {
    if descending {
      LexLeTrans(kc, kb, ka);
    } else {
      LexLeTrans(ka, kb, kc);
    }
  }

  predicate Sorted<T>(s: seq<T>, key: T -> string, descending: bool) {
    forall i, j :: 0 <= i < j < |s| ==> InOrder(key(s[i]), key(s[j]), descending)
  }

  /** Appending a key no earlier key may follow keeps a sequence sorted. */
  lemma AppendSorted<T>(s: seq<T>, y: T, key: T -> string, descending: bool)
    requires Sorted(s, key, descending)
    requires forall e :: e in multiset(s) ==> InOrder(key(e), key(y), descending)
    ensures Sorted(s + [y], key, descending)
  {
    forall i | 0 <= i < |s|
      ensures InOrder(key(s[i]), key(y), descending)
    {
      assert s[i] in multiset(s);
    }
  }

  /** Every element of a sorted sequence may precede anything its last element may precede. */
  lemma BoundedByLast<T>(s: seq<T>, x: T, key: T -> string, descending: bool)
    requires s != [] && Sorted(s, key, descending)
    requires InOrder(key(s[|s| - 1]), key(x), descending)
    ensures forall e :: e in multiset(s) ==> InOrder(key(e), key(x), descending)
  {
    forall e | e in multiset(s)
      ensures InOrder(key(e), key(x), descending)
    {
      var i :| 0 <= i < |s| && s[i] == e;
      if i < |s| - 1 {
        InOrderTrans(key(e), key(s[|s| - 1]), key(x), descending);
      }
    }
  }

  /** Place `x` after the trailing elements it may not precede: one step of a stable insertion sort. */
  function Insert<T>(s: seq<T>, x: T, key: T -> string, descending: bool): (r: seq<T>)
    ensures multiset(r) == multiset(s) + multiset{x}
    ensures |r| == |s| + 1
    decreases |s|
  {
    if s == [] || InOrder(key(s[|s| - 1]), key(x), descending) then s + [x]
    else
      assert s == s[..|s| - 1] + [s[|s| - 1]];
      Insert(s[..|s| - 1], x, key, descending) + [s[|s| - 1]]
  }

  /** Inserting into a sorted sequence keeps it sorted. */
  lemma {:induction false} InsertSorted<T>(s: seq<T>, x: T, key: T -> string, descending: bool)
    requires Sorted(s, key, descending)
    ensures Sorted(Insert(s, x, key, descending), key, descending)
    decreases |s|
  {
    if s == [] {
    } else if InOrder(key(s[|s| - 1]), key(x), descending) {
      BoundedByLast(s, x, key, descending);
      AppendSorted(s, x, key, descending);
    } else {
      var last := s[|s| - 1];
      var init := s[..|s| - 1];
      assert s == init + [last];
      InOrderTotal(key(last), key(x), descending);
      InsertSorted(init, x, key, descending);
      var mid := Insert(init, x, key, descending);
      forall e | e in multiset(mid)
        ensures InOrder(key(e), key(last), descending)
      {
        if e != x {
          assert e in multiset(init);
          var i :| 0 <= i < |init| && init[i] == e;
          assert s[i] == e;
        }
      }
      AppendSorted(mid, last, key, descending);
    }
  }

  /** The elements of `s` whose key is `k`, in their order in `s`. */
  function WithKey<T>(s: seq<T>, key: T -> string, k: string): seq<T>
    decreases |s|
  {
    if s == [] then []
    else WithKey(s[..|s| - 1], key, k) + (if key(s[|s| - 1]) == k then [s[|s| - 1]] else [])
  }

  /** The run of a key in `s + [y]`: the run in `s`, then `y` when it has that key. */
  lemma WithKeySnoc<T>(s: seq<T>, y: T, key: T -> string, k: string)
    ensures WithKey(s + [y], key, k) == WithKey(s, key, k) + (if key(y) == k then [y] else [])
  {
    assert (s + [y])[..|s|] == s;
  }

  /** Inserting `x` puts it after every element of equal key: the run of its key grows at the end. */
  lemma {:induction false} InsertWithKey<T>(s: seq<T>, x: T, key: T -> string, descending: bool, k: string)
    ensures WithKey(Insert(s, x, key, descending), key, k) == WithKey(s, key, k) + (if key(x) == k then [x] else [])
    decreases |s|
  {
    if s == [] || InOrder(key(s[|s| - 1]), key(x), descending) {
      WithKeySnoc(s, x, key, k);
    } else {
      var init, last := s[..|s| - 1], s[|s| - 1];
      assert s == init + [last];
      var mid := Insert(init, x, key, descending);
      assert Insert(s, x, key, descending) == mid + [last];
      InsertWithKey(init, x, key, descending, k);
      WithKeySnoc(mid, last, key, k);
      WithKeySnoc(init, last, key, k);
      assert key(last) != key(x) by { LexLeRefl(key(x)); }
    }
  }

  /**
   * `[...s].sort(...)`: ordered by key, a permutation of the input, and
   * stable: the elements of each key keep their relative order.
   */
  function SortBy<T>(s: seq<T>, key: T -> string, descending: bool): (r: seq<T>)
    ensures Sorted(r, key, descending)
    ensures multiset(r) == multiset(s)
    ensures |r| == |s|
    ensures forall k :: WithKey(r, key, k) == WithKey(s, key, k)
    decreases |s|
  {
    if s == [] then []
    else
      assert s == s[..|s| - 1] + [s[|s| - 1]];
      var sorted := SortBy(s[..|s| - 1], key, descending);
      InsertSorted(sorted, s[|s| - 1], key, descending);
      assert forall k :: WithKey(Insert(sorted, s[|s| - 1], key, descending), key, k) == WithKey(s, key, k) by {
        forall k
          ensures WithKey(Insert(sorted, s[|s| - 1], key, descending), key, k) == WithKey(s, key, k)
        {
          InsertWithKey(sorted, s[|s| - 1], key, descending, k);
        }
      }
      Insert(sorted, s[|s| - 1], key, descending)
  }

  /** A sequence whose elements all have key `k` is its own run of that key. */
  lemma {:induction false} WithKeyAll<T>(s: seq<T>, key: T -> string, k: string)
    requires forall i :: 0 <= i < |s| ==> key(s[i]) == k
    ensures WithKey(s, key, k) == s
    decreases |s|
  {
    if s != [] {
      var init, last := s[..|s| - 1], s[|s| - 1];
      assert forall i :: 0 <= i < |init| ==> key(init[i]) == k by {
        forall i | 0 <= i < |init| ensures key(init[i]) == k { assert init[i] == s[i]; }
      }
      WithKeyAll(init, key, k);
      assert s == init + [last];
      WithKeySnoc(init, last, key, k);
    }
  }

  /** Stability: when every element has the same key, sorting leaves the sequence as it is. */
  lemma SortByConstantKey<T>(s: seq<T>, key: T -> string, descending: bool, k: string)
    requires forall x :: x in s ==> key(x) == k
    ensures SortBy(s, key, descending) == s
  {
    var r := SortBy(s, key, descending);
    forall i | 0 <= i < |s| ensures key(s[i]) == k { assert s[i] in s; }
    forall i | 0 <= i < |r| ensures key(r[i]) == k {
      assert r[i] in multiset(r);
    }
    WithKeyAll(s, key, k);
    WithKeyAll(r, key, k);
  }
}
