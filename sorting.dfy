/** Python's `list.sort(key=...)`: a stable sort, here over keys that are floats or +infinity,
    and the `[:k]` slice used to keep the best results. */
module Sorting {
  import opened Common

  /** Keys never decrease along the list. */
  ghost predicate SortedBy<T>(s: seq<T>, key: T -> ExtReal) {
    forall i, j :: 0 <= i < j < |s| ==> key(s[i]).Le(key(s[j]))
  }

  /** The elements of `s` whose key is `k`, in their order in `s`. */
  function WithKey<T>(s: seq<T>, key: T -> ExtReal, k: ExtReal): seq<T> {
    if s == [] then []
    else WithKey(s[..|s| - 1], key, k) + (if key(s[|s| - 1]) == k then [s[|s| - 1]] else [])
  }

  /** Places `x` after every element whose key is no greater than its own, scanning from the end:
      a later element never overtakes an earlier one with an equal key. */
  function Insert<T>(s: seq<T>, x: T, key: T -> ExtReal): seq<T> {
    if s == [] || key(s[|s| - 1]).Le(key(x)) then s + [x]
    else Insert(s[..|s| - 1], x, key) + [s[|s| - 1]]
  }

  /** The stable sort: the elements inserted one at a time in list order. */
  function SortBy<T>(s: seq<T>, key: T -> ExtReal): seq<T> {
    if s == [] then [] else Insert(SortBy(s[..|s| - 1], key), s[|s| - 1], key)
  }

  /** Inserting adds exactly `x`. */
  lemma {:induction false} InsertPerm<T>(s: seq<T>, x: T, key: T -> ExtReal)
    ensures multiset(Insert(s, x, key)) == multiset(s) + multiset{x}
    decreases |s|
  {
    if !(s == [] || key(s[|s| - 1]).Le(key(x))) {
      var n := |s| - 1;
      InsertPerm(s[..n], x, key);
      assert s == s[..n] + [s[n]];
    }
  }

  /** Inserting into a sorted list keeps it sorted. */
  lemma {:induction false} InsertSorted<T>(s: seq<T>, x: T, key: T -> ExtReal)
    requires SortedBy(s, key)
    ensures SortedBy(Insert(s, x, key), key)
    decreases |s|
  {
    if !(s == [] || key(s[|s| - 1]).Le(key(x))) {
      var n := |s| - 1;
      var init, last := s[..n], s[n];
      assert SortedBy(init, key);
      InsertSorted(init, x, key);
      InsertPerm(init, x, key);
      var r := Insert(init, x, key);
      forall i | 0 <= i < |r| ensures key(r[i]).Le(key(last)) {
        var y := r[i];
        assert y in multiset(init) + multiset{x};
        if y == x {
          LeIsTotalPreorder(key(x), key(last), key(last));
        } else {
          assert y in init;
          var m :| 0 <= m < n && init[m] == y;
          assert key(s[m]).Le(key(s[n]));
        }
      }
    }
  }

  lemma WithKeySnoc<T>(s: seq<T>, y: T, key: T -> ExtReal, k: ExtReal)
    ensures WithKey(s + [y], key, k) == WithKey(s, key, k) + (if key(y) == k then [y] else [])
  {
    assert (s + [y])[..|s|] == s;
  }

  /** Among the elements with `x`'s key, inserting puts `x` last and moves no other. */
  lemma {:induction false} InsertStable<T>(s: seq<T>, x: T, key: T -> ExtReal, k: ExtReal)
    ensures WithKey(Insert(s, x, key), key, k) == WithKey(s, key, k) + (if key(x) == k then [x] else [])
    decreases |s|
  {
    if s == [] || key(s[|s| - 1]).Le(key(x)) {
      WithKeySnoc(s, x, key, k);
    } else {
      var n := |s| - 1;
      var init, last := s[..n], s[n];
      assert s == init + [last];
      InsertStable(init, x, key, k);
      WithKeySnoc(Insert(init, x, key), last, key, k);
      WithKeySnoc(init, last, key, k);
      if key(x) == k {
        assert key(last) != k by {
          LeIsTotalPreorder(key(last), key(x), key(x));
        }
      }
    }
  }

  /** `SortBy` yields the same elements sorted by key, and the elements with any one key stay in
      their original order: the sort is stable. */
  lemma {:induction false} SortByProperties<T>(s: seq<T>, key: T -> ExtReal)
    ensures SortedBy(SortBy(s, key), key)
    ensures multiset(SortBy(s, key)) == multiset(s)
    ensures forall k :: WithKey(SortBy(s, key), key, k) == WithKey(s, key, k)
  {
    if s != [] {
      var n := |s| - 1;
      var r := SortBy(s[..n], key);
      SortByProperties(s[..n], key);
      InsertSorted(r, s[n], key);
      InsertPerm(r, s[n], key);
      forall k ensures WithKey(SortBy(s, key), key, k) == WithKey(s, key, k) {
        InsertStable(r, s[n], key, k);
      }
      assert s == s[..n] + [s[n]];
    }
  }

  /** Sorting changes no length. */
  lemma SortByLength<T>(s: seq<T>, key: T -> ExtReal)
    ensures |SortBy(s, key)| == |s|
  {
    SortByProperties(s, key);
    assert |multiset(SortBy(s, key))| == |multiset(s)|;
  }

  /** A list already sorted is left as it is. */
  lemma {:induction false} SortBySorted<T>(s: seq<T>, key: T -> ExtReal)
    requires SortedBy(s, key)
    ensures SortBy(s, key) == s
  {
    if s != [] {
      var n := |s| - 1;
      assert SortedBy(s[..n], key);
      SortBySorted(s[..n], key);
      assert s == s[..n] + [s[n]];
      if n > 0 {
        assert key(s[n - 1]).Le(key(s[n]));
      }
    }
  }

  /** Python's `s[:k]`: the first `k` elements, all of them when `k` is at least the length, and
      for a negative `k` all but the last `-k` (none when `-k` is at least the length). */
  function Take<T>(s: seq<T>, k: int): (r: seq<T>)
    ensures r <= s
    ensures k >= 0 ==> |r| == if k <= |s| then k else |s|
    ensures k < 0 ==> |r| == if |s| + k >= 0 then |s| + k else 0
  {
    if k >= 0 then (if k <= |s| then s[..k] else s)
    else (if |s| + k >= 0 then s[..|s| + k] else [])
  }

  /** A prefix of a sorted list is sorted. */
  lemma TakeSorted<T>(s: seq<T>, k: int, key: T -> ExtReal)
    requires SortedBy(s, key)
    ensures SortedBy(Take(s, k), key)
  {
  }
}
