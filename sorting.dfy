/** A stable sort by an integer key. Python's `list.sort(key=...)` is stable,
    and with `reverse=True` it still keeps equal keys in their original
    order, so a descending sort is this ascending sort on the negated key. */
module Sorting {
  import opened Common

  /** `s` is in non-decreasing order of `key`. */
  ghost predicate SortedBy<T>(s: seq<T>, key: T -> int)
  {
    forall i, j :: 0 <= i < j < |s| ==> key(s[i]) <= key(s[j])
  }

  /** The elements of `s` whose key is `k`, in their order in `s`. */
  function WithKey<T>(s: seq<T>, key: T -> int, k: int): seq<T>
  {
    if s == [] then []
    else WithKey(s[..|s| - 1], key, k) + (if key(s[|s| - 1]) == k then [s[|s| - 1]] else [])
  }

  lemma {:induction false} WithKeyConcat<T>(a: seq<T>, b: seq<T>, key: T -> int, k: int)
    ensures WithKey(a + b, key, k) == WithKey(a, key, k) + WithKey(b, key, k)
    decreases |b|
  {
    if b == [] {
      assert a + b == a;
    } else {
      assert (a + b)[..|a + b| - 1] == a + b[..|b| - 1];
      WithKeyConcat(a, b[..|b| - 1], key, k);
    }
  }

  lemma WithKeySingleton<T>(x: T, key: T -> int, k: int)
    ensures WithKey([x], key, k) == if key(x) == k then [x] else []
  {
    assert [x][..0] == [];
  }

  /** Inserts `x` after every element whose key is at most `x`'s. */
  function Insert<T>(s: seq<T>, x: T, key: T -> int): (r: seq<T>)
    ensures |r| == |s| + 1
    decreases |s|
  {
    if s == [] || key(s[|s| - 1]) <= key(x) then s + [x]
    else Insert(s[..|s| - 1], x, key) + [s[|s| - 1]]
  }

  /** Insertion sort: each element is inserted after the elements before it
      in `s` that have the same key, which makes the sort stable. */
  function SortBy<T>(s: seq<T>, key: T -> int): (r: seq<T>)
    ensures |r| == |s|
  {
    if s == [] then [] else Insert(SortBy(s[..|s| - 1], key), s[|s| - 1], key)
  }

  lemma {:induction false} InsertMultiset<T>(s: seq<T>, x: T, key: T -> int)
    ensures multiset(Insert(s, x, key)) == multiset(s) + multiset{x}
    decreases |s|
  {
    if s == [] || key(s[|s| - 1]) <= key(x) {
    } else {
      var init, last := s[..|s| - 1], s[|s| - 1];
      InsertMultiset(init, x, key);
      assert s == init + [last];
    }
  }

  lemma {:induction false} InsertSorted<T>(s: seq<T>, x: T, key: T -> int)
    requires SortedBy(s, key)
    ensures SortedBy(Insert(s, x, key), key)
    decreases |s|
  {
    if s == [] || key(s[|s| - 1]) <= key(x) {
    } else {
      var init, last := s[..|s| - 1], s[|s| - 1];
      InsertSorted(init, x, key);
      InsertMultiset(init, x, key);
      var r := Insert(init, x, key);
      forall y | y in r ensures key(y) <= key(last) {
        assert y in multiset(r);
        if y != x {
          assert y in multiset(init);
          var k :| 0 <= k < |init| && init[k] == y;
          assert s[k] == y;
        }
      }
      forall i, j | 0 <= i < j < |r + [last]|
        ensures key((r + [last])[i]) <= key((r + [last])[j])
      {
        if j == |r| {
          assert (r + [last])[i] == r[i];
          assert r[i] in r;
        }
      }
    }
  }

  /** The sort's result is in key order. */
  lemma {:induction false} SortBySorted<T>(s: seq<T>, key: T -> int)
    ensures SortedBy(SortBy(s, key), key)
    decreases |s|
  {
    if s != [] {
      SortBySorted(s[..|s| - 1], key);
      InsertSorted(SortBy(s[..|s| - 1], key), s[|s| - 1], key);
    }
  }

  /** The sort's result is a permutation of its input. */
  lemma {:induction false} SortByPermutation<T>(s: seq<T>, key: T -> int)
    ensures multiset(SortBy(s, key)) == multiset(s)
    decreases |s|
  {
    if s != [] {
      var init, last := s[..|s| - 1], s[|s| - 1];
      SortByPermutation(init, key);
      InsertMultiset(SortBy(init, key), last, key);
      assert s == init + [last];
    }
  }

  /** An element is in the sorted sequence exactly when it is in the input. */
  lemma SortByMembers<T>(s: seq<T>, key: T -> int, x: T)
    ensures x in SortBy(s, key) <==> x in s
  {
    SortByPermutation(s, key);
    assert x in SortBy(s, key) <==> x in multiset(SortBy(s, key));
    assert x in s <==> x in multiset(s);
  }

  lemma {:induction false} InsertWithKey<T>(s: seq<T>, x: T, key: T -> int, k: int)
    ensures WithKey(Insert(s, x, key), key, k)
         == WithKey(s, key, k) + (if key(x) == k then [x] else [])
    decreases |s|
  {
    WithKeySingleton(x, key, k);
    if s == [] || key(s[|s| - 1]) <= key(x) {
      WithKeyConcat(s, [x], key, k);
    } else {
      var init, last := s[..|s| - 1], s[|s| - 1];
      InsertWithKey(init, x, key, k);
      WithKeyConcat(Insert(init, x, key), [last], key, k);
      WithKeySingleton(last, key, k);
    }
  }

  /** Stability: among elements with equal keys the input order is kept. */
  lemma {:induction false} SortByStable<T>(s: seq<T>, key: T -> int, k: int)
    ensures WithKey(SortBy(s, key), key, k) == WithKey(s, key, k)
    decreases |s|
  {
    if s != [] {
      var init, last := s[..|s| - 1], s[|s| - 1];
      SortByStable(init, key, k);
      InsertWithKey(SortBy(init, key), last, key, k);
    }
  }

  lemma {:induction false} InsertSum<T>(s: seq<T>, x: T, key: T -> int, f: T -> int)
    ensures SumBy(Insert(s, x, key), f) == SumBy(s, f) + f(x)
    decreases |s|
  {
    if s == [] || key(s[|s| - 1]) <= key(x) {
      assert (s + [x])[..|s|] == s;
    } else {
      var init, last := s[..|s| - 1], s[|s| - 1];
      InsertSum(init, x, key, f);
      var r := Insert(init, x, key);
      assert (r + [last])[..|r|] == r;
    }
  }

  /** Sorting does not change a sum over the sequence. */
  lemma {:induction false} SortBySum<T>(s: seq<T>, key: T -> int, f: T -> int)
    ensures SumBy(SortBy(s, key), f) == SumBy(s, f)
    decreases |s|
  {
    if s != [] {
      SortBySum(s[..|s| - 1], key, f);
      InsertSum(SortBy(s[..|s| - 1], key), s[|s| - 1], key, f);
    }
  }
}
