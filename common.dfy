/** Small shared vocabulary: an optional value and folds over sequences that
    stand for Django querysets (`filter`, `count`, `aggregate(Sum(...))`). */
module Common {

  datatype Option<+T> = None | Some(value: T)

  /** Sum of `f` over `s`, defined from the right end so that a left-to-right
      accumulator loop extends it one element at a time. The empty sum is 0,
      which is what the source's `... or 0` after an aggregate gives. */
  function SumBy<T>(s: seq<T>, f: T -> int): int
  {
    if s == [] then 0 else SumBy(s[..|s| - 1], f) + f(s[|s| - 1])
  }

  /** The elements of `s` that satisfy `p`, in their original order. */
  function Filter<T>(s: seq<T>, p: T -> bool): (r: seq<T>)
    ensures |r| <= |s|
    ensures forall i :: 0 <= i < |r| ==> r[i] in s && p(r[i])
    ensures forall i :: 0 <= i < |s| && p(s[i]) ==> s[i] in r
  {
    if s == [] then []
    else Filter(s[..|s| - 1], p) + (if p(s[|s| - 1]) then [s[|s| - 1]] else [])
  }

  /** An element is kept by the filter exactly when it is in `s` and
      satisfies `p`. */
  lemma FilterMembers<T>(s: seq<T>, p: T -> bool)
    ensures forall x :: x in Filter(s, p) <==> x in s && p(x)
  {
    var r := Filter(s, p);
    forall x ensures x in r <==> x in s && p(x) {
      if x in r {
        var i :| 0 <= i < |r| && r[i] == x;
      }
      if x in s {
        var i :| 0 <= i < |s| && s[i] == x;
      }
    }
  }

  /** The head of a non-empty filter is the first element of `s` that
      satisfies `p`: a queryset's `.first()` after a `filter`. */
  lemma {:induction false} FilterFirst<T>(s: seq<T>, p: T -> bool)
    requires Filter(s, p) != []
    ensures exists k :: 0 <= k < |s| && s[k] == Filter(s, p)[0] && p(s[k]) &&
                        forall m :: 0 <= m < k ==> !p(s[m])
    decreases |s|
  {
    var init, last := s[..|s| - 1], s[|s| - 1];
    var fi := Filter(init, p);
    assert Filter(s, p) == fi + (if p(last) then [last] else []);
    if fi != [] {
      FilterFirst(init, p);
      var k :| 0 <= k < |init| && init[k] == fi[0] && p(init[k]) &&
               forall m :: 0 <= m < k ==> !p(init[m]);
      assert s[k] == init[k];
      forall m | 0 <= m < k ensures !p(s[m]) {
        assert s[m] == init[m];
      }
    } else {
      assert p(last);
      forall m | 0 <= m < |s| - 1 ensures !p(s[m]) {
        assert s[m] == init[m];
      }
      assert s[|s| - 1] == Filter(s, p)[0];
    }
  }

  /** Number of elements of `s` that satisfy `p` (a queryset `count()`). */
  function Count<T>(s: seq<T>, p: T -> bool): nat
  {
    |Filter(s, p)|
  }

  /** No two elements of `s` share a `key`: a `unique` or `unique_together`
      constraint over a table. */
  predicate UniqueBy<T, K(==)>(s: seq<T>, key: T -> K)
  {
    forall i, j :: 0 <= i < j < |s| ==> key(s[i]) != key(s[j])
  }

  /** Sums distribute over concatenation. */
  lemma {:induction false} SumByConcat<T>(a: seq<T>, b: seq<T>, f: T -> int)
    ensures SumBy(a + b, f) == SumBy(a, f) + SumBy(b, f)
    decreases |b|
  {
    if b == [] {
      assert a + b == a;
    } else {
      assert (a + b)[..|a + b| - 1] == a + b[..|b| - 1];
      SumByConcat(a, b[..|b| - 1], f);
    }
  }

  /** A sum of pointwise-smaller terms is smaller. */
  lemma {:induction false} SumByMono<T>(s: seq<T>, f: T -> int, g: T -> int)
    requires forall x :: x in s ==> f(x) <= g(x)
    ensures SumBy(s, f) <= SumBy(s, g)
    decreases |s|
  {
    if s != [] {
      assert s[|s| - 1] in s;
      forall x | x in s[..|s| - 1] ensures f(x) <= g(x) {
        assert x in s;
      }
      SumByMono(s[..|s| - 1], f, g);
    }
  }

  /** A sum of pointwise sums is the sum of the two sums. */
  lemma {:induction false} SumByAdd<T>(s: seq<T>, f: T -> int, g: T -> int, h: T -> int)
    requires forall x :: x in s ==> h(x) == f(x) + g(x)
    ensures SumBy(s, h) == SumBy(s, f) + SumBy(s, g)
    decreases |s|
  {
    if s != [] {
      assert s[|s| - 1] in s;
      forall x | x in s[..|s| - 1] ensures h(x) == f(x) + g(x) {
        assert x in s;
      }
      SumByAdd(s[..|s| - 1], f, g, h);
    }
  }

  /** Filtering then summing is summing the terms the filter keeps. */
  lemma {:induction false} SumByFilter<T>(s: seq<T>, p: T -> bool, f: T -> int, g: T -> int)
    requires forall x :: x in s ==> g(x) == (if p(x) then f(x) else 0)
    ensures SumBy(Filter(s, p), f) == SumBy(s, g)
    decreases |s|
  {
    if s != [] {
      var init, last := s[..|s| - 1], s[|s| - 1];
      assert last in s;
      forall x | x in init ensures g(x) == (if p(x) then f(x) else 0) {
        assert x in s;
      }
      SumByFilter(init, p, f, g);
      SumByConcat(Filter(init, p), if p(last) then [last] else [], f);
      assert SumBy([last], f) == f(last) by {
        assert [last][..0] == [];
      }
    }
  }

  /** The first element of `s` whose `key` is `k`: a queryset `.first()`, or a
      `.get()` on a key the schema makes unique. */
  function FindByKey<T, K(==)>(s: seq<T>, key: T -> K, k: K): (r: Option<T>)
    ensures r.Some? ==> r.value in s && key(r.value) == k
    ensures r.None? <==> forall i :: 0 <= i < |s| ==> key(s[i]) != k
  {
    if s == [] then None
    else if key(s[0]) == k then Some(s[0])
    else FindByKey(s[1..], key, k)
  }

  /** Under a uniqueness constraint the lookup finds THE element with that key. */
  lemma {:induction false} FindByKeyUnique<T, K>(s: seq<T>, key: T -> K, n: nat)
    requires UniqueBy(s, key)
    requires n < |s|
    ensures FindByKey(s, key, key(s[n])) == Some(s[n])
    decreases n
  {
    if n > 0 {
      assert key(s[0]) != key(s[n]);
      assert s[1..][n - 1] == s[n];
      FindByKeyUnique(s[1..], key, n - 1);
    }
  }

  /** Removing rows never breaks a uniqueness constraint. */
  lemma {:induction false} UniqueByFilter<T, K>(s: seq<T>, key: T -> K, p: T -> bool)
    requires UniqueBy(s, key)
    ensures UniqueBy(Filter(s, p), key)
    decreases |s|
  {
    if s != [] {
      var init, last := s[..|s| - 1], s[|s| - 1];
      UniqueByFilter(init, key, p);
      var fi := Filter(init, p);
      forall i | 0 <= i < |fi| ensures key(fi[i]) != key(last) {
        assert fi[i] in init;
        var m :| 0 <= m < |init| && init[m] == fi[i];
        assert s[m] == fi[i];
      }
    }
  }

  /** `f` applied to every element, in order. */
  function MapSeq<T, U>(s: seq<T>, f: T -> U): (r: seq<U>)
    ensures |r| == |s|
    ensures forall i :: 0 <= i < |s| ==> r[i] == f(s[i])
  {
    if s == [] then [] else MapSeq(s[..|s| - 1], f) + [f(s[|s| - 1])]
  }

  /** Summing over the mapped sequence is summing the composed function. */
  lemma {:induction false} SumByMapSeq<T, U>(s: seq<T>, f: T -> U, g: U -> int, h: T -> int)
    requires forall x :: x in s ==> h(x) == g(f(x))
    ensures SumBy(MapSeq(s, f), g) == SumBy(s, h)
    decreases |s|
  {
    if s != [] {
      var init := s[..|s| - 1];
      assert s[|s| - 1] in s;
      forall x | x in init ensures h(x) == g(f(x)) {
        assert x in s;
      }
      SumByMapSeq(init, f, g, h);
      var m := MapSeq(s, f);
      assert m[..|m| - 1] == MapSeq(init, f);
    }
  }

  /** Negating every term negates the sum. */
  lemma {:induction false} SumByNeg<T>(s: seq<T>, f: T -> int, g: T -> int)
    requires forall x :: x in s ==> g(x) == -f(x)
    ensures SumBy(s, g) == -SumBy(s, f)
    decreases |s|
  {
    if s != [] {
      assert s[|s| - 1] in s;
      forall x | x in s[..|s| - 1] ensures g(x) == -f(x) {
        assert x in s;
      }
      SumByNeg(s[..|s| - 1], f, g);
    }
  }

  /** Appending a row with another key does not change a lookup. */
  lemma {:induction false} FindByKeyAppendOther<T, K>(s: seq<T>, e: T, key: T -> K, k: K)
    requires key(e) != k
    ensures FindByKey(s + [e], key, k) == FindByKey(s, key, k)
    decreases |s|
  {
    if s == [] {
      assert ([e])[1..] == [];
    } else {
      assert (s + [e])[1..] == s[1..] + [e];
      if key(s[0]) != k {
        FindByKeyAppendOther(s[1..], e, key, k);
      }
    }
  }

  /** Appending the first row with a key makes the lookup find it. */
  lemma {:induction false} FindByKeyAppendNew<T, K>(s: seq<T>, e: T, key: T -> K)
    requires FindByKey(s, key, key(e)).None?
    ensures FindByKey(s + [e], key, key(e)) == Some(e)
    decreases |s|
  {
    if s != [] {
      assert (s + [e])[1..] == s[1..] + [e];
      FindByKeyAppendNew(s[1..], e, key);
    }
  }

  /** A sum of zeros is zero. */
  lemma {:induction false} SumByZero<T>(s: seq<T>, f: T -> int)
    requires forall x :: x in s ==> f(x) == 0
    ensures SumBy(s, f) == 0
    decreases |s|
  {
    if s != [] {
      assert s[|s| - 1] in s;
      forall x | x in s[..|s| - 1] ensures f(x) == 0 {
        assert x in s;
      }
      SumByZero(s[..|s| - 1], f);
    }
  }

  /** When only rows with key `k` contribute and keys are unique, the sum is
      the contribution of the one row with key `k`, if there is one. */
  lemma {:induction false} SumByAtKey<T, K>(s: seq<T>, key: T -> K, k: K, f: T -> int)
    requires UniqueBy(s, key)
    requires forall x :: x in s && key(x) != k ==> f(x) == 0
    ensures SumBy(s, f) == match FindByKey(s, key, k) case Some(x) => f(x) case None => 0
    decreases |s|
  {
    if s != [] {
      var init, last := s[..|s| - 1], s[|s| - 1];
      assert s == init + [last];
      assert UniqueBy(init, key);
      forall x | x in init && key(x) != k ensures f(x) == 0 {
        assert x in s;
      }
      if key(last) == k {
        forall x | x in init ensures f(x) == 0 {
          var m :| 0 <= m < |init| && init[m] == x;
          assert s[m] == x;
        }
        SumByZero(init, f);
        FindByKeyUnique(s, key, |s| - 1);
      } else {
        assert last in s;
        SumByAtKey(init, key, k, f);
        FindByKeyAppendOther(init, last, key, k);
      }
    }
  }

  /** Appending a row does not change a lookup that already succeeds. */
  lemma {:induction false} FindByKeyAppendSome<T, K>(s: seq<T>, e: T, key: T -> K, k: K)
    requires FindByKey(s, key, k).Some?
    ensures FindByKey(s + [e], key, k) == FindByKey(s, key, k)
    decreases |s|
  {
    assert (s + [e])[1..] == s[1..] + [e];
    if key(s[0]) != k {
      FindByKeyAppendSome(s[1..], e, key, k);
    }
  }
}
