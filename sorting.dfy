/** A stable sort by a numeric key, as `Array.prototype.sort` with a
    comparator that subtracts the keys behaves (stable since ES2019). */
module Sorting {

  ghost predicate SortedBy<T>(s: seq<T>, key: T -> real) {
    forall i, j :: 0 <= i < j < |s| ==> key(s[i]) <= key(s[j])
  }

  /** Inserts `x` after every element whose key is not greater than its own. */
  function InsertBy<T>(s: seq<T>, x: T, key: T -> real): (r: seq<T>)
    ensures |r| == |s| + 1
    ensures multiset(r) == multiset(s) + multiset{x}
    decreases |s|
  {
    if s == [] || key(s[|s| - 1]) <= key(x) then s + [x]
    else
      assert s == s[..|s| - 1] + [s[|s| - 1]];
      InsertBy(s[..|s| - 1], x, key) + [s[|s| - 1]]
  }

  lemma {:induction false} InsertBySorted<T>(s: seq<T>, x: T, key: T -> real)
    requires SortedBy(s, key)
    ensures SortedBy(InsertBy(s, x, key), key)
    decreases |s|
  {
    if s == [] || key(s[|s| - 1]) <= key(x) {
    } else {
      var init, last := s[..|s| - 1], s[|s| - 1];
      InsertBySorted(init, x, key);
      var r' := InsertBy(init, x, key);
      KeysBelow(init, x, key, key(last));
      var r := r' + [last];
      forall i, j | 0 <= i < j < |r| ensures key(r[i]) <= key(r[j]) {
        if j == |r| - 1 {
          assert r[i] == r'[i] && r'[i] in r';
        } else {
          assert r[i] == r'[i] && r[j] == r'[j];
        }
      }
    }
  }

  /** Inserting `x` below a bound into elements below it stays below it. */
  lemma {:induction false} KeysBelow<T>(init: seq<T>, x: T, key: T -> real, bound: real)
    requires forall i :: 0 <= i < |init| ==> key(init[i]) <= bound
    requires key(x) <= bound
    ensures forall y :: y in InsertBy(init, x, key) ==> key(y) <= bound
  {
    var r' := InsertBy(init, x, key);
    forall y | y in r' ensures key(y) <= bound {
      assert y in multiset(r');
      if y != x {
        assert y in multiset(init);
        var j :| 0 <= j < |init| && init[j] == y;
      }
    }
  }

  /** Stable insertion sort: the result is ordered by key and is a permutation of `s`. */
  function SortBy<T>(s: seq<T>, key: T -> real): (r: seq<T>)
    ensures |r| == |s|
    ensures multiset(r) == multiset(s)
    ensures SortedBy(r, key)
    decreases |s|
  {
    if s == [] then []
    else
      assert s == s[..|s| - 1] + [s[|s| - 1]];
      var sorted := SortBy(s[..|s| - 1], key);
      InsertBySorted(sorted, s[|s| - 1], key);
      InsertBy(sorted, s[|s| - 1], key)
  }

  /** The elements of `s` whose key is `k`, in their order in `s`. */
  function Having<T>(s: seq<T>, key: T -> real, k: real): seq<T>
    decreases |s|
  {
    if s == [] then []
    else Having(s[..|s| - 1], key, k) + (if key(s[|s| - 1]) == k then [s[|s| - 1]] else [])
  }

  lemma {:induction false} HavingAppend<T>(a: seq<T>, b: seq<T>, key: T -> real, k: real)
    ensures Having(a + b, key, k) == Having(a, key, k) + Having(b, key, k)
    decreases |b|
  {
    if b == [] {
      assert a + b == a;
    } else {
      var b', y := b[..|b| - 1], b[|b| - 1];
      assert a + b == (a + b') + [y];
      assert (a + b)[..|a + b| - 1] == a + b';
      HavingAppend(a, b', key, k);
    }
  }

  lemma {:induction false} InsertByHaving<T>(s: seq<T>, x: T, key: T -> real, k: real)
    ensures Having(InsertBy(s, x, key), key, k)
         == Having(s, key, k) + (if key(x) == k then [x] else [])
    decreases |s|
  {
    if s == [] || key(s[|s| - 1]) <= key(x) {
      HavingAppend(s, [x], key, k);
    } else {
      var init, last := s[..|s| - 1], s[|s| - 1];
      assert InsertBy(s, x, key) == InsertBy(init, x, key) + [last];
      assert s == init + [last];
      InsertByHaving(init, x, key, k);
      HavingAppend(InsertBy(init, x, key), [last], key, k);
      HavingAppend(init, [last], key, k);
      if key(x) == k {
        assert Having([last], key, k) == [];
      } else {
        assert Having(InsertBy(init, x, key), key, k) == Having(init, key, k);
      }
    }
  }

  /** Stability: for every key value, the elements carrying it keep their relative order. */
  lemma {:induction false} SortByStable<T>(s: seq<T>, key: T -> real, k: real)
    ensures Having(SortBy(s, key), key, k) == Having(s, key, k)
    decreases |s|
  {
    if s != [] {
      var init, last := s[..|s| - 1], s[|s| - 1];
      SortByStable(init, key, k);
      InsertByHaving(SortBy(init, key), last, key, k);
    }
  }

  /** Sorting an already ordered sequence changes nothing. */
  lemma {:induction false} SortByOfSorted<T>(s: seq<T>, key: T -> real)
    requires SortedBy(s, key)
    ensures SortBy(s, key) == s
    decreases |s|
  {
    if s != [] {
      var init, last := s[..|s| - 1], s[|s| - 1];
      assert SortedBy(init, key);
      SortByOfSorted(init, key);
      assert SortBy(s, key) == InsertBy(init, last, key);
      assert init == [] || key(init[|init| - 1]) <= key(last);
      assert s == init + [last];
    }
  }

  /** Elements of `s` with equal keys are equal: the key orders `s` totally. */
  ghost predicate KeyDetermines<T>(s: seq<T>, key: T -> real) {
    forall x, y :: x in s && y in s && key(x) == key(y) ==> x == y
  }

  /** When the key orders the elements totally, there is one sorted
      arrangement, so the sort does not depend on the input order. */
  lemma SortByUnique<T>(xs: seq<T>, ys: seq<T>, key: T -> real)
    requires multiset(xs) == multiset(ys) && KeyDetermines(xs, key)
    ensures SortBy(xs, key) == SortBy(ys, key)
  {
    var a, b := SortBy(xs, key), SortBy(ys, key);
    forall x, y | x in a && y in a && key(x) == key(y) ensures x == y {
      assert x in multiset(a) && y in multiset(a);
      assert x in multiset(xs) && y in multiset(xs);
    }
    SortedUnique(a, b, key);
  }

  /** A sorted arrangement of a multiset is unique when the key orders its
      elements totally. */
  lemma {:induction false} SortedUnique<T>(a: seq<T>, b: seq<T>, key: T -> real)
    requires SortedBy(a, key) && SortedBy(b, key) && multiset(a) == multiset(b)
    requires KeyDetermines(a, key)
    ensures a == b
    decreases |a|
  {
    assert |a| == |multiset(a)| == |multiset(b)| == |b|;
    if |a| > 0 {
      var n := |a|;
      SortedLasts(a, b, key);
      var a', b' := a[..n - 1], b[..n - 1];
      SortedUnique(a', b', key);
      forall i | 0 <= i < n ensures a[i] == b[i] {
        if i < n - 1 {
          assert a[i] == a'[i] && b[i] == b'[i];
        }
      }
    }
  }

  /** Two sorted arrangements of one multiset end alike and agree on the rest. */
  lemma SortedLasts<T>(a: seq<T>, b: seq<T>, key: T -> real)
    requires |a| > 0 && SortedBy(a, key) && SortedBy(b, key) && multiset(a) == multiset(b)
    requires KeyDetermines(a, key)
    ensures |a| == |b| && a[|a| - 1] == b[|b| - 1]
    ensures multiset(a[..|a| - 1]) == multiset(b[..|b| - 1])
    ensures SortedBy(a[..|a| - 1], key) && SortedBy(b[..|b| - 1], key)
    ensures KeyDetermines(a[..|a| - 1], key)
  {
    assert |a| == |multiset(a)| == |multiset(b)| == |b|;
    var n := |a|;
    SortedLast(b, key, a[n - 1]);
    SortedLast(a, key, b[n - 1]);
    assert b[n - 1] in multiset(a);
    assert a[n - 1] in a && b[n - 1] in a;
    SnocMultiset(a);
    SnocMultiset(b);
    MultisetCancel(multiset(a[..n - 1]), multiset(b[..n - 1]), a[n - 1]);
    forall x, y | x in a[..n - 1] && y in a[..n - 1] && key(x) == key(y) ensures x == y {
      assert x in a && y in a;
    }
  }

  /** The last element of a sorted sequence has the greatest key. */
  lemma SortedLast<T>(s: seq<T>, key: T -> real, x: T)
    requires SortedBy(s, key) && x in multiset(s)
    ensures key(x) <= key(s[|s| - 1])
  {
    var j :| 0 <= j < |s| && s[j] == x;
    assert key(s[j]) <= key(s[|s| - 1]);
  }

  lemma MultisetCancel<T>(m: multiset<T>, m': multiset<T>, x: T)
    requires m + multiset{x} == m' + multiset{x}
    ensures m == m'
  {
    assert forall e :: m[e] == (m + multiset{x})[e] - (if e == x then 1 else 0);
    assert forall e :: m'[e] == (m' + multiset{x})[e] - (if e == x then 1 else 0);
  }

  lemma {:induction false} SnocMultiset<T>(s: seq<T>)
    requires |s| > 0
    ensures multiset(s) == multiset(s[..|s| - 1]) + multiset{s[|s| - 1]}
  {
    assert s == s[..|s| - 1] + [s[|s| - 1]];
  }
}
