/** Counting into an insertion-ordered `Map<K, number>` and ranking its
    entries by count (src/lib/stats.ts, top markets and time windows). */
module Tallies {
  import opened Sorting

  ghost predicate Distinct<K>(s: seq<K>) {
    forall i, j :: 0 <= i < j < |s| ==> s[i] != s[j]
  }

  function Keys<K>(t: seq<(K, nat)>): seq<K> {
    seq(|t|, i requires 0 <= i < |t| => t[i].0)
  }

  /** The count stored under `x`, or 0 when `x` is not a key, on a map whose entries are `t` in insertion order. */
  function Get<K(==)>(t: seq<(K, nat)>, x: K): (r: nat)
    ensures x in Keys(t) ==> (x, r) in t
    ensures x !in Keys(t) ==> r == 0
    decreases |t|
  {
    if t == [] then 0
    else
      KeysCons(t);
      if t[0].0 == x then t[0].1 else Get(t[1..], x)
  }

  /** Storing `v` under `x`: an existing key keeps its place, a new key goes last. */
  function Put<K(==)>(t: seq<(K, nat)>, x: K, v: nat): seq<(K, nat)>
    decreases |t|
  {
    if t == [] then [(x, v)]
    else if t[0].0 == x then [(x, v)] + t[1..]
    else [t[0]] + Put(t[1..], x, v)
  }

  /** One more occurrence of `x` (src/lib/stats.ts:90, 131). */
  function Bump<K(==)>(t: seq<(K, nat)>, x: K): seq<(K, nat)> {
    Put(t, x, Get(t, x) + 1)
  }

  /** The map after counting every element of `xs` in order. */
  function Tally<K(==)>(xs: seq<K>): seq<(K, nat)>
    decreases |xs|
  {
    if xs == [] then [] else Bump(Tally(xs[..|xs| - 1]), xs[|xs| - 1])
  }

  /** The distinct elements of `xs` in the order they first appear. */
  function FirstSeen<K(==)>(xs: seq<K>): seq<K>
    decreases |xs|
  {
    if xs == [] then []
    else
      var seen := FirstSeen(xs[..|xs| - 1]);
      if xs[|xs| - 1] in seen then seen else seen + [xs[|xs| - 1]]
  }

  /** Position of the first occurrence of `x` in `xs`. */
  function FirstIndex<K(==)>(xs: seq<K>, x: K): (r: nat)
    requires x in xs
    ensures r < |xs| && xs[r] == x && forall j :: 0 <= j < r ==> xs[j] != x
    decreases |xs|
  {
    if xs[0] == x then 0 else 1 + FirstIndex(xs[1..], x)
  }

  /** Each entry counts the occurrences of its key. */
  ghost predicate Counts<K>(t: seq<(K, nat)>, xs: seq<K>) {
    forall e :: e in t ==> e.1 == multiset(xs)[e.0]
  }

  /** Descending count as an ascending sort key (src/lib/stats.ts:96, 135). */
  function NegCount<K>(e: (K, nat)): real {
    -(e.1 as real)
  }

  /** The keys of the first `k` entries once the entries are ranked by
      descending count (src/lib/stats.ts:95-98, 134-137). */
  function TopOf<K>(counts: seq<(K, nat)>, k: nat): seq<K> {
    var ranked := SortBy(counts, NegCount);
    Keys(ranked[..if k < |ranked| then k else |ranked|])
  }

  function Top<K(==)>(xs: seq<K>, k: nat): seq<K> {
    TopOf(Tally(xs), k)
  }

  /** The `forEach` that fills the map. */
  method CountKeys<K(==)>(xs: seq<K>) returns (counts: seq<(K, nat)>)
    ensures counts == Tally(xs)
  {
    counts := [];
    for i := 0 to |xs|
      invariant counts == Tally(xs[..i])
    {
      assert xs[..i + 1][..i] == xs[..i];
      counts := Bump(counts, xs[i]);
    }
    assert xs[..|xs|] == xs;
  }

  // ---------------------------------------------------------------------
  // The map holds each distinct element once, in first-appearance order,
  // with its number of occurrences
  // ---------------------------------------------------------------------

  lemma {:induction false} FirstSeenSpec<K>(xs: seq<K>)
    ensures Distinct(FirstSeen(xs))
    ensures forall x :: x in xs ==> x in FirstSeen(xs)
    ensures forall i :: 0 <= i < |FirstSeen(xs)| ==> FirstSeen(xs)[i] in xs
    decreases |xs|
  {
    if xs != [] {
      var init := xs[..|xs| - 1];
      FirstSeenSpec(init);
      assert xs == init + [xs[|xs| - 1]];
    }
  }

  /** First-appearance order: an element listed earlier first occurs earlier. */
  lemma {:induction false} FirstSeenOrder<K>(xs: seq<K>, i: nat, j: nat)
    requires i < j < |FirstSeen(xs)|
    ensures FirstSeen(xs)[i] in xs && FirstSeen(xs)[j] in xs
    ensures FirstIndex(xs, FirstSeen(xs)[i]) < FirstIndex(xs, FirstSeen(xs)[j])
    decreases |xs|
  {
    var init, x := xs[..|xs| - 1], xs[|xs| - 1];
    FirstSeenSpec(init);
    var d, d' := FirstSeen(init), FirstSeen(xs);
    assert i < |d| && d'[i] == d[i];
    assert xs == init + [x];
    FirstIndexPrefix(init, x, d[i]);
    if j < |d| {
      assert d'[j] == d[j];
      FirstSeenOrder(init, i, j);
      FirstIndexPrefix(init, x, d[j]);
    } else {
      assert d'[j] == x && x !in init;
    }
  }

  lemma {:induction false} FirstIndexPrefix<K>(init: seq<K>, x: K, y: K)
    requires y in init
    ensures FirstIndex(init + [x], y) == FirstIndex(init, y)
    decreases |init|
  {
    if init[0] != y {
      assert (init + [x])[1..] == init[1..] + [x];
      FirstIndexPrefix(init[1..], x, y);
    }
  }

  lemma KeysCons<K>(t: seq<(K, nat)>)
    requires |t| > 0
    ensures Keys(t) == [t[0].0] + Keys(t[1..])
  {
  }

  lemma KeysSnoc<K>(t: seq<(K, nat)>, e: (K, nat))
    ensures Keys(t + [e]) == Keys(t) + [e.0]
  {
  }

  /** With distinct keys, `set` overwrites the one entry for `x` or appends one. */
  lemma {:induction false} PutSpec<K>(t: seq<(K, nat)>, x: K, v: nat)
    requires Distinct(Keys(t))
    ensures Keys(Put(t, x, v)) == if x in Keys(t) then Keys(t) else Keys(t) + [x]
    ensures forall e :: e in Put(t, x, v) ==> if e.0 == x then e.1 == v else e in t
    decreases |t|
  {
    if t != [] {
      KeysCons(t);
      KeysCons(Put(t, x, v));
      forall i, j | 0 <= i < j < |t| - 1 ensures t[1..][i].0 != t[1..][j].0 {
        assert Keys(t)[i + 1] != Keys(t)[j + 1];
      }
      if t[0].0 != x {
        PutSpec(t[1..], x, v);
      } else {
        forall e | e in t[1..] ensures e.0 != x {
          var i :| 0 <= i < |t| - 1 && t[1..][i] == e;
          assert Keys(t)[i + 1] != Keys(t)[0];
        }
      }
    }
  }

  /** The map built by `CountKeys` lists each distinct element once, in order of
      first appearance, paired with its number of occurrences. */
  lemma {:induction false} TallySpec<K>(xs: seq<K>)
    ensures Keys(Tally(xs)) == FirstSeen(xs)
    ensures Counts(Tally(xs), xs)
    decreases |xs|
  {
    if xs != [] {
      var init, x := xs[..|xs| - 1], xs[|xs| - 1];
      TallySpec(init);
      assert xs == init + [x];
      BumpKeys(Tally(init), init, x);
      FirstSeenSpec(init);
      BumpCounts(Tally(init), init, x);
    }
  }

  /** Counting one more element `x` keeps the keys in first-appearance order. */
  lemma BumpKeys<K>(t: seq<(K, nat)>, init: seq<K>, x: K)
    requires Keys(t) == FirstSeen(init)
    ensures Keys(Bump(t, x)) == FirstSeen(init + [x])
  {
    FirstSeenSpec(init);
    PutSpec(t, x, Get(t, x) + 1);
    assert (init + [x])[..|init|] == init;
  }

  /** Counting one more element `x` keeps the counts exact. */
  lemma BumpCounts<K>(t: seq<(K, nat)>, init: seq<K>, x: K)
    requires Distinct(Keys(t)) && Counts(t, init)
    requires forall y :: y in init ==> y in Keys(t)
    ensures Counts(Bump(t, x), init + [x])
  {
    var n := Get(t, x);
    GetCount(t, init, x);
    PutSpec(t, x, n + 1);
    var xs := init + [x];
    assert multiset(xs) == multiset(init) + multiset{x};
    forall e | e in Bump(t, x) ensures e.1 == multiset(xs)[e.0] {
      if e.0 != x {
        assert e in t;
      }
    }
  }

  /** `get` on a map that counts `xs` and has every element as a key is the count. */
  lemma GetCount<K>(t: seq<(K, nat)>, xs: seq<K>, x: K)
    requires Counts(t, xs)
    requires forall y :: y in xs ==> y in Keys(t)
    ensures Get(t, x) == multiset(xs)[x]
  {
    if x !in Keys(t) {
      assert x !in xs;
    }
  }

  // ---------------------------------------------------------------------
  // Ranking by descending count
  // ---------------------------------------------------------------------

  function Ranked<K(==)>(xs: seq<K>): seq<(K, nat)> {
    SortBy(Tally(xs), NegCount)
  }

  lemma DistinctKeysEntries<K>(t: seq<(K, nat)>)
    requires Distinct(Keys(t))
    ensures Distinct(t)
  {
    forall i, j | 0 <= i < j < |t| ensures t[i] != t[j] {
      assert Keys(t)[i] != Keys(t)[j];
    }
  }

  lemma {:induction false} DistinctOnce<T>(s: seq<T>, e: T)
    requires Distinct(s)
    ensures multiset(s)[e] <= 1
    decreases |s|
  {
    if s != [] {
      var init := s[..|s| - 1];
      assert Distinct(init);
      DistinctOnce(init, e);
      SnocMultiset(s);
      if s[|s| - 1] == e {
        assert e !in init;
      }
    }
  }

  lemma Twice<T>(s: seq<T>, i: nat, j: nat)
    requires i < j < |s| && s[i] == s[j]
    ensures multiset(s)[s[i]] >= 2
  {
    assert s == s[..j] + [s[j]] + s[j + 1..];
    assert s[i] in s[..j];
  }

  /** A reordering of entries with distinct keys that count `xs` has distinct keys too. */
  lemma ReorderedDistinct<K>(t: seq<(K, nat)>, r: seq<(K, nat)>, xs: seq<K>)
    requires Distinct(Keys(t)) && Counts(r, xs) && multiset(r) == multiset(t)
    ensures Distinct(Keys(r))
  {
    forall i, j | 0 <= i < j < |r| ensures Keys(r)[i] != Keys(r)[j] {
      if r[i].0 == r[j].0 {
        assert r[i] in r && r[j] in r;
        Twice(r, i, j);
        DistinctKeysEntries(t);
        DistinctOnce(t, r[i]);
        assert false;
      }
    }
  }

  /** A reordering has the same keys. */
  lemma ReorderedKeys<K>(t: seq<(K, nat)>, r: seq<(K, nat)>)
    requires multiset(r) == multiset(t)
    ensures forall x :: x in Keys(t) ==> x in Keys(r)
    ensures forall i :: 0 <= i < |r| ==> r[i].0 in Keys(t)
  {
    forall x | x in Keys(t) ensures x in Keys(r) {
      var p :| 0 <= p < |t| && Keys(t)[p] == x;
      assert t[p] in multiset(r);
      var q :| 0 <= q < |r| && r[q] == t[p];
      assert Keys(r)[q] == x;
    }
    forall i | 0 <= i < |r| ensures r[i].0 in Keys(t) {
      assert r[i] in multiset(t);
      var p :| 0 <= p < |t| && t[p] == r[i];
      assert Keys(t)[p] == r[i].0;
    }
  }

  /** The ranked entries are the counted entries reordered: distinct keys, each
      with its number of occurrences, sorted by descending count. */
  lemma RankedSpec<K>(xs: seq<K>)
    ensures |Ranked(xs)| == |FirstSeen(xs)|
    ensures Distinct(Keys(Ranked(xs)))
    ensures Counts(Ranked(xs), xs)
    ensures forall x :: x in xs ==> x in Keys(Ranked(xs))
    ensures forall i :: 0 <= i < |Ranked(xs)| ==> Ranked(xs)[i].0 in xs
    ensures forall i, j :: 0 <= i < j < |Ranked(xs)| ==> Ranked(xs)[i].1 >= Ranked(xs)[j].1
  {
    var t, r := Tally(xs), Ranked(xs);
    TallySpec(xs);
    FirstSeenSpec(xs);
    forall e | e in r ensures e.1 == multiset(xs)[e.0] {
      assert e in multiset(t);
    }
    ReorderedDistinct(t, r, xs);
    ReorderedKeys(t, r);
    forall i, j | 0 <= i < j < |r| ensures r[i].1 >= r[j].1 {
      assert NegCount(r[i]) <= NegCount(r[j]);
    }
  }

  /** Each kept element is an element of `xs`, listed with its count. */
  lemma TopEntries<K>(xs: seq<K>, k: nat)
    ensures |Top(xs, k)| == if k < |Ranked(xs)| then k else |Ranked(xs)|
    ensures forall i :: 0 <= i < |Top(xs, k)| ==>
              Top(xs, k)[i] == Ranked(xs)[i].0 && Top(xs, k)[i] in xs &&
              multiset(xs)[Top(xs, k)[i]] == Ranked(xs)[i].1
  {
    var r := Ranked(xs);
    RankedSpec(xs);
    forall i | 0 <= i < |Top(xs, k)|
      ensures Top(xs, k)[i] == r[i].0 && r[i].0 in xs && multiset(xs)[r[i].0] == r[i].1
    {
      assert r[i] in r;
    }
  }

  /** The `k` most frequent elements: as many as asked for or as there are
      distinct elements, each one an element of `xs`, no repeats, by
      non-increasing count. */
  lemma TopSpec<K>(xs: seq<K>, k: nat)
    ensures |Top(xs, k)| == if k < |FirstSeen(xs)| then k else |FirstSeen(xs)|
    ensures Distinct(Top(xs, k))
    ensures forall i :: 0 <= i < |Top(xs, k)| ==> Top(xs, k)[i] in xs
    ensures forall i, j :: 0 <= i < j < |Top(xs, k)| ==>
              multiset(xs)[Top(xs, k)[i]] >= multiset(xs)[Top(xs, k)[j]]
  {
    RankedSpec(xs);
    TopEntries(xs, k);
    var r := Ranked(xs);
    forall i, j | 0 <= i < j < |Top(xs, k)| ensures Top(xs, k)[i] != Top(xs, k)[j] {
      assert Keys(r)[i] != Keys(r)[j];
    }
  }

  /** No element left out of the `k` most frequent occurs more often than any kept one. */
  lemma TopExcluded<K>(xs: seq<K>, k: nat, x: K, y: K)
    requires x in xs && x !in Top(xs, k) && y in Top(xs, k)
    ensures multiset(xs)[x] <= multiset(xs)[y]
  {
    var r := Ranked(xs);
    RankedSpec(xs);
    TopEntries(xs, k);
    var top := Top(xs, k);
    var q :| 0 <= q < |r| && Keys(r)[q] == x;
    var a :| 0 <= a < |top| && top[a] == y;
    assert r[q] in r;
  }

  /** Elements of `ks` occurring exactly `c` times in `xs`, in the order of `ks`. */
  ghost function WithCount<K>(ks: seq<K>, xs: seq<K>, c: nat): seq<K>
    decreases |ks|
  {
    if ks == [] then []
    else
      WithCount(ks[..|ks| - 1], xs, c)
        + (if multiset(xs)[ks[|ks| - 1]] == c then [ks[|ks| - 1]] else [])
  }

  lemma {:induction false} HavingCount<K>(t: seq<(K, nat)>, xs: seq<K>, c: nat)
    requires Counts(t, xs)
    ensures Keys(Having(t, NegCount, -(c as real))) == WithCount(Keys(t), xs, c)
    decreases |t|
  {
    if t != [] {
      var init, e := t[..|t| - 1], t[|t| - 1];
      assert t == init + [e];
      assert Counts(init, xs);
      HavingCount(init, xs, c);
      KeysSnoc(init, e);
      var h := Having(init, NegCount, -(c as real));
      if e.1 == c {
        KeysSnoc(h, e);
      } else {
        assert h + [] == h;
      }
    }
  }

  /** Ties keep map order: ranking the counts of `xs` lists the elements of
      equal count in the order of the map's keys, which `TallySpec` shows is
      their order of first appearance in `xs`. */
  lemma TopTies<K>(xs: seq<K>, c: nat)
    ensures Keys(Having(Ranked(xs), NegCount, -(c as real))) == WithCount(Keys(Tally(xs)), xs, c)
  {
    var t := Tally(xs);
    assert Counts(t, xs) by { TallySpec(xs); }
    HavingCount(t, xs, c);
    RankedHavingKeys(t, -(c as real), WithCount(Keys(t), xs, c));
  }

  /** Ranking is stable, so it keeps the keys of one count in their order. */
  lemma RankedHavingKeys<K>(t: seq<(K, nat)>, k: real, ks: seq<K>)
    requires Keys(Having(t, NegCount, k)) == ks
    ensures Keys(Having(SortBy(t, NegCount), NegCount, k)) == ks
  {
    SortByStable(t, NegCount, k);
  }
}
