/** `computeStats` (src/lib/stats.ts:73-147): the summary figures of a list
    of sessions. The hour of day a session starts in (`getHours()`, local
    time) is the parameter `hourOf`. */
module Stats {
  import opened Types
  import opened Sorting
  import opened Tallies
  import Sessions

  // ---------------------------------------------------------------------
  // Reductions
  // ---------------------------------------------------------------------

  function Id(x: real): real { x }

  /** Left-to-right sum starting from 0 (src/lib/stats.ts:121). */
  function Sum(xs: seq<real>): real
    decreases |xs|
  {
    if xs == [] then 0.0 else Sum(xs[..|xs| - 1]) + xs[|xs| - 1]
  }

  /** Number of sessions satisfying `p` (src/lib/stats.ts:124). */
  function Count(ss: seq<Session>, p: Session -> bool): (r: nat)
    ensures r <= |ss|
    decreases |ss|
  {
    if ss == [] then 0 else Count(ss[..|ss| - 1], p) + (if p(ss[|ss| - 1]) then 1 else 0)
  }

  /** The middle element of an ascending sequence, or the mean of the two middle ones. */
  function Median(sorted: seq<real>): real
    requires |sorted| > 0
  {
    var n := |sorted|;
    if n % 2 == 0 then (sorted[n / 2 - 1] + sorted[n / 2]) / 2.0 else sorted[n / 2]
  }

  /** The median of `xs` once sorted ascending (src/lib/stats.ts:103-106). */
  function MedianOf(xs: seq<real>): real
    requires |xs| > 0
  {
    Median(SortBy(xs, Id))
  }

  function Markets(ss: seq<Session>): seq<string> {
    seq(|ss|, i requires 0 <= i < |ss| => ss[i].market)
  }

  function Sizes(ss: seq<Session>): seq<real> {
    seq(|ss|, i requires 0 <= i < |ss| => ss[i].positionSizeUsd)
  }

  function Durations(ss: seq<Session>): seq<real> {
    seq(|ss|, i requires 0 <= i < |ss| => ss[i].durationMin)
  }

  function StartHours(ss: seq<Session>, hourOf: int -> Hour): seq<Hour> {
    seq(|ss|, i requires 0 <= i < |ss| => hourOf(ss[i].startTs))
  }

  /** The known leverages of the sessions, in session order (src/lib/stats.ts:109-111). */
  function KnownLeverages(ss: seq<Session>): (r: seq<real>)
    ensures forall i :: 0 <= i < |r| ==> r[i] > 0.0
    ensures |r| == 0 <==> forall i :: 0 <= i < |ss| ==> !Sessions.KnownLeverage(ss[i].leverage)
    decreases |ss|
  {
    if ss == [] then []
    else
      var s := ss[|ss| - 1];
      KnownLeverages(ss[..|ss| - 1]) + (if Sessions.KnownLeverage(s.leverage) then [s.leverage.value] else [])
  }

  /** The filtered list holds exactly the sessions' known leverages: each
      entry is some session's positive leverage, and each session with a
      positive leverage contributes it (src/lib/stats.ts:109-111). */
  lemma {:induction false} KnownLeveragesSpec(ss: seq<Session>)
    ensures forall i :: 0 <= i < |KnownLeverages(ss)| ==>
              exists j :: 0 <= j < |ss| && Sessions.KnownLeverage(ss[j].leverage) &&
                ss[j].leverage == Some(KnownLeverages(ss)[i])
    ensures forall j :: 0 <= j < |ss| && Sessions.KnownLeverage(ss[j].leverage) ==>
              ss[j].leverage.value in KnownLeverages(ss)
    decreases |ss|
  {
    if ss != [] {
      var n := |ss| - 1;
      var pre := ss[..n];
      KnownLeveragesSpec(pre);
      var r, rp := KnownLeverages(ss), KnownLeverages(pre);
      assert r == rp + (if Sessions.KnownLeverage(ss[n].leverage) then [ss[n].leverage.value] else []);
      forall i | 0 <= i < |r|
        ensures exists j :: 0 <= j < |ss| && Sessions.KnownLeverage(ss[j].leverage) &&
                  ss[j].leverage == Some(KnownLeverages(ss)[i])
      {
        var j := n;
        if i < |rp| {
          assert r[i] == rp[i];
          j :| 0 <= j < |pre| && Sessions.KnownLeverage(pre[j].leverage) && pre[j].leverage == Some(KnownLeverages(pre)[i]);
          assert ss[j] == pre[j];
        }
        assert 0 <= j < |ss| && Sessions.KnownLeverage(ss[j].leverage) && ss[j].leverage == Some(r[i]);
      }
      forall j | 0 <= j < |ss| && Sessions.KnownLeverage(ss[j].leverage)
        ensures ss[j].leverage.value in r
      {
        if j < n {
          assert ss[j] == pre[j];
          assert ss[j].leverage.value in rp;
        } else {
          assert r[|r| - 1] == ss[n].leverage.value;
        }
      }
    } else {
      assert KnownLeverages(ss) == [];
    }
  }

  predicate IsWin(s: Session) {
    s.pnlUsd > 0.0
  }

  // ---------------------------------------------------------------------
  // Time-window labels
  // ---------------------------------------------------------------------

  /** Decimal digits of `n`, as a template literal prints an integer. */
  function NatToString(n: nat): (r: string)
    ensures |r| > 0
    decreases n
  {
    if n < 10 then ["0123456789"[n]] else NatToString(n / 10) + ["0123456789"[n % 10]]
  }

  /** `${hour}–${hour + 1}h` */
  function WindowLabel(h: Hour): string {
    NatToString(h) + "\U{2013}" + NatToString(h + 1) + "h"
  }

  function WindowLabels(hs: seq<Hour>): seq<string> {
    seq(|hs|, i requires 0 <= i < |hs| => WindowLabel(hs[i]))
  }

  // ---------------------------------------------------------------------
  // The statistics
  // ---------------------------------------------------------------------

  const NoStats := TradingStats([], 0.0, 0.0, 0.0, 0.0, [])

  /** The three markets with the most sessions. */
  function TopMarkets(ss: seq<Session>): seq<string> {
    Top(Markets(ss), 3)
  }

  function MedianSize(ss: seq<Session>): real {
    if |ss| == 0 then 0.0 else MedianOf(Sizes(ss))
  }

  function MedianLeverage(ss: seq<Session>): real {
    var leverages := KnownLeverages(ss);
    if |leverages| == 0 then 0.0 else MedianOf(leverages)
  }

  function AvgHold(ss: seq<Session>): real {
    if |ss| == 0 then 0.0 else Sum(Durations(ss)) / |ss| as real
  }

  function WinRate(ss: seq<Session>): real {
    if |ss| == 0 then 0.0 else Count(ss, IsWin) as real / |ss| as real
  }

  /** Labels of the three start hours with the most sessions. */
  function TimeWindows(ss: seq<Session>, hourOf: int -> Hour): seq<string> {
    WindowLabels(Top(StartHours(ss, hourOf), 3))
  }

  function StatsOf(sessions: seq<Session>, hourOf: int -> Hour): TradingStats {
    if |sessions| == 0 then NoStats
    else
      TradingStats(
        TopMarkets(sessions),
        MedianSize(sessions),
        MedianLeverage(sessions),
        AvgHold(sessions),
        WinRate(sessions),
        TimeWindows(sessions, hourOf))
  }

  /** The reduction as the source runs it: the two counting maps are filled by
      `forEach` loops, the rest are whole-list reductions. */
  method ComputeStats(sessions: seq<Session>, hourOf: int -> Hour) returns (stats: TradingStats)
    ensures stats == StatsOf(sessions, hourOf)
  {
    if |sessions| == 0 {
      return NoStats;
    }
    var marketCounts := CountKeys(Markets(sessions));
    var topMarkets := TopOf(marketCounts, 3);
    var leverages := KnownLeverages(sessions);
    var medianLeverage := if |leverages| == 0 then 0.0 else MedianOf(leverages);
    var n := |sessions| as real;
    var hourCounts := CountKeys(StartHours(sessions, hourOf));
    var topHours := TopOf(hourCounts, 3);
    stats := TradingStats(
      topMarkets,
      MedianOf(Sizes(sessions)),
      medianLeverage,
      Sum(Durations(sessions)) / n,
      Count(sessions, IsWin) as real / n,
      WindowLabels(topHours));
  }

  // ---------------------------------------------------------------------
  // Counting and summing
  // ---------------------------------------------------------------------

  /** No session satisfies `p` exactly when the count is 0; all do exactly when it is the length. */
  lemma {:induction false} CountExtremes(ss: seq<Session>, p: Session -> bool)
    ensures Count(ss, p) == 0 <==> forall i :: 0 <= i < |ss| ==> !p(ss[i])
    ensures Count(ss, p) == |ss| <==> forall i :: 0 <= i < |ss| ==> p(ss[i])
    decreases |ss|
  {
    if ss != [] {
      var init := ss[..|ss| - 1];
      CountExtremes(init, p);
      assert forall i :: 0 <= i < |init| ==> ss[i] == init[i];
    }
  }

  /** Two predicates no session satisfies together count at most the sessions. */
  lemma {:induction false} CountDisjoint(ss: seq<Session>, p: Session -> bool, q: Session -> bool)
    requires forall i :: 0 <= i < |ss| ==> !(p(ss[i]) && q(ss[i]))
    ensures Count(ss, p) + Count(ss, q) <= |ss|
    decreases |ss|
  {
    if ss != [] {
      var init := ss[..|ss| - 1];
      assert forall i :: 0 <= i < |init| ==> init[i] == ss[i];
      CountDisjoint(init, p, q);
    }
  }

  /** Every element between `lo` and `hi` puts the sum between `n·lo` and `n·hi`. */
  lemma {:induction false} SumBetween(xs: seq<real>, lo: real, hi: real)
    requires forall i :: 0 <= i < |xs| ==> lo <= xs[i] <= hi
    ensures |xs| as real * lo <= Sum(xs) <= |xs| as real * hi
    decreases |xs|
  {
    if xs != [] {
      var init := xs[..|xs| - 1];
      assert forall i :: 0 <= i < |init| ==> init[i] == xs[i];
      SumBetween(init, lo, hi);
      var m := |init| as real;
      assert |xs| as real * lo == m * lo + lo;
      assert |xs| as real * hi == m * hi + hi;
    }
  }

  /** The mean lies between any lower and upper bound of the elements. */
  lemma MeanBetween(xs: seq<real>, lo: real, hi: real)
    requires |xs| > 0
    requires forall i :: 0 <= i < |xs| ==> lo <= xs[i] <= hi
    ensures lo <= Sum(xs) / |xs| as real <= hi
  {
    SumBetween(xs, lo, hi);
    var n := |xs| as real;
    assert Sum(xs) / n * n == Sum(xs);
  }

  // ---------------------------------------------------------------------
  // Medians
  // ---------------------------------------------------------------------

  /** The median depends only on the values, not on their order. */
  lemma MedianOfPermutation(xs: seq<real>, ys: seq<real>)
    requires |xs| > 0 && multiset(xs) == multiset(ys)
    ensures |ys| > 0 && MedianOf(xs) == MedianOf(ys)
  {
    assert |xs| == |multiset(xs)| == |ys|;
    SortByUnique(xs, ys, Id);
  }

  lemma MedianOfSorted(s: seq<real>)
    requires |s| > 0 && SortedBy(s, Id)
    ensures s[0] <= Median(s) <= s[|s| - 1]
  {
    var n := |s|;
    assert Id(s[0]) <= Id(s[(n - 1) / 2]) <= Id(s[n / 2]) <= Id(s[n - 1]);
  }

  /** The median lies between the least and the greatest element. */
  lemma MedianBetween(xs: seq<real>)
    requires |xs| > 0
    ensures exists i :: 0 <= i < |xs| && xs[i] <= MedianOf(xs)
    ensures exists j :: 0 <= j < |xs| && MedianOf(xs) <= xs[j]
  {
    var s := SortBy(xs, Id);
    MedianOfSorted(s);
    assert s[0] in multiset(xs) && s[|s| - 1] in multiset(xs);
    var i :| 0 <= i < |xs| && xs[i] == s[0];
    var j :| 0 <= j < |xs| && xs[j] == s[|s| - 1];
  }

  lemma MedianOfAscending(s: seq<real>)
    requires |s| > 0 && SortedBy(s, Id)
    ensures MedianOf(s) == Median(s)
  {
    SortByOfSorted(s, Id);
  }

  /** The median of any list is the middle of its ascending arrangement. */
  lemma MedianOfArrangement(xs: seq<real>, s: seq<real>)
    requires |s| > 0 && SortedBy(s, Id) && multiset(s) == multiset(xs)
    ensures |xs| == |s| && MedianOf(xs) == Median(s)
  {
    MedianOfAscending(s);
    MedianOfPermutation(s, xs);
  }

  /** Odd count: the middle element, e.g. `[30, 10, 20]` gives 20. */
  lemma MedianOfThree(xs: seq<real>, a: real, b: real, c: real)
    requires a <= b <= c && multiset(xs) == multiset([a, b, c])
    ensures |xs| == 3 && MedianOf(xs) == b
  {
    ThreeAscending(a, b, c);
    MedianOfArrangement(xs, [a, b, c]);
  }

  lemma ThreeAscending(a: real, b: real, c: real)
    requires a <= b <= c
    ensures SortedBy([a, b, c], Id) && Median([a, b, c]) == b
  {
    var s := [a, b, c];
    forall i, j | 0 <= i < j < 3 ensures Id(s[i]) <= Id(s[j]) {}
  }

  /** Even count: the mean of the two middle elements, e.g. `[40, 10, 30, 20]` gives 25. */
  lemma MedianOfFour(xs: seq<real>, a: real, b: real, c: real, d: real)
    requires a <= b <= c <= d && multiset(xs) == multiset([a, b, c, d])
    ensures |xs| == 4 && MedianOf(xs) == (b + c) / 2.0
  {
    FourAscending(a, b, c, d);
    MedianOfArrangement(xs, [a, b, c, d]);
  }

  lemma FourAscending(a: real, b: real, c: real, d: real)
    requires a <= b <= c <= d
    ensures SortedBy([a, b, c, d], Id) && Median([a, b, c, d]) == (b + c) / 2.0
  {
    var s := [a, b, c, d];
    forall i, j | 0 <= i < j < 4 ensures Id(s[i]) <= Id(s[j]) {}
  }

  // ---------------------------------------------------------------------
  // Properties of the statistics
  // ---------------------------------------------------------------------

  /** The win rate is a fraction; it is 0 exactly when no session made money
      (in particular with no sessions) and 1 exactly when every one did. */
  lemma WinRateSpec(ss: seq<Session>)
    ensures 0.0 <= WinRate(ss) <= 1.0
    ensures WinRate(ss) == 0.0 <==> forall i :: 0 <= i < |ss| ==> ss[i].pnlUsd <= 0.0
    ensures |ss| > 0 ==> (WinRate(ss) == 1.0 <==> forall i :: 0 <= i < |ss| ==> ss[i].pnlUsd > 0.0)
  {
    CountExtremes(ss, IsWin);
    if |ss| > 0 {
      Fraction(Count(ss, IsWin), |ss|);
    }
  }

  lemma Fraction(k: nat, n: nat)
    requires 0 < n && k <= n
    ensures 0.0 <= k as real / n as real <= 1.0
    ensures k as real / n as real == 0.0 <==> k == 0
    ensures k as real / n as real == 1.0 <==> k == n
  {
    var q := k as real / n as real;
    assert q * n as real == k as real;
  }

  /** The median leverage only looks at sessions with a known leverage: it is
      positive when there is one and 0 when there is none, and it lies between
      the least and the greatest known leverage. */
  lemma MedianLeverageSpec(ss: seq<Session>)
    ensures MedianLeverage(ss) > 0.0 <==>
              exists i :: 0 <= i < |ss| && Sessions.KnownLeverage(ss[i].leverage)
    ensures MedianLeverage(ss) == 0.0 <==> |KnownLeverages(ss)| == 0
    ensures var lev := KnownLeverages(ss);
            |lev| > 0 ==>
              (exists i :: 0 <= i < |lev| && lev[i] <= MedianLeverage(ss)) &&
              (exists j :: 0 <= j < |lev| && MedianLeverage(ss) <= lev[j])
    ensures (exists i :: 0 <= i < |ss| && Sessions.KnownLeverage(ss[i].leverage)) ==>
              (exists i :: 0 <= i < |ss| && Sessions.KnownLeverage(ss[i].leverage) &&
                 ss[i].leverage.value <= MedianLeverage(ss)) &&
              (exists j :: 0 <= j < |ss| && Sessions.KnownLeverage(ss[j].leverage) &&
                 MedianLeverage(ss) <= ss[j].leverage.value)
  {
    var lev := KnownLeverages(ss);
    if |lev| > 0 {
      MedianBetween(lev);
      KnownLeveragesSpec(ss);
      var i :| 0 <= i < |lev| && lev[i] <= MedianLeverage(ss);
      var j :| 0 <= j < |lev| && MedianLeverage(ss) <= lev[j];
      var si :| 0 <= si < |ss| && Sessions.KnownLeverage(ss[si].leverage) && ss[si].leverage == Some(lev[i]);
      var sj :| 0 <= sj < |ss| && Sessions.KnownLeverage(ss[sj].leverage) && ss[sj].leverage == Some(lev[j]);
      assert ss[si].leverage.value <= MedianLeverage(ss);
      assert MedianLeverage(ss) <= ss[sj].leverage.value;
    }
  }

  /** The average hold time lies between the shortest and the longest session's
      duration; with durations never negative it is never negative. */
  lemma AvgHoldSpec(ss: seq<Session>, lo: real, hi: real)
    requires |ss| > 0
    requires forall i :: 0 <= i < |ss| ==> lo <= ss[i].durationMin <= hi
    ensures lo <= AvgHold(ss) <= hi
  {
    MeanBetween(Durations(ss), lo, hi);
  }

  /** The median position size is one of, or between two of, the session sizes. */
  lemma MedianSizeSpec(ss: seq<Session>)
    requires |ss| > 0
    ensures exists i :: 0 <= i < |ss| && ss[i].positionSizeUsd <= MedianSize(ss)
    ensures exists j :: 0 <= j < |ss| && MedianSize(ss) <= ss[j].positionSizeUsd
  {
    MedianBetween(Sizes(ss));
  }

  /** Top markets: up to three distinct markets traded in the sessions, by
      non-increasing session count. */
  lemma TopMarketsSpec(ss: seq<Session>)
    ensures var ms := Markets(ss);
            |TopMarkets(ss)| == (if |FirstSeen(ms)| < 3 then |FirstSeen(ms)| else 3) &&
            Distinct(TopMarkets(ss)) &&
            (forall i, j :: 0 <= i < j < |TopMarkets(ss)| ==>
               multiset(ms)[TopMarkets(ss)[i]] >= multiset(ms)[TopMarkets(ss)[j]])
    ensures forall i :: 0 <= i < |TopMarkets(ss)| ==>
              exists j :: 0 <= j < |ss| && ss[j].market == TopMarkets(ss)[i]
  {
    var ms := Markets(ss);
    TopSpec(ms, 3);
    var top := TopMarkets(ss);
    forall i | 0 <= i < |top| ensures exists j :: 0 <= j < |ss| && ss[j].market == top[i] {
      var j :| 0 <= j < |ms| && ms[j] == top[i];
      assert ss[j].market == top[i];
    }
  }

  /** Time windows: at most three, one per distinct start hour, each the label
      of an hour some session starts in; the hours labelled are distinct and
      come by non-increasing number of sessions starting in them. */
  lemma TimeWindowsSpec(ss: seq<Session>, hourOf: int -> Hour)
    ensures var hs := StartHours(ss, hourOf);
            |TimeWindows(ss, hourOf)| == (if |FirstSeen(hs)| < 3 then |FirstSeen(hs)| else 3)
    ensures forall i :: 0 <= i < |TimeWindows(ss, hourOf)| ==>
              exists j :: 0 <= j < |ss| && TimeWindows(ss, hourOf)[i] == WindowLabel(hourOf(ss[j].startTs))
    ensures var hs := StartHours(ss, hourOf);
            var top := Top(hs, 3);
            |TimeWindows(ss, hourOf)| == |top| &&
            (forall i :: 0 <= i < |top| ==> TimeWindows(ss, hourOf)[i] == WindowLabel(top[i])) &&
            Distinct(top) &&
            (forall i, j :: 0 <= i < j < |top| ==> multiset(hs)[top[i]] >= multiset(hs)[top[j]])
  {
    var hs := StartHours(ss, hourOf);
    TopSpec(hs, 3);
    var top := Top(hs, 3);
    var tw := TimeWindows(ss, hourOf);
    forall i | 0 <= i < |tw| ensures exists j :: 0 <= j < |ss| && tw[i] == WindowLabel(hourOf(ss[j].startTs)) {
      var j :| 0 <= j < |hs| && hs[j] == top[i];
      assert tw[i] == WindowLabel(hs[j]);
    }
  }

  lemma {:induction false} SumNonNegative(xs: seq<real>)
    requires forall i :: 0 <= i < |xs| ==> 0.0 <= xs[i]
    ensures 0.0 <= Sum(xs)
    decreases |xs|
  {
    if xs != [] {
      var init := xs[..|xs| - 1];
      assert forall i :: 0 <= i < |init| ==> init[i] == xs[i];
      SumNonNegative(init);
    }
  }

  lemma AvgHoldNonNegative(ss: seq<Session>)
    requires forall i :: 0 <= i < |ss| ==> ss[i].durationMin >= 0.0
    ensures AvgHold(ss) >= 0.0
  {
    if |ss| > 0 {
      var ds := Durations(ss);
      assert forall i :: 0 <= i < |ds| ==> ds[i] == ss[i].durationMin;
      SumNonNegative(ds);
      var n := |ss| as real;
      assert Sum(ds) / n * n == Sum(ds);
    }
  }

  /** The statistics of the sessions `groupSessions` returns: all zero for no
      fills; otherwise the average hold and the median size are never negative,
      the win rate is a fraction, and there are one to three top markets and
      time windows. */
  lemma StatsOfGrouped(fills: seq<Fill>, hourOf: int -> Hour)
    ensures |fills| == 0 ==> StatsOf(Sessions.Grouped(fills), hourOf) == NoStats
    ensures var st := StatsOf(Sessions.Grouped(fills), hourOf);
            |fills| > 0 ==>
              st.avgHoldMinutes >= 0.0 && st.medianPositionSizeUsd >= 0.0 &&
              0.0 <= st.winRate <= 1.0 &&
              0 < |st.topMarkets| <= 3 && 0 < |st.timeWindows| <= 3
  {
    var ss := Sessions.Grouped(fills);
    Sessions.GroupedOrdered(fills);
    if |fills| > 0 {
      assert forall i :: 0 <= i < |ss| ==> ss[i].durationMin >= 0.0 && ss[i].positionSizeUsd >= 0.0 by {
        Sessions.GroupedSessionsWellFormed(fills);
      }
      AvgHoldNonNegative(ss);
      assert MedianSize(ss) >= 0.0 by {
        MedianSizeSpec(ss);
      }
      assert 0 < |TopMarkets(ss)| <= 3 by {
        TopMarketsSpec(ss);
        FirstSeenSpec(Markets(ss));
        assert Markets(ss)[0] in Markets(ss);
      }
      assert 0 < |TimeWindows(ss, hourOf)| <= 3 by {
        TimeWindowsSpec(ss, hourOf);
        FirstSeenSpec(StartHours(ss, hourOf));
        assert StartHours(ss, hourOf)[0] in StartHours(ss, hourOf);
      }
      WinRateSpec(ss);
    }
  }

  lemma WindowLabelExamples()
    ensures WindowLabel(9) == "9\U{2013}10h"
    ensures WindowLabel(23) == "23\U{2013}24h"
  {
    assert NatToString(23) == NatToString(2) + ['3'];
    assert NatToString(24) == NatToString(2) + ['4'];
  }
}
