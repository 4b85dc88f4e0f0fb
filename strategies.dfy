/** `detectStrategies` (src/lib/stats.ts:149-219): six threshold rules over the
    sessions, each contributing at most one strategy, in a fixed order. */
module Strategies {
  import opened Types
  import opened Tallies
  import opened Stats

  const QuickName := "Quick in/out"
  const HoldName := "Hold a bit longer"
  const FocusedName := "Focused market"
  const SimilarName := "Similar sizing"
  const HighLeverageName := "High leverage"
  const DiversifiedName := "Diversified"

  /** Position of a rule in the order the rules are evaluated; 6 for any other name. */
  function Rank(name: string): nat {
    if name == QuickName then 0
    else if name == HoldName then 1
    else if name == FocusedName then 2
    else if name == SimilarName then 3
    else if name == HighLeverageName then 4
    else if name == DiversifiedName then 5
    else 6
  }

  predicate IsQuick(s: Session) {
    s.durationMin < 20.0
  }

  predicate IsLonger(s: Session) {
    20.0 <= s.durationMin <= 240.0
  }

  /** A session counts as high leverage when its leverage is present and above 5 (src/lib/stats.ts:200). */
  predicate UsesHighLeverage(s: Session) {
    s.leverage.Some? && s.leverage.value > 5.0
  }

  /** `k` out of `n` as a percentage (src/lib/stats.ts:154). */
  function Share(k: nat, n: nat): real
    requires n > 0
  {
    (k as real / n as real) * 100.0
  }

  /** Sum of the squared deviations from `mean`, left to right (src/lib/stats.ts:188). */
  function SquaredDeviations(xs: seq<real>, mean: real): real
    decreases |xs|
  {
    if xs == [] then 0.0
    else SquaredDeviations(xs[..|xs| - 1], mean) + (xs[|xs| - 1] - mean) * (xs[|xs| - 1] - mean)
  }

  /** `stdev < mean * 0.5` with `stdev` the square root of the population
      variance, compared here without the root (see `SqrtComparison`). */
  predicate LowSpread(sizes: seq<real>)
    requires |sizes| > 0
  {
    var mean := Sum(sizes) / |sizes| as real;
    var variance := SquaredDeviations(sizes, mean) / |sizes| as real;
    mean > 0.0 && variance < (mean * 0.5) * (mean * 0.5)
  }

  // ---------------------------------------------------------------------
  // The six rules
  // ---------------------------------------------------------------------

  function QuickRule(ss: seq<Session>): Option<Strategy>
    requires |ss| > 0
  {
    var share := Share(Count(ss, IsQuick), |ss|);
    if share > 60.0 then Some(Strategy(QuickName, SessionShare(share))) else None
  }

  function HoldRule(ss: seq<Session>): Option<Strategy>
    requires |ss| > 0
  {
    var share := Share(Count(ss, IsLonger), |ss|);
    if share > 60.0 then Some(Strategy(HoldName, SessionShare(share))) else None
  }

  /** Uses the first of the given top markets, whatever produced them; the
      sessions in a market are counted as its multiplicity among the session
      markets (src/lib/stats.ts:174). */
  function FocusedRule(ss: seq<Session>, topMarkets: seq<string>): Option<Strategy>
    requires |ss| > 0
  {
    if |topMarkets| == 0 then None
    else
      var share := Share(multiset(Markets(ss))[topMarkets[0]], |ss|);
      if share > 60.0 then Some(Strategy(FocusedName, MarketShare(share, topMarkets[0]))) else None
  }

  function SimilarRule(ss: seq<Session>): Option<Strategy> {
    if |ss| > 1 && LowSpread(Sizes(ss)) then Some(Strategy(SimilarName, LowSizeVariance)) else None
  }

  function HighLeverageRule(ss: seq<Session>): Option<Strategy>
    requires |ss| > 0
  {
    var share := Share(Count(ss, UsesHighLeverage), |ss|);
    if share > 50.0 then Some(Strategy(HighLeverageName, SessionShare(share))) else None
  }

  /** The number of distinct markets traded (src/lib/stats.ts:210): the length of `FirstSeen(Markets(ss))`. */
  function DiversifiedRule(ss: seq<Session>): Option<Strategy> {
    var markets := |FirstSeen(Markets(ss))|;
    if markets >= 5 && |ss| >= 10 then Some(Strategy(DiversifiedName, MarketCount(markets))) else None
  }

  /** The strategies of the rules that fired, in order (the `strategies.push` calls). */
  function Collect(found: seq<Option<Strategy>>): seq<Strategy>
    decreases |found|
  {
    if found == [] then []
    else
      var last := found[|found| - 1];
      Collect(found[..|found| - 1]) + (if last.Some? then [last.value] else [])
  }

  function Rules(ss: seq<Session>, stats: TradingStats): seq<Option<Strategy>>
    requires |ss| > 0
  {
    [QuickRule(ss), HoldRule(ss), FocusedRule(ss, stats.topMarkets),
     SimilarRule(ss), HighLeverageRule(ss), DiversifiedRule(ss)]
  }

  /** With no sessions every share is `0 / 0`, which no threshold test passes. */
  function Detect(sessions: seq<Session>, stats: TradingStats): seq<Strategy> {
    if |sessions| == 0 then [] else Collect(Rules(sessions, stats))
  }

  // ---------------------------------------------------------------------
  // Order of the result
  // ---------------------------------------------------------------------

  ghost predicate InRuleOrder(r: seq<Strategy>) {
    forall i, j :: 0 <= i < j < |r| ==> Rank(r[i].name) < Rank(r[j].name)
  }

  /** Slot `i` holds only the rule ranked `i`. */
  ghost predicate Slotted(found: seq<Option<Strategy>>) {
    forall i :: 0 <= i < |found| && found[i].Some? ==> Rank(found[i].value.name) == i
  }

  lemma SlottedPrefix(found: seq<Option<Strategy>>)
    requires |found| > 0 && Slotted(found)
    ensures Slotted(found[..|found| - 1])
  {
    var init := found[..|found| - 1];
    forall i | 0 <= i < |init| && init[i].Some? ensures Rank(init[i].value.name) == i {
      assert init[i] == found[i];
    }
  }

  /** Every collected strategy comes from the slot its rank names. */
  lemma {:induction false} CollectFrom(found: seq<Option<Strategy>>)
    requires Slotted(found)
    ensures forall j :: 0 <= j < |Collect(found)| ==>
              Rank(Collect(found)[j].name) < |found| && found[Rank(Collect(found)[j].name)] == Some(Collect(found)[j])
    decreases |found|
  {
    if found != [] {
      var init, last := found[..|found| - 1], found[|found| - 1];
      SlottedPrefix(found);
      CollectFrom(init);
      var c, r := Collect(init), Collect(found);
      assert r == c + (if last.Some? then [last.value] else []);
      forall j | 0 <= j < |r|
        ensures Rank(r[j].name) < |found| && found[Rank(r[j].name)] == Some(r[j])
      {
        if j < |c| {
          assert r[j] == c[j];
          assert init[Rank(c[j].name)] == found[Rank(c[j].name)];
        }
      }
    }
  }

  /** Collecting slotted rule results keeps them in rule order. */
  lemma {:induction false} CollectOrder(found: seq<Option<Strategy>>)
    requires Slotted(found)
    ensures InRuleOrder(Collect(found))
    decreases |found|
  {
    if found != [] {
      var init, last := found[..|found| - 1], found[|found| - 1];
      SlottedPrefix(found);
      CollectOrder(init);
      CollectFrom(init);
      var c, r := Collect(init), Collect(found);
      assert r == c + (if last.Some? then [last.value] else []);
      forall i, j | 0 <= i < j < |r| ensures Rank(r[i].name) < Rank(r[j].name) {
        assert r[i] == c[i];
        if j < |c| {
          assert r[j] == c[j];
        }
      }
    }
  }

  /** Every rule that fired is in the result. */
  lemma {:induction false} CollectHas(found: seq<Option<Strategy>>)
    ensures forall i :: 0 <= i < |found| && found[i].Some? ==> found[i].value in Collect(found)
    decreases |found|
  {
    if found != [] {
      var init := found[..|found| - 1];
      CollectHas(init);
      var c, r := Collect(init), Collect(found);
      forall i | 0 <= i < |found| && found[i].Some? ensures found[i].value in r {
        if i < |init| {
          assert init[i] == found[i];
          assert found[i].value in c;
        }
      }
    }
  }

  lemma RulesSlotted(ss: seq<Session>, stats: TradingStats)
    requires |ss| > 0
    ensures Slotted(Rules(ss, stats))
  {
    assert Rank(QuickName) == 0 && Rank(HoldName) == 1 && Rank(FocusedName) == 2;
    assert Rank(SimilarName) == 3 && Rank(HighLeverageName) == 4 && Rank(DiversifiedName) == 5;
  }

  /** Strategies come out in the fixed order Quick in/out, Hold a bit longer,
      Focused market, Similar sizing, High leverage, Diversified, each at most
      once, and nothing else comes out. */
  lemma DetectOrder(ss: seq<Session>, stats: TradingStats)
    ensures InRuleOrder(Detect(ss, stats))
    ensures forall j :: 0 <= j < |Detect(ss, stats)| ==> Rank(Detect(ss, stats)[j].name) < 6
  {
    if |ss| > 0 {
      RulesSlotted(ss, stats);
      CollectOrder(Rules(ss, stats));
      CollectFrom(Rules(ss, stats));
    }
  }

  /** A rule's name is in the result exactly when the rule fired. */
  lemma DetectFired(ss: seq<Session>, stats: TradingStats, i: nat)
    requires |ss| > 0 && i < 6
    ensures (exists j :: 0 <= j < |Detect(ss, stats)| && Rank(Detect(ss, stats)[j].name) == i)
              <==> Rules(ss, stats)[i].Some?
  {
    var found := Rules(ss, stats);
    RulesSlotted(ss, stats);
    CollectFrom(found);
    CollectHas(found);
    var r := Detect(ss, stats);
    if found[i].Some? {
      var j :| 0 <= j < |r| && r[j] == found[i].value;
    }
  }

  // ---------------------------------------------------------------------
  // The thresholds
  // ---------------------------------------------------------------------

  /** A share is above `t` percent exactly when `100·k > t·n`. */
  lemma ShareAbove(k: nat, n: nat, t: nat)
    requires n > 0
    ensures Share(k, n) > t as real <==> 100 * k > t * n
  {
    var q := k as real / n as real;
    assert q * n as real == k as real;
    assert Share(k, n) * n as real == 100.0 * k as real;
  }

  /** Each rule fires exactly when its strict threshold is crossed, stated on
      whole numbers: more than 60% quick, more than 60% longer, more than 60%
      in the first top market, a low spread of sizes over more than one session,
      more than 50% above 5x leverage, at least 5 markets over at least 10 sessions. */
  lemma RuleThresholds(ss: seq<Session>, stats: TradingStats)
    requires |ss| > 0
    ensures QuickRule(ss).Some? <==> 100 * Count(ss, IsQuick) > 60 * |ss|
    ensures HoldRule(ss).Some? <==> 100 * Count(ss, IsLonger) > 60 * |ss|
    ensures FocusedRule(ss, stats.topMarkets).Some? <==>
              |stats.topMarkets| > 0 && 100 * multiset(Markets(ss))[stats.topMarkets[0]] > 60 * |ss|
    ensures SimilarRule(ss).Some? <==> |ss| > 1 && LowSpread(Sizes(ss))
    ensures HighLeverageRule(ss).Some? <==> 100 * Count(ss, UsesHighLeverage) > 50 * |ss|
    ensures DiversifiedRule(ss).Some? <==> |FirstSeen(Markets(ss))| >= 5 && |ss| >= 10
  {
    ShareAbove(Count(ss, IsQuick), |ss|, 60);
    ShareAbove(Count(ss, IsLonger), |ss|, 60);
    if |stats.topMarkets| > 0 {
      ShareAbove(multiset(Markets(ss))[stats.topMarkets[0]], |ss|, 60);
    }
    ShareAbove(Count(ss, UsesHighLeverage), |ss|, 50);
  }

  /** Exactly 60% quick sessions does not make a quick trader. */
  lemma QuickBoundary(ss: seq<Session>, stats: TradingStats)
    requires |ss| > 0 && 100 * Count(ss, IsQuick) == 60 * |ss|
    ensures forall j :: 0 <= j < |Detect(ss, stats)| ==> Detect(ss, stats)[j].name != QuickName
  {
    RuleThresholds(ss, stats);
    DetectFired(ss, stats, 0);
  }

  /** "Quick in/out" and "Hold a bit longer" never both fire: their duration
      ranges are disjoint, so their shares add up to at most 100%. */
  lemma QuickHoldExclusive(ss: seq<Session>)
    requires |ss| > 0
    ensures !(QuickRule(ss).Some? && HoldRule(ss).Some?)
  {
    CountDisjoint(ss, IsQuick, IsLonger);
    RuleThresholds(ss, NoStats);
  }

  /** "Similar sizing" needs more than one session and some non-zero size. */
  lemma SimilarNeedsSizes(ss: seq<Session>)
    requires SimilarRule(ss).Some?
    ensures |ss| > 1
    ensures exists i :: 0 <= i < |ss| && ss[i].positionSizeUsd != 0.0
  {
    var sizes := Sizes(ss);
    if forall i :: 0 <= i < |ss| ==> ss[i].positionSizeUsd == 0.0 {
      SumBetween(sizes, 0.0, 0.0);
    }
  }

  lemma MulNonNegative(a: real, b: real)
    requires 0.0 <= a && 0.0 <= b
    ensures 0.0 <= a * b
  {
  }

  lemma MulPositive(a: real, b: real)
    requires 0.0 < a && 0.0 < b
    ensures 0.0 < a * b
  {
  }

  /** Squaring is strictly monotone on the non-negative reals. */
  lemma SquareLess(r: real, h: real)
    requires 0.0 <= r < h
    ensures r * r < h * h
  {
    MulPositive(h - r, h + r);
    assert (h - r) * (h + r) == h * h - r * r;
  }

  lemma SquareAtLeast(r: real, h: real)
    requires 0.0 <= h <= r
    ensures h * h <= r * r
  {
    MulNonNegative(r - h, r + h);
    assert (r - h) * (r + h) == r * r - h * h;
  }

  /** Comparing the square root `r` of the variance `v` with half the mean `m`
      is the same as the root-free test in `LowSpread`. */
  lemma SqrtComparison(v: real, r: real, m: real)
    requires r >= 0.0 && r * r == v
    ensures r < m * 0.5 <==> (m > 0.0 && v < (m * 0.5) * (m * 0.5))
  {
    var h := m * 0.5;
    if r < h {
      SquareLess(r, h);
    } else if h > 0.0 {
      SquareAtLeast(r, h);
    }
  }

  /** The first top market has at least as many sessions as any market traded. */
  lemma FirstTopMostFrequent(ss: seq<Session>)
    requires |ss| > 0
    ensures |TopMarkets(ss)| > 0
    ensures exists j :: 0 <= j < |ss| && ss[j].market == TopMarkets(ss)[0]
    ensures forall j :: 0 <= j < |ss| ==> multiset(Markets(ss))[ss[j].market] <= multiset(Markets(ss))[TopMarkets(ss)[0]]
  {
    var top, ms := TopMarkets(ss), Markets(ss);
    TopMarketsSpec(ss);
    FirstSeenSpec(ms);
    assert ms[0] in ms;
    forall j | 0 <= j < |ss| ensures multiset(Markets(ss))[ss[j].market] <= multiset(ms)[top[0]] {
      var m := ss[j].market;
      assert ms[j] == m;
      if m !in top {
        TopExcluded(ms, 3, m, top[0]);
      } else if m != top[0] {
        var a :| 0 <= a < |top| && top[a] == m;
      }
    }
  }

  /** With the statistics of the same sessions, "Focused market" fires exactly
      when some market holds more than 60% of the sessions. */
  lemma FocusedIsDominant(ss: seq<Session>, hourOf: int -> Hour)
    requires |ss| > 0
    ensures FocusedRule(ss, StatsOf(ss, hourOf).topMarkets).Some? <==>
              exists j :: 0 <= j < |ss| && 100 * multiset(Markets(ss))[ss[j].market] > 60 * |ss|
  {
    var stats := StatsOf(ss, hourOf);
    RuleThresholds(ss, stats);
    FirstTopMostFrequent(ss);
  }
}
