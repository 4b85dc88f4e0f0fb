/** The three stages run one after the other on a small trading history:
    two BTC fills ten minutes apart and an ETH fill two hours later at 10x
    leverage (src/lib/stats.ts:3-219). */
module Pipeline {
  import opened Types
  import opened Sorting
  import opened Tallies
  import opened Sessions
  import opened Stats
  import opened Strategies

  /** BTC at `t0` (1 at 100), BTC ten minutes later (1 at 105, pnl +5), ETH
      two hours after `t0` (2 at 50, leverage 10). */
  predicate ExampleFills(a: Fill, b: Fill, c: Fill, t0: int) {
    a == Fill("BTC", 100.0, None, None, t0) &&
    b == Fill("BTC", 105.0, None, Some(5.0), t0 + 10 * 60 * 1000) &&
    c == Fill("ETH", 100.0, Some(10.0), None, t0 + 2 * 60 * 60 * 1000)
  }

  /** The BTC fills merge, the ETH fill opens its own session. Two sessions
      come out: the top markets are BTC then ETH, the median leverage is 10
      and the win rate one half. One session of two is above 5x, which is
      not more than 50%, so "High leverage" is not among the strategies. */
  lemma EndToEndExample(a: Fill, b: Fill, c: Fill, t0: int, hourOf: int -> Hour)
    requires ExampleFills(a, b, c, t0)
    ensures var ss := Grouped([a, b, c]);
            |ss| == 2 && ss[0].fills == [a, b] && ss[1].fills == [c]
    ensures var stats := StatsOf(Grouped([a, b, c]), hourOf);
            stats.topMarkets == ["BTC", "ETH"] &&
            stats.medianLeverage == 10.0 &&
            stats.winRate == 0.5
    ensures var ss := Grouped([a, b, c]);
            forall j :: 0 <= j < |Detect(ss, StatsOf(ss, hourOf))| ==>
              Detect(ss, StatsOf(ss, hourOf))[j].name != HighLeverageName
  {
    var ss := Grouped([a, b, c]);
    ExampleGrouped(a, b, c, t0);
    ExampleSessions(ss, a, b, c, t0);
    assert StatsOf(ss, hourOf).topMarkets == ["BTC", "ETH"] by {
      ExampleStatsMarkets(ss, hourOf);
    }
    assert StatsOf(ss, hourOf).medianLeverage == 10.0 by {
      ExampleStatsLeverage(ss, hourOf);
    }
    assert StatsOf(ss, hourOf).winRate == 0.5 && Count(ss, UsesHighLeverage) == 1 by {
      ExampleStatsCounts(ss, hourOf);
    }
    NoHighLeverageAtHalf(ss, StatsOf(ss, hourOf));
  }

  lemma ExampleGrouped(a: Fill, b: Fill, c: Fill, t0: int)
    requires ExampleFills(a, b, c, t0)
    ensures Grouped([a, b, c]) == [Extend(Open(a), b), Open(c)]
  {
    var fs := [a, b, c];
    ExampleSorted(a, b, c, t0);
    assert fs[..2] == [a, b];
    assert Build(fs) == Step(Build([a, b]), c);
    BuildPair(a, b);
    StepJoins(a, b);
    ExampleOpensEth(Extend(Open(a), b), c);
    ExampleSessionsSorted(Extend(Open(a), b), Open(c));
  }

  lemma ExampleSorted(a: Fill, b: Fill, c: Fill, t0: int)
    requires ExampleFills(a, b, c, t0)
    ensures SortBy([a, b, c], FillTime) == [a, b, c]
  {
    var fs := [a, b, c];
    forall i, j | 0 <= i < j < 3 ensures FillTime(fs[i]) <= FillTime(fs[j]) {}
    SortByOfSorted(fs, FillTime);
  }

  lemma ExampleOpensEth(s: Session, c: Fill)
    requires s.market == "BTC" && c.market == "ETH"
    ensures Step([s], c) == [s, Open(c)]
  {
    assert !Joins(s, c);
  }

  lemma ExampleSessionsSorted(s1: Session, s2: Session)
    requires s1.startTs <= s2.startTs
    ensures SortBy([s1, s2], StartTime) == [s1, s2]
  {
    assert SortedBy([s1, s2], StartTime);
    SortByOfSorted([s1, s2], StartTime);
  }

  /** The two sessions: the merged BTC one without a known leverage and with
      pnl 5, the ETH one at 10x with pnl 0. */
  lemma ExampleSessions(ss: seq<Session>, a: Fill, b: Fill, c: Fill, t0: int)
    requires ExampleFills(a, b, c, t0) && ss == [Extend(Open(a), b), Open(c)]
    ensures |ss| == 2 && ss[0].fills == [a, b] && ss[1].fills == [c]
    ensures ss[0].market == "BTC" && ss[1].market == "ETH"
    ensures ss[0].leverage == None && ss[1].leverage == Some(10.0)
    ensures ss[0].pnlUsd == 5.0 && ss[1].pnlUsd == 0.0
  {
  }

  lemma ExampleStatsMarkets(ss: seq<Session>, hourOf: int -> Hour)
    requires |ss| == 2 && ss[0].market == "BTC" && ss[1].market == "ETH"
    requires ss[0].leverage == None && ss[1].leverage == Some(10.0)
    requires ss[0].pnlUsd == 5.0 && ss[1].pnlUsd == 0.0
    ensures StatsOf(ss, hourOf).topMarkets == ["BTC", "ETH"]
  {
    ExampleTopMarkets(ss);
  }

  lemma ExampleStatsLeverage(ss: seq<Session>, hourOf: int -> Hour)
    requires |ss| == 2 && ss[0].market == "BTC" && ss[1].market == "ETH"
    requires ss[0].leverage == None && ss[1].leverage == Some(10.0)
    requires ss[0].pnlUsd == 5.0 && ss[1].pnlUsd == 0.0
    ensures StatsOf(ss, hourOf).medianLeverage == 10.0
  {
    ExampleMedianLeverage(ss);
  }

  lemma ExampleStatsCounts(ss: seq<Session>, hourOf: int -> Hour)
    requires |ss| == 2 && ss[0].market == "BTC" && ss[1].market == "ETH"
    requires ss[0].leverage == None && ss[1].leverage == Some(10.0)
    requires ss[0].pnlUsd == 5.0 && ss[1].pnlUsd == 0.0
    ensures StatsOf(ss, hourOf).winRate == 0.5 && Count(ss, UsesHighLeverage) == 1
  {
    ExampleCounts(ss);
  }

  lemma ExampleTopMarkets(ss: seq<Session>)
    requires |ss| == 2 && ss[0].market == "BTC" && ss[1].market == "ETH"
    ensures TopMarkets(ss) == ["BTC", "ETH"]
  {
    assert Markets(ss) == ["BTC", "ETH"];
    ExampleTop();
  }

  lemma ExampleMedianLeverage(ss: seq<Session>)
    requires |ss| == 2 && ss[0].leverage == None && ss[1].leverage == Some(10.0)
    ensures MedianLeverage(ss) == 10.0
  {
    ExampleKnownLeverages(ss);
    assert SortBy([10.0], Id) == [10.0];
  }

  lemma ExampleCounts(ss: seq<Session>)
    requires |ss| == 2 && ss[0].leverage == None && ss[1].leverage == Some(10.0)
    requires ss[0].pnlUsd == 5.0 && ss[1].pnlUsd == 0.0
    ensures Count(ss, IsWin) == 1 && Count(ss, UsesHighLeverage) == 1
  {
    assert ss[..1] == [ss[0]];
  }

  /** Two markets with one session each rank in the order they appear. */
  lemma ExampleTop()
    ensures Top(["BTC", "ETH"], 3) == ["BTC", "ETH"]
  {
    TopOfTwo("BTC", "ETH");
  }

  lemma TopOfTwo<K>(x: K, y: K)
    requires x != y
    ensures Top([x, y], 3) == [x, y]
  {
    var t := [(x, 1), (y, 1)];
    TallyOfTwo(x, y);
    assert SortBy(t, NegCount) == t by {
      EqualCountsInOrder(x, y);
    }
    assert t[..2] == t;
    assert Keys(t) == [x, y];
  }

  lemma EqualCountsInOrder<K>(x: K, y: K)
    ensures SortBy([(x, 1), (y, 1)], NegCount) == [(x, 1), (y, 1)]
  {
    var t: seq<(K, nat)> := [(x, 1), (y, 1)];
    assert SortedBy(t, NegCount);
    SortByOfSorted(t, NegCount);
  }

  lemma TallyOfTwo<K>(x: K, y: K)
    requires x != y
    ensures Tally([x, y]) == [(x, 1), (y, 1)]
  {
    var t1 := [(x, 1)];
    assert [x, y][..1] == [x];
    assert Tally([x]) == t1 by {
      assert [x][..0] == [];
    }
    assert Get(t1, y) == 0 by { KeysCons(t1); }
    assert Put(t1, y, 1) == [(x, 1)] + Put([], y, 1);
  }

  lemma ExampleKnownLeverages(ss: seq<Session>)
    requires |ss| == 2 && ss[0].leverage == None && ss[1].leverage == Some(10.0)
    ensures KnownLeverages(ss) == [10.0]
  {
    assert ss[..1] == [ss[0]];
    assert KnownLeverages([ss[0]]) == [];
  }

  /** Exactly half the sessions above 5x is not more than half: "High
      leverage" stays out of the strategies. */
  lemma NoHighLeverageAtHalf(ss: seq<Session>, stats: TradingStats)
    requires |ss| == 2 && Count(ss, UsesHighLeverage) == 1
    ensures forall j :: 0 <= j < |Detect(ss, stats)| ==> Detect(ss, stats)[j].name != HighLeverageName
  {
    RuleThresholds(ss, stats);
    DetectFired(ss, stats, 4);
  }
}
