/** `buildProfileText` (src/lib/stats.ts:221-250): the one-sentence trading
    profile. The model keeps which clause the sentence uses for each figure
    and the text of the market clause; the rounding and printing of numbers
    are not modelled, so a numeric clause carries the figure it prints. */
module Profile {
  import opened Types
  import opened Stats
  import Tallies
  import Sessions

  /** The size clause: a typical size, or "with varying position sizes". */
  datatype SizeClause = TypicalSize(usd: real) | VaryingSizes

  /** The clauses of the sentence, in the order it prints them. */
  datatype ProfileClauses = ProfileClauses(
    marketText: string,
    size: SizeClause,
    leverage: Option<real>,   // ", leverage around …x"
    avgHold: Option<real>,    // ", keeps trades short (avg …m)"
    activeFrom: Option<string>, // ", most active from …"
    winRate: Option<real>)    // ". Win rate ~…%"

  /** `Array.prototype.join`. */
  function Join(xs: seq<string>, sep: string): string
    decreases |xs|
  {
    if xs == [] then ""
    else if |xs| == 1 then xs[0]
    else Join(xs[..|xs| - 1], sep) + sep + xs[|xs| - 1]
  }

  /** The market clause names the first two top markets. */
  function MarketText(topMarkets: seq<string>): string {
    if |topMarkets| > 0 then
      "mostly trades " + Join(topMarkets[..if |topMarkets| < 2 then |topMarkets| else 2], " and ")
    else "trades various markets"
  }

  function PositiveOr(x: real): Option<real> {
    if x > 0.0 then Some(x) else None
  }

  function Clauses(stats: TradingStats): ProfileClauses {
    ProfileClauses(
      MarketText(stats.topMarkets),
      if stats.medianPositionSizeUsd > 0.0 then TypicalSize(stats.medianPositionSizeUsd) else VaryingSizes,
      PositiveOr(stats.medianLeverage),
      PositiveOr(stats.avgHoldMinutes),
      if |stats.timeWindows| > 0 then Some(stats.timeWindows[0]) else None,
      PositiveOr(stats.winRate))
  }

  /** The market clause names the top market, and the second one after " and "
      when there is one; a third top market is never named. */
  lemma MarketTextSpec(top: seq<string>)
    ensures |top| == 0 ==> MarketText(top) == "trades various markets"
    ensures |top| == 1 ==> MarketText(top) == "mostly trades " + top[0]
    ensures |top| >= 2 ==> MarketText(top) == "mostly trades " + top[0] + " and " + top[1]
  {
    if |top| >= 2 {
      var two := top[..2];
      assert two[..1] == [top[0]];
      assert Join(two, " and ") == Join([top[0]], " and ") + " and " + top[1];
    } else if |top| == 1 {
      assert top[..1] == top;
    }
  }

  /** With no sessions every optional clause is dropped and the sentence is
      the generic one. */
  lemma ClausesWithoutSessions(hourOf: int -> Hour)
    ensures Clauses(StatsOf([], hourOf)) ==
              ProfileClauses("trades various markets", VaryingSizes, None, None, None, None)
  {
  }

  /** With sessions the sentence always names a market and an active hour; it
      mentions leverage exactly when some session's leverage is known, and a
      win rate exactly when some session made money. */
  lemma ClausesWithSessions(ss: seq<Session>, hourOf: int -> Hour)
    requires |ss| > 0
    ensures var c := Clauses(StatsOf(ss, hourOf));
            |c.marketText| >= 14 && c.marketText[..14] == "mostly trades " &&
            c.activeFrom.Some? &&
            (c.leverage.Some? <==> exists i :: 0 <= i < |ss| && Sessions.KnownLeverage(ss[i].leverage)) &&
            (c.winRate.Some? <==> exists i :: 0 <= i < |ss| && ss[i].pnlUsd > 0.0)
  {
    var stats := StatsOf(ss, hourOf);
    assert |stats.topMarkets| > 0 by {
      TopMarketsSpec(ss);
      Tallies.FirstSeenSpec(Markets(ss));
      assert Markets(ss)[0] in Markets(ss);
    }
    assert |stats.timeWindows| > 0 by {
      StartHoursHaveWindow(ss, hourOf);
    }
    MarketTextSpec(stats.topMarkets);
    MedianLeverageSpec(ss);
    WinRateSpec(ss);
  }

  lemma StartHoursHaveWindow(ss: seq<Session>, hourOf: int -> Hour)
    requires |ss| > 0
    ensures |TimeWindows(ss, hourOf)| > 0
  {
    TimeWindowsSpec(ss, hourOf);
    Tallies.FirstSeenSpec(StartHours(ss, hourOf));
    assert StartHours(ss, hourOf)[0] in StartHours(ss, hourOf);
  }
}
