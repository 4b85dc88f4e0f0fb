/** The data shapes exchanged by the grouping, statistics and strategy stages
    (src/types/index.ts). Timestamps are epoch milliseconds, money and
    durations are reals; an optional number of the source is an `Option`. */
module Types {

  datatype Option<+T> = None | Some(value: T)

  /** One executed trade leg, with the fields the core reads. */
  datatype Fill = Fill(
    market: string,
    notionalUsd: real,
    leverage: Option<real>,   // absent or 0 means "unknown"
    pnlUsd: Option<real>,     // absent counts as 0
    ts: int)

  /** A burst of trading in one market. */
  datatype Session = Session(
    market: string,
    startTs: int,
    endTs: int,
    durationMin: real,
    positionSizeUsd: real,
    pnlUsd: real,
    leverage: Option<real>,
    fills: seq<Fill>)

  datatype TradingStats = TradingStats(
    topMarkets: seq<string>,
    medianPositionSizeUsd: real,
    medianLeverage: real,
    avgHoldMinutes: real,
    winRate: real,
    timeWindows: seq<string>)

  /** The figure a strategy's reason text is built from (the text itself is
      number formatting and is not modelled). */
  datatype Reason =
    | SessionShare(percent: real)
    | MarketShare(percent: real, market: string)
    | LowSizeVariance
    | MarketCount(markets: nat)

  datatype Strategy = Strategy(name: string, reason: Reason)

  /** Hour of the day, as a local-time clock reading gives it. */
  type Hour = h: int | 0 <= h < 24
}
