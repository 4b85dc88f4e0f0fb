# Trading profile pipeline: sessions, statistics, strategies

A Dafny model of the analysis core of a Hyperliquid trading-profile service
(`src/lib/stats.ts`). A trader's fills (executed trade legs) go through three
stages in order:

1. **`groupSessions`** sorts the fills by time and clusters them, per market,
   into sessions: a fill joins a session of its market whose last fill is at
   most 45 minutes earlier; otherwise it opens a new session. Each session
   keeps its size (sum of absolute notionals), its realised pnl, its duration
   and a "sticky" leverage. The sessions come out ordered by start time.
2. **`computeStats`** reduces the sessions to summary figures. These are:
   - the top three markets by session count;
   - the median position size and the median known leverage;
   - the average hold time and the win rate;
   - the three busiest start hours, as labels such as `9–10h`.
3. **`detectStrategies`** applies six threshold rules: Quick in/out, Hold a
   bit longer, Focused market, Similar sizing, High leverage and Diversified.
   They emit style labels in a fixed order.

The model also covers the choice of clauses made by **`buildProfileText`**.

Files:

- `types.dfy` holds the records (`Fill`, `Session`, `TradingStats`, `Strategy`).
- `sorting.dfy` holds the stable sort that `Array.prototype.sort` performs.
- `sessions.dfy` holds the grouping pass. It is an imperative `GroupSessions` method with the source's two nested loops, proved equal to the reference function `Grouped`.
- `tallies.dfy` holds the insertion-ordered counting map and its ranking. `CountKeys` is the `forEach` loop.
- `stats.dfy` holds `ComputeStats`, proved equal to the function `StatsOf`.
- `strategies.dfy` holds `Detect`.
- `profile.dfy` holds the profile clauses.
- `pipeline.dfy` runs the three stages on a three-fill history and states what comes out.

How the model differs in form from the source:

- Timestamps are epoch milliseconds (`int`).
- Amounts and durations are `real`.
- The hour of day a session starts in is a parameter `hourOf`. It is a function into 0..23 that stands for the local-time `getHours()`.
- `groupSessions` keeps a `Map` from `${market}_${time}` to a session object that it mutates in place. The model keeps the map as its key list and its session list, both in insertion order. An in-place update is the replacement of that entry. Nothing else refers to the session objects, so no aliasing is lost.

## Model

| member | source | states |
|---|---|---|
| Sessions.GroupSessions | src/lib/stats.ts:3-71 | The grouping pass (sort, scan the map for each fill, extend or open, then sort by start) returns exactly `Grouped(fills)`. |
| Sessions.FindSession | src/lib/stats.ts:20-33 | The inner scan returns the first session in insertion order whose market is the fill's and which ended at most 45 minutes before it, or none. |
| Sessions.AddFill | src/lib/stats.ts:35-62 | One iteration updates the joined session field by field or appends a new session under a fresh key; the table after it is `Step(table, fill)` and the keys stay those of the sessions. |
| Sessions.KeyIsFresh | src/lib/stats.ts:60-61 | When no session takes the fill, the key `(market, time)` of the new session is not yet in the map, so `Map.set` always adds an entry and never overwrites one. |
| Sessions.FirstJoin | src/lib/stats.ts:22-31 | The index found is a session the fill joins, and no earlier session is joinable; no index means no session is joinable. |
| Sessions.SizeSum | src/lib/stats.ts:40 | The position size of a session, the sum of the absolute notionals, is never negative. |
| Sessions.OpenSummarize | src/lib/stats.ts:49-58 | A new session equals the summary of its single fill: start = end = the fill's time, duration 0, size the absolute notional, pnl the fill's pnl or 0, the fill's leverage. |
| Sessions.ExtendSummarize | src/lib/stats.ts:37-46 | Updating a session in place with a fill gives the summary of its fills with that fill appended (end, duration, size, pnl, leverage). |
| Sessions.WellFormedSpan | src/lib/stats.ts:37-38 | A well-formed session starts no later than it ends, and all its fills lie between its start and end. |
| Sessions.JoinOnlyLatest | src/lib/stats.ts:20-33 | Sessions of one market are separated by more than the gap. So a session that the current fill joins is the last one of that market. |
| Sessions.StepInv | src/lib/stats.ts:16-62 | One step keeps the table invariant (well-formed sessions, start order, same-market separation) and adds exactly the fill to the table's fills. |
| Sessions.ExtendWellFormed | src/lib/stats.ts:37-46 | Extending a well-formed session with a joining, later fill keeps it well formed. |
| Sessions.BuildInv | src/lib/stats.ts:16-62 | Folding time-ordered fills yields a table satisfying the invariant whose fills are exactly the input fills. |
| Sessions.GroupedTable | src/lib/stats.ts:3-71 | The returned sessions satisfy the invariant and hold exactly the input fills. The final sort by start time leaves the table's insertion order unchanged. |
| Sessions.GroupedPartition | src/lib/stats.ts:16-62 | Every input fill ends up in exactly one session: the sessions' fills are the input as a multiset, and their counts sum to the input length. |
| Sessions.GroupedSessionsWellFormed | src/lib/stats.ts:16-62 | Each session's fills are all in its market, in time order, with no gap over 45 minutes. Its start and end are its first and last fills' times. Its duration, size, pnl and sticky leverage are those of its fills. Start ≤ end, duration ≥ 0 and size ≥ 0. |
| Sessions.GroupedOrdered | src/lib/stats.ts:3-71 | No sessions exactly when there are no fills; the sessions are in non-decreasing start order. |
| Sessions.GroupedSeparated | src/lib/stats.ts:20-33 | Sessions are maximal: two sessions of one market are more than 45 minutes apart. |
| Sessions.StepJoinsLatest | src/lib/stats.ts:20-61 | On time-ordered input, scanning every session behaves as looking up the market's latest session and joining it when within the gap, otherwise opening a new one. |
| Sessions.LatestOf | src/lib/stats.ts:20-33 | The latest session of a market has that market; none means no session of it exists. |
| Sessions.GroupedPair | src/lib/stats.ts:3-71 | Two time-ordered fills group as the new session of the first, stepped with the second, sorted by start. |
| Sessions.GapBoundaryJoins | src/lib/stats.ts:25-27 | Two same-market fills exactly 45 minutes apart form one session holding both. |
| Sessions.GapBoundarySplits | src/lib/stats.ts:25-61 | Two same-market fills 45 minutes and one second apart form two single-fill sessions. |
| Sessions.StickyLeverageIsLatestKnown | src/lib/stats.ts:43-56 | A session's leverage is that of its first fill or of the last later fill with a positive leverage, and no fill after that one has a positive leverage. |
| Sessions.StickyLeverageNeverErased | src/lib/stats.ts:43-46 | Once a session's leverage is positive, no appended fill makes it absent or zero. |
| Sessions.UnknownLeverageKeeps | src/lib/stats.ts:43-46 | An appended fill without a positive leverage leaves the session's leverage unchanged, whether or not it was known. |
| Sessions.GroupedIgnoresOrder | src/lib/stats.ts:3-71 | When no two fills share a timestamp, any reordering of the fills gives the same sessions: the time sort fixes the order before grouping. |
| Sessions.SameTimeJoins | src/lib/stats.ts:20-46 | Two same-market fills at one instant form one session: the first opens it and the second extends it. |
| Sessions.SameTimeLeverage | src/lib/stats.ts:43-46 | For two same-market fills at one instant, the session's leverage is the second fill's when that one is known, else the first fill's. |
| Sessions.TieOrderDecidesLeverage | src/lib/stats.ts:9-46 | Two same-market fills at one instant, with leverages 3 and 10, give a 10x session in one input order and a 3x session in the other. |
| Sessions.SizeSumExample | src/lib/stats.ts:40 | Notionals 100, −50 and 25 give position size 175 (absolute values). |
| Sorting.SortBy | src/lib/stats.ts:9 | The sort by time is a permutation of its input in non-decreasing key order. |
| Sorting.SortByStable | src/lib/stats.ts:9 | The sort is stable: elements with equal keys keep their input order. |
| Sorting.SortByUnique | src/lib/stats.ts:9 | When the key tells all elements apart, sorting two reorderings of one multiset gives the same sequence. |
| Sorting.SortByOfSorted | src/lib/stats.ts:70 | Sorting an already ordered sequence returns it unchanged. |
| Tallies.CountKeys | src/lib/stats.ts:88-91 | The `forEach` loop over the counting map builds exactly `Tally(xs)`. |
| Tallies.TallySpec | src/lib/stats.ts:88-91 | The map lists each distinct element once, in first-appearance order, with its number of occurrences. |
| Tallies.PutSpec | src/lib/stats.ts:90 | `Map.set` on distinct keys replaces the entry of an existing key in place, or appends a new key last. |
| Tallies.Get | src/lib/stats.ts:90 | Reading a count with a default of 0 gives the value stored under `x`, or 0 when `x` is not a key. |
| Tallies.FirstSeenSpec | src/lib/stats.ts:210 | The distinct elements in first-seen order are distinct and are exactly the elements of the input. |
| Tallies.FirstSeenOrder | src/lib/stats.ts:95-96 | An element listed earlier among the distinct elements first occurs earlier in the input. |
| Tallies.RankedSpec | src/lib/stats.ts:95-96 | The entries sorted by descending count are a reordering of the map with distinct keys, each carrying its count, in non-increasing count order. |
| Tallies.TopSpec | src/lib/stats.ts:95-98 | The top `k` are `min(k, #distinct)` distinct input elements in non-increasing count order. |
| Tallies.TopExcluded | src/lib/stats.ts:95-98 | No element left out of the top `k` occurs more often than any element kept. |
| Tallies.TopTies | src/lib/stats.ts:128-135 | The elements with any one count come out of the ranking in the order of the counting map's keys, which is their order of first appearance. |
| Stats.ComputeStats | src/lib/stats.ts:73-147 | The statistics computed with the two counting loops equal `StatsOf(sessions)`; for no sessions they are all zero and empty. |
| Stats.StatsOfGrouped | src/lib/stats.ts:73-147 | For no fills the statistics are zero and empty. Otherwise average hold ≥ 0, median size ≥ 0, win rate in [0,1], and 1 to 3 top markets and time windows. |
| Stats.WinRateSpec | src/lib/stats.ts:123-125 | The win rate is in [0,1]. It is 0 exactly when no session has positive pnl, and 1 (with sessions) exactly when all have. |
| Stats.CountExtremes | src/lib/stats.ts:124 | A filter count is 0 exactly when no session passes, and the full length exactly when all pass. |
| Stats.MedianLeverageSpec | src/lib/stats.ts:108-118 | Only positive leverages count. The median is positive exactly when some session has one, and 0 exactly when none does. When some session has one, the median lies between the positive leverages of two sessions: at least one such session's leverage is at most the median, and one is at least it. |
| Stats.KnownLeverages | src/lib/stats.ts:109-111 | The filtered leverages are all positive, and the list is empty exactly when no session has a positive leverage. |
| Stats.KnownLeveragesSpec | src/lib/stats.ts:109-111 | The filtered list holds exactly the sessions' positive leverages: every entry is the leverage of some session with a positive one, and every such session's leverage is in the list. |
| Stats.MedianSizeSpec | src/lib/stats.ts:102-106 | The median position size lies between the smallest and the largest session size. |
| Stats.MedianBetween | src/lib/stats.ts:103-106 | A median lies between two elements of its input. |
| Stats.MedianOfPermutation | src/lib/stats.ts:103-106 | The median depends only on the multiset of values, not on their order. |
| Stats.MedianOfThree | src/lib/stats.ts:103-106 | Odd count: the middle value, e.g. 10, 20, 30 in any order gives 20. |
| Stats.MedianOfFour | src/lib/stats.ts:103-106 | Even count: the mean of the two middle values, e.g. 10, 20, 30, 40 gives 25. |
| Stats.AvgHoldSpec | src/lib/stats.ts:120-121 | The average hold lies between any lower and upper bound of the session durations. |
| Stats.AvgHoldNonNegative | src/lib/stats.ts:120-121 | With durations never negative, the average hold is never negative. |
| Stats.MeanBetween | src/lib/stats.ts:121 | A mean lies between any lower and upper bound of the values. |
| Stats.TopMarketsSpec | src/lib/stats.ts:87-98 | At most three distinct traded markets, `min(3, #markets)` of them, in non-increasing session-count order. |
| Stats.TimeWindowsSpec | src/lib/stats.ts:127-137 | `min(3, #distinct hours)` labels, each the label of some session's start hour. The labelled hours are distinct and come in non-increasing order of their session counts. |
| Stats.WindowLabelExamples | src/lib/stats.ts:137 | Hours 9 and 23 are labelled `9–10h` and `23–24h`. |
| Strategies.DetectOrder | src/lib/stats.ts:149-219 | Strategies come out in the fixed rule order, each at most once, and nothing but the six rules' names. |
| Strategies.DetectFired | src/lib/stats.ts:149-219 | A rule's strategy is in the result exactly when that rule fired. |
| Strategies.CollectFrom | src/lib/stats.ts:150-218 | Each pushed strategy comes from the rule slot its rank names. |
| Strategies.CollectOrder | src/lib/stats.ts:150-218 | Pushing the rules' results in turn keeps rule order. |
| Strategies.CollectHas | src/lib/stats.ts:150-218 | Every rule that fired is pushed. |
| Strategies.RuleThresholds | src/lib/stats.ts:152-216 | Each rule fires exactly when its strict threshold holds. Quick (< 20 min), Longer (20–240 min) and Focused need more than 60% of sessions. Similar sizing needs more than one session and a spread of sizes below half their mean (`LowSpread`). High leverage needs more than 50% of sessions above 5x. Diversified needs at least 5 markets and 10 sessions. |
| Strategies.ShareAbove | src/lib/stats.ts:153-155 | A percentage share is above `t` exactly when `100·k > t·n`. |
| Strategies.QuickBoundary | src/lib/stats.ts:152-160 | Exactly 60% quick sessions does not yield "Quick in/out". |
| Strategies.QuickHoldExclusive | src/lib/stats.ts:152-170 | "Quick in/out" and "Hold a bit longer" never both fire. |
| Strategies.SimilarNeedsSizes | src/lib/stats.ts:184-197 | "Similar sizing" needs more than one session and some non-zero size. |
| Strategies.SqrtComparison | src/lib/stats.ts:187-191 | `sqrt(variance) < mean·0.5` holds exactly when `mean > 0` and `variance < (mean·0.5)²`, the root-free test the model uses. |
| Strategies.FirstTopMostFrequent | src/lib/stats.ts:95-98 | The first top market is traded, and no market has more sessions than it. |
| Strategies.FocusedIsDominant | src/lib/stats.ts:172-182 | With the statistics of the same sessions, "Focused market" fires exactly when some market holds more than 60% of the sessions. |
| Profile.MarketTextSpec | src/lib/stats.ts:224-226 | The market clause names the first top market, and the second one after " and " when there is one. It never names a third. Without top markets it reads "trades various markets". |
| Profile.ClausesWithSessions | src/lib/stats.ts:221-250 | For the statistics of some sessions, the profile names a market and an active hour. It mentions leverage exactly when some session's leverage is known, and a win rate exactly when some session made money. |
| Profile.ClausesWithoutSessions | src/lib/stats.ts:221-250 | For no sessions, every optional clause is dropped: "trades various markets with varying position sizes". |
| Pipeline.EndToEndExample | src/lib/stats.ts:3-219 | Two BTC fills ten minutes apart (the second with pnl 5) and an ETH fill two hours later at 10x give two sessions, BTC then ETH. The top markets are BTC then ETH, the median leverage is 10 and the win rate one half. "High leverage" does not fire, since one session in two above 5x is not more than 50%. |

## Left out

- Fetching, persistence, the language-model calls, the HTTP routes and the conversion of raw exchange fills into `Fill` records: these are I/O with no algorithmic content, and the model takes converted fills as input.
- The `id`, `user_id`, `hl_address`, `side`, `price` and `qty` fields of a fill: the core never reads them.
- Parsing ISO timestamps with `new Date(...).getTime()`: timestamps are integer milliseconds.
- `getHours()` and time zones: the start hour is the parameter `hourOf`.
- IEEE floating point: all arithmetic is on exact reals, so rounding, `NaN` and `Infinity` are not modelled. The one place `NaN` matters is `detectStrategies` on no sessions, where every share is `0/0` and no rule fires; `Detect` returns the empty list there.
- `Math.sqrt` in "Similar sizing": `LowSpread` compares the variance with `(mean·0.5)²` instead, and `Strategies.SqrtComparison` shows that the two tests agree for any non-negative root.
- The reason strings of strategies (`toFixed(0)`, text): a `Reason` carries the figure the text is built from.
- Number formatting in `buildProfileText` (`Math.round`, `${x}x`, the sentence's punctuation): `Profile.Clauses` records which clause is chosen and the figure it prints. Only the market clause is modelled as text.
- `new Set(...).size`: modelled as the length of the first-seen list of distinct markets.
- All `console.log` calls.
- Tie order of the time windows: ties between hours with equal counts follow the order in which the hours first appear, as the counting map's insertion order and the stable sort give. They do not follow ascending hour number. `Tallies.TopTies` proves this for the ranking of any counted list.
- Sessions.GroupedIgnoresOrder: requires distinct timestamps, because on a tie the stable time sort keeps the input order. The later of two same-instant fills then sets the sticky leverage, so grouping depends on the order the fills arrive in. `Sessions.TieOrderDecidesLeverage` exhibits such a pair.
