/** Grouping of fills into trading sessions (src/lib/stats.ts, groupSessions).

    The source keeps an insertion-ordered map from a key `${market}_${time}`
    to a mutable session record. Here the map is two parallel sequences (its
    keys and its session records, in insertion order) and the in-place update
    of a record is the replacement of its entry. */
module Sessions {
  import opened Types
  import opened Sorting

  /** The inactivity gap: a fill at most 45 minutes after a session's last
      fill joins it (in milliseconds). */
  const GapMs: int := 45 * 60 * 1000

  const MsPerMinute: real := 60000.0

  function Abs(x: real): real {
    if x < 0.0 then -x else x
  }

  /** The fill's realised pnl, a missing one counting as zero (src/lib/stats.ts:41, 55). */
  function PnlOrZero(f: Fill): real {
    if f.pnlUsd.Some? then f.pnlUsd.value else 0.0
  }

  /** A leverage counts as known when present and positive (src/lib/stats.ts:44). */
  predicate KnownLeverage(l: Option<real>) {
    l.Some? && l.value > 0.0
  }

  function Minutes(ms: int): real {
    ms as real / MsPerMinute
  }

  /** The sort key of a fill, and of a session. */
  function FillTime(f: Fill): real {
    f.ts as real
  }

  function StartTime(s: Session): real {
    s.startTs as real
  }

  // ---------------------------------------------------------------------
  // A session as a function of its fills (the reference definition that the
  // incremental updates of the grouping pass are proved against)
  // ---------------------------------------------------------------------

  function Last(fs: seq<Fill>): Fill
    requires |fs| > 0
  {
    fs[|fs| - 1]
  }

  /** Sum of the absolute notionals: never negative. */
  function SizeSum(fs: seq<Fill>): (r: real)
    ensures r >= 0.0
    decreases |fs|
  {
    if fs == [] then 0.0 else SizeSum(fs[..|fs| - 1]) + Abs(Last(fs).notionalUsd)
  }

  /** Signed sum of the realised pnl, a missing value counting as zero. */
  function PnlSum(fs: seq<Fill>): real
    decreases |fs|
  {
    if fs == [] then 0.0 else PnlSum(fs[..|fs| - 1]) + PnlOrZero(Last(fs))
  }

  /** The first fill's leverage, overwritten by every later known (positive) one. */
  function StickyLeverage(fs: seq<Fill>): Option<real>
    requires |fs| > 0
    decreases |fs|
  {
    if |fs| == 1 then fs[0].leverage
    else if KnownLeverage(Last(fs).leverage) then Last(fs).leverage
    else StickyLeverage(fs[..|fs| - 1])
  }

  function Summarize(fs: seq<Fill>): Session
    requires |fs| > 0
  {
    Session(fs[0].market, fs[0].ts, Last(fs).ts, Minutes(Last(fs).ts - fs[0].ts),
            SizeSum(fs), PnlSum(fs), StickyLeverage(fs), fs)
  }

  ghost predicate Chronological(fs: seq<Fill>) {
    forall i, j :: 0 <= i < j < |fs| ==> fs[i].ts <= fs[j].ts
  }

  ghost predicate InMarket(fs: seq<Fill>, m: string) {
    forall i :: 0 <= i < |fs| ==> fs[i].market == m
  }

  /** No two consecutive fills are further apart than the gap. */
  ghost predicate Contiguous(fs: seq<Fill>) {
    forall i :: 0 < i < |fs| ==> fs[i].ts - fs[i - 1].ts <= GapMs
  }

  /** A session whose recorded aggregates are those of its fills, which are
      all in its market, in time order and without an inner gap. */
  ghost predicate WellFormed(s: Session) {
    |s.fills| > 0 && s == Summarize(s.fills)
    && InMarket(s.fills, s.market) && Chronological(s.fills) && Contiguous(s.fills)
  }

  // ---------------------------------------------------------------------
  // One step of the grouping pass, as the source writes it
  // ---------------------------------------------------------------------

  /** A new session holding only `f` (lines 49-58). */
  function Open(f: Fill): Session {
    Session(f.market, f.ts, f.ts, 0.0, Abs(f.notionalUsd), PnlOrZero(f), f.leverage, [f])
  }

  /** `f` appended to `s` (lines 37-46). */
  function Extend(s: Session, f: Fill): Session {
    s.(fills := s.fills + [f],
       endTs := f.ts,
       durationMin := Minutes(f.ts - s.startTs),
       positionSizeUsd := s.positionSizeUsd + Abs(f.notionalUsd),
       pnlUsd := s.pnlUsd + PnlOrZero(f),
       leverage := if KnownLeverage(f.leverage) then f.leverage else s.leverage)
  }

  /** Same market and at most 45 minutes after the session's end (lines 23-28). */
  predicate Joins(s: Session, f: Fill) {
    s.market == f.market && f.ts - s.endTs <= GapMs
  }

  /** The first session, in insertion order, that `f` joins. */
  function FirstJoin(t: seq<Session>, f: Fill): (r: Option<nat>)
    ensures r.Some? ==> r.value < |t| && Joins(t[r.value], f)
                        && forall j :: 0 <= j < r.value ==> !Joins(t[j], f)
    ensures r.None? ==> forall j :: 0 <= j < |t| ==> !Joins(t[j], f)
    decreases |t|
  {
    if t == [] then None
    else if Joins(t[0], f) then Some(0)
    else match FirstJoin(t[1..], f)
      case None => None
      case Some(i) => Some(i + 1)
  }

  function Step(t: seq<Session>, f: Fill): seq<Session> {
    match FirstJoin(t, f)
    case Some(i) => t[i := Extend(t[i], f)]
    case None => t + [Open(f)]
  }

  /** The session table after processing `fs` in order. */
  function Build(fs: seq<Fill>): seq<Session>
    decreases |fs|
  {
    if fs == [] then [] else Step(Build(fs[..|fs| - 1]), Last(fs))
  }

  /** What groupSessions returns: fills stably sorted by time, grouped, and
      the sessions stably sorted by start time. */
  function Grouped(fills: seq<Fill>): seq<Session> {
    if |fills| == 0 then []
    else SortBy(Build(SortBy(fills, FillTime)), StartTime)
  }

  /** The scan of lines 21-33: the sessions in insertion order, stopping at
      the first one in the fill's market that ended at most 45 minutes before it. */
  method FindSession(table: seq<Session>, fill: Fill) returns (found: Option<nat>)
    ensures found == FirstJoin(table, fill)
  {
    found := None;
    var i := 0;
    while i < |table|
      invariant 0 <= i <= |table|
      invariant forall j :: 0 <= j < i ==> !Joins(table[j], fill)
    {
      if table[i].market == fill.market && fill.ts - table[i].endTs <= GapMs {
        found := Some(i);
        break;
      }
      i := i + 1;
    }
  }

  /** The map's keys, `${market}_${fillTime}` with the time of the session's
      first fill, as (market, time) pairs in insertion order. */
  ghost predicate KeysOf(t: seq<Session>, keys: seq<(string, int)>) {
    |keys| == |t| && forall i :: 0 <= i < |t| ==> keys[i] == (t[i].market, t[i].startTs)
  }

  /** One iteration of the loop of lines 16-63: the fill joins the session the
      scan finds (updated field by field), or opens a new session under its key. */
  method AddFill(table: seq<Session>, keys: seq<(string, int)>, fill: Fill)
    returns (table': seq<Session>, keys': seq<(string, int)>)
    requires TableInv(table, fill.ts) && KeysOf(table, keys)
    ensures table' == Step(table, fill)
    ensures KeysOf(table', keys')
  {
    var found := FindSession(table, fill);
    if found.Some? {
      var k := found.value;
      var s := table[k];
      s := s.(fills := s.fills + [fill]);
      s := s.(endTs := fill.ts);
      s := s.(durationMin := Minutes(fill.ts - s.startTs));
      s := s.(positionSizeUsd := s.positionSizeUsd + Abs(fill.notionalUsd));
      s := s.(pnlUsd := s.pnlUsd + PnlOrZero(fill));
      if KnownLeverage(fill.leverage) {
        s := s.(leverage := fill.leverage);
      }
      assert s == Extend(table[k], fill);
      StepFound(table, fill, k);
      table', keys' := table[k := s], keys;
    } else {
      var key := (fill.market, fill.ts);
      KeyIsFresh(table, keys, fill);
      table' := table + [Session(fill.market, fill.ts, fill.ts, 0.0, Abs(fill.notionalUsd),
                                 PnlOrZero(fill), fill.leverage, [fill])];
      keys' := keys + [key];
    }
  }

  lemma StepFound(t: seq<Session>, f: Fill, k: nat)
    requires FirstJoin(t, f) == Some(k)
    ensures Step(t, f) == t[k := Extend(t[k], f)]
  {
  }

  /** The grouping pass of lines 3-71. */
  method GroupSessions(fills: seq<Fill>) returns (sessions: seq<Session>)
    ensures sessions == Grouped(fills)
  {
    if |fills| == 0 {
      return [];
    }
    var sorted := SortBy(fills, FillTime);
    var keys: seq<(string, int)> := [];
    var table: seq<Session> := [];
    var n := 0;
    while n < |sorted|
      invariant 0 <= n <= |sorted|
      invariant table == Build(sorted[..n])
      invariant KeysOf(table, keys)
    {
      var fill := sorted[n];
      NextFill(sorted, n);
      table, keys := AddFill(table, keys, fill);
      n := n + 1;
    }
    assert sorted[..n] == sorted;
    sessions := SortBy(table, StartTime);
  }

  // ---------------------------------------------------------------------
  // Invariant of the session table
  // ---------------------------------------------------------------------

  /** Every session is well formed and ends no later than `now`; sessions are
      in start order; two sessions of one market are more than the gap apart. */
  ghost predicate TableInv(t: seq<Session>, now: int) {
    AllWellFormed(t, now) && StartOrdered(t) && Separated(t)
  }

  ghost predicate AllWellFormed(t: seq<Session>, now: int) {
    forall i :: 0 <= i < |t| ==> WellFormed(t[i]) && t[i].endTs <= now
  }

  ghost predicate StartOrdered(t: seq<Session>) {
    forall i, j :: 0 <= i < j < |t| ==> t[i].startTs <= t[j].startTs
  }

  /** Two sessions of one market are more than the gap apart. */
  ghost predicate Separated(t: seq<Session>) {
    forall i, j :: 0 <= i < j < |t| && t[i].market == t[j].market ==>
      t[j].startTs - t[i].endTs > GapMs
  }

  /** Every fill of every session, counted with multiplicity. */
  ghost function AllFills(t: seq<Session>): multiset<Fill>
    decreases |t|
  {
    if t == [] then multiset{} else AllFills(t[..|t| - 1]) + multiset(t[|t| - 1].fills)
  }

  function FillCount(t: seq<Session>): nat
    decreases |t|
  {
    if t == [] then 0 else FillCount(t[..|t| - 1]) + |t[|t| - 1].fills|
  }

  lemma {:induction false} WellFormedSpan(s: Session)
    requires WellFormed(s)
    ensures s.startTs <= s.endTs
    ensures forall i :: 0 <= i < |s.fills| ==> s.startTs <= s.fills[i].ts <= s.endTs
  {
    var fs := s.fills;
    forall i | 0 <= i < |fs| ensures s.startTs <= fs[i].ts <= s.endTs {
      if 0 < i { assert fs[0].ts <= fs[i].ts; }
      if i < |fs| - 1 { assert fs[i].ts <= fs[|fs| - 1].ts; }
    }
  }

  /** The aggregates kept incrementally by the pass are those of the fills
      collected so far. */
  lemma {:induction false} OpenSummarize(f: Fill)
    ensures Open(f) == Summarize([f])
  {
    assert [f][..0] == [];
    assert SizeSum([f]) == Abs(f.notionalUsd);
    assert PnlSum([f]) == PnlOrZero(f);
    assert Minutes(f.ts - f.ts) == 0.0;
  }

  lemma {:induction false} ExtendSummarize(fs: seq<Fill>, f: Fill)
    requires |fs| > 0
    ensures Extend(Summarize(fs), f) == Summarize(fs + [f])
  {
    var g := fs + [f];
    assert g[..|g| - 1] == fs;
    assert Last(g) == f && g[0] == fs[0];
  }

  /** Appending `f` to the fills of one session adds exactly `f` to the table's fills. */
  lemma {:induction false} AllFillsAppend(t: seq<Session>, i: nat, s: Session, f: Fill)
    requires i < |t| && s.fills == t[i].fills + [f]
    ensures AllFills(t[i := s]) == AllFills(t) + multiset{f}
    decreases |t|
  {
    var t' := t[..|t| - 1];
    if i == |t| - 1 {
      AllFillsReplaceLast(t, s, f);
    } else {
      AllFillsAppend(t', i, s, f);
      AllFillsReplaceEarlier(t, i, s);
    }
  }

  lemma AllFillsReplaceLast(t: seq<Session>, s: Session, f: Fill)
    requires |t| > 0 && s.fills == t[|t| - 1].fills + [f]
    ensures AllFills(t[|t| - 1 := s]) == AllFills(t) + multiset{f}
  {
    var u := t[|t| - 1 := s];
    assert u[..|u| - 1] == t[..|t| - 1];
    assert multiset(s.fills) == multiset(t[|t| - 1].fills) + multiset{f};
  }

  lemma AllFillsReplaceEarlier(t: seq<Session>, i: nat, s: Session)
    requires i < |t| - 1
    ensures AllFills(t[i := s]) == AllFills(t[..|t| - 1][i := s]) + multiset(t[|t| - 1].fills)
  {
    var u := t[i := s];
    assert u[..|u| - 1] == t[..|t| - 1][i := s];
  }

  lemma {:induction false} AllFillsSize(t: seq<Session>)
    ensures |AllFills(t)| == FillCount(t)
    decreases |t|
  {
    if t != [] {
      AllFillsSize(t[..|t| - 1]);
    }
  }

  /** Once the pass is past a session's end by more than the gap, the
      session can never be joined again: a fill can only join the most
      recent session of its market. */
  lemma {:induction false} JoinOnlyLatest(t: seq<Session>, f: Fill, i: nat)
    requires TableInv(t, f.ts)
    requires i < |t| && Joins(t[i], f)
    ensures forall j :: i < j < |t| ==> t[j].market != f.market
  {
    forall j | i < j < |t| ensures t[j].market != f.market {
      WellFormedSpan(t[j]);
    }
  }

  lemma {:induction false} StepInv(t: seq<Session>, f: Fill)
    requires TableInv(t, f.ts)
    ensures TableInv(Step(t, f), f.ts)
    ensures AllFills(Step(t, f)) == AllFills(t) + multiset{f}
  {
    match FirstJoin(t, f)
    case None => OpenInv(t, f);
    case Some(i) => ExtendInv(t, f, i);
  }

  lemma {:induction false} OpenInv(t: seq<Session>, f: Fill)
    requires TableInv(t, f.ts)
    requires forall j :: 0 <= j < |t| ==> !Joins(t[j], f)
    ensures TableInv(t + [Open(f)], f.ts)
    ensures AllFills(t + [Open(f)]) == AllFills(t) + multiset{f}
  {
    var u := t + [Open(f)];
    OpenSummarize(f);
    assert WellFormed(Open(f));
    forall i | 0 <= i < |t| ensures t[i].startTs <= f.ts {
      WellFormedSpan(t[i]);
    }
    assert u[..|u| - 1] == t;
  }

  lemma {:induction false} ExtendWellFormed(s: Session, f: Fill)
    requires WellFormed(s) && Joins(s, f) && s.endTs <= f.ts
    ensures WellFormed(Extend(s, f))
  {
    WellFormedSpan(s);
    ExtendSummarize(s.fills, f);
    var g := s.fills + [f];
    assert Chronological(g) by {
      forall a, b | 0 <= a < b < |g| ensures g[a].ts <= g[b].ts {
        if b < |g| - 1 {
          assert g[a] == s.fills[a] && g[b] == s.fills[b];
        } else {
          assert g[a] == s.fills[a];
        }
      }
    }
    assert Contiguous(g) by {
      forall a | 0 < a < |g| ensures g[a].ts - g[a - 1].ts <= GapMs {
        if a < |g| - 1 {
          assert g[a] == s.fills[a] && g[a - 1] == s.fills[a - 1];
        }
      }
    }
    assert InMarket(g, s.market);
  }

  lemma {:induction false} ExtendInv(t: seq<Session>, f: Fill, i: nat)
    requires TableInv(t, f.ts)
    requires i < |t| && Joins(t[i], f)
    ensures TableInv(t[i := Extend(t[i], f)], f.ts)
    ensures AllFills(t[i := Extend(t[i], f)]) == AllFills(t) + multiset{f}
  {
    var s := Extend(t[i], f);
    ExtendWellFormed(t[i], f);
    ReplaceKeepsWellFormed(t, i, s, f.ts);
    JoinOnlyLatest(t, f, i);
    AllFillsAppend(t, i, s, f);
    ReplaceKeepsOrder(t, i, s);
  }

  lemma ReplaceKeepsWellFormed(t: seq<Session>, i: nat, s: Session, now: int)
    requires AllWellFormed(t, now) && i < |t| && WellFormed(s) && s.endTs <= now
    ensures AllWellFormed(t[i := s], now)
  {
  }

  /** Replacing the latest session of a market by one with the same market
      and start and a later end keeps the table ordered and separated. */
  lemma {:induction false} ReplaceKeepsOrder(t: seq<Session>, i: nat, s: Session)
    requires StartOrdered(t) && Separated(t)
    requires i < |t| && s.market == t[i].market && s.startTs == t[i].startTs
    requires forall j :: i < j < |t| ==> t[j].market != s.market
    ensures StartOrdered(t[i := s]) && Separated(t[i := s])
  {
    var u := t[i := s];
    forall a, b | 0 <= a < b < |u| ensures u[a].startTs <= u[b].startTs {
      assert u[a].startTs == t[a].startTs && u[b].startTs == t[b].startTs;
    }
    forall a, b | 0 <= a < b < |u| && u[a].market == u[b].market
      ensures u[b].startTs - u[a].endTs > GapMs
    {
      assert u[a].market == t[a].market && u[b].market == t[b].market;
      assert u[b].startTs == t[b].startTs;
      assert a != i;
      assert u[a] == t[a];
    }
  }

  lemma {:induction false} BuildInv(fs: seq<Fill>, now: int)
    requires Chronological(fs)
    requires forall i :: 0 <= i < |fs| ==> fs[i].ts <= now
    ensures TableInv(Build(fs), now)
    ensures AllFills(Build(fs)) == multiset(fs)
    decreases |fs|
  {
    if fs != [] {
      var init, f := fs[..|fs| - 1], Last(fs);
      assert Chronological(init) && forall i :: 0 <= i < |init| ==> init[i].ts <= f.ts by {
        forall i | 0 <= i < |init| ensures init[i] == fs[i] { }
      }
      BuildInv(init, f.ts);
      StepInv(Build(init), f);
      TableInvLater(Build(fs), f.ts, now);
      SnocMultiset(fs);
    }
  }

  lemma {:induction false} TableInvLater(t: seq<Session>, now: int, later: int)
    requires TableInv(t, now) && now <= later
    ensures TableInv(t, later)
  {
  }

  /** What one iteration of the grouping loop relies on and establishes. */
  lemma NextFill(sorted: seq<Fill>, n: nat)
    requires SortedBy(sorted, FillTime) && n < |sorted|
    ensures TableInv(Build(sorted[..n]), sorted[n].ts)
    ensures Build(sorted[..n + 1]) == Step(Build(sorted[..n]), sorted[n])
  {
    ChronologicalOfSorted(sorted, n);
    BuildInv(sorted[..n], sorted[n].ts);
    BuildSnoc(sorted, n);
  }

  lemma {:induction false} BuildSnoc(fs: seq<Fill>, n: nat)
    requires n < |fs|
    ensures Build(fs[..n + 1]) == Step(Build(fs[..n]), fs[n])
  {
    assert fs[..n + 1][..n] == fs[..n];
  }

  lemma {:induction false} ChronologicalOfSorted(s: seq<Fill>, n: nat)
    requires SortedBy(s, FillTime) && n < |s|
    ensures Chronological(s[..n])
    ensures forall i :: 0 <= i < n ==> s[i].ts <= s[n].ts
  {
    forall i, j | 0 <= i < j <= n ensures s[i].ts <= s[j].ts {
      assert FillTime(s[i]) <= FillTime(s[j]);
    }
  }

  /** The key `${market}_${fillTime}` of a new session is never in the map
      already: a same-market session started at that time ends at it too, so
      the fill would have joined it. Hence `sessionMap.set` always appends. */
  lemma {:induction false} KeyIsFresh(t: seq<Session>, keys: seq<(string, int)>, f: Fill)
    requires TableInv(t, f.ts) && KeysOf(t, keys)
    requires FirstJoin(t, f).None?
    ensures (f.market, f.ts) !in keys
  {
    forall i | 0 <= i < |t| ensures keys[i] != (f.market, f.ts) {
      WellFormedSpan(t[i]);
    }
  }

  // ---------------------------------------------------------------------
  // What groupSessions guarantees
  // ---------------------------------------------------------------------

  /** The table the pass builds, with its invariant; the final sort by start
      time leaves it as it is, since sessions are opened in time order. */
  lemma {:induction false} GroupedTable(fills: seq<Fill>) returns (now: int)
    ensures TableInv(Grouped(fills), now)
    ensures AllFills(Grouped(fills)) == multiset(fills)
    ensures Grouped(fills) == Build(SortBy(fills, FillTime))
  {
    var sorted := SortBy(fills, FillTime);
    if |fills| == 0 {
      now := 0;
      return;
    }
    now := Last(sorted).ts;
    SortedFills(sorted);
    BuildInv(sorted, now);
    OrderedTableSorted(Build(sorted));
    SortByOfSorted(Build(sorted), StartTime);
  }

  lemma SortedFills(s: seq<Fill>)
    requires |s| > 0 && SortedBy(s, FillTime)
    ensures Chronological(s)
    ensures forall i :: 0 <= i < |s| ==> s[i].ts <= Last(s).ts
  {
    forall i, j | 0 <= i < j < |s| ensures s[i].ts <= s[j].ts {
      assert FillTime(s[i]) <= FillTime(s[j]);
    }
  }

  lemma OrderedTableSorted(t: seq<Session>)
    requires StartOrdered(t)
    ensures SortedBy(t, StartTime)
  {
    forall i, j | 0 <= i < j < |t| ensures StartTime(t[i]) <= StartTime(t[j]) {
      assert t[i].startTs <= t[j].startTs;
    }
  }

  /** Every input fill ends up in exactly one session: the sessions' fills,
      together, are the input fills with their multiplicities. */
  lemma {:induction false} GroupedPartition(fills: seq<Fill>)
    ensures AllFills(Grouped(fills)) == multiset(fills)
    ensures FillCount(Grouped(fills)) == |fills|
  {
    var _ := GroupedTable(fills);
    AllFillsSize(Grouped(fills));
  }

  /** Each session holds fills of its own market in time order with no gap
      over 45 minutes between neighbours; its start and end are its first and
      last fill's times, its duration their distance in minutes, its size the
      sum of the absolute notionals, its pnl the signed sum of the pnl (missing
      as 0) and its leverage the sticky latest known one. */
  lemma {:induction false} GroupedSessionsWellFormed(fills: seq<Fill>)
    ensures forall i :: 0 <= i < |Grouped(fills)| ==>
              WellFormed(Grouped(fills)[i])
    ensures forall i :: 0 <= i < |Grouped(fills)| ==>
              var s := Grouped(fills)[i];
              s.startTs <= s.endTs && s.durationMin >= 0.0 && s.positionSizeUsd >= 0.0
  {
    var _ := GroupedTable(fills);
    var g := Grouped(fills);
    forall i | 0 <= i < |g|
      ensures g[i].startTs <= g[i].endTs && g[i].durationMin >= 0.0 && g[i].positionSizeUsd >= 0.0
    {
      WellFormedSpan(g[i]);
    }
  }

  /** No sessions exactly when no fills; sessions come in start order. */
  lemma {:induction false} GroupedOrdered(fills: seq<Fill>)
    ensures |Grouped(fills)| == 0 <==> |fills| == 0
    ensures forall i, j :: 0 <= i < j < |Grouped(fills)| ==>
              Grouped(fills)[i].startTs <= Grouped(fills)[j].startTs
  {
    var _ := GroupedTable(fills);
    GroupedPartition(fills);
    if |fills| > 0 {
      assert fills[0] in multiset(fills);
    }
  }

  /** Sessions are maximal: two sessions of one market are separated by more
      than 45 minutes of inactivity. */
  lemma {:induction false} GroupedSeparated(fills: seq<Fill>)
    ensures forall i, j ::
              (0 <= i < j < |Grouped(fills)| && Grouped(fills)[i].market == Grouped(fills)[j].market)
              ==> Grouped(fills)[j].startTs - Grouped(fills)[i].endTs > GapMs
  {
    var _ := GroupedTable(fills);
  }

  /** The most recent session of a market, if it has one. */
  function LatestOf(t: seq<Session>, m: string): (r: Option<nat>)
    ensures r.Some? ==> r.value < |t| && t[r.value].market == m
                        && forall j :: r.value < j < |t| ==> t[j].market != m
    ensures r.None? ==> forall j :: 0 <= j < |t| ==> t[j].market != m
    decreases |t|
  {
    if t == [] then None
    else if t[|t| - 1].market == m then Some(|t| - 1)
    else LatestOf(t[..|t| - 1], m)
  }

  /** On time-ordered input the scan over all sessions behaves as a lookup of
      the market's most recent session: the fill joins it when it ended at
      most 45 minutes earlier, and otherwise opens a new session. */
  lemma {:induction false} StepJoinsLatest(t: seq<Session>, f: Fill)
    requires TableInv(t, f.ts)
    ensures Step(t, f) == match LatestOf(t, f.market)
      case Some(j) => if f.ts - t[j].endTs <= GapMs then t[j := Extend(t[j], f)] else t + [Open(f)]
      case None => t + [Open(f)]
  {
    match FirstJoin(t, f)
    case Some(i) =>
      JoinOnlyLatest(t, f, i);
    case None =>
  }

  /** The fills sorted and folded: two fills in time order. */
  lemma {:induction false} GroupedPair(a: Fill, b: Fill)
    requires a.ts <= b.ts
    ensures Grouped([a, b]) == SortBy(Step([Open(a)], b), StartTime)
  {
    PairInOrder(a, b);
    BuildPair(a, b);
  }

  lemma PairInOrder(a: Fill, b: Fill)
    requires a.ts <= b.ts
    ensures SortBy([a, b], FillTime) == [a, b]
  {
    assert SortedBy([a, b], FillTime);
    SortByOfSorted([a, b], FillTime);
  }

  lemma BuildPair(a: Fill, b: Fill)
    ensures Build([a, b]) == Step([Open(a)], b)
  {
    assert [a, b][..1] == [a];
    assert Build([a]) == [Open(a)];
  }

  /** Two same-market fills exactly 45 minutes apart form one session. */
  lemma {:induction false} GapBoundaryJoins(a: Fill, b: Fill)
    requires a.market == b.market && b.ts == a.ts + GapMs
    ensures Grouped([a, b]) == [Extend(Open(a), b)]
    ensures Grouped([a, b])[0].fills == [a, b]
  {
    GroupedPair(a, b);
    StepJoins(a, b);
    SortByOfSorted([Extend(Open(a), b)], StartTime);
  }

  lemma StepJoins(a: Fill, b: Fill)
    requires a.market == b.market && b.ts - a.ts <= GapMs
    ensures Step([Open(a)], b) == [Extend(Open(a), b)]
  {
    assert Joins(Open(a), b);
  }

  /** One second more and they form two sessions. */
  lemma {:induction false} GapBoundarySplits(a: Fill, b: Fill)
    requires a.market == b.market && b.ts == a.ts + GapMs + 1000
    ensures Grouped([a, b]) == [Open(a), Open(b)]
  {
    GroupedPair(a, b);
    StepSplits(a, b);
    OpenPairInOrder(a, b);
  }

  lemma StepSplits(a: Fill, b: Fill)
    requires a.market == b.market && b.ts == a.ts + GapMs + 1000
    ensures Step([Open(a)], b) == [Open(a), Open(b)]
  {
    assert !Joins(Open(a), b);
  }

  lemma OpenPairInOrder(a: Fill, b: Fill)
    requires a.ts <= b.ts
    ensures SortBy([Open(a), Open(b)], StartTime) == [Open(a), Open(b)]
  {
    assert SortedBy([Open(a), Open(b)], StartTime);
    SortByOfSorted([Open(a), Open(b)], StartTime);
  }

  /** Distinct timestamps: the time orders the fills totally. */
  ghost predicate DistinctTimes(fills: seq<Fill>) {
    forall i, j :: 0 <= i < j < |fills| ==> fills[i].ts != fills[j].ts
  }

  /** Grouping does not depend on the order the fills arrive in, as long as no
      two fills share a timestamp: any reordering gives the same sessions. */
  lemma GroupedIgnoresOrder(fills: seq<Fill>, p: seq<Fill>)
    requires multiset(p) == multiset(fills) && DistinctTimes(fills)
    ensures Grouped(p) == Grouped(fills)
  {
    assert |p| == |multiset(p)| == |fills|;
    forall x, y | x in fills && y in fills && FillTime(x) == FillTime(y) ensures x == y {
      var i :| 0 <= i < |fills| && fills[i] == x;
      var j :| 0 <= j < |fills| && fills[j] == y;
      assert x.ts == y.ts;
    }
    SortByUnique(fills, p, FillTime);
  }

  /** With a timestamp tie the input order decides: two same-market fills at
      one instant form one session, and the second one's known leverage wins. */
  lemma {:induction false} SameTimeJoins(a: Fill, b: Fill)
    requires a.market == b.market && a.ts == b.ts
    ensures Grouped([a, b]) == [Extend(Open(a), b)]
  {
    GroupedPair(a, b);
    StepJoins(a, b);
    SortByOfSorted([Extend(Open(a), b)], StartTime);
  }

  /** So the same two fills in the other order give another session leverage. */
  lemma TieOrderDecidesLeverage(a: Fill, b: Fill)
    requires a.market == b.market && a.ts == b.ts
    requires a.leverage == Some(3.0) && b.leverage == Some(10.0)
    ensures multiset([a, b]) == multiset([b, a])
    ensures |Grouped([a, b])| == 1 && Grouped([a, b])[0].leverage == Some(10.0)
    ensures |Grouped([b, a])| == 1 && Grouped([b, a])[0].leverage == Some(3.0)
  {
    SameTimeLeverage(a, b);
    SameTimeLeverage(b, a);
    PairSwap(a, b);
  }

  lemma PairSwap(a: Fill, b: Fill)
    ensures multiset([a, b]) == multiset([b, a])
  {
  }

  lemma SameTimeLeverage(a: Fill, b: Fill)
    requires a.market == b.market && a.ts == b.ts
    ensures |Grouped([a, b])| == 1
    ensures Grouped([a, b])[0].leverage == if KnownLeverage(b.leverage) then b.leverage else a.leverage
  {
    SameTimeJoins(a, b);
  }

  /** The leverage rule: the result is the leverage of some fill which is
      either the first or a known one, and no later fill has a known leverage. */
  lemma {:induction false} StickyLeverageIsLatestKnown(fs: seq<Fill>) returns (j: nat)
    requires |fs| > 0
    ensures j < |fs| && StickyLeverage(fs) == fs[j].leverage
    ensures j == 0 || KnownLeverage(fs[j].leverage)
    ensures forall k :: j < k < |fs| ==> !KnownLeverage(fs[k].leverage)
    decreases |fs|
  {
    if |fs| == 1 || KnownLeverage(Last(fs).leverage) {
      j := |fs| - 1;
    } else {
      var init := fs[..|fs| - 1];
      j := StickyLeverageIsLatestKnown(init);
      assert init[j] == fs[j];
      forall k | j < k < |fs| ensures !KnownLeverage(fs[k].leverage) {
        if k < |fs| - 1 { assert init[k] == fs[k]; }
      }
    }
  }

  /** A zero or absent leverage never erases a known one. */
  lemma {:induction false} StickyLeverageNeverErased(fs: seq<Fill>, f: Fill)
    requires |fs| > 0 && KnownLeverage(StickyLeverage(fs))
    ensures KnownLeverage(StickyLeverage(fs + [f]))
    ensures !KnownLeverage(f.leverage) ==> StickyLeverage(fs + [f]) == StickyLeverage(fs)
  {
    assert (fs + [f])[..|fs|] == fs;
  }

  /** A fill without a known leverage leaves the session's leverage as it
      was, known or not. */
  lemma {:induction false} UnknownLeverageKeeps(fs: seq<Fill>, f: Fill)
    requires |fs| > 0 && !KnownLeverage(f.leverage)
    ensures StickyLeverage(fs + [f]) == StickyLeverage(fs)
  {
    assert (fs + [f])[..|fs|] == fs;
  }

  /** A session over notionals 100, -50 and 25 has position size 175. */
  lemma {:induction false} SizeSumExample(a: Fill, b: Fill, c: Fill)
    requires a.notionalUsd == 100.0 && b.notionalUsd == -50.0 && c.notionalUsd == 25.0
    ensures SizeSum([a, b, c]) == 175.0
  {
    assert [a, b, c][..2] == [a, b];
    assert [a, b][..1] == [a];
    assert [a][..0] == [];
    assert SizeSum([a]) == 100.0;
    assert SizeSum([a, b]) == 150.0;
  }
}
