/** The overview page's headline and chart, and what they add up to in every reachable state. */
module Dashboard {
  import opened Counting
  import opened TrackedEvent
  import opened TimeRange
  import opened Aggregates
  import opened BreakdownLaws
  import opened CountedReports
  import opened Database
  import opened Listing
  import opened Metrics
  import opened QuerySiteMetrics
  import opened RangeReports
  import opened VisitorId
  import opened Pipeline
  import opened Identities
  import Closed = ClosedDays

  // ---- summing rows ----

  function ColumnOf(c: Column, report: map<string, Counters>): string -> int {
    k => if k in report then Get(c, report[k]) else 0
  }

  /** One column of a report, added up over all its keys. */
  ghost function ColumnSum(c: Column, report: map<string, Counters>): int {
    Total(report.Keys, ColumnOf(c, report))
  }

  function SumOfRows(rows: seq<Row<string, Counters>>): Counters {
    if rows == [] then METRICS.zero
    else AddMetricRow(SumOfRows(rows[..|rows| - 1]), rows[|rows| - 1].value)
  }

  method SumMetricRows(rows: seq<Row<string, Counters>>) returns (totals: Counters)
    ensures totals == SumOfRows(rows)
  {
    var pageviews, visitors, sessions, bounces, engagementSeconds := 0, 0, 0, 0, 0;
    for i := 0 to |rows|
      invariant Counters(pageviews, visitors, sessions, bounces, engagementSeconds) == SumOfRows(rows[..i])
    {
      assert rows[..i + 1][..i] == rows[..i];
      var row := rows[i].value;
      pageviews := pageviews + row.pageviews;
      visitors := visitors + row.visitors;
      sessions := sessions + row.sessions;
      bounces := bounces + row.bounces;
      engagementSeconds := engagementSeconds + row.engagementSeconds;
    }
    assert rows[..|rows|] == rows;
    totals := Counters(pageviews, visitors, sessions, bounces, engagementSeconds);
  }

  lemma {:induction false} SumOfSomeRows(c: Column, rows: seq<Row<string, Counters>>, report: map<string, Counters>)
    requires forall i, j | 0 <= i < j < |rows| :: rows[i].key != rows[j].key
    requires forall i | 0 <= i < |rows| :: rows[i].key in report && report[rows[i].key] == rows[i].value
    ensures Get(c, SumOfRows(rows)) == Total(KeysOf(rows), ColumnOf(c, report))
  {
    if rows == [] {
      assert KeysOf(rows) == {};
    } else {
      var init, last := rows[..|rows| - 1], rows[|rows| - 1];
      SumOfSomeRows(c, init, report);
      assert rows == init + [last];
      assert KeysOf(rows) - {last.key} == KeysOf(init);
      TotalExtract(KeysOf(rows), ColumnOf(c, report), last.key);
    }
  }

  /** However a report's rows are ordered, each total is that column's sum over the keys. */
  lemma SumOfListing(c: Column, rows: seq<Row<string, Counters>>, report: map<string, Counters>)
    requires Lists(rows, report)
    ensures Get(c, SumOfRows(rows)) == ColumnSum(c, report)
  {
    SumOfSomeRows(c, rows, report);
  }

  /** Bounces per session; 0 without sessions. */
  function BounceRate(totals: Counters): (rate: real)
    ensures if totals.sessions == 0 then rate == 0.0 else rate * totals.sessions as real == totals.bounces as real
  {
    if totals.sessions == 0 then 0.0 else totals.bounces as real / totals.sessions as real
  }

  /** Engagement per session; 0 without sessions. */
  function AverageEngagementSeconds(totals: Counters): (average: real)
    ensures if totals.sessions == 0 then average == 0.0 else average * totals.sessions as real == totals.engagementSeconds as real
  {
    if totals.sessions == 0 then 0.0 else totals.engagementSeconds as real / totals.sessions as real
  }

  // ---- column sums of ranges ----

  lemma ColumnSumPlus(c: Column, a: map<string, Counters>, b: map<string, Counters>)
    ensures ColumnSum(c, Plus(METRICS, a, b)) == ColumnSum(c, a) + ColumnSum(c, b)
  {
    var keys := a.Keys + b.Keys;
    TotalSupport(a.Keys, keys, ColumnOf(c, a));
    TotalSupport(b.Keys, keys, ColumnOf(c, b));
    TotalPlus(keys, ColumnOf(c, a), ColumnOf(c, b), ColumnOf(c, Plus(METRICS, a, b)));
    assert Plus(METRICS, a, b).Keys == keys;
  }

  /** A per-day number added up over the days of a range. */
  function OverDays(f: int -> int, start: int, days: nat): int {
    if days == 0 then 0 else OverDays(f, start, days - 1) + f(NthDay(start, days - 1))
  }

  ghost function DayColumn(c: Column, daily: int -> map<string, Counters>): int -> int {
    day => ColumnSum(c, daily(day))
  }

  lemma NoDaysNoSum(c: Column, daily: int -> map<string, Counters>, start: int)
    ensures ColumnSum(c, DailyTotal(METRICS, daily, start, 0)) == 0
  {
    assert DailyTotal(METRICS, daily, start, 0).Keys == {};
  }

  lemma ColumnSumOneMore(c: Column, daily: int -> map<string, Counters>, start: int, days: nat)
    ensures ColumnSum(c, DailyTotal(METRICS, daily, start, days + 1))
         == ColumnSum(c, DailyTotal(METRICS, daily, start, days)) + ColumnSum(c, daily(NthDay(start, days)))
  {
    RowsAddAssociatively();
    DailyTotalOneMore(METRICS, daily, start, days);
    ColumnSumPlus(c, DailyTotal(METRICS, daily, start, days), daily(NthDay(start, days)));
  }

  ghost function ColumnSumOver(c: Column, daily: int -> map<string, Counters>, start: int): nat -> int {
    (days: nat) => ColumnSum(c, DailyTotal(METRICS, daily, start, days))
  }

  lemma {:induction false} OverDaysByStep(sum: nat -> int, f: int -> int, start: int, days: nat)
    requires sum(0) == 0
    requires forall n: nat :: sum(n + 1) == sum(n) + f(NthDay(start, n))
    ensures sum(days) == OverDays(f, start, days)
  {
    if days > 0 {
      OverDaysByStep(sum, f, start, days - 1);
      assert sum(days - 1 + 1) == sum(days - 1) + f(NthDay(start, days - 1));
    }
  }

  lemma ColumnSumOfTotal(c: Column, daily: int -> map<string, Counters>, start: int, days: nat)
    ensures ColumnSum(c, DailyTotal(METRICS, daily, start, days)) == OverDays(DayColumn(c, daily), start, days)
  {
    NoDaysNoSum(c, daily, start);
    forall n: nat
      ensures ColumnSumOver(c, daily, start)(n + 1) == ColumnSumOver(c, daily, start)(n) + DayColumn(c, daily)(NthDay(start, n))
    {
      ColumnSumOneMore(c, daily, start, n);
    }
    OverDaysByStep(ColumnSumOver(c, daily, start), DayColumn(c, daily), start, days);
  }

  lemma {:induction false} OverDaysAgree(f: int -> int, g: int -> int, start: int, days: nat)
    requires forall n | 0 <= n < days :: f(NthDay(start, n)) == g(NthDay(start, n))
    ensures OverDays(f, start, days) == OverDays(g, start, days)
  {
    if days > 0 {
      OverDaysAgree(f, g, start, days - 1);
    }
  }

  // ---- in reachable states ----

  /** A site's events of one day, purged or not. */
  function SiteRows(s: State, site: string, day: int): seq<Event> {
    OfSite(DayRows(s.written, day), site)
  }

  lemma TodayIsHeld(s: State)
    requires Inv(s)
    ensures HoldsToday(s.log, s.written, Today(s)) && IsDay(Today(s))
  {
    RecentDaysAreComplete(s, Today(s));
  }

  /**
   End to end: in every run, over any aligned range each of whose closed days the
   run has rebuilt once it was settled or has written no event of, the query is
   the key-by-key sum of the days' own reports, each computed straight from every
   event written for that day.
   */
  lemma QueryIsExactInEveryRun(cfg: Config, nowMs: int, salt: Field, actions: seq<Action>, site: string, range: Range, d: Dimension)
    requires cfg.retentionMonths >= 1 && ValidRun(cfg, Initial(nowMs, salt), actions) && Aligned(range)
    requires Closed.KeptDays(cfg, Initial(nowMs, salt), actions, range)
    ensures var s := Run(cfg, Initial(nowMs, salt), actions);
            && MetricsReport(s.tables, s.log, site, range, d, Today(s))
               == DailyTotal(METRICS, Daily(s.written, d, site), range.startTs, DayCount(range))
            && ScrollReport(s.tables, s.log, site, range, Today(s))
               == DailyTotal(SCROLL, DailyScroll(s.written, site), range.startTs, DayCount(range))
  {
    var s := Run(cfg, Initial(nowMs, salt), actions);
    RunKeepsInv(cfg, Initial(nowMs, salt), actions);
    TodayIsHeld(s);
    Closed.KeptDaysAreCurrent(cfg, nowMs, salt, actions, range);
    MetricsReportIsExact(s.tables, s.log, s.written, site, range, d, Today(s));
    ScrollReportIsExact(s.tables, s.log, s.written, site, range, Today(s));
  }

  lemma RebuiltRangeStays(cfg: Config, nowMs: int, salt: Field, actions: seq<Action>, m: nat, range: Range)
    requires cfg.retentionMonths >= 1 && ValidRun(cfg, Initial(nowMs, salt), actions) && m <= |actions|
    requires Aligned(range) && Closed.RebuiltBefore(cfg, Initial(nowMs, salt), actions, range, m)
    ensures SameRowsOver(StateAt(cfg, Initial(nowMs, salt), actions, m).written, Run(cfg, Initial(nowMs, salt), actions).written, range)
  {
    var first := Initial(nowMs, salt);
    forall n | 0 <= n < DayCount(range)
      ensures DayRows(StateAt(cfg, first, actions, m).written, NthDay(range.startTs, n))
           == DayRows(Run(cfg, first, actions).written, NthDay(range.startTs, n))
    {
      var day := NthDay(range.startTs, n);
      DayIndex(range.startTs, range.endTs);
      assert Closed.DayRebuiltBefore(cfg, first, actions, day, m);
      Closed.RebuiltRowsStay(cfg, nowMs, salt, actions, day, m);
    }
  }

  /**
   A handler awaits between its queries. Over days that are over and rebuilt it does
   not matter which later state a query reads, or what its clock says by then.
   */
  lemma ClosedAnswersNeverChange(cfg: Config, nowMs: int, salt: Field, actions: seq<Action>, m: nat,
                                 site: string, range: Range, d: Dimension)
    requires cfg.retentionMonths >= 1 && ValidRun(cfg, Initial(nowMs, salt), actions) && m <= |actions|
    requires Aligned(range) && Closed.RebuiltBefore(cfg, Initial(nowMs, salt), actions, range, m)
    ensures var s, t := StateAt(cfg, Initial(nowMs, salt), actions, m), Run(cfg, Initial(nowMs, salt), actions);
            && MetricsReport(s.tables, s.log, site, range, d, Today(s)) == MetricsReport(t.tables, t.log, site, range, d, Today(t))
            && ScrollReport(s.tables, s.log, site, range, Today(s)) == ScrollReport(t.tables, t.log, site, range, Today(t))
  {
    var first := Initial(nowMs, salt);
    var s, t := StateAt(cfg, first, actions, m), Run(cfg, first, actions);
    StateAtIsRun(cfg, first, actions, m);
    Closed.RebuiltBeforeIsKept(cfg, first, actions, range, m);
    QueryIsExactInEveryRun(cfg, nowMs, salt, actions[..m], site, range, d);
    QueryIsExactInEveryRun(cfg, nowMs, salt, actions, site, range, d);
    RebuiltRangeStays(cfg, nowMs, salt, actions, m, range);
    SameRowsSameMetrics(s.written, t.written, site, range, d);
    SameRowsSameScroll(s.written, t.written, site, range);
  }

  lemma SameRowsSameReports(a: seq<Event>, b: seq<Event>, site: string, d: Dimension, day: int)
    requires DayRows(a, day) == DayRows(b, day)
    ensures DayReport(a, d, site, day) == DayReport(b, d, site, day) && DayScrollReport(a, site, day) == DayScrollReport(b, site, day)
  {}

  ghost predicate SameRowsOver(a: seq<Event>, b: seq<Event>, range: Range) {
    forall n | 0 <= n < DayCount(range) :: DayRows(a, NthDay(range.startTs, n)) == DayRows(b, NthDay(range.startTs, n))
  }

  lemma SameRowsSameMetrics(a: seq<Event>, b: seq<Event>, site: string, range: Range, d: Dimension)
    requires Aligned(range) && SameRowsOver(a, b, range)
    ensures DailyTotal(METRICS, Daily(a, d, site), range.startTs, DayCount(range))
         == DailyTotal(METRICS, Daily(b, d, site), range.startTs, DayCount(range))
  {
    forall n | 0 <= n < DayCount(range)
      ensures Daily(a, d, site)(NthDay(range.startTs, n)) == Daily(b, d, site)(NthDay(range.startTs, n))
    {
      SameRowsSameReports(a, b, site, d, NthDay(range.startTs, n));
    }
    DailyTotalAgree(METRICS, Daily(a, d, site), Daily(b, d, site), range.startTs, DayCount(range));
  }

  lemma SameRowsSameScroll(a: seq<Event>, b: seq<Event>, site: string, range: Range)
    requires Aligned(range) && SameRowsOver(a, b, range)
    ensures DailyTotal(SCROLL, DailyScroll(a, site), range.startTs, DayCount(range))
         == DailyTotal(SCROLL, DailyScroll(b, site), range.startTs, DayCount(range))
  {
    forall n | 0 <= n < DayCount(range)
      ensures DailyScroll(a, site)(NthDay(range.startTs, n)) == DailyScroll(b, site)(NthDay(range.startTs, n))
    {
      SameRowsSameReports(a, b, site, DeviceDim, NthDay(range.startTs, n));
    }
    DailyTotalAgree(SCROLL, DailyScroll(a, site), DailyScroll(b, site), range.startTs, DayCount(range));
  }

  // ---- the headline ----

  /** A day's report row by row. */
  lemma DayReportRows(history: seq<Event>, d: Dimension, site: string, day: int)
    ensures var rows := OfSite(DayRows(history, day), site);
            && DayReport(history, d, site, day).Keys == Keys(rows, d)
            && forall k | k in Keys(rows, d) :: DayReport(history, d, site, day)[k] == ToMetricRow(RawRow(rows, d, k))
  {}

  lemma ColumnSumFrom(c: Column, report: map<string, Counters>, keys: set<string>, f: string -> int)
    requires report.Keys == keys
    requires forall k | k in keys :: Get(c, report[k]) == f(k)
    ensures ColumnSum(c, report) == Total(keys, f)
  {
    TotalAgree(keys, ColumnOf(c, report), f);
  }

  /** A day's column adds up to what its per-key numbers add up to. */
  lemma DayColumnSum(history: seq<Event>, d: Dimension, site: string, day: int, c: Column, f: string -> int)
    requires var rows := OfSite(DayRows(history, day), site);
             forall k | k in Keys(rows, d) :: Get(c, ToMetricRow(RawRow(rows, d, k))) == f(k)
    ensures ColumnSum(c, DayReport(history, d, site, day)) == Total(Keys(OfSite(DayRows(history, day), site), d), f)
  {
    DayReportRows(history, d, site, day);
    ColumnSumFrom(c, DayReport(history, d, site, day), Keys(OfSite(DayRows(history, day), site), d), f);
  }

  /** One column's own number for a site and a day, counted event by event. */
  ghost function Truth(s: State, site: string, c: Column): int -> int {
    day => Get(c, Counted(s.written, site, Whole, day, day + 86_400))
  }

  /** The columns that count each visitor or session once, and so depend on its having one key. */
  predicate CountsDistinct(c: Column) {
    c.VisitorsCol? || c.SessionsCol?
  }

  lemma DayColumnIsTruth(cfg: Config, s: State, site: string, d: Dimension, c: Column, day: int)
    requires IdInv(cfg, s)
    requires CountsDistinct(c) ==> CollisionFreeOn(cfg.adapters.hash, s.hashed) && IsClientDimension(d)
    ensures DayColumn(c, Daily(s.written, d, site))(day) == Truth(s, site, c)(day)
  {
    TruthIsTogether(s, site, c, day);
    DayColumnAddsUp(cfg, s, site, d, c, day);
  }

  lemma TruthIsTogether(s: State, site: string, c: Column, day: int)
    ensures Truth(s, site, c)(day) == Get(c, Together(SiteRows(s, site, day)))
  {
    DayIsCounted(s.written, site, day);
  }

  lemma {:induction false} DayColumnAddsUp(cfg: Config, s: State, site: string, d: Dimension, c: Column, day: int)
    requires IdInv(cfg, s)
    requires CountsDistinct(c) ==> CollisionFreeOn(cfg.adapters.hash, s.hashed) && IsClientDimension(d)
    ensures DayColumn(c, Daily(s.written, d, site))(day) == Get(c, Together(SiteRows(s, site, day)))
  {
    var rows := SiteRows(s, site, day);
    match c
    case PageviewsCol =>
      DayColumnSum(s.written, d, site, day, c, PageviewsBy(rows, d));
      PageviewsAddUp(rows, d);
    case VisitorsCol =>
      DayColumnSum(s.written, d, site, day, c, VisitorsBy(rows, d));
      VisitorsAddUp(rows, d);
      ClientDimensionsFollowVisitor(cfg, s, rows, d);
    case SessionsCol =>
      DayColumnSum(s.written, d, site, day, c, SessionsBy(rows, d));
      SessionsAddUp(rows, d);
      ClientDimensionsFollowSession(cfg, s, rows, d);
    case BouncesCol =>
      DayColumnSum(s.written, d, site, day, c, BouncesBy(rows, d));
      BouncesAddUp(rows, d);
    case EngagementCol =>
      DayColumnSum(s.written, d, site, day, c, EngagementBy(rows, d));
      EngagementAddsUp(rows, d);
  }

  /** Any column of any dimension's report, added over its rows. */
  lemma ColumnIsExactInEveryRun(cfg: Config, nowMs: int, salt: Field, actions: seq<Action>, site: string, range: Range,
                                d: Dimension, c: Column)
    requires cfg.retentionMonths >= 1 && ValidRun(cfg, Initial(nowMs, salt), actions)
    requires Aligned(range) && Closed.KeptDays(cfg, Initial(nowMs, salt), actions, range)
    requires CountsDistinct(c) ==>
               IsClientDimension(d) && CollisionFreeOn(cfg.adapters.hash, Run(cfg, Initial(nowMs, salt), actions).hashed)
    ensures var s := Run(cfg, Initial(nowMs, salt), actions);
            ColumnSum(c, MetricsReport(s.tables, s.log, site, range, d, Today(s)))
            == OverDays(Truth(s, site, c), range.startTs, DayCount(range))
  {
    var s := Run(cfg, Initial(nowMs, salt), actions);
    QueryIsExactInEveryRun(cfg, nowMs, salt, actions, site, range, d);
    RunKeepsIdentities(cfg, Initial(nowMs, salt), actions);
    ColumnSumOfTotal(c, Daily(s.written, d, site), range.startTs, DayCount(range));
    forall n | 0 <= n < DayCount(range)
      ensures DayColumn(c, Daily(s.written, d, site))(NthDay(range.startTs, n)) == Truth(s, site, c)(NthDay(range.startTs, n))
    {
      DayColumnIsTruth(cfg, s, site, d, c, NthDay(range.startTs, n));
    }
    OverDaysAgree(DayColumn(c, Daily(s.written, d, site)), Truth(s, site, c), range.startTs, DayCount(range));
  }

  /**
   The headline. In every reachable state, adding up a dimension's rows over an
   aligned range whose closed days the run has kept gives the sum over the days of
   that day's own pageviews, bounced sessions and engagement, whatever the dimension
   and even with colliding hashes; and of its distinct visitors and sessions for a
   client dimension, short of a collision.
   */
  lemma HeadlineIsExactInEveryRun(cfg: Config, nowMs: int, salt: Field, actions: seq<Action>, site: string, range: Range,
                                  d: Dimension, c: Column, rows: seq<Row<string, Counters>>)
    requires cfg.retentionMonths >= 1 && ValidRun(cfg, Initial(nowMs, salt), actions)
    requires Aligned(range) && Closed.KeptDays(cfg, Initial(nowMs, salt), actions, range)
    requires var s := Run(cfg, Initial(nowMs, salt), actions);
             && (CountsDistinct(c) ==> IsClientDimension(d) && CollisionFreeOn(cfg.adapters.hash, s.hashed))
             && Lists(rows, MetricsReport(s.tables, s.log, site, range, d, Today(s)))
    ensures var s := Run(cfg, Initial(nowMs, salt), actions);
            Get(c, SumOfRows(rows)) == OverDays(Truth(s, site, c), range.startTs, DayCount(range))
  {
    var s := Run(cfg, Initial(nowMs, salt), actions);
    ColumnIsExactInEveryRun(cfg, nowMs, salt, actions, site, range, d, c);
    SumOfListing(c, rows, MetricsReport(s.tables, s.log, site, range, d, Today(s)));
  }

  // ---- rates ----

  lemma {:induction false} OverDaysAtMost(f: int -> int, g: int -> int, start: int, days: nat)
    requires forall day :: 0 <= f(day) <= g(day)
    ensures 0 <= OverDays(f, start, days) <= OverDays(g, start, days)
  {
    if days > 0 {
      OverDaysAtMost(f, g, start, days - 1);
    }
  }

  /** Every row's bounces stay within its sessions. */
  ghost predicate RowsAreBounded(report: map<string, Counters>) {
    forall k | k in report :: 0 <= report[k].bounces <= report[k].sessions
  }

  lemma {:induction false} TotalsAreBounded(keys: set<string>, f: string -> int, g: string -> int)
    requires forall k | k in keys :: 0 <= f(k) <= g(k)
    ensures 0 <= Total(keys, f) <= Total(keys, g)
  {
    if keys != {} {
      var k :| k in keys;
      TotalExtract(keys, f, k);
      TotalExtract(keys, g, k);
      TotalsAreBounded(keys - {k}, f, g);
    }
  }

  lemma ReportIsBounded(report: map<string, Counters>)
    requires RowsAreBounded(report)
    ensures 0 <= ColumnSum(BouncesCol, report) <= ColumnSum(SessionsCol, report)
  {
    TotalsAreBounded(report.Keys, ColumnOf(BouncesCol, report), ColumnOf(SessionsCol, report));
  }

  lemma DayReportIsBounded(history: seq<Event>, d: Dimension, site: string, day: int)
    ensures RowsAreBounded(DayReport(history, d, site, day))
  {
    var rows := OfSite(DayRows(history, day), site);
    DayReportRows(history, d, site, day);
    forall k | k in Keys(rows, d)
      ensures 0 <= ToMetricRow(RawRow(rows, d, k)).bounces <= ToMetricRow(RawRow(rows, d, k)).sessions
    {
      BouncesAreBounded(rows, d, k);
    }
  }

  lemma FractionOf(part: int, whole: int)
    requires 0 <= part <= whole && whole != 0
    ensures 0.0 <= part as real / whole as real <= 1.0
  {}

  /** Over any daily reports a total is the sum of the days' columns. */
  lemma TotalOverDays(c: Column, daily: int -> map<string, Counters>, start: int, days: nat, rows: seq<Row<string, Counters>>)
    requires Lists(rows, DailyTotal(METRICS, daily, start, days))
    ensures Get(c, SumOfRows(rows)) == OverDays(DayColumn(c, daily), start, days)
  {
    SumOfListing(c, rows, DailyTotal(METRICS, daily, start, days));
    ColumnSumOfTotal(c, daily, start, days);
  }

  /** Over any daily reports whose bounces stay within their sessions. */
  lemma RangeRateIsAFraction(daily: int -> map<string, Counters>, start: int, days: nat, rows: seq<Row<string, Counters>>)
    requires Lists(rows, DailyTotal(METRICS, daily, start, days))
    requires forall day :: 0 <= DayColumn(BouncesCol, daily)(day) <= DayColumn(SessionsCol, daily)(day)
    ensures 0.0 <= BounceRate(SumOfRows(rows)) <= 1.0
  {
    TotalOverDays(BouncesCol, daily, start, days, rows);
    TotalOverDays(SessionsCol, daily, start, days, rows);
    OverDaysAtMost(DayColumn(BouncesCol, daily), DayColumn(SessionsCol, daily), start, days);
    var totals := SumOfRows(rows);
    assert Get(BouncesCol, totals) == totals.bounces && Get(SessionsCol, totals) == totals.sessions;
    if totals.sessions != 0 {
      FractionOf(totals.bounces, totals.sessions);
    }
  }

  // ---- the page ----

  datatype Overview = Overview(totals: Counters, dailyVisitors: seq<int>)

  function OneDay(day: int): Range {
    Range(day, day + SECONDS_PER_DAY)
  }

  /** A headline column: the device rows' column, added up. */
  ghost function Reported(c: Column, tables: Tables, log: seq<Event>, site: string, range: Range, today: int): int {
    ColumnSum(c, MetricsReport(tables, log, site, range, DeviceDim, today))
  }

  /** The visitors of the one-day range of each day. */
  ghost function ChartPoint(tables: Tables, log: seq<Event>, site: string, today: int): int -> int {
    day => Reported(VisitorsCol, tables, log, site, OneDay(day), today)
  }

  /** `point` gives the chart's value for each day. */
  ghost predicate IsChart(point: int -> int, tables: Tables, log: seq<Event>, site: string, today: int) {
    forall day {:trigger Reported(VisitorsCol, tables, log, site, OneDay(day), today)} ::
      point(day) == Reported(VisitorsCol, tables, log, site, OneDay(day), today)
  }

  lemma TheChart(tables: Tables, log: seq<Event>, site: string, today: int) returns (point: int -> int)
    ensures IsChart(point, tables, log, site, today)
  {
    point := ChartPoint(tables, log, site, today);
  }

  /** Over a single day the headline's visitors are the chart's point. */
  lemma OneDayPoint(tables: Tables, log: seq<Event>, site: string, range: Range, today: int, totals: Counters, point: int -> int)
    requires Aligned(range) && DayCount(range) == 1 && IsChart(point, tables, log, site, today)
    requires Get(VisitorsCol, totals) == Reported(VisitorsCol, tables, log, site, range, today)
    ensures totals.visitors == point(range.startTs)
  {
    DayIndex(range.startTs, range.endTs);
    assert range == OneDay(range.startTs);
    assert point(range.startTs) == Reported(VisitorsCol, tables, log, site, OneDay(range.startTs), today);
  }

  /** What the page shows is, column by column, the days' own numbers ... */
  lemma OverviewIsExactInEveryRun(cfg: Config, nowMs: int, salt: Field, actions: seq<Action>, site: string, range: Range, c: Column)
    requires cfg.retentionMonths >= 1 && ValidRun(cfg, Initial(nowMs, salt), actions)
    requires Aligned(range) && Closed.KeptDays(cfg, Initial(nowMs, salt), actions, range)
    requires CountsDistinct(c) ==> CollisionFreeOn(cfg.adapters.hash, Run(cfg, Initial(nowMs, salt), actions).hashed)
    ensures var s := Run(cfg, Initial(nowMs, salt), actions);
            Reported(c, s.tables, s.log, site, range, Today(s)) == OverDays(Truth(s, site, c), range.startTs, DayCount(range))
  {
    ColumnIsExactInEveryRun(cfg, nowMs, salt, actions, site, range, DeviceDim, c);
  }

  /** ... and a point of its chart the number of visitors with an event written for the site that day. */
  lemma ChartCountsVisitorsInEveryRun(cfg: Config, nowMs: int, salt: Field, actions: seq<Action>, site: string, day: int)
    requires cfg.retentionMonths >= 1 && ValidRun(cfg, Initial(nowMs, salt), actions)
    requires IsDay(day) && Closed.KeptDays(cfg, Initial(nowMs, salt), actions, OneDay(day))
    requires CollisionFreeOn(cfg.adapters.hash, Run(cfg, Initial(nowMs, salt), actions).hashed)
    ensures var s := Run(cfg, Initial(nowMs, salt), actions);
            ChartPoint(s.tables, s.log, site, Today(s))(day) == |VisitorIds(s.written, site, Whole, day, day + 86_400)|
  {
    var s := Run(cfg, Initial(nowMs, salt), actions);
    OverviewIsExactInEveryRun(cfg, nowMs, salt, actions, site, OneDay(day), VisitorsCol);
    PointOfDay(s, site, day);
  }

  lemma PointOfDay(s: State, site: string, day: int)
    requires Reported(VisitorsCol, s.tables, s.log, site, OneDay(day), Today(s))
          == OverDays(Truth(s, site, VisitorsCol), OneDay(day).startTs, DayCount(OneDay(day)))
    ensures ChartPoint(s.tables, s.log, site, Today(s))(day) == |VisitorIds(s.written, site, Whole, day, day + 86_400)|
  {
    OverOneDay(Truth(s, site, VisitorsCol), day);
    TrueVisitors(s, site, day);
  }

  lemma TrueVisitors(s: State, site: string, day: int)
    ensures Truth(s, site, VisitorsCol)(day) == |VisitorIds(s.written, site, Whole, day, day + 86_400)|
  {}

  lemma OverOneDay(f: int -> int, day: int)
    ensures OverDays(f, OneDay(day).startTs, DayCount(OneDay(day))) == f(day)
  {
    assert DayCount(OneDay(day)) == 1 && NthDay(day, 0) == day;
    assert OverDays(f, day, 0) == 0;
  }

  class DashboardRoutes {
    const querySiteMetrics: QuerySiteMetrics

    constructor (querySiteMetrics: QuerySiteMetrics)
      ensures this.querySiteMetrics == querySiteMetrics
    {
      this.querySiteMetrics := querySiteMetrics;
    }

    method Headline(site: string, range: Range, nowMs: int) returns (totals: Counters)
      ensures var db := querySiteMetrics.repository.db;
              forall c {:trigger Get(c, totals)} ::
                Get(c, totals) == Reported(c, db.TablesOf(), db.events, site, range, TodayStart(nowMs))
    {
      var rows := querySiteMetrics.Execute(site, range, DeviceDim, nowMs);
      totals := SumMetricRows(rows);
      ghost var db := querySiteMetrics.repository.db;
      forall c
        ensures Get(c, totals) == Reported(c, db.TablesOf(), db.events, site, range, TodayStart(nowMs))
      {
        SumOfListing(c, rows, MetricsReport(db.TablesOf(), db.events, site, range, DeviceDim, TodayStart(nowMs)));
      }
    }

    /** One query a day; a single day reuses the headline's rows. */
    method DailyVisitors(site: string, days: seq<int>, headline: Counters, nowMs: int, ghost point: int -> int)
      returns (visitors: seq<int>)
      requires var db := querySiteMetrics.repository.db;
               IsChart(point, db.TablesOf(), db.events, site, TodayStart(nowMs))
      requires |days| == 1 ==> headline.visitors == point(days[0])
      ensures |visitors| == |days| && forall i | 0 <= i < |days| :: visitors[i] == point(days[i])
    {
      visitors := [];
      for i := 0 to |days|
        invariant |visitors| == i
        invariant forall j | 0 <= j < i :: visitors[j] == point(days[j])
      {
        var sum := headline;
        if |days| != 1 {
          sum := Headline(site, OneDay(days[i]), nowMs);
          assert Get(VisitorsCol, sum) == point(days[i]);
        }
        visitors := visitors + [sum.visitors];
      }
    }

    /** The device breakdown gives the headline and, day by day, the chart. */
    method RenderOverview(site: string, range: Range, nowMs: int) returns (page: Overview, ghost point: int -> int)
      requires Aligned(range)
      ensures var db := querySiteMetrics.repository.db;
              forall c {:trigger Get(c, page.totals)} ::
                Get(c, page.totals) == Reported(c, db.TablesOf(), db.events, site, range, TodayStart(nowMs))
      ensures var db := querySiteMetrics.repository.db;
              IsChart(point, db.TablesOf(), db.events, site, TodayStart(nowMs))
      ensures |page.dailyVisitors| == DayCount(range)
      ensures forall i | 0 <= i < DayCount(range) :: page.dailyVisitors[i] == point(NthDay(range.startTs, i))
    {
      ghost var db := querySiteMetrics.repository.db;
      point := TheChart(db.TablesOf(), db.events, site, TodayStart(nowMs));
      var totals := Headline(site, range, nowMs);
      var days := DaysInRange(range);
      if |days| == 1 {
        OneDayPoint(db.TablesOf(), db.events, site, range, TodayStart(nowMs), totals, point);
      }
      var dailyVisitors := DailyVisitors(site, days, totals, nowMs, point);
      page := Overview(totals, dailyVisitors);
    }
  }

  /** buildTimeRange: whole days, ending with today. */
  datatype RangeKey = RangeToday | Range7d | Range30d | Range12m

  function TrailingDays(key: RangeKey): int {
    match key
    case RangeToday => 1
    case Range7d => 7
    case Range30d => 30
    case Range12m => 365
  }

  function BuildTimeRange(key: RangeKey, nowSeconds: int): (range: Range)
    ensures Aligned(range) && DayCount(range) == TrailingDays(key)
    ensures key == RangeToday ==> range.endTs - range.startTs == 86_400
    ensures key == Range7d ==> range.endTs - range.startTs == 7 * 86_400
    ensures key == Range30d ==> range.endTs - range.startTs == 30 * 86_400
    ensures key == Range12m ==> range.endTs - range.startTs == 365 * 86_400
    ensures range.startTs <= nowSeconds < range.endTs && ClosedDays(range, DayStart(nowSeconds)) == DayCount(range) - 1
  {
    var todayStart := DayStart(nowSeconds);
    Range(todayStart - (TrailingDays(key) - 1) * SECONDS_PER_DAY, todayStart + SECONDS_PER_DAY)
  }

  lemma OneDayTotal(c: Column, daily: int -> map<string, Counters>, day: int)
    ensures ColumnSum(c, DailyTotal(METRICS, daily, day, DayCount(OneDay(day)))) == DayColumn(c, daily)(day)
  {
    ColumnSumOfTotal(c, daily, day, 1);
    assert DayCount(OneDay(day)) == 1;
    assert OverDays(DayColumn(c, daily), day, 0) == 0 && NthDay(day, 0) == day;
  }

  function Sum(values: seq<int>): int {
    if values == [] then 0 else Sum(values[..|values| - 1]) + values[|values| - 1]
  }

  lemma {:induction false} SumIsOverDays(values: seq<int>, f: int -> int, start: int)
    requires forall i | 0 <= i < |values| :: values[i] == f(NthDay(start, i))
    ensures Sum(values) == OverDays(f, start, |values|)
  {
    if values != [] {
      SumIsOverDays(values[..|values| - 1], f, start);
    }
  }
}
