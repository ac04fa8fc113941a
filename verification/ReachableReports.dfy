/**
 The dashboard's numbers in every reachable state, whether or not the days that
 are over have been rebuilt, and whatever the configuration.
 */
module ReachableReports {
  import opened TrackedEvent
  import opened TimeRange
  import opened Database
  import opened Listing
  import opened Metrics
  import opened MetricsRepository
  import opened QuerySiteMetrics
  import opened RollupLaws
  import opened RangeReports
  import opened VisitorId
  import opened Pipeline
  import opened Dashboard
  import opened ScrollDepth
  import Closed = ClosedDays

  // ---- what a query shows of each day ----

  function StoredKeys<T(==), R>(cells: map<Cell<T>, R>, table: T, site: string, day: int): set<string> {
    set c | c in cells.Keys && c.table == table && c.site == site && c.day == day :: c.key
  }

  lemma StoredKey<T, R>(cells: map<Cell<T>, R>, table: T, site: string, day: int, key: string)
    ensures key in StoredKeys(cells, table, site, day) <==> Cell(table, day, site, key) in cells
  {
    if key in StoredKeys(cells, table, site, day) {
      var c :| c in cells.Keys && c.table == table && c.site == site && c.day == day && c.key == key;
      assert c == Cell(table, day, site, key);
    }
    if Cell(table, day, site, key) in cells {
      assert Cell(table, day, site, key) in cells.Keys;
    }
  }

  /** What one table stores for a site and a day. */
  function StoredRows<T(==), R>(cells: map<Cell<T>, R>, table: T, site: string, day: int): map<string, R> {
    map key | key in StoredKeys(cells, table, site, day) :: StoredKey(cells, table, site, day, key); cells[Cell(table, day, site, key)]
  }

  /** A day's report as the dashboard reads it: the stored rows once the day is over, until then the log. */
  function Shown(s: State, d: Dimension, site: string): int -> map<string, Counters> {
    day => if day < Today(s) then StoredRows(s.tables.metrics, d, site, day) else DayReport(s.log, d, site, day)
  }

  function ShownScroll(s: State, site: string): int -> map<string, ScrollCounters> {
    day => if day < Today(s) then StoredRows(s.tables.scroll, ScrollTable, site, day) else DayScrollReport(s.log, site, day)
  }

  lemma StoredCell<T, R>(cells: map<Cell<T>, R>, table: T, site: string, day: int, key: string)
    ensures var cell := Cell(table, day, site, key);
            && (cell in cells <==> key in StoredRows(cells, table, site, day))
            && (cell in cells ==> cells[cell] == StoredRows(cells, table, site, day)[key])
  {
    StoredKey(cells, table, site, day, key);
  }

  lemma StoredTableHolds<T(!new), R>(cells: map<Cell<T>, R>, table: T, site: string, daily: int -> map<string, R>, start: int, days: nat)
    requires forall c | c in cells :: IsDay(c.day)
    requires forall n | 0 <= n < days :: daily(NthDay(start, n)) == StoredRows(cells, table, site, NthDay(start, n))
    ensures TableHolds(cells, table, site, daily, start, days)
  {
    forall n: nat, key | n < days
      ensures var cell := Cell(table, NthDay(start, n), site, key);
              && (cell in cells <==> key in daily(NthDay(start, n)))
              && (cell in cells ==> cells[cell] == daily(NthDay(start, n))[key])
    {
      StoredCell(cells, table, site, NthDay(start, n), key);
    }
  }

  lemma AnswersShownDays<R>(raw: Range -> map<string, R>, daily: int -> map<string, R>, shown: int -> map<string, R>, start: int, days: nat)
    requires AnswersDays(raw, daily, start, days)
    requires forall n | 0 <= n < days :: shown(NthDay(start, n)) == daily(NthDay(start, n))
    ensures AnswersDays(raw, shown, start, days)
  {
    assert NthDay(start, 0) == start;
  }

  /** The closed part of the range lies before today, the open part does not. */
  lemma DaysAreShown(range: Range, today: int, start: int, days: nat)
    requires Aligned(range) && IsDay(today) && OpenDays(range, today, start, days)
    ensures forall n | 0 <= n < ClosedDays(range, today) :: NthDay(range.startTs, n) < today
    ensures forall n | 0 <= n < days :: today <= NthDay(start, n)
  {
    DayIndex(range.startTs, today);
    OpenDaysBegin(range, today, start, days);
  }

  /** Whatever the rollups hold. */
  lemma MetricsAreShown(s: State, site: string, range: Range, d: Dimension, start: int, days: nat)
    requires Dated(s) && Aligned(range) && IsDay(Today(s)) && OpenDays(range, Today(s), start, days)
    ensures MetricsReport(s.tables, s.log, site, range, d, Today(s))
         == DailyTotal(METRICS, Shown(s, d, site), range.startTs, DayCount(range))
  {
    RowsAddAssociatively();
    DaysAreShown(range, Today(s), start, days);
    StoredTableHolds(s.tables.metrics, d, site, Shown(s, d, site), range.startTs, ClosedDays(range, Today(s)));
    OpenDaysBegin(range, Today(s), start, days);
    RawAnswersDays(s.log, s.log, d, site, Today(s), start, days);
    AnswersShownDays(RawQuery(s.log, d, site), Daily(s.log, d, site), Shown(s, d, site), start, days);
    SplitReportIsDailyTotal(METRICS, s.tables.metrics, d, site, RawQuery(s.log, d, site), Shown(s, d, site), range, Today(s), start, days);
  }

  lemma ScrollIsShown(s: State, site: string, range: Range, start: int, days: nat)
    requires Dated(s) && Aligned(range) && IsDay(Today(s)) && OpenDays(range, Today(s), start, days)
    ensures ScrollReport(s.tables, s.log, site, range, Today(s))
         == DailyTotal(SCROLL, ShownScroll(s, site), range.startTs, DayCount(range))
  {
    RowsAddAssociatively();
    DaysAreShown(range, Today(s), start, days);
    StoredTableHolds(s.tables.scroll, ScrollTable, site, ShownScroll(s, site), range.startTs, ClosedDays(range, Today(s)));
    OpenDaysBegin(range, Today(s), start, days);
    RawScrollAnswersDays(s.log, s.log, site, Today(s), start, days);
    AnswersShownDays(RawScrollQuery(s.log, site), DailyScroll(s.log, site), ShownScroll(s, site), start, days);
    SplitReportIsDailyTotal(SCROLL, s.tables.scroll, ScrollTable, site, RawScrollQuery(s.log, site), ShownScroll(s, site),
                            range, Today(s), start, days);
  }

  /** Both reports are, over the range's days, the sum of what they show of each. */
  lemma ReportsAreShown(s: State, site: string, range: Range, d: Dimension)
    requires Dated(s) && Aligned(range)
    ensures MetricsReport(s.tables, s.log, site, range, d, Today(s))
         == DailyTotal(METRICS, Shown(s, d, site), range.startTs, DayCount(range))
    ensures ScrollReport(s.tables, s.log, site, range, Today(s))
         == DailyTotal(SCROLL, ShownScroll(s, site), range.startTs, DayCount(range))
  {
    var start, days := OpenStart(range, Today(s)), DayCount(range) - ClosedDays(range, Today(s));
    MetricsAreShown(s, site, range, d, start, days);
    ScrollIsShown(s, site, range, start, days);
  }

  // ---- the chart ----

  lemma ChartPointIsShown(s: State, site: string, day: int, point: int -> int)
    requires Dated(s) && IsDay(day) && IsChart(point, s.tables, s.log, site, Today(s))
    ensures point(day) == DayColumn(VisitorsCol, Shown(s, DeviceDim, site))(day)
  {
    assert point(day) == Reported(VisitorsCol, s.tables, s.log, site, OneDay(day), Today(s));
    ReportsAreShown(s, site, OneDay(day), DeviceDim);
    OneDayTotal(VisitorsCol, Shown(s, DeviceDim, site), day);
  }

  lemma ChartOfState(s: State, site: string, range: Range, chart: seq<int>, point: int -> int)
    requires Dated(s) && Aligned(range) && IsChart(point, s.tables, s.log, site, Today(s))
    requires |chart| == DayCount(range) && forall i | 0 <= i < |chart| :: chart[i] == point(NthDay(range.startTs, i))
    ensures Sum(chart) == Reported(VisitorsCol, s.tables, s.log, site, range, Today(s))
  {
    var f := DayColumn(VisitorsCol, Shown(s, DeviceDim, site));
    DayIndex(range.startTs, range.endTs);
    forall i | 0 <= i < |chart|
      ensures chart[i] == f(NthDay(range.startTs, i))
    {
      ChartPointIsShown(s, site, NthDay(range.startTs, i), point);
    }
    SumIsOverDays(chart, f, range.startTs);
    ReportsAreShown(s, site, range, DeviceDim);
    ColumnSumOfTotal(VisitorsCol, Shown(s, DeviceDim, site), range.startTs, DayCount(range));
  }

  /** The chart's points add up to the headline's visitors: every day counts once in both, rebuilt or not. */
  lemma ChartAddsUpToHeadline(cfg: Config, nowMs: int, salt: Field, actions: seq<Action>, site: string, range: Range,
                              chart: seq<int>, point: int -> int)
    requires ValidRun(cfg, Initial(nowMs, salt), actions) && Aligned(range)
    requires |chart| == DayCount(range) && forall i | 0 <= i < |chart| :: chart[i] == point(NthDay(range.startTs, i))
    requires var s := Run(cfg, Initial(nowMs, salt), actions); IsChart(point, s.tables, s.log, site, Today(s))
    ensures var s := Run(cfg, Initial(nowMs, salt), actions);
            Sum(chart) == Reported(VisitorsCol, s.tables, s.log, site, range, Today(s))
  {
    RunKeepsDated(cfg, Initial(nowMs, salt), actions);
    ChartOfState(Run(cfg, Initial(nowMs, salt), actions), site, range, chart, point);
  }

  // ---- what every run keeps of the stored rows ----

  /** The path has a breakdown row that counts no fewer sessions than the scroll row. */
  ghost predicate HasPathRow(tables: Tables, c: Cell<ScrollTable>)
    requires c in tables.scroll
  {
    var path := Cell(PathDim, c.day, c.site, c.key);
    path in tables.metrics && 0 < tables.scroll[c].sessionCount <= tables.metrics[path].sessions
  }

  /** The depth sum averages between the milestones when the day's scroll events of the path all carried one. */
  ghost predicate DepthIsSound(row: ScrollCounters, written: seq<Event>, site: string, day: int, path: string) {
    MilestoneValues(written, site, path, day, day + SECONDS_PER_DAY) ==> AverageWithin(row, 25, 100)
  }

  /** Every stored row is one that some day's events can give. */
  ghost predicate RowsAreSound(tables: Tables, written: seq<Event>) {
    && (forall c | c in tables.metrics :: 0 <= tables.metrics[c].bounces <= tables.metrics[c].sessions)
    && (forall c | c in tables.scroll :: HasPathRow(tables, c))
    && (forall c | c in tables.scroll :: DepthIsSound(tables.scroll[c], written, c.site, c.day, c.key))
  }

  lemma CurrentMetricRow(tables: Tables, log: seq<Event>, day: int, c: Cell<Dimension>)
    requires Current(tables, log, day) && c in tables.metrics && c.day == day
    ensures 0 <= tables.metrics[c].bounces <= tables.metrics[c].sessions
  {
    assert MetricsCurrent(tables.metrics, log, c.table, day);
    CurrentCell(tables.metrics, log, c.table, c.site, day, c.key);
    assert c == Cell(c.table, day, c.site, c.key);
    DayReportIsBounded(log, c.table, c.site, day);
  }

  lemma CurrentPathRow(tables: Tables, log: seq<Event>, day: int, c: Cell<ScrollTable>)
    requires Current(tables, log, day) && c in tables.scroll && c.day == day
    ensures HasPathRow(tables, c)
  {
    assert c.table.ScrollTable?;
    assert c == Cell(ScrollTable, day, c.site, c.key);
    CurrentScrollCell(tables.scroll, log, c.site, day, c.key);
    assert MetricsCurrent(tables.metrics, log, PathDim, day);
    CurrentCell(tables.metrics, log, PathDim, c.site, day, c.key);
    DayScrollSessions(log, c.site, day, c.key);
  }

  lemma DayDepthIsSound(log: seq<Event>, site: string, day: int, path: string)
    requires path in DayScrollReport(log, site, day)
    ensures DepthIsSound(DayScrollReport(log, site, day)[path], log, site, day, path)
  {
    if MilestoneValues(log, site, path, day, day + SECONDS_PER_DAY) {
      DayScrollRow(log, site, day, path);
    }
  }

  lemma SoundInMore(row: ScrollCounters, log: seq<Event>, written: seq<Event>, site: string, day: int, path: string)
    requires DepthIsSound(row, log, site, day, path) && forall e | e in log :: e in written
    ensures DepthIsSound(row, written, site, day, path)
  {}

  lemma CurrentDepth(scroll: ScrollCells, log: seq<Event>, written: seq<Event>, c: Cell<ScrollTable>)
    requires ScrollCurrent(scroll, log, c.day) && c in scroll && forall e | e in log :: e in written
    ensures DepthIsSound(scroll[c], written, c.site, c.day, c.key)
  {
    assert c.table.ScrollTable?;
    assert c == Cell(ScrollTable, c.day, c.site, c.key);
    CurrentScrollCell(scroll, log, c.site, c.day, c.key);
    DayDepthIsSound(log, c.site, c.day, c.key);
    SoundInMore(scroll[c], log, written, c.site, c.day, c.key);
  }

  /** A committed rebuild stores sound rows and leaves the other days alone. */
  lemma RebuiltRowsAreSound(tables: Tables, after: Tables, log: seq<Event>, written: seq<Event>, day: int)
    requires Current(after, log, day) && SameElsewhere(tables, after, day)
    requires RowsAreSound(tables, written) && forall e | e in log :: e in written
    ensures RowsAreSound(after, written)
  {
    forall c | c in after.metrics
      ensures 0 <= after.metrics[c].bounces <= after.metrics[c].sessions
    {
      if c.day == day {
        CurrentMetricRow(after, log, day, c);
      } else {
        assert SameCell(tables.metrics, after.metrics, c);
      }
    }
    forall c | c in after.scroll
      ensures HasPathRow(after, c) && DepthIsSound(after.scroll[c], written, c.site, c.day, c.key)
    {
      if c.day == day {
        CurrentPathRow(after, log, day, c);
        CurrentDepth(after.scroll, log, written, c);
      } else {
        assert SameCell(tables.scroll, after.scroll, c);
        assert HasPathRow(tables, c) && DepthIsSound(tables.scroll[c], written, c.site, c.day, c.key);
        assert SameCell(tables.metrics, after.metrics, Cell(PathDim, c.day, c.site, c.key));
      }
    }
  }

  lemma RebuiltKeepsRowsSound(tables: Tables, log: seq<Event>, written: seq<Event>, day: int)
    requires Storable(log, day) && RowsAreSound(tables, written) && forall e | e in log :: e in written
    ensures RowsAreSound(Rebuilt(tables, log, day), written)
  {
    RebuiltIsCurrent(tables, log, day);
    RebuiltRowsAreSound(tables, Rebuilt(tables, log, day), log, written, day);
  }

  lemma MoreWrittenKeepsRowsSound(tables: Tables, written: seq<Event>, more: seq<Event>)
    requires RowsAreSound(tables, written)
    ensures RowsAreSound(tables, written + more)
  {
    forall c | c in tables.scroll
      ensures DepthIsSound(tables.scroll[c], written + more, c.site, c.day, c.key)
    {
      assert DepthIsSound(tables.scroll[c], written, c.site, c.day, c.key);
      SoundInMore(tables.scroll[c], written, written + more, c.site, c.day, c.key);
    }
  }

  lemma StepKeepsRowsSound(cfg: Config, s: State, a: Action)
    requires Dated(s) && Enabled(s, a) && RowsAreSound(s.tables, s.written)
    ensures RowsAreSound(Step(cfg, s, a).tables, Step(cfg, s, a).written)
  {
    if a.RollupJob? && Storable(s.log, Yesterday(s)) {
      RebuiltKeepsRowsSound(s.tables, s.log, s.written, Yesterday(s));
    } else {
      Closed.OtherStepsKeepTables(cfg, s, a);
      var more := Closed.WrittenGrows(cfg, s, a);
      MoreWrittenKeepsRowsSound(s.tables, s.written, more);
    }
  }

  /** No run ever stores anything else. */
  lemma {:induction false} RunKeepsRowsSound(cfg: Config, s: State, actions: seq<Action>)
    requires Dated(s) && ValidRun(cfg, s, actions) && RowsAreSound(s.tables, s.written)
    ensures var end := Run(cfg, s, actions); Dated(end) && RowsAreSound(end.tables, end.written)
    decreases |actions|
  {
    if actions != [] {
      StepKeepsDated(cfg, s, actions[0]);
      StepKeepsRowsSound(cfg, s, actions[0]);
      RunKeepsRowsSound(cfg, Step(cfg, s, actions[0]), actions[1..]);
    }
  }

  // ---- the bounce rate ----

  lemma ShownDayIsBounded(s: State, d: Dimension, site: string, day: int)
    requires RowsAreSound(s.tables, s.written)
    ensures RowsAreBounded(Shown(s, d, site)(day))
  {
    if day < Today(s) {
      forall key | key in StoredRows(s.tables.metrics, d, site, day)
        ensures var row := StoredRows(s.tables.metrics, d, site, day)[key]; 0 <= row.bounces <= row.sessions
      {
        StoredCell(s.tables.metrics, d, site, day, key);
      }
    } else {
      DayReportIsBounded(s.log, d, site, day);
    }
  }

  /** In every reachable state, whatever the dimension and even with colliding hashes, a report's bounce rate is a fraction. */
  lemma BounceRateIsAFractionInEveryRun(cfg: Config, nowMs: int, salt: Field, actions: seq<Action>, site: string, range: Range,
                                        d: Dimension, rows: seq<Row<string, Counters>>)
    requires ValidRun(cfg, Initial(nowMs, salt), actions) && Aligned(range)
    requires var s := Run(cfg, Initial(nowMs, salt), actions);
             Lists(rows, MetricsReport(s.tables, s.log, site, range, d, Today(s)))
    ensures 0.0 <= BounceRate(SumOfRows(rows)) <= 1.0
  {
    var s := Run(cfg, Initial(nowMs, salt), actions);
    RunKeepsRowsSound(cfg, Initial(nowMs, salt), actions);
    ReportsAreShown(s, site, range, d);
    forall day
      ensures 0 <= DayColumn(BouncesCol, Shown(s, d, site))(day) <= DayColumn(SessionsCol, Shown(s, d, site))(day)
    {
      ShownDayIsBounded(s, d, site, day);
      ReportIsBounded(Shown(s, d, site)(day));
    }
    RangeRateIsAFraction(Shown(s, d, site), range.startTs, DayCount(range), rows);
  }

  // ---- the scroll table ----

  lemma ShownScrollSessions(s: State, site: string, day: int, path: string)
    requires RowsAreSound(s.tables, s.written) && path in ShownScroll(s, site)(day)
    ensures path in Shown(s, PathDim, site)(day)
    ensures 0 < ShownScroll(s, site)(day)[path].sessionCount <= Shown(s, PathDim, site)(day)[path].sessions
  {
    if day < Today(s) {
      StoredCell(s.tables.scroll, ScrollTable, site, day, path);
      StoredCell(s.tables.metrics, PathDim, site, day, path);
      assert HasPathRow(s.tables, Cell(ScrollTable, day, site, path));
    } else {
      DayScrollSessions(s.log, site, day, path);
    }
  }

  lemma ShownScrollRow(s: State, site: string, day: int, path: string)
    requires RowsAreSound(s.tables, s.written) && forall e | e in s.log :: e in s.written
    requires path in ShownScroll(s, site)(day) && MilestoneValues(s.written, site, path, day, day + SECONDS_PER_DAY)
    ensures AverageWithin(ShownScroll(s, site)(day)[path], 25, 100)
  {
    if day < Today(s) {
      StoredCell(s.tables.scroll, ScrollTable, site, day, path);
      assert DepthIsSound(s.tables.scroll[Cell(ScrollTable, day, site, path)], s.written, site, day, path);
    } else {
      DayScrollRow(s.log, site, day, path);
    }
  }

  lemma ShownRangeRow(s: State, site: string, range: Range, path: string)
    requires RowsAreSound(s.tables, s.written) && (forall e | e in s.log :: e in s.written) && Aligned(range)
    requires MilestoneValues(s.written, site, path, range.startTs, range.endTs)
    requires path in DailyKeys(ShownScroll(s, site), range.startTs, DayCount(range))
    ensures AverageWithin(DailySum(SCROLL, ShownScroll(s, site), range.startTs, DayCount(range), path), 25, 100)
  {
    DayIndex(range.startTs, range.endTs);
    forall n | 0 <= n < DayCount(range) && path in ShownScroll(s, site)(NthDay(range.startTs, n))
      ensures AverageWithin(ShownScroll(s, site)(NthDay(range.startTs, n))[path], 25, 100)
    {
      ShownScrollRow(s, site, NthDay(range.startTs, n), path);
    }
    RangeRowWithin(ShownScroll(s, site), range.startTs, DayCount(range), path, 25, 100);
  }

  lemma ShownOutnumbers(s: State, site: string, path: string)
    requires RowsAreSound(s.tables, s.written)
    ensures Outnumbers(ShownScroll(s, site), Shown(s, PathDim, site), path)
  {
    forall day | path in ShownScroll(s, site)(day)
      ensures path in Shown(s, PathDim, site)(day)
      ensures 0 < ShownScroll(s, site)(day)[path].sessionCount <= Shown(s, PathDim, site)(day)[path].sessions
    {
      ShownScrollSessions(s, site, day, path);
    }
    forall day | path in Shown(s, PathDim, site)(day)
      ensures Shown(s, PathDim, site)(day)[path].sessions >= 0
    {
      ShownDayIsBounded(s, PathDim, site, day);
    }
  }

  /**
   In every reachable state every path with scroll data has a breakdown row, no
   fewer sessions than scrolled, and, when its own scroll events of the range carry
   milestones, an average between 25 and 100.
   */
  lemma ScrollTableIsSoundInEveryRun(cfg: Config, nowMs: int, salt: Field, actions: seq<Action>, site: string, range: Range,
                                     path: string)
    requires ValidRun(cfg, Initial(nowMs, salt), actions) && Aligned(range)
    requires var s := Run(cfg, Initial(nowMs, salt), actions); path in ScrollReport(s.tables, s.log, site, range, Today(s))
    ensures var s := Run(cfg, Initial(nowMs, salt), actions);
            var row := ScrollReport(s.tables, s.log, site, range, Today(s))[path];
            var paths := MetricsReport(s.tables, s.log, site, range, PathDim, Today(s));
            && path in paths && 0 < row.sessionCount <= paths[path].sessions
            && (MilestoneValues(s.written, site, path, range.startTs, range.endTs) ==>
                  25.0 <= AverageScrollDepth(row).value <= 100.0)
  {
    var s := Run(cfg, Initial(nowMs, salt), actions);
    RunKeepsRowsSound(cfg, Initial(nowMs, salt), actions);
    ReportsAreShown(s, site, range, PathDim);
    ShownOutnumbers(s, site, path);
    RangeOutnumbers(ShownScroll(s, site), Shown(s, PathDim, site), range.startTs, DayCount(range), path);
    if MilestoneValues(s.written, site, path, range.startTs, range.endTs) {
      ShownRangeRow(s, site, range, path);
      AverageLiesWithin(ScrollReport(s.tables, s.log, site, range, Today(s))[path], 25, 100);
    }
  }
}
