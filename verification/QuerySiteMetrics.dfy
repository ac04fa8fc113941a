/** The dashboard read: closed days from the rollups, today from the raw log, merged by key. */
module QuerySiteMetrics {
  import opened Wrappers
  import opened TrackedEvent
  import opened TimeRange
  import opened Database
  import opened Listing
  import opened Metrics
  import opened MetricsRepository

  function TodayStart(nowMs: int): int {
    DayStart(nowMs / 1000)
  }

  /** The part of a range the rollups answer. */
  function ClosedPart(range: Range, today: int): Option<Range> {
    var closedEnd := if range.endTs < today then range.endTs else today;
    if range.startTs < closedEnd then Some(Range(range.startTs, closedEnd)) else None
  }

  /** The part of a range the raw log answers. */
  function OpenPart(range: Range, today: int): Option<Range> {
    if range.endTs > today then Some(Range(if range.startTs < today then today else range.startTs, range.endTs))
    else None
  }

  predicate Covers(part: Option<Range>, ts: int) {
    part.Some? && part.value.startTs <= ts < part.value.endTs
  }

  /** The two parts neither overlap nor leave a gap. */
  lemma PartsPartitionTheRange(range: Range, today: int, ts: int)
    ensures range.startTs <= ts < range.endTs <==> Covers(ClosedPart(range, today), ts) || Covers(OpenPart(range, today), ts)
    ensures !(Covers(ClosedPart(range, today), ts) && Covers(OpenPart(range, today), ts))
    ensures Covers(ClosedPart(range, today), ts) ==> ts < today
    ensures Covers(OpenPart(range, today), ts) ==> today <= ts
  {}

  function Answer<R>(part: Option<Range>, query: Range -> map<string, R>): map<string, R> {
    match part
    case None => map[]
    case Some(range) => query(range)
  }

  /** The merged report the two sources give together. */
  function SplitReport<R>(add: Adder<R>, range: Range, today: int, rollup: Range -> map<string, R>, raw: Range -> map<string, R>)
    : map<string, R>
  {
    Plus(add, Answer(ClosedPart(range, today), rollup), Answer(OpenPart(range, today), raw))
  }

  function MetricsReport(tables: Tables, log: seq<Event>, site: string, range: Range, d: Dimension, today: int): map<string, Counters> {
    SplitReport(METRICS, range, today, RollupQuery(METRICS, tables.metrics, d, site), RawQuery(log, d, site))
  }

  function ScrollReport(tables: Tables, log: seq<Event>, site: string, range: Range, today: int): map<string, ScrollCounters> {
    SplitReport(SCROLL, range, today, RollupQuery(SCROLL, tables.scroll, ScrollTable, site), RawScrollQuery(log, site))
  }

  class QuerySiteMetrics {
    const repository: SqliteMetricsRepository

    constructor (repository: SqliteMetricsRepository)
      ensures this.repository == repository
    {
      this.repository := repository;
    }

    method Execute(site: string, range: Range, d: Dimension, nowMs: int) returns (result: seq<Row<string, Counters>>)
      ensures Lists(result, MetricsReport(repository.db.TablesOf(), repository.db.events, site, range, d, TodayStart(nowMs)))
    {
      var todayStart := DayStart(nowMs / 1000);
      var closedEnd := if range.endTs < todayStart then range.endTs else todayStart;
      var rows: seq<Row<string, Counters>> := [];
      if range.startTs < closedEnd {
        rows := ListRows(repository.QueryRollup(site, Range(range.startTs, closedEnd), d));
      }
      var todayRows: seq<Row<string, Counters>> := [];
      if range.endTs > todayStart {
        var todayRange := Range(if range.startTs < todayStart then todayStart else range.startTs, range.endTs);
        todayRows := ListRows(repository.QueryRaw(site, todayRange, d));
      }
      MergedOfTwo(METRICS, rows, todayRows,
                  Answer(ClosedPart(range, todayStart), RollupQuery(METRICS, repository.db.metrics, d, site)),
                  Answer(OpenPart(range, todayStart), RawQuery(repository.db.events, d, site)));
      result := MergeRowsByKey(METRICS, rows + todayRows);
    }
  }

  class QuerySiteScrollDepth {
    const repository: SqliteScrollDepthRepository

    constructor (repository: SqliteScrollDepthRepository)
      ensures this.repository == repository
    {
      this.repository := repository;
    }

    method Execute(site: string, range: Range, nowMs: int) returns (result: seq<Row<string, ScrollCounters>>)
      ensures Lists(result, ScrollReport(repository.db.TablesOf(), repository.db.events, site, range, TodayStart(nowMs)))
    {
      var todayStart := DayStart(nowMs / 1000);
      var closedEnd := if range.endTs < todayStart then range.endTs else todayStart;
      var rows: seq<Row<string, ScrollCounters>> := [];
      if range.startTs < closedEnd {
        rows := ListRows(repository.QueryRollup(site, Range(range.startTs, closedEnd)));
      }
      var todayRows: seq<Row<string, ScrollCounters>> := [];
      if range.endTs > todayStart {
        var todayRange := Range(if range.startTs < todayStart then todayStart else range.startTs, range.endTs);
        todayRows := ListRows(repository.QueryRaw(site, todayRange));
      }
      MergedOfTwo(SCROLL, rows, todayRows,
                  Answer(ClosedPart(range, todayStart), RollupQuery(SCROLL, repository.db.scroll, ScrollTable, site)),
                  Answer(OpenPart(range, todayStart), RawScrollQuery(repository.db.events, site)));
      result := MergeRowsByKey(SCROLL, rows + todayRows);
    }
  }
}
