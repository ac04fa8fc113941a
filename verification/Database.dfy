/** The stored tables, as the values the queries read and the in-place object the adapters share. */
module Database {
  import opened Wrappers
  import opened TrackedEvent
  import opened Aggregates
  import opened TimeRange

  /** The primary key of a rollup table, together with the table's name. */
  datatype Cell<+T> = Cell(table: T, day: int, site: string, key: string)

  datatype Counters = Counters(pageviews: int, visitors: int, sessions: int, bounces: int, engagementSeconds: int)

  datatype ScrollCounters = ScrollCounters(depthSum: int, sessionCount: int)

  /** There is one metrics table per dimension and a single scroll table. */
  datatype ScrollTable = ScrollTable

  type MetricCells = map<Cell<Dimension>, Counters>
  type ScrollCells = map<Cell<ScrollTable>, ScrollCounters>

  datatype Tables = Tables(metrics: MetricCells, scroll: ScrollCells)

  /** Every column of a rollup table is NOT NULL. */
  function StoredCounters(row: AggregatedRow): Option<Counters> {
    match row.engagement
    case None => None
    case Some(engagement) =>
      Some(Counters(row.pageviews, row.visitors, row.sessions, row.bounces, engagement))
  }

  function StoredScroll(row: ScrollRow): Option<ScrollCounters> {
    match row.depthSum
    case None => None
    case Some(depthSum) => Some(ScrollCounters(depthSum, row.sessionCount))
  }

  /** One table's rows of a day removed. */
  function WithoutDay<T(==), R>(cells: map<Cell<T>, R>, table: T, day: int): map<Cell<T>, R> {
    map c | c in cells && !(c.table == table && c.day == day) :: cells[c]
  }

  /** One day's report as the cells it occupies. */
  function DayCells<T(==), R>(table: T, day: int, report: map<SiteKey, R>): map<Cell<T>, R> {
    map k | k in report :: Cell(table, day, k.site, k.key) := report[k]
  }

  function DayRows(log: seq<Event>, day: int): seq<Event> {
    Window(log, day, day + SECONDS_PER_DAY)
  }

  /** Every row of a grouped report can be inserted. */
  predicate AllStored<A, R>(report: map<SiteKey, A>, stored: A -> Option<R>) {
    forall k | k in report :: stored(report[k]).Some?
  }

  function StoredReport<A, R>(report: map<SiteKey, A>, stored: A -> Option<R>): map<SiteKey, R>
    requires AllStored(report, stored)
  {
    map k | k in report :: stored(report[k]).value
  }

  predicate MetricsStorable(log: seq<Event>, d: Dimension, day: int) {
    AllStored(RollupReport(DayRows(log, day), d), StoredCounters)
  }

  predicate ScrollStorable(log: seq<Event>, day: int) {
    AllStored(RollupScrollReport(DayRows(log, day)), StoredScroll)
  }

  /** No group of the day aggregates to NULL, in any table. */
  predicate Storable(log: seq<Event>, day: int) {
    (forall d: Dimension :: MetricsStorable(log, d, day)) && ScrollStorable(log, day)
  }

  function RebuiltDimension(metrics: MetricCells, log: seq<Event>, d: Dimension, day: int): MetricCells
    requires MetricsStorable(log, d, day)
  {
    WithoutDay(metrics, d, day) + DayCells(d, day, StoredReport(RollupReport(DayRows(log, day), d), StoredCounters))
  }

  function RebuiltDimensions(metrics: MetricCells, log: seq<Event>, dims: seq<Dimension>, day: int): MetricCells
    requires forall d | d in dims :: MetricsStorable(log, d, day)
  {
    if dims == [] then metrics
    else
      var last := |dims| - 1;
      RebuiltDimension(RebuiltDimensions(metrics, log, dims[..last], day), log, dims[last], day)
  }

  function RebuiltScroll(scroll: ScrollCells, log: seq<Event>, day: int): ScrollCells
    requires ScrollStorable(log, day)
  {
    WithoutDay(scroll, ScrollTable, day)
    + DayCells(ScrollTable, day, StoredReport(RollupScrollReport(DayRows(log, day)), StoredScroll))
  }

  /** What one committed rebuild leaves behind. */
  function Rebuilt(tables: Tables, log: seq<Event>, day: int): Tables
    requires Storable(log, day)
  {
    Tables(RebuiltDimensions(tables.metrics, log, DIMENSIONS, day), RebuiltScroll(tables.scroll, log, day))
  }

  /** What one rebuild leaves behind, committed or rolled back. */
  function RolledUp(tables: Tables, log: seq<Event>, day: int): Tables {
    if Storable(log, day) then Rebuilt(tables, log, day) else tables
  }

  class Database {
    var events: seq<Event>
    var metrics: MetricCells
    var scroll: ScrollCells

    constructor ()
      ensures events == [] && TablesOf() == Tables(map[], map[])
    {
      events := [];
      metrics := map[];
      scroll := map[];
    }

    function TablesOf(): Tables
      reads this
    {
      Tables(metrics, scroll)
    }
  }
}
