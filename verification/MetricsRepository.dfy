/** The two ways of answering a report: from the rollup tables, and from the raw log. */
module MetricsRepository {
  import opened TrackedEvent
  import opened Aggregates
  import opened TimeRange
  import opened Database
  import opened Metrics

  /** SUM over one site's and key's rows with start <= day < end. The primary key allows one row a day. */
  function SumOverDays<T(==), R>(add: Adder<R>, cells: map<Cell<T>, R>, table: T, site: string, key: string,
                                 start: int, end: int): R
    decreases end - start
  {
    if end <= start then add.zero
    else
      var cell := Cell(table, end - 1, site, key);
      var earlier := SumOverDays(add, cells, table, site, key, start, end - 1);
      if cell in cells then add.plus(earlier, cells[cell]) else earlier
  }

  function KeysInRange<T(==), R>(cells: map<Cell<T>, R>, table: T, site: string, range: Range): set<string> {
    set c | c in cells.Keys && c.table == table && c.site == site && range.startTs <= c.day < range.endTs :: c.key
  }

  /** Per key of the site in the range's days, its stored rows added up. */
  function RollupAnswer<T(==), R>(add: Adder<R>, cells: map<Cell<T>, R>, table: T, site: string, range: Range): map<string, R> {
    map key | key in KeysInRange(cells, table, site, range) ::
      SumOverDays(add, cells, table, site, key, range.startTs, range.endTs)
  }

  function RawAnswer(log: seq<Event>, d: Dimension, site: string, range: Range): map<string, Counters> {
    var report := RawReport(OfSite(Window(log, range.startTs, range.endTs), site), d);
    map key | key in report :: ToMetricRow(report[key])
  }

  function RawScrollAnswer(log: seq<Event>, site: string, range: Range): map<string, ScrollCounters> {
    var report := RawScrollReport(OfSite(Window(log, range.startTs, range.endTs), site));
    map path | path in report :: ToScrollDepthAggregate(report[path])
  }

  // The three queries as functions of the range alone.

  function RollupQuery<T(==), R>(add: Adder<R>, cells: map<Cell<T>, R>, table: T, site: string): Range -> map<string, R> {
    range => RollupAnswer(add, cells, table, site, range)
  }

  function RawQuery(log: seq<Event>, d: Dimension, site: string): Range -> map<string, Counters> {
    range => RawAnswer(log, d, site, range)
  }

  function RawScrollQuery(log: seq<Event>, site: string): Range -> map<string, ScrollCounters> {
    range => RawScrollAnswer(log, site, range)
  }

  class SqliteMetricsRepository {
    const db: Database

    constructor (db: Database)
      ensures this.db == db
    {
      this.db := db;
    }

    function QueryRollup(site: string, range: Range, d: Dimension): map<string, Counters>
      reads db
    {
      RollupAnswer(METRICS, db.metrics, d, site, range)
    }

    function QueryRaw(site: string, range: Range, d: Dimension): map<string, Counters>
      reads db
    {
      RawAnswer(db.events, d, site, range)
    }
  }

  class SqliteScrollDepthRepository {
    const db: Database

    constructor (db: Database)
      ensures this.db == db
    {
      this.db := db;
    }

    function QueryRollup(site: string, range: Range): map<string, ScrollCounters>
      reads db
    {
      RollupAnswer(SCROLL, db.scroll, ScrollTable, site, range)
    }

    function QueryRaw(site: string, range: Range): map<string, ScrollCounters>
      reads db
    {
      RawScrollAnswer(db.events, site, range)
    }
  }
}
