/** What a committed rebuild guarantees, and exactly when a rebuild commits. */
module RollupLaws {
  import opened Wrappers
  import opened TrackedEvent
  import opened Aggregates
  import opened Database

  /** A site's raw report for one day, as an independent query would compute it. */
  function SiteDay(log: seq<Event>, d: Dimension, site: string, day: int): map<string, AggregatedRow> {
    RawReport(OfSite(DayRows(log, day), site), d)
  }

  function SiteScrollDay(log: seq<Event>, site: string, day: int): map<string, ScrollRow> {
    RawScrollReport(OfSite(DayRows(log, day), site))
  }

  function SiteDays(log: seq<Event>, d: Dimension, day: int): string -> map<string, AggregatedRow> {
    site => SiteDay(log, d, site, day)
  }

  function SiteScrollDays(log: seq<Event>, day: int): string -> map<string, ScrollRow> {
    site => SiteScrollDay(log, site, day)
  }

  /** The cells one table stores for `day` are exactly the daily reports, for every site. */
  ghost predicate HoldsDay<T(!new), A, R>(cells: map<Cell<T>, R>, table: T, day: int,
                                    daily: string -> map<string, A>, stored: A -> Option<R>) {
    forall site, key ::
      var cell := Cell(table, day, site, key);
      && (cell in cells <==> key in daily(site))
      && (cell in cells ==> stored(daily(site)[key]) == Some(cells[cell]))
  }

  ghost predicate MetricsCurrent(metrics: MetricCells, log: seq<Event>, d: Dimension, day: int) {
    HoldsDay(metrics, d, day, SiteDays(log, d, day), StoredCounters)
  }

  ghost predicate ScrollCurrent(scroll: ScrollCells, log: seq<Event>, day: int) {
    HoldsDay(scroll, ScrollTable, day, SiteScrollDays(log, day), StoredScroll)
  }

  ghost predicate Current(tables: Tables, log: seq<Event>, day: int) {
    (forall d: Dimension :: MetricsCurrent(tables.metrics, log, d, day)) && ScrollCurrent(tables.scroll, log, day)
  }

  /** Two versions of the tables agree on `c`. */
  ghost predicate SameCell<T(!new), R>(a: map<Cell<T>, R>, b: map<Cell<T>, R>, c: Cell<T>) {
    (c in a <==> c in b) && (c in a ==> a[c] == b[c])
  }

  /** Two versions of the tables agree on every cell of every other day. */
  ghost predicate SameElsewhere(before: Tables, after: Tables, day: int) {
    && (forall c: Cell<Dimension> | c.day != day :: SameCell(before.metrics, after.metrics, c))
    && (forall c: Cell<ScrollTable> | c.day != day :: SameCell(before.scroll, after.scroll, c))
  }

  /** Delete-then-insert of a grouped report leaves exactly the per-site reports behind. */
  lemma ReplacedHoldsDay<T(!new), A, R>(cells: map<Cell<T>, R>, table: T, day: int, report: map<SiteKey, A>,
                                  daily: string -> map<string, A>, stored: A -> Option<R>)
    requires AllStored(report, stored)
    requires forall site, key :: SiteKey(site, key) in report <==> key in daily(site)
    requires forall site, key | key in daily(site) :: report[SiteKey(site, key)] == daily(site)[key]
    ensures HoldsDay(WithoutDay(cells, table, day) + DayCells(table, day, StoredReport(report, stored)),
                     table, day, daily, stored)
  {
    var inserted := StoredReport(report, stored);
    var after := WithoutDay(cells, table, day) + DayCells(table, day, inserted);
    forall site, key
      ensures var cell := Cell(table, day, site, key);
              && (cell in after <==> key in daily(site))
              && (cell in after ==> stored(daily(site)[key]) == Some(after[cell]))
    {
      assert Cell(table, day, site, key) in DayCells(table, day, inserted) <==> SiteKey(site, key) in inserted;
    }
  }

  lemma RebuiltDimensionIsCurrent(metrics: MetricCells, log: seq<Event>, d: Dimension, day: int)
    requires MetricsStorable(log, d, day)
    ensures MetricsCurrent(RebuiltDimension(metrics, log, d, day), log, d, day)
  {
    forall site, key
      ensures SiteKey(site, key) in RollupReport(DayRows(log, day), d) <==> key in SiteDay(log, d, site, day)
      ensures key in SiteDay(log, d, site, day) ==>
                RollupReport(DayRows(log, day), d)[SiteKey(site, key)] == SiteDay(log, d, site, day)[key]
    {
      RollupAgreesWithRaw(DayRows(log, day), d, site, key);
    }
    ReplacedHoldsDay(metrics, d, day, RollupReport(DayRows(log, day), d), SiteDays(log, d, day), StoredCounters);
  }

  lemma RebuiltDimensionKeepsOthers(metrics: MetricCells, log: seq<Event>, d: Dimension, day: int)
    requires MetricsStorable(log, d, day)
    ensures forall c: Cell<Dimension> | !(c.table == d && c.day == day) ::
              SameCell(metrics, RebuiltDimension(metrics, log, d, day), c)
  {}

  lemma RebuiltOneMore(metrics: MetricCells, mid: MetricCells, after: MetricCells, log: seq<Event>, done: seq<Dimension>,
                       last: Dimension, day: int)
    requires forall d | d in done :: MetricsCurrent(mid, log, d, day)
    requires forall c: Cell<Dimension> | c.table !in done || c.day != day :: SameCell(metrics, mid, c)
    requires MetricsCurrent(after, log, last, day)
    requires forall c: Cell<Dimension> | !(c.table == last && c.day == day) :: SameCell(mid, after, c)
    ensures forall d | d in done + [last] :: MetricsCurrent(after, log, d, day)
    ensures forall c: Cell<Dimension> | c.table !in done + [last] || c.day != day :: SameCell(metrics, after, c)
  {
    forall d | d in done && d != last
      ensures MetricsCurrent(after, log, d, day)
    {
      HoldsDayFrame(mid, after, d, day, SiteDays(log, d, day), StoredCounters);
    }
    forall c: Cell<Dimension> | c.table !in done + [last] || c.day != day
      ensures SameCell(metrics, after, c)
    {
      assert SameCell(metrics, mid, c) && SameCell(mid, after, c);
    }
  }

  lemma {:induction false} RebuiltDimensionsCells(metrics: MetricCells, log: seq<Event>, dims: seq<Dimension>, day: int)
    requires forall d | d in dims :: MetricsStorable(log, d, day)
    ensures forall d | d in dims :: MetricsCurrent(RebuiltDimensions(metrics, log, dims, day), log, d, day)
    ensures forall c: Cell<Dimension> | c.table !in dims || c.day != day ::
              SameCell(metrics, RebuiltDimensions(metrics, log, dims, day), c)
  {
    if dims != [] {
      var last := |dims| - 1;
      RebuiltDimensionsCells(metrics, log, dims[..last], day);
      var mid := RebuiltDimensions(metrics, log, dims[..last], day);
      RebuiltDimensionIsCurrent(mid, log, dims[last], day);
      RebuiltDimensionKeepsOthers(mid, log, dims[last], day);
      RebuiltOneMore(metrics, mid, RebuiltDimension(mid, log, dims[last], day), log, dims[..last], dims[last], day);
      assert dims == dims[..last] + [dims[last]];
    }
  }

  lemma HoldsDayFrame<T(!new), A, R>(before: map<Cell<T>, R>, after: map<Cell<T>, R>, table: T, day: int,
                                     daily: string -> map<string, A>, stored: A -> Option<R>)
    requires HoldsDay(before, table, day, daily, stored)
    requires forall c: Cell<T> | c.table == table && c.day == day :: SameCell(before, after, c)
    ensures HoldsDay(after, table, day, daily, stored)
  {
    forall site, key
      ensures var cell := Cell(table, day, site, key);
              && (cell in after <==> key in daily(site))
              && (cell in after ==> stored(daily(site)[key]) == Some(after[cell]))
    {
      assert SameCell(before, after, Cell(table, day, site, key));
    }
  }

  lemma RebuiltScrollIsCurrent(scroll: ScrollCells, log: seq<Event>, day: int)
    requires ScrollStorable(log, day)
    ensures ScrollCurrent(RebuiltScroll(scroll, log, day), log, day)
  {
    forall site, path
      ensures SiteKey(site, path) in RollupScrollReport(DayRows(log, day)) <==> path in SiteScrollDay(log, site, day)
      ensures path in SiteScrollDay(log, site, day) ==>
                RollupScrollReport(DayRows(log, day))[SiteKey(site, path)] == SiteScrollDay(log, site, day)[path]
    {
      RollupScrollAgreesWithRaw(DayRows(log, day), site, path);
    }
    ReplacedHoldsDay(scroll, ScrollTable, day, RollupScrollReport(DayRows(log, day)),
                     SiteScrollDays(log, day), StoredScroll);
  }

  /** A committed rebuild makes its day current in every table and touches no other day. */
  lemma RebuiltIsCurrent(tables: Tables, log: seq<Event>, day: int)
    requires Storable(log, day)
    ensures Current(Rebuilt(tables, log, day), log, day)
    ensures SameElsewhere(tables, Rebuilt(tables, log, day), day)
  {
    forall d: Dimension
      ensures d in DIMENSIONS
    {
      EveryDimensionIsListed(d);
    }
    RebuiltDimensionsCells(tables.metrics, log, DIMENSIONS, day);
    RebuiltScrollIsCurrent(tables.scroll, log, day);
  }

  /** Two versions of the tables agree on every cell of one day. */
  ghost predicate SameDay(a: Tables, b: Tables, day: int) {
    && (forall c: Cell<Dimension> | c.day == day :: SameCell(a.metrics, b.metrics, c))
    && (forall c: Cell<ScrollTable> | c.day == day :: SameCell(a.scroll, b.scroll, c))
  }

  /** Being current fixes every cell of the day. */
  lemma CurrentFixesDay(a: Tables, b: Tables, log: seq<Event>, day: int)
    requires Current(a, log, day) && Current(b, log, day)
    ensures SameDay(a, b, day)
  {
    forall c: Cell<Dimension> | c.day == day
      ensures SameCell(a.metrics, b.metrics, c)
    {
      assert MetricsCurrent(a.metrics, log, c.table, day) && MetricsCurrent(b.metrics, log, c.table, day);
      assert c == Cell(c.table, day, c.site, c.key);
    }
    forall c: Cell<ScrollTable> | c.day == day
      ensures SameCell(a.scroll, b.scroll, c)
    {
      assert c.table.ScrollTable?;
      assert c == Cell(ScrollTable, day, c.site, c.key);
    }
  }

  /** A day is current for a log as far as the log's rows of that day go. */
  lemma CurrentDependsOnDayRows(tables: Tables, log: seq<Event>, other: seq<Event>, day: int)
    requires Current(tables, log, day) && DayRows(log, day) == DayRows(other, day)
    ensures Current(tables, other, day)
  {
    forall d: Dimension
      ensures MetricsCurrent(tables.metrics, other, d, day)
    {
      assert MetricsCurrent(tables.metrics, log, d, day);
      SameReportsHold(tables.metrics, d, day, SiteDays(log, d, day), SiteDays(other, d, day), StoredCounters);
    }
    SameReportsHold(tables.scroll, ScrollTable, day, SiteScrollDays(log, day), SiteScrollDays(other, day), StoredScroll);
  }

  lemma SameReportsHold<T(!new), A, R>(cells: map<Cell<T>, R>, table: T, day: int, daily: string -> map<string, A>,
                                       other: string -> map<string, A>, stored: A -> Option<R>)
    requires HoldsDay(cells, table, day, daily, stored)
    requires forall site :: daily(site) == other(site)
    ensures HoldsDay(cells, table, day, other, stored)
  {
    forall site, key
      ensures var cell := Cell(table, day, site, key);
              && (cell in cells <==> key in other(site))
              && (cell in cells ==> stored(other(site)[key]) == Some(cells[cell]))
    {
      assert daily(site) == other(site);
      assert Cell(table, day, site, key) in cells <==> key in daily(site);
    }
  }

  /** A change to other days leaves the day current. */
  lemma CurrentFrame(before: Tables, after: Tables, log: seq<Event>, day: int)
    requires Current(before, log, day) && SameDay(before, after, day)
    ensures Current(after, log, day)
  {
    forall d: Dimension
      ensures MetricsCurrent(after.metrics, log, d, day)
    {
      assert MetricsCurrent(before.metrics, log, d, day);
      HoldsDayFrame(before.metrics, after.metrics, d, day, SiteDays(log, d, day), StoredCounters);
    }
    HoldsDayFrame(before.scroll, after.scroll, ScrollTable, day, SiteScrollDays(log, day), StoredScroll);
  }

  lemma MapsAgree<T(!new), R>(a: map<Cell<T>, R>, b: map<Cell<T>, R>)
    requires forall c: Cell<T> :: SameCell(a, b, c)
    ensures a == b
  {
    forall c: Cell<T>
      ensures (c in a <==> c in b) && (c in a ==> a[c] == b[c])
    {
      assert SameCell(a, b, c);
    }
  }

  /** Re-running a day's rebuild replaces its rows, never adds to them. */
  lemma RebuildIsIdempotent(tables: Tables, log: seq<Event>, day: int)
    requires Storable(log, day)
    ensures Rebuilt(Rebuilt(tables, log, day), log, day) == Rebuilt(tables, log, day)
  {
    var once := Rebuilt(tables, log, day);
    RebuiltIsCurrent(tables, log, day);
    RebuiltIsCurrent(once, log, day);
    CurrentFixesDay(once, Rebuilt(once, log, day), log, day);
    MapsAgree(once.metrics, Rebuilt(once, log, day).metrics);
    MapsAgree(once.scroll, Rebuilt(once, log, day).scroll);
  }

  // ---- exactly when a rebuild commits ----

  /** The event contributes a number, not NULL, to its groups' engagement sums. */
  predicate CountsEngagement(e: Event) {
    !e.kind.Engagement? || e.value.Some?
  }

  lemma {:induction false} EngagementSumIsNull(rows: seq<Event>)
    ensures EngagementSum(rows).None? <==> forall e | e in rows :: !CountsEngagement(e)
  {
    if rows != [] {
      EngagementSumIsNull(rows[1..]);
      assert (forall e | e in rows :: !CountsEngagement(e))
        <==> !CountsEngagement(rows[0]) && (forall e | e in rows[1..] :: !CountsEngagement(e));
    }
  }

  lemma {:induction false} MaxValueIsNull(rows: seq<Event>)
    ensures MaxValue(rows).None? <==> forall e | e in rows :: e.value.None?
  {
    if rows != [] {
      MaxValueIsNull(rows[1..]);
      assert rows == [rows[0]] + rows[1..];
    }
  }

  lemma {:induction false} DepthSumIsNull(scrolls: seq<Event>)
    ensures DepthSum(scrolls).None? <==> forall e | e in scrolls :: e.value.None?
    decreases |scrolls|
  {
    if scrolls != [] {
      var session := scrolls[0].session;
      MaxValueIsNull(OfSession(scrolls, session));
      DepthSumIsNull(NotOfSession(scrolls, session));
      assert forall e | e in scrolls :: e in OfSession(scrolls, session) || e in NotOfSession(scrolls, session);
    }
  }

  /** The event shares its (site, key) group with one that counts. */
  ghost predicate GroupCounts(rows: seq<Event>, d: Dimension, e: Event) {
    exists x :: x in rows && x.site == e.site && Key(d, x) == Key(d, e) && CountsEngagement(x)
  }

  ghost predicate EveryGroupCounts(rows: seq<Event>, d: Dimension) {
    forall e {:trigger GroupCounts(rows, d, e)} | e in rows :: GroupCounts(rows, d, e)
  }

  /** The scrolled path has, on the event's site, some scroll event with a value. */
  ghost predicate ScrollCounts(rows: seq<Event>, e: Event) {
    exists x :: x in rows && x.IsScroll() && x.site == e.site && x.path == e.path && x.value.Some?
  }

  ghost predicate EveryScrollCounts(rows: seq<Event>) {
    forall e {:trigger ScrollCounts(rows, e)} | e in rows && e.IsScroll() :: ScrollCounts(rows, e)
  }

  lemma MetricsCellStorable(rows: seq<Event>, d: Dimension, e: Event)
    requires e in rows
    ensures var cell := SiteKey(e.site, Key(d, e));
            && cell in RollupReport(rows, d)
            && (StoredCounters(RollupReport(rows, d)[cell]).Some? <==>
                GroupCounts(rows, d, e))
  {
    var cell := SiteKey(e.site, Key(d, e));
    assert cell in Cells(rows, d);
    EngagementSumIsNull(SiteGroup(rows, d, cell));
  }

  lemma MetricsStorableIff(log: seq<Event>, d: Dimension, day: int)
    ensures MetricsStorable(log, d, day) <==> EveryGroupCounts(DayRows(log, day), d)
  {
    var rows := DayRows(log, day);
    if EveryGroupCounts(rows, d) {
      forall cell | cell in RollupReport(rows, d)
        ensures StoredCounters(RollupReport(rows, d)[cell]).Some?
      {
        var e :| e in rows && cell == SiteKey(e.site, Key(d, e));
        MetricsCellStorable(rows, d, e);
      }
    } else {
      var e :| e in rows && !GroupCounts(rows, d, e);
      MetricsCellStorable(rows, d, e);
    }
  }

  lemma ScrollCellStorable(rows: seq<Event>, e: Event)
    requires e in rows && e.IsScroll()
    ensures var cell := SiteKey(e.site, e.path);
            && cell in RollupScrollReport(rows)
            && (StoredScroll(RollupScrollReport(rows)[cell]).Some? <==>
                ScrollCounts(rows, e))
  {
    var cell := SiteKey(e.site, e.path);
    assert cell in SiteScrollCells(rows);
    DepthSumIsNull(SiteScrollEvents(rows, cell));
  }

  lemma ScrollStorableIff(log: seq<Event>, day: int)
    ensures ScrollStorable(log, day) <==> EveryScrollCounts(DayRows(log, day))
  {
    var rows := DayRows(log, day);
    if EveryScrollCounts(rows) {
      forall cell | cell in RollupScrollReport(rows)
        ensures StoredScroll(RollupScrollReport(rows)[cell]).Some?
      {
        var e :| e in rows && e.IsScroll() && cell == SiteKey(e.site, e.path);
        ScrollCellStorable(rows, e);
      }
    } else {
      var e :| e in rows && e.IsScroll() && !ScrollCounts(rows, e);
      ScrollCellStorable(rows, e);
    }
  }

  /** A day's rebuild commits if and only if no group of the day consists of valueless events alone. */
  lemma StorableIff(log: seq<Event>, day: int)
    ensures Storable(log, day) <==>
            (forall d: Dimension :: EveryGroupCounts(DayRows(log, day), d)) && EveryScrollCounts(DayRows(log, day))
  {
    forall d: Dimension
      ensures MetricsStorable(log, d, day) <==> EveryGroupCounts(DayRows(log, day), d)
    {
      MetricsStorableIff(log, d, day);
    }
    ScrollStorableIff(log, day);
  }

  /** One valueless scroll event, alone on its path, blocks the whole day. */
  lemma LoneValuelessScrollBlocksRebuild(log: seq<Event>, day: int, e: Event)
    requires e in DayRows(log, day) && e.IsScroll()
    requires forall x | x in DayRows(log, day) && x.site == e.site && x.path == e.path :: x.value.None?
    ensures !Storable(log, day)
  {
    StorableIff(log, day);
    assert !ScrollCounts(DayRows(log, day), e);
  }
}
