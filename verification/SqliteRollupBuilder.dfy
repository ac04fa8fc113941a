/** The nightly rebuild: delete one day's rows of every rollup table and insert them anew, all or nothing. */
module SqliteRollupBuilder {
  import opened Wrappers
  import opened TrackedEvent
  import opened Aggregates
  import opened Database
  import opened Listing

  class SqliteRollupBuilder {
    const db: Database

    constructor (db: Database)
      ensures this.db == db
    {
      this.db := db;
    }

    /** Rebuilds every table for one day. A NULL aggregate violates NOT NULL and rolls the transaction back. */
    method Execute(day: int) returns (committed: bool)
      modifies db`metrics, db`scroll
      ensures committed <==> Storable(db.events, day)
      ensures db.TablesOf() == RolledUp(old(db.TablesOf()), db.events, day)
    {
      AllListed();
      var before := db.TablesOf();
      committed := RebuildDimensions(DIMENSIONS, day);
      if committed {
        committed := RebuildScroll(day);
      }
      if !committed {
        db.metrics, db.scroll := before.metrics, before.scroll;
      }
    }

    method RebuildDimensions(dims: seq<Dimension>, day: int) returns (ok: bool)
      modifies db`metrics
      ensures ok <==> forall d | d in dims :: MetricsStorable(db.events, d, day)
      ensures ok ==> db.metrics == RebuiltDimensions(old(db.metrics), db.events, dims, day)
    {
      ghost var log, before := db.events, db.metrics;
      for i := 0 to |dims|
        invariant forall d | d in dims[..i] :: MetricsStorable(log, d, day)
        invariant db.metrics == RebuiltDimensions(before, log, dims[..i], day)
      {
        assert dims[..i + 1] == dims[..i] + [dims[i]];
        ok := RebuildDimension(dims[i], day);
        if !ok {
          return;
        }
      }
      ok := true;
      assert dims[..|dims|] == dims;
    }

    method RebuildDimension(d: Dimension, day: int) returns (ok: bool)
      modifies db`metrics
      ensures ok <==> MetricsStorable(db.events, d, day)
      ensures ok ==> db.metrics == RebuiltDimension(old(db.metrics), db.events, d, day)
    {
      db.metrics := WithoutDay(db.metrics, d, day);
      var report := RollupReport(DayRows(db.events, day), d);
      var rows := ListRows(report);
      ghost var inserted: map<SiteKey, Counters> := map[];
      label Deleted:
      assert db.metrics + DayCells(d, day, inserted) == db.metrics;
      for i := 0 to |rows|
        invariant db.metrics == old@Deleted(db.metrics) + DayCells(d, day, inserted)
        invariant InsertedUpTo(inserted, report, StoredCounters, rows, i)
      {
        var counters := StoredCounters(rows[i].value);
        if counters.None? {
          return false;
        }
        var cell := Cell(d, day, rows[i].key.site, rows[i].key.key);
        inserted := InsertOne(old@Deleted(db.metrics), d, day, inserted, report, StoredCounters, rows, i);
        db.metrics := db.metrics[cell := counters.value];
      }
      InsertedAll(inserted, report, StoredCounters, rows);
      return true;
    }

    method RebuildScroll(day: int) returns (ok: bool)
      modifies db`scroll
      ensures ok <==> ScrollStorable(db.events, day)
      ensures ok ==> db.scroll == RebuiltScroll(old(db.scroll), db.events, day)
    {
      db.scroll := WithoutDay(db.scroll, ScrollTable, day);
      var report := RollupScrollReport(DayRows(db.events, day));
      var rows := ListRows(report);
      ghost var inserted: map<SiteKey, ScrollCounters> := map[];
      label Deleted:
      assert db.scroll + DayCells(ScrollTable, day, inserted) == db.scroll;
      for i := 0 to |rows|
        invariant db.scroll == old@Deleted(db.scroll) + DayCells(ScrollTable, day, inserted)
        invariant InsertedUpTo(inserted, report, StoredScroll, rows, i)
      {
        var counters := StoredScroll(rows[i].value);
        if counters.None? {
          return false;
        }
        var cell := Cell(ScrollTable, day, rows[i].key.site, rows[i].key.key);
        inserted := InsertOne(old@Deleted(db.scroll), ScrollTable, day, inserted, report, StoredScroll, rows, i);
        db.scroll := db.scroll[cell := counters.value];
      }
      InsertedAll(inserted, report, StoredScroll, rows);
      return true;
    }
  }

  lemma AllListed()
    ensures forall d: Dimension :: d in DIMENSIONS
  {
    forall d: Dimension
      ensures d in DIMENSIONS
    {
      EveryDimensionIsListed(d);
    }
  }

  /** The first `i` rows have been inserted. */
  ghost predicate InsertedUpTo<A, R>(inserted: map<SiteKey, R>, report: map<SiteKey, A>, stored: A -> Option<R>,
                                     rows: seq<Row<SiteKey, A>>, i: nat)
    requires i <= |rows|
  {
    && (forall j | 0 <= j < i :: rows[j].key in inserted)
    && (forall k | k in inserted :: k in report && stored(report[k]) == Some(inserted[k]))
    && (forall j | i <= j < |rows| :: rows[j].key !in inserted)
  }

  /** One INSERT. The primary key never conflicts: the day was just deleted and the rows' keys differ. */
  lemma InsertOne<T, A, R>(cells: map<Cell<T>, R>, table: T, day: int, inserted: map<SiteKey, R>,
                           report: map<SiteKey, A>, stored: A -> Option<R>, rows: seq<Row<SiteKey, A>>, i: nat)
    returns (next: map<SiteKey, R>)
    requires Lists(rows, report)
    requires i < |rows| && stored(rows[i].value).Some?
    requires InsertedUpTo(inserted, report, stored, rows, i)
    requires forall c | c in cells :: !(c.table == table && c.day == day)
    ensures InsertedUpTo(next, report, stored, rows, i + 1)
    ensures Cell(table, day, rows[i].key.site, rows[i].key.key) !in cells + DayCells(table, day, inserted)
    ensures cells + DayCells(table, day, next)
         == (cells + DayCells(table, day, inserted))
              [Cell(table, day, rows[i].key.site, rows[i].key.key) := stored(rows[i].value).value]
  {
    var k, r := rows[i].key, stored(rows[i].value).value;
    next := InsertedNext(inserted, report, stored, rows, i);
    DayCellsAdd(cells, table, day, inserted, k, r);
  }

  lemma DayCellsAdd<T, R>(cells: map<Cell<T>, R>, table: T, day: int, report: map<SiteKey, R>, k: SiteKey, r: R)
    requires forall c | c in cells :: !(c.table == table && c.day == day)
    requires k !in report
    ensures Cell(table, day, k.site, k.key) !in cells + DayCells(table, day, report)
    ensures cells + DayCells(table, day, report[k := r])
         == (cells + DayCells(table, day, report))[Cell(table, day, k.site, k.key) := r]
  {
    DayCellsInsert(table, day, report, k, r);
    assert forall c | c in DayCells(table, day, report) :: SiteKey(c.site, c.key) in report;
  }

  lemma InsertedNext<A, R>(inserted: map<SiteKey, R>, report: map<SiteKey, A>, stored: A -> Option<R>,
                           rows: seq<Row<SiteKey, A>>, i: nat)
    returns (next: map<SiteKey, R>)
    requires Lists(rows, report)
    requires i < |rows| && stored(rows[i].value).Some?
    requires InsertedUpTo(inserted, report, stored, rows, i)
    ensures next == inserted[rows[i].key := stored(rows[i].value).value]
    ensures rows[i].key !in inserted
    ensures InsertedUpTo(next, report, stored, rows, i + 1)
  {
    next := inserted[rows[i].key := stored(rows[i].value).value];
  }

  lemma InsertedAll<A, R>(inserted: map<SiteKey, R>, report: map<SiteKey, A>, stored: A -> Option<R>,
                          rows: seq<Row<SiteKey, A>>)
    requires Lists(rows, report)
    requires InsertedUpTo(inserted, report, stored, rows, |rows|)
    ensures AllStored(report, stored) && inserted == StoredReport(report, stored)
  {
    forall k | k in report
      ensures k in inserted
    {
      assert k in KeysOf(rows);
    }
  }

  lemma DayCellsInsert<T, R>(table: T, day: int, report: map<SiteKey, R>, k: SiteKey, r: R)
    ensures DayCells(table, day, report[k := r])
         == DayCells(table, day, report)[Cell(table, day, k.site, k.key) := r]
  {
    assert forall c | c in DayCells(table, day, report[k := r]) ::
        c.table == table && c.day == day && SiteKey(c.site, c.key) in report[k := r];
  }
}
