/** What a scroll report's numbers mean: per-session maxima, their averages, and the sessions they are out of. */
module ScrollDepth {
  import opened Wrappers
  import opened Counting
  import opened TrackedEvent
  import opened TimeRange
  import opened Aggregates
  import opened Database
  import opened Listing
  import opened Metrics
  import opened RangeReports
  import opened ScrollTracker

  // ---- MAX(value) of a session is the largest milestone it reached ----

  ghost predicate HasValue(rows: seq<Event>, v: int) {
    exists e :: e in rows && e.value == Some(v)
  }

  lemma {:induction false} MaxValueIsMax(rows: seq<Event>)
    ensures MaxValue(rows).Some? ==> HasValue(rows, MaxValue(rows).value)
    ensures forall e | e in rows && e.value.Some? :: MaxValue(rows).Some? && e.value.value <= MaxValue(rows).value
  {
    if rows != [] {
      var rest := rows[1..];
      MaxValueIsMax(rest);
      assert rows == [rows[0]] + rest;
      if MaxValue(rest).Some? {
        var e :| e in rest && e.value == MaxValue(rest);
        assert e in rows;
      }
      assert rows[0] in rows;
    }
  }

  /**
   A session's scroll rows for a path hold milestones that its visits to the page
   sent, in any order, any number of times, and perhaps not all of them. Their MAX
   never exceeds the largest milestone not above the deepest visit, and is that
   milestone exactly when it was stored.
   */
  lemma SessionMaxIsLargestMilestoneIff(rows: seq<Event>, ms: seq<int>, visits: seq<nat>)
    requires Milestones(ms)
    requires forall m | HasValue(rows, m) :: SentInSome(ms, visits, m)
    ensures var stored, reached := MaxValue(rows), MilestoneReached(ms, DeepestVisit(visits));
            && (stored.Some? ==> reached.Some? && stored.value in ms && stored.value <= reached.value)
            && (stored == reached <==> (reached.Some? ==> HasValue(rows, reached.value)))
  {
    MaxValueIsMax(rows);
    MilestoneReachedIsLargest(ms, DeepestVisit(visits));
    if MaxValue(rows).Some? {
      VisitsSend(ms, visits, MaxValue(rows).value);
      assert UpTo(DeepestVisit(visits))(MaxValue(rows).value);
    }
  }

  // ---- sums of maxima stay between the milestones ----

  ghost predicate ValuesWithin(rows: seq<Event>, lo: int, hi: int) {
    forall e | e in rows :: e.value.Some? && lo <= e.value.value <= hi
  }

  lemma MaxWithin(rows: seq<Event>, lo: int, hi: int)
    requires rows != [] && ValuesWithin(rows, lo, hi)
    ensures MaxValue(rows).Some? && lo <= MaxValue(rows).value <= hi
  {
    MaxValueIsMax(rows);
    assert rows[0] in rows;
    var e :| e in rows && e.value == MaxValue(rows);
  }

  lemma SessionsWithout(rows: seq<Event>, session: Bytes)
    requires session in Sessions(rows)
    ensures |Sessions(rows)| == 1 + |Sessions(NotOfSession(rows, session))|
  {
    assert Sessions(NotOfSession(rows, session)) == Sessions(rows) - {session};
  }

  /** A sum of `count` numbers that lie between lo and hi. */
  predicate Between(sum: int, count: int, lo: int, hi: int) {
    lo * count <= sum <= hi * count
  }

  lemma BetweenAdds(a: int, m: int, b: int, n: int, lo: int, hi: int)
    requires Between(a, m, lo, hi) && Between(b, n, lo, hi)
    ensures Between(a + b, m + n, lo, hi)
  {
    assert lo * (m + n) == lo * m + lo * n && hi * (m + n) == hi * m + hi * n;
  }

  lemma {:induction false} DepthSumWithin(scrolls: seq<Event>, lo: int, hi: int)
    requires scrolls != [] && ValuesWithin(scrolls, lo, hi)
    ensures DepthSum(scrolls).Some? && Between(DepthSum(scrolls).value, |Sessions(scrolls)|, lo, hi)
    decreases |scrolls|
  {
    var session := scrolls[0].session;
    var own, rest := OfSession(scrolls, session), NotOfSession(scrolls, session);
    assert scrolls[0] in own;
    MaxWithin(own, lo, hi);
    assert scrolls[0].session in Sessions(scrolls);
    SessionsWithout(scrolls, session);
    if rest == [] {
      assert Sessions(rest) == {};
    } else {
      DepthSumWithin(rest, lo, hi);
      BetweenAdds(MaxValue(own).value, 1, DepthSum(rest).value, |Sessions(rest)|, lo, hi);
    }
  }

  /** The row counts someone, and its average lies between lo and hi. */
  predicate AverageWithin(row: ScrollCounters, lo: int, hi: int) {
    row.sessionCount > 0 && Between(row.depthSum, row.sessionCount, lo, hi)
  }

  function AverageScrollDepth(row: ScrollCounters): (average: Option<real>)
    ensures average.None? <==> row.sessionCount == 0
    ensures average.Some? ==> average.value * row.sessionCount as real == row.depthSum as real
  {
    if row.sessionCount == 0 then None else Some(row.depthSum as real / row.sessionCount as real)
  }

  lemma AverageLiesWithin(row: ScrollCounters, lo: int, hi: int)
    requires AverageWithin(row, lo, hi)
    ensures lo as real <= AverageScrollDepth(row).value <= hi as real
  {
    var n := row.sessionCount as real;
    assert lo as real * n <= row.depthSum as real <= hi as real * n;
    assert AverageScrollDepth(row).value * n == row.depthSum as real;
  }

  // ---- one day ----

  /** Every scroll event of the site's path dated in [start, end) carries a value between the first and the last milestone. */
  ghost predicate MilestoneValues(events: seq<Event>, site: string, path: string, start: int, end: int) {
    forall e | e in events && e.IsScroll() && e.site == site && e.path == path && start <= e.ts < end ::
      e.value.Some? && 25 <= e.value.value <= 100
  }

  lemma DayScrollsWithin(history: seq<Event>, site: string, day: int, path: string)
    requires MilestoneValues(history, site, path, day, day + SECONDS_PER_DAY)
    ensures ValuesWithin(ScrollEvents(OfSite(DayRows(history, day), site), path), 25, 100)
  {}

  lemma ScrolledPathHasEvents(rows: seq<Event>, path: string)
    requires path in ScrollPaths(rows)
    ensures ScrollEvents(rows, path) != [] && Sessions(ScrollEvents(rows, path)) != {}
  {
    var e :| e in rows && e.IsScroll() && e.path == path;
    assert e in ScrollEvents(rows, path) && e.session in Sessions(ScrollEvents(rows, path));
  }

  lemma DayScrollRow(history: seq<Event>, site: string, day: int, path: string)
    requires MilestoneValues(history, site, path, day, day + SECONDS_PER_DAY) && path in DayScrollReport(history, site, day)
    ensures AverageWithin(DayScrollReport(history, site, day)[path], 25, 100)
  {
    var rows := OfSite(DayRows(history, day), site);
    ScrolledPathHasEvents(rows, path);
    DayScrollsWithin(history, site, day, path);
    DepthSumWithin(ScrollEvents(rows, path), 25, 100);
  }

  /** Sessions with scroll data for a path are among the sessions of its group. */
  lemma ScrollSessionsAmong(rows: seq<Event>, path: string)
    ensures Sessions(ScrollEvents(rows, path)) <= Sessions(Group(rows, PathDim, path))
    ensures path in ScrollPaths(rows) ==> path in Keys(rows, PathDim) && Sessions(ScrollEvents(rows, path)) != {}
  {
    forall x | x in ScrollEvents(rows, path)
      ensures x in Group(rows, PathDim, path)
    {
      assert Key(PathDim, x) == path;
    }
    if path in ScrollPaths(rows) {
      var e :| e in rows && e.IsScroll() && e.path == path;
      assert e in ScrollEvents(rows, path) && e.session in Sessions(ScrollEvents(rows, path));
      assert Key(PathDim, e) == path;
    }
  }

  lemma DayScrollSessions(history: seq<Event>, site: string, day: int, path: string)
    requires path in DayScrollReport(history, site, day)
    ensures path in DayReport(history, PathDim, site, day)
    ensures 0 < DayScrollReport(history, site, day)[path].sessionCount <= DayReport(history, PathDim, site, day)[path].sessions
  {
    var rows := OfSite(DayRows(history, day), site);
    ScrollSessionsAmong(rows, path);
    SubsetSize(Sessions(ScrollEvents(rows, path)), Sessions(Group(rows, PathDim, path)));
  }

  lemma {:induction false} SubsetSize<T>(a: set<T>, b: set<T>)
    requires a <= b
    ensures |a| <= |b|
  {
    if a != {} {
      var x :| x in a;
      SubsetSize(a - {x}, b - {x});
    }
  }

  // ---- a range of days ----

  lemma {:induction false} RangeRowWithin(daily: int -> map<string, ScrollCounters>, start: int, days: nat, path: string,
                                          lo: int, hi: int)
    requires forall n | 0 <= n < days && path in daily(NthDay(start, n)) :: AverageWithin(daily(NthDay(start, n))[path], lo, hi)
    ensures var row := DailySum(SCROLL, daily, start, days, path);
            && Between(row.depthSum, row.sessionCount, lo, hi) && row.sessionCount >= 0
            && (path in DailyKeys(daily, start, days) ==> row.sessionCount > 0)
  {
    if days > 0 {
      RangeRowWithin(daily, start, days - 1, path, lo, hi);
      var earlier, day := DailySum(SCROLL, daily, start, days - 1, path), NthDay(start, days - 1);
      if path in daily(day) {
        var row := daily(day)[path];
        BetweenAdds(earlier.depthSum, earlier.sessionCount, row.depthSum, row.sessionCount, lo, hi);
      }
    }
  }

  /** Each day the path's scroll row counts no more sessions than its breakdown row. */
  ghost predicate Outnumbers(scroll: int -> map<string, ScrollCounters>, paths: int -> map<string, Counters>, path: string) {
    && (forall day | path in scroll(day) ::
          path in paths(day) && 0 < scroll(day)[path].sessionCount <= paths(day)[path].sessions)
    && (forall day | path in paths(day) :: paths(day)[path].sessions >= 0)
  }

  lemma {:induction false} RangeOutnumbers(scroll: int -> map<string, ScrollCounters>, paths: int -> map<string, Counters>,
                                           start: int, days: nat, path: string)
    requires Outnumbers(scroll, paths, path)
    ensures 0 <= DailySum(SCROLL, scroll, start, days, path).sessionCount
              <= DailySum(METRICS, paths, start, days, path).sessions
    ensures path in DailyKeys(scroll, start, days) ==>
              path in DailyKeys(paths, start, days) && DailySum(SCROLL, scroll, start, days, path).sessionCount > 0
  {
    if days > 0 {
      RangeOutnumbers(scroll, paths, start, days - 1, path);
    }
  }

  // ---- the page's table ----

  datatype ScrollDepthRow = ScrollDepthRow(path: string, averageDepth: real, sessionsWithData: int, totalSessions: int)

  function TotalSessions(report: map<string, Counters>, path: string): int {
    if path in report then report[path].sessions else 0
  }

  function DepthRow(path: string, row: ScrollCounters, totalSessions: int): ScrollDepthRow
    requires row.sessionCount != 0
  {
    ScrollDepthRow(path, AverageScrollDepth(row).value, row.sessionCount, totalSessions)
  }

  /** One table row for each aggregate that counts a session, in the report's order. */
  function DepthRows(aggregates: seq<Row<string, ScrollCounters>>, paths: map<string, Counters>): seq<ScrollDepthRow> {
    if aggregates == [] then []
    else
      var a := aggregates[|aggregates| - 1];
      DepthRows(aggregates[..|aggregates| - 1], paths)
      + if a.value.sessionCount == 0 then [] else [DepthRow(a.key, a.value, TotalSessions(paths, a.key))]
  }

  function CountsSessions(): Row<string, ScrollCounters> -> bool {
    (a: Row<string, ScrollCounters>) => a.value.sessionCount != 0
  }

  /** The row shows the aggregate's path, average and sessions, out of the sessions its breakdown row counts. */
  predicate ShowsAggregate(row: ScrollDepthRow, a: Row<string, ScrollCounters>, paths: map<string, Counters>) {
    && row.path == a.key && row.sessionsWithData == a.value.sessionCount
    && row.averageDepth * a.value.sessionCount as real == a.value.depthSum as real
    && row.totalSessions == if a.key in paths then paths[a.key].sessions else 0
  }

  lemma CountedOneMore(init: seq<Row<string, ScrollCounters>>, last: Row<string, ScrollCounters>)
    ensures Filter(init + [last], CountsSessions())
         == Filter(init, CountsSessions()) + if last.value.sessionCount != 0 then [last] else []
  {
    FilterConcat(init, [last], CountsSessions());
    assert [last][1..] == [];
  }

  /** The table's rows are the aggregates that count a session, one for one and in their order. */
  lemma {:induction false} DepthRowsShowAggregates(aggregates: seq<Row<string, ScrollCounters>>, paths: map<string, Counters>,
                                                   counted: seq<Row<string, ScrollCounters>>)
    requires counted == Filter(aggregates, CountsSessions())
    ensures var rows := DepthRows(aggregates, paths);
            |rows| == |counted| && forall i | 0 <= i < |rows| :: ShowsAggregate(rows[i], counted[i], paths)
  {
    if aggregates != [] {
      var init, last := aggregates[..|aggregates| - 1], aggregates[|aggregates| - 1];
      DepthRowsShowAggregates(init, paths, Filter(init, CountsSessions()));
      CountedOneMore(init, last);
      assert aggregates == init + [last];
    }
  }

  method ToScrollDepthRows(aggregates: seq<Row<string, ScrollCounters>>, pathRows: seq<Row<string, Counters>>,
                           ghost paths: map<string, Counters>)
    returns (rows: seq<ScrollDepthRow>)
    requires Lists(pathRows, paths)
    ensures rows == DepthRows(aggregates, paths)
  {
    var totalSessionsByPath: map<string, int> := map[];
    for i := 0 to |pathRows|
      invariant totalSessionsByPath.Keys == KeysOf(pathRows[..i])
      invariant forall j | 0 <= j < i :: totalSessionsByPath[pathRows[j].key] == pathRows[j].value.sessions
    {
      assert pathRows[..i + 1] == pathRows[..i] + [pathRows[i]];
      totalSessionsByPath := totalSessionsByPath[pathRows[i].key := pathRows[i].value.sessions];
    }
    assert pathRows[..|pathRows|] == pathRows;
    forall path
      ensures (if path in totalSessionsByPath then totalSessionsByPath[path] else 0) == TotalSessions(paths, path)
    {
      if path in totalSessionsByPath {
        var row :| row in pathRows && row.key == path;
      }
    }
    rows := [];
    for i := 0 to |aggregates|
      invariant rows == DepthRows(aggregates[..i], paths)
    {
      var aggregate := aggregates[i];
      assert aggregates[..i + 1][..i] == aggregates[..i];
      var averageDepth := AverageScrollDepth(aggregate.value);
      if averageDepth.Some? {
        var totalSessions := if aggregate.key in totalSessionsByPath then totalSessionsByPath[aggregate.key] else 0;
        rows := rows + [ScrollDepthRow(aggregate.key, averageDepth.value, aggregate.value.sessionCount, totalSessions)];
      }
    }
    assert aggregates[..|aggregates|] == aggregates;
  }
}
