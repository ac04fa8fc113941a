/** The dashboard's reports over a range, event by event: in every run, what was written is what is shown. */
module CountedRanges {
  import opened Wrappers
  import opened Counting
  import opened TrackedEvent
  import opened TimeRange
  import opened Aggregates
  import opened Database
  import opened Listing
  import opened Metrics
  import opened QuerySiteMetrics
  import opened RangeReports
  import opened VisitorId
  import opened Pipeline
  import Closed = ClosedDays
  import opened CountedReports
  import opened Dashboard
  import opened ScrollDepth

  // ---- from days to a range ----

  /** One column of a slice's numbers, day by day. */
  ghost function CountedColumn(c: Column, w: seq<Event>, site: string, slice: Slice): int -> int {
    day => Get(c, Counted(w, site, slice, day, day + 86_400))
  }

  lemma ViewsSplit(w: seq<Event>, site: string, slice: Slice, start: int, mid: int, end: int)
    requires start <= mid <= end
    ensures |Views(w, site, slice, start, end)| == |Views(w, site, slice, start, mid)| + |Views(w, site, slice, mid, end)|
  {
    assert Views(w, site, slice, start, end) == Views(w, site, slice, start, mid) + Views(w, site, slice, mid, end);
    assert Views(w, site, slice, start, mid) !! Views(w, site, slice, mid, end);
  }

  lemma EngagementSplits(w: seq<Event>, site: string, slice: Slice, start: int, mid: int, end: int)
    requires start <= mid <= end
    ensures Total(Engagements(w, site, slice, start, end), ValueAt(w))
         == Total(Engagements(w, site, slice, start, mid), ValueAt(w)) + Total(Engagements(w, site, slice, mid, end), ValueAt(w))
  {
    var a, b := Engagements(w, site, slice, start, mid), Engagements(w, site, slice, mid, end);
    assert Engagements(w, site, slice, start, end) == a + b && a !! b;
    TotalUnion(a, b, ValueAt(w));
  }

  ghost function ViewsUpTo(w: seq<Event>, site: string, slice: Slice, start: int): nat -> int {
    (days: nat) => |Views(w, site, slice, start, NthDay(start, days))|
  }

  /** Pageviews of the days add up to those of the range ... */
  lemma ViewsMakeRange(w: seq<Event>, site: string, slice: Slice, start: int, days: nat)
    ensures OverDays(CountedColumn(PageviewsCol, w, site, slice), start, days) == |Views(w, site, slice, start, NthDay(start, days))|
  {
    assert Views(w, site, slice, start, NthDay(start, 0)) == {};
    forall n: nat
      ensures ViewsUpTo(w, site, slice, start)(n + 1)
           == ViewsUpTo(w, site, slice, start)(n) + CountedColumn(PageviewsCol, w, site, slice)(NthDay(start, n))
    {
      ViewsSplit(w, site, slice, start, NthDay(start, n), NthDay(start, n + 1));
    }
    OverDaysByStep(ViewsUpTo(w, site, slice, start), CountedColumn(PageviewsCol, w, site, slice), start, days);
  }

  ghost function EngagementUpTo(w: seq<Event>, site: string, slice: Slice, start: int): nat -> int {
    (days: nat) => Total(Engagements(w, site, slice, start, NthDay(start, days)), ValueAt(w))
  }

  /** ... and so does the engagement. */
  lemma EngagementMakesRange(w: seq<Event>, site: string, slice: Slice, start: int, days: nat)
    ensures OverDays(CountedColumn(EngagementCol, w, site, slice), start, days)
         == Total(Engagements(w, site, slice, start, NthDay(start, days)), ValueAt(w))
  {
    assert Engagements(w, site, slice, start, NthDay(start, 0)) == {};
    forall n: nat
      ensures EngagementUpTo(w, site, slice, start)(n + 1)
           == EngagementUpTo(w, site, slice, start)(n) + CountedColumn(EngagementCol, w, site, slice)(NthDay(start, n))
    {
      EngagementSplits(w, site, slice, start, NthDay(start, n), NthDay(start, n + 1));
    }
    OverDaysByStep(EngagementUpTo(w, site, slice, start), CountedColumn(EngagementCol, w, site, slice), start, days);
  }

  lemma RangeSpan(range: Range)
    requires Aligned(range)
    ensures range.endTs == NthDay(range.startTs, DayCount(range))
  {
    DayIndex(range.startTs, range.endTs);
  }

  // ---- one key's row ----

  lemma {:induction false} ColumnOfSum(c: Column, daily: int -> map<string, Counters>, f: int -> int, start: int, days: nat, key: string)
    requires forall n | 0 <= n < days ::
               f(NthDay(start, n)) == if key in daily(NthDay(start, n)) then Get(c, daily(NthDay(start, n))[key]) else 0
    ensures Get(c, DailySum(METRICS, daily, start, days, key)) == OverDays(f, start, days)
  {
    if days > 0 {
      ColumnOfSum(c, daily, f, start, days - 1, key);
    }
  }

  lemma DayColumnIsCounted(c: Column, w: seq<Event>, site: string, d: Dimension, key: string, day: int)
    ensures CountedColumn(c, w, site, Keyed(d, key))(day)
         == if key in DayReport(w, d, site, day) then Get(c, DayReport(w, d, site, day)[key]) else 0
  {
    if key in DayReport(w, d, site, day) {
      DayRowIsCounted(w, site, d, key, day);
    } else {
      DayKeyIff(w, site, d, key, day);
      NothingCounted(w, site, d, key, day, day + 86_400);
    }
  }

  lemma RowIsCounted(c: Column, w: seq<Event>, site: string, d: Dimension, key: string, start: int, days: nat)
    ensures Get(c, DailySum(METRICS, Daily(w, d, site), start, days, key))
         == OverDays(CountedColumn(c, w, site, Keyed(d, key)), start, days)
  {
    forall n | 0 <= n < days
      ensures CountedColumn(c, w, site, Keyed(d, key))(NthDay(start, n))
           == if key in Daily(w, d, site)(NthDay(start, n)) then Get(c, Daily(w, d, site)(NthDay(start, n))[key]) else 0
    {
      DayColumnIsCounted(c, w, site, d, key, NthDay(start, n));
    }
    ColumnOfSum(c, Daily(w, d, site), CountedColumn(c, w, site, Keyed(d, key)), start, days, key);
  }

  /** An event lies in the range exactly when it lies on one of its days. */
  lemma OnSomeDay(ts: int, start: int, days: nat) returns (n: nat)
    requires start <= ts < NthDay(start, days)
    ensures n < days && NthDay(start, n) <= ts < NthDay(start, n) + 86_400
  {
    n := (ts - start) / 86_400;
  }

  lemma ShownOnSomeDay(w: seq<Event>, site: string, d: Dimension, key: string, start: int, days: nat)
    ensures SomeShows(w, site, d, key, start, NthDay(start, days))
       <==> exists n: nat :: n < days && SomeShows(w, site, d, key, NthDay(start, n), NthDay(start, n) + 86_400)
  {
    if SomeShows(w, site, d, key, start, NthDay(start, days)) {
      var e :| e in w && e.site == site && start <= e.ts < NthDay(start, days) && Shows(d, e, key);
      var n := OnSomeDay(e.ts, start, days);
      assert SomeShows(w, site, d, key, NthDay(start, n), NthDay(start, n) + 86_400);
    }
    if n: nat :| n < days && SomeShows(w, site, d, key, NthDay(start, n), NthDay(start, n) + 86_400) {
      var e :| e in w && e.site == site && NthDay(start, n) <= e.ts < NthDay(start, n) + 86_400 && Shows(d, e, key);
      assert start <= e.ts < NthDay(start, days);
    }
  }

  lemma KeysAreCounted(w: seq<Event>, site: string, d: Dimension, key: string, start: int, days: nat)
    ensures key in DailyKeys(Daily(w, d, site), start, days) <==> SomeShows(w, site, d, key, start, NthDay(start, days))
  {
    DailyKeysMember(Daily(w, d, site), start, days, key);
    ShownOnSomeDay(w, site, d, key, start, days);
    forall n: nat | n < days
      ensures key in Daily(w, d, site)(NthDay(start, n)) <==> SomeShows(w, site, d, key, NthDay(start, n), NthDay(start, n) + 86_400)
    {
      DayKeyIff(w, site, d, key, NthDay(start, n));
    }
  }

  /** A row against the events themselves. */
  ghost predicate RowIsRight(row: Counters, w: seq<Event>, site: string, range: Range, slice: Slice)
    requires Aligned(range)
  {
    && row.pageviews == |Views(w, site, slice, range.startTs, range.endTs)|
    && row.engagementSeconds == Total(Engagements(w, site, slice, range.startTs, range.endTs), ValueAt(w))
    && forall c {:trigger Get(c, row)} :: Get(c, row) == OverDays(CountedColumn(c, w, site, slice), range.startTs, DayCount(range))
  }

  lemma ColumnsAreRight(row: Counters, w: seq<Event>, site: string, range: Range, slice: Slice)
    requires Aligned(range)
    requires forall c {:trigger Get(c, row)} :: Get(c, row) == OverDays(CountedColumn(c, w, site, slice), range.startTs, DayCount(range))
    ensures RowIsRight(row, w, site, range, slice)
  {
    RangeSpan(range);
    ViewsMakeRange(w, site, slice, range.startTs, DayCount(range));
    EngagementMakesRange(w, site, slice, range.startTs, DayCount(range));
    assert Get(PageviewsCol, row) == row.pageviews && Get(EngagementCol, row) == row.engagementSeconds;
  }

  lemma TotalIsRight(w: seq<Event>, site: string, range: Range, d: Dimension, key: string, report: map<string, Counters>)
    requires Aligned(range) && report == DailyTotal(METRICS, Daily(w, d, site), range.startTs, DayCount(range))
    ensures key in report <==> SomeShows(w, site, d, key, range.startTs, range.endTs)
    ensures key in report ==> RowIsRight(report[key], w, site, range, Keyed(d, key))
  {
    RangeSpan(range);
    KeysAreCounted(w, site, d, key, range.startTs, DayCount(range));
    if key in report {
      forall c
        ensures Get(c, report[key]) == OverDays(CountedColumn(c, w, site, Keyed(d, key)), range.startTs, DayCount(range))
      {
        RowIsCounted(c, w, site, d, key, range.startTs, DayCount(range));
      }
      ColumnsAreRight(report[key], w, site, range, Keyed(d, key));
    }
  }

  /**
   In every run, over an aligned range whose closed days the run has kept: a key has
   a row exactly when some written event of the site in the range shows it; its
   pageviews and engagement are those of all such events of the range; and every
   column is the sum over the days of that day's pageviews, distinct visitors,
   distinct sessions, only views of their session, and engagement.
   */
  lemma RowIsCountedInEveryRun(cfg: Config, nowMs: int, salt: Field, actions: seq<Action>, site: string, range: Range,
                               d: Dimension, key: string)
    requires cfg.retentionMonths >= 1 && ValidRun(cfg, Initial(nowMs, salt), actions) && Aligned(range)
    requires Closed.KeptDays(cfg, Initial(nowMs, salt), actions, range)
    ensures var s := Run(cfg, Initial(nowMs, salt), actions);
            var report := MetricsReport(s.tables, s.log, site, range, d, Today(s));
            && (key in report <==> SomeShows(s.written, site, d, key, range.startTs, range.endTs))
            && (key in report ==> RowIsRight(report[key], s.written, site, range, Keyed(d, key)))
  {
    var s := Run(cfg, Initial(nowMs, salt), actions);
    QueryIsExactInEveryRun(cfg, nowMs, salt, actions, site, range, d);
    TotalIsRight(s.written, site, range, d, key, MetricsReport(s.tables, s.log, site, range, d, Today(s)));
  }

  /** The headline's pageviews and engagement are those of all the site's events written in the range, whatever the dimension. */
  lemma HeadlineIsCountedInEveryRun(cfg: Config, nowMs: int, salt: Field, actions: seq<Action>, site: string, range: Range,
                                    d: Dimension, rows: seq<Row<string, Counters>>)
    requires cfg.retentionMonths >= 1 && ValidRun(cfg, Initial(nowMs, salt), actions)
    requires Aligned(range) && Closed.KeptDays(cfg, Initial(nowMs, salt), actions, range)
    requires var s := Run(cfg, Initial(nowMs, salt), actions);
             Lists(rows, MetricsReport(s.tables, s.log, site, range, d, Today(s)))
    ensures var w := Run(cfg, Initial(nowMs, salt), actions).written;
            && SumOfRows(rows).pageviews == |set i: nat | i < |w| && w[i].site == site && w[i].kind == Pageview
                                                          && range.startTs <= w[i].ts < range.endTs|
            && SumOfRows(rows).engagementSeconds == Total(Engagements(w, site, Whole, range.startTs, range.endTs), ValueAt(w))
  {
    var s := Run(cfg, Initial(nowMs, salt), actions);
    HeadlineIsExactInEveryRun(cfg, nowMs, salt, actions, site, range, d, PageviewsCol, rows);
    HeadlineIsExactInEveryRun(cfg, nowMs, salt, actions, site, range, d, EngagementCol, rows);
    TruthOverRange(s, site, range);
  }

  lemma TruthOverRange(s: State, site: string, range: Range)
    requires Aligned(range)
    ensures OverDays(Truth(s, site, PageviewsCol), range.startTs, DayCount(range))
         == |set i: nat | i < |s.written| && s.written[i].site == site && s.written[i].kind == Pageview
                          && range.startTs <= s.written[i].ts < range.endTs|
    ensures OverDays(Truth(s, site, EngagementCol), range.startTs, DayCount(range))
         == Total(Engagements(s.written, site, Whole, range.startTs, range.endTs), ValueAt(s.written))
  {
    var w := s.written;
    RangeSpan(range);
    ViewsMakeRange(w, site, Whole, range.startTs, DayCount(range));
    EngagementMakesRange(w, site, Whole, range.startTs, DayCount(range));
    OverDaysAgree(Truth(s, site, PageviewsCol), CountedColumn(PageviewsCol, w, site, Whole), range.startTs, DayCount(range));
    OverDaysAgree(Truth(s, site, EngagementCol), CountedColumn(EngagementCol, w, site, Whole), range.startTs, DayCount(range));
    assert Views(w, site, Whole, range.startTs, range.endTs)
        == set i: nat | i < |w| && w[i].site == site && w[i].kind == Pageview && range.startTs <= w[i].ts < range.endTs;
  }

  // ---- scroll depth ----

  /** A scroll milestone of the path, dated in [start, end). */
  predicate Scrolls(e: Event, site: string, path: string, start: int, end: int) {
    e.site == site && start <= e.ts < end && e.kind == Custom && e.name == Some("scroll") && e.path == path
  }

  ghost predicate SomeScrolls(w: seq<Event>, site: string, path: string, start: int, end: int) {
    exists e :: e in w && Scrolls(e, site, path, start, end)
  }

  ghost function ScrollSessions(w: seq<Event>, site: string, path: string, start: int, end: int): set<Bytes> {
    set e | e in w && Scrolls(e, site, path, start, end) :: e.session
  }

  /** The session's deepest stored value for the path, or 0 when it stored none. */
  ghost predicate IsDeepest(w: seq<Event>, site: string, path: string, start: int, end: int, session: Bytes, depth: int) {
    || ((exists e :: e in w && Scrolls(e, site, path, start, end) && e.session == session && e.value == Some(depth))
        && forall e | e in w && Scrolls(e, site, path, start, end) && e.session == session && e.value.Some? :: e.value.value <= depth)
    || (depth == 0 && forall e | e in w && Scrolls(e, site, path, start, end) && e.session == session :: e.value.None?)
  }

  lemma DeepestIsUnique(w: seq<Event>, site: string, path: string, start: int, end: int, session: Bytes, a: int, b: int)
    requires IsDeepest(w, site, path, start, end, session, a) && IsDeepest(w, site, path, start, end, session, b)
    ensures a == b
  {}

  /** The day's scroll rows of the path, as the queries group them. */
  function DayScrolls(w: seq<Event>, site: string, path: string, day: int): seq<Event> {
    ScrollEvents(SiteDayRows(w, site, day), path)
  }

  lemma DayScrollsAre(w: seq<Event>, site: string, path: string, day: int)
    ensures forall e :: e in DayScrolls(w, site, path, day) <==> e in w && Scrolls(e, site, path, day, day + 86_400)
  {
    RowsOfDay(w, site, day);
    assert forall e :: e in SiteDayRows(w, site, day) <==> e in w && OnDay(site, day)(e);
  }

  /** MAX(value) over a session's rows of the day. */
  function MaxOfSession(scrolls: seq<Event>): Bytes -> int {
    session => MaxValue(OfSession(scrolls, session)).GetOr(0)
  }

  lemma SessionDeepest(w: seq<Event>, site: string, path: string, day: int, session: Bytes)
    ensures IsDeepest(w, site, path, day, day + 86_400, session, MaxOfSession(DayScrolls(w, site, path, day))(session))
  {
    var own := OfSession(DayScrolls(w, site, path, day), session);
    DayScrollsAre(w, site, path, day);
    MaxValueIsMax(own);
    assert forall e :: e in own <==> e in w && Scrolls(e, site, path, day, day + 86_400) && e.session == session;
  }

  /** Each session of the rows counts with its own maximum. */
  ghost predicate IsMaxBySession(scrolls: seq<Event>, m: Bytes -> int) {
    forall s | s in Sessions(scrolls) :: m(s) == MaxValue(OfSession(scrolls, s)).GetOr(0)
  }

  lemma RestKeepsOthers(scrolls: seq<Event>, session: Bytes, m: Bytes -> int)
    requires IsMaxBySession(scrolls, m)
    ensures Sessions(NotOfSession(scrolls, session)) == Sessions(scrolls) - {session}
    ensures IsMaxBySession(NotOfSession(scrolls, session), m)
  {
    var rest := NotOfSession(scrolls, session);
    forall s | s in Sessions(rest)
      ensures OfSession(rest, s) == OfSession(scrolls, s)
    {
      FilterFilter(scrolls, (e: Event) => e.session != session, (e: Event) => e.session == s, (e: Event) => e.session == s);
    }
  }

  lemma DepthSumStep(scrolls: seq<Event>, session: Bytes, rest: seq<Event>)
    requires scrolls != [] && session == scrolls[0].session && rest == NotOfSession(scrolls, session)
    ensures DepthSum(scrolls).GetOr(0) == MaxValue(OfSession(scrolls, session)).GetOr(0) + DepthSum(rest).GetOr(0)
  {}

  /** The sum of maxima, session by session. */
  lemma {:induction false} DepthSumIsTotal(scrolls: seq<Event>, m: Bytes -> int)
    requires IsMaxBySession(scrolls, m)
    ensures DepthSum(scrolls).GetOr(0) == Total(Sessions(scrolls), m)
    decreases |scrolls|
  {
    if scrolls == [] {
      assert Sessions(scrolls) == {};
    } else {
      var session := scrolls[0].session;
      assert scrolls[0] in scrolls;
      var rest := NotOfSession(scrolls, session);
      RestKeepsOthers(scrolls, session, m);
      DepthSumStep(scrolls, session, rest);
      DepthSumIsTotal(rest, m);
      TotalExtract(Sessions(scrolls), m, session);
    }
  }

  /** m gives the deepest stored value of each of the day's sessions. */
  ghost predicate GivesDeepest(w: seq<Event>, site: string, path: string, day: int, m: Bytes -> int) {
    forall s | s in ScrollSessions(w, site, path, day, day + 86_400) :: IsDeepest(w, site, path, day, day + 86_400, s, m(s))
  }

  /** There always is such a function. */
  lemma DeepestOfDay(w: seq<Event>, site: string, path: string, day: int) returns (m: Bytes -> int)
    ensures GivesDeepest(w, site, path, day, m)
  {
    m := MaxOfSession(DayScrolls(w, site, path, day));
    forall s | s in ScrollSessions(w, site, path, day, day + 86_400)
      ensures IsDeepest(w, site, path, day, day + 86_400, s, m(s))
    {
      SessionDeepest(w, site, path, day, s);
    }
  }

  lemma DayDepthIsCounted(w: seq<Event>, site: string, path: string, day: int, m: Bytes -> int)
    requires GivesDeepest(w, site, path, day, m)
    ensures Sessions(DayScrolls(w, site, path, day)) == ScrollSessions(w, site, path, day, day + 86_400)
    ensures DepthSum(DayScrolls(w, site, path, day)).GetOr(0) == Total(ScrollSessions(w, site, path, day, day + 86_400), m)
  {
    var scrolls := DayScrolls(w, site, path, day);
    DayScrollsAre(w, site, path, day);
    assert Sessions(scrolls) == ScrollSessions(w, site, path, day, day + 86_400);
    forall s | s in Sessions(scrolls)
      ensures m(s) == MaxValue(OfSession(scrolls, s)).GetOr(0)
    {
      SessionDeepest(w, site, path, day, s);
      DeepestIsUnique(w, site, path, day, day + 86_400, s, m(s), MaxOfSession(scrolls)(s));
    }
    DepthSumIsTotal(scrolls, m);
  }

  lemma DayScrollRowIs(w: seq<Event>, site: string, path: string, day: int)
    requires path in DayScrollReport(w, site, day)
    ensures var scrolls := DayScrolls(w, site, path, day);
            DayScrollReport(w, site, day)[path] == ScrollCounters(DepthSum(scrolls).GetOr(0), |Sessions(scrolls)|)
  {}

  lemma ScrolledPaths(w: seq<Event>, rows: seq<Event>, site: string, path: string, start: int, end: int)
    requires forall e :: e in rows <==> e in w && e.site == site && start <= e.ts < end
    ensures path in ScrollPaths(rows) <==> SomeScrolls(w, site, path, start, end)
  {
    if path in ScrollPaths(rows) {
      var e :| e in rows && e.IsScroll() && e.path == path;
      assert Scrolls(e, site, path, start, end);
    }
    if SomeScrolls(w, site, path, start, end) {
      var e :| e in w && Scrolls(e, site, path, start, end);
      assert e in rows && e.IsScroll();
    }
  }

  lemma DayScrollKeyIff(w: seq<Event>, site: string, path: string, day: int)
    ensures path in DayScrollReport(w, site, day) <==> SomeScrolls(w, site, path, day, day + 86_400)
  {
    var rows := SiteDayRows(w, site, day);
    assert path in DayScrollReport(w, site, day) <==> path in ScrollPaths(rows);
    RowsAre(w, site, day);
    ScrolledPaths(w, rows, site, path, day, day + 86_400);
  }

  /** What one day adds to a path's row: its sessions, each with its deepest value. */
  ghost function DayScroll(w: seq<Event>, site: string, path: string, day: int, m: Bytes -> int): ScrollCounters {
    var sessions := ScrollSessions(w, site, path, day, day + 86_400);
    ScrollCounters(Total(sessions, m), |sessions|)
  }

  lemma DayScrollIsCounted(w: seq<Event>, site: string, path: string, day: int, m: Bytes -> int)
    requires GivesDeepest(w, site, path, day, m)
    ensures path in DayScrollReport(w, site, day) ==> DayScrollReport(w, site, day)[path] == DayScroll(w, site, path, day, m)
    ensures path !in DayScrollReport(w, site, day) ==> DayScroll(w, site, path, day, m) == SCROLL.zero
  {
    DayScrollKeyIff(w, site, path, day);
    if path in DayScrollReport(w, site, day) {
      DayScrollRowIs(w, site, path, day);
      DayDepthIsCounted(w, site, path, day, m);
    } else {
      assert ScrollSessions(w, site, path, day, day + 86_400) == {};
    }
  }

  /** One such function for each day of the range. */
  ghost predicate GivesDeepestDaily(w: seq<Event>, site: string, path: string, start: int, deepest: seq<Bytes -> int>) {
    forall n | 0 <= n < |deepest| :: GivesDeepest(w, site, path, NthDay(start, n), deepest[n])
  }

  function SumOfScrolls(rows: seq<ScrollCounters>): ScrollCounters {
    if rows == [] then ScrollCounters(0, 0)
    else
      var earlier, last := SumOfScrolls(rows[..|rows| - 1]), rows[|rows| - 1];
      ScrollCounters(earlier.depthSum + last.depthSum, earlier.sessionCount + last.sessionCount)
  }

  /** Over the days, the sessions of each day, each session with its deepest value of that day. */
  ghost function ScrollOverDays(w: seq<Event>, site: string, path: string, start: int, deepest: seq<Bytes -> int>): ScrollCounters {
    SumOfScrolls(seq(|deepest|, n requires 0 <= n < |deepest| => DayScroll(w, site, path, NthDay(start, n), deepest[n])))
  }

  lemma {:induction false} ScrollSumIsSum(daily: int -> map<string, ScrollCounters>, start: int, rows: seq<ScrollCounters>, path: string)
    requires forall n | 0 <= n < |rows| ::
               rows[n] == if path in daily(NthDay(start, n)) then daily(NthDay(start, n))[path] else ScrollCounters(0, 0)
    ensures DailySum(SCROLL, daily, start, |rows|, path) == SumOfScrolls(rows)
    decreases |rows|
  {
    if rows != [] {
      ScrollSumIsSum(daily, start, rows[..|rows| - 1], path);
    }
  }

  lemma ScrollSumIsCounted(w: seq<Event>, site: string, path: string, start: int, deepest: seq<Bytes -> int>)
    requires GivesDeepestDaily(w, site, path, start, deepest)
    ensures DailySum(SCROLL, DailyScroll(w, site), start, |deepest|, path) == ScrollOverDays(w, site, path, start, deepest)
  {
    var rows := seq(|deepest|, n requires 0 <= n < |deepest| => DayScroll(w, site, path, NthDay(start, n), deepest[n]));
    forall n | 0 <= n < |rows|
      ensures rows[n] == if path in DailyScroll(w, site)(NthDay(start, n)) then DailyScroll(w, site)(NthDay(start, n))[path]
                         else ScrollCounters(0, 0)
    {
      DayScrollIsCounted(w, site, path, NthDay(start, n), deepest[n]);
    }
    ScrollSumIsSum(DailyScroll(w, site), start, rows, path);
  }

  lemma ScrolledOnSomeDay(w: seq<Event>, site: string, path: string, start: int, days: nat)
    ensures SomeScrolls(w, site, path, start, NthDay(start, days))
       <==> exists n: nat :: n < days && SomeScrolls(w, site, path, NthDay(start, n), NthDay(start, n) + 86_400)
  {
    if SomeScrolls(w, site, path, start, NthDay(start, days)) {
      var e :| e in w && Scrolls(e, site, path, start, NthDay(start, days));
      var n := OnSomeDay(e.ts, start, days);
      assert Scrolls(e, site, path, NthDay(start, n), NthDay(start, n) + 86_400);
    }
    if n: nat :| n < days && SomeScrolls(w, site, path, NthDay(start, n), NthDay(start, n) + 86_400) {
      var e :| e in w && Scrolls(e, site, path, NthDay(start, n), NthDay(start, n) + 86_400);
      assert Scrolls(e, site, path, start, NthDay(start, days));
    }
  }

  lemma ScrollKeysAreCounted(w: seq<Event>, site: string, path: string, start: int, days: nat)
    ensures path in DailyKeys(DailyScroll(w, site), start, days) <==> SomeScrolls(w, site, path, start, NthDay(start, days))
  {
    DailyKeysMember(DailyScroll(w, site), start, days, path);
    ScrolledOnSomeDay(w, site, path, start, days);
    forall n: nat | n < days
      ensures path in DailyScroll(w, site)(NthDay(start, n)) <==> SomeScrolls(w, site, path, NthDay(start, n), NthDay(start, n) + 86_400)
    {
      DayScrollKeyIff(w, site, path, NthDay(start, n));
    }
  }

  lemma ScrollTotalIsRight(w: seq<Event>, site: string, range: Range, path: string, deepest: seq<Bytes -> int>,
                           report: map<string, ScrollCounters>)
    requires Aligned(range) && report == DailyTotal(SCROLL, DailyScroll(w, site), range.startTs, DayCount(range))
    requires |deepest| == DayCount(range) && GivesDeepestDaily(w, site, path, range.startTs, deepest)
    ensures path in report <==> SomeScrolls(w, site, path, range.startTs, range.endTs)
    ensures path in report ==> report[path] == ScrollOverDays(w, site, path, range.startTs, deepest)
  {
    RangeSpan(range);
    ScrollKeysAreCounted(w, site, path, range.startTs, DayCount(range));
    ScrollSumIsCounted(w, site, path, range.startTs, deepest);
  }

  /**
   In every run, over an aligned range whose closed days the run has kept: a path has
   scroll data exactly when some written scroll event of the range is for it, and its
   row adds up, over the days, that day's distinct sessions and, once for each of
   them, the deepest value the session stored for the path that day.
   */
  lemma ScrollRowIsCountedInEveryRun(cfg: Config, nowMs: int, salt: Field, actions: seq<Action>, site: string, range: Range,
                                     path: string, deepest: seq<Bytes -> int>)
    requires cfg.retentionMonths >= 1 && ValidRun(cfg, Initial(nowMs, salt), actions) && Aligned(range)
    requires Closed.KeptDays(cfg, Initial(nowMs, salt), actions, range)
    requires |deepest| == DayCount(range)
    requires GivesDeepestDaily(Run(cfg, Initial(nowMs, salt), actions).written, site, path, range.startTs, deepest)
    ensures var s := Run(cfg, Initial(nowMs, salt), actions);
            var report := ScrollReport(s.tables, s.log, site, range, Today(s));
            && (path in report <==> SomeScrolls(s.written, site, path, range.startTs, range.endTs))
            && (path in report ==> report[path] == ScrollOverDays(s.written, site, path, range.startTs, deepest))
  {
    var s := Run(cfg, Initial(nowMs, salt), actions);
    QueryIsExactInEveryRun(cfg, nowMs, salt, actions, site, range, PathDim);
    ScrollTotalIsRight(s.written, site, range, path, deepest, ScrollReport(s.tables, s.log, site, range, Today(s)));
  }

  lemma DeepestOfTwo(w: seq<Event>, x: Event, y: Event, site: string, path: string, start: int, end: int)
    requires x in w && y in w && forall e | e in w :: e == x || e == y
    requires Scrolls(x, site, path, start, end) && Scrolls(y, site, path, start, end)
    requires x.session == y.session && x.value == Some(25) && y.value == Some(75)
    ensures SomeScrolls(w, site, path, start, end) && ScrollSessions(w, site, path, start, end) == {x.session}
    ensures IsDeepest(w, site, path, start, end, x.session, 75)
  {}

  lemma TotalOfOne(x: Bytes, m: Bytes -> int)
    ensures Total({x}, m) == m(x)
  {
    TotalExtract({x}, m, x);
    assert {x} - {x} == {};
  }

  /** One session that stores 25 and then 75 counts once, with 75. */
  lemma TwoMilestonesCountOnce(w: seq<Event>, x: Event, y: Event, site: string, path: string, day: int)
    requires x in w && y in w && forall e | e in w :: e == x || e == y
    requires Scrolls(x, site, path, day, day + 86_400) && Scrolls(y, site, path, day, day + 86_400)
    requires x.session == y.session && x.value == Some(25) && y.value == Some(75)
    ensures path in DayScrollReport(w, site, day) && DayScrollReport(w, site, day)[path] == ScrollCounters(75, 1)
  {
    var m := DeepestOfDay(w, site, path, day);
    DeepestOfTwo(w, x, y, site, path, day, day + 86_400);
    DayScrollKeyIff(w, site, path, day);
    DayScrollIsCounted(w, site, path, day, m);
    DeepestIsUnique(w, site, path, day, day + 86_400, x.session, m(x.session), 75);
    TotalOfOne(x.session, m);
  }
}
