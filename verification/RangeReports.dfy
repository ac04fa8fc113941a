/**
 The dashboard query against its reference: per key, the sum over the range's
 days of the report computed straight from the events of that day.
 */
module RangeReports {
  import opened Wrappers
  import opened Counting
  import opened TrackedEvent
  import opened Aggregates
  import opened TimeRange
  import opened Database
  import opened RollupLaws
  import opened Metrics
  import opened MetricsRepository
  import opened QuerySiteMetrics

  /** The start of the n-th day of a range that begins at `start`. */
  function NthDay(start: int, n: int): int {
    start + n * SECONDS_PER_DAY
  }

  function DailyKeys<R>(daily: int -> map<string, R>, start: int, days: nat): set<string> {
    if days == 0 then {} else DailyKeys(daily, start, days - 1) + daily(NthDay(start, days - 1)).Keys
  }

  function DailySum<R>(add: Adder<R>, daily: int -> map<string, R>, start: int, days: nat, key: string): R {
    if days == 0 then add.zero
    else
      var earlier := DailySum(add, daily, start, days - 1, key);
      var last := daily(NthDay(start, days - 1));
      if key in last then add.plus(earlier, last[key]) else earlier
  }

  /** The reference: every key seen on some day, with the sum of its daily rows. */
  function DailyTotal<R>(add: Adder<R>, daily: int -> map<string, R>, start: int, days: nat): map<string, R> {
    map key | key in DailyKeys(daily, start, days) :: DailySum(add, daily, start, days, key)
  }

  /** One site's own report for one day, in report-row form. */
  function DayReport(log: seq<Event>, d: Dimension, site: string, day: int): map<string, Counters> {
    RawAnswer(log, d, site, Range(day, day + SECONDS_PER_DAY))
  }

  function DayScrollReport(log: seq<Event>, site: string, day: int): map<string, ScrollCounters> {
    RawScrollAnswer(log, site, Range(day, day + SECONDS_PER_DAY))
  }

  function Daily(history: seq<Event>, d: Dimension, site: string): int -> map<string, Counters> {
    day => DayReport(history, d, site, day)
  }

  function DailyScroll(history: seq<Event>, site: string): int -> map<string, ScrollCounters> {
    day => DayScrollReport(history, site, day)
  }

  // ---- splitting and joining day sums ----

  lemma NthDaySplit(start: int, m: int, n: int)
    ensures NthDay(NthDay(start, m), n) == NthDay(start, m + n)
  {}

  lemma {:induction false} DailyKeysSplit<R>(daily: int -> map<string, R>, start: int, m: nat, n: nat)
    ensures DailyKeys(daily, start, m + n) == DailyKeys(daily, start, m) + DailyKeys(daily, NthDay(start, m), n)
  {
    if n > 0 {
      DailyKeysSplit(daily, start, m, n - 1);
      NthDaySplit(start, m, n - 1);
    }
  }

  lemma {:induction false} DailySumAbsent<R>(add: Adder<R>, daily: int -> map<string, R>, start: int, n: nat, key: string)
    requires key !in DailyKeys(daily, start, n)
    ensures DailySum(add, daily, start, n, key) == add.zero
  {
    if n > 0 {
      DailySumAbsent(add, daily, start, n - 1, key);
    }
  }

  lemma {:induction false} DailySumSplit<R(!new)>(add: Adder<R>, daily: int -> map<string, R>, start: int, m: nat, n: nat, key: string)
    requires Associative(add)
    ensures key in DailyKeys(daily, NthDay(start, m), n) ==>
              DailySum(add, daily, start, m + n, key)
              == add.plus(DailySum(add, daily, start, m, key), DailySum(add, daily, NthDay(start, m), n, key))
    ensures key !in DailyKeys(daily, NthDay(start, m), n) ==>
              DailySum(add, daily, start, m + n, key) == DailySum(add, daily, start, m, key)
  {
    if n > 0 {
      DailySumSplit(add, daily, start, m, n - 1, key);
      NthDaySplit(start, m, n - 1);
      if key !in DailyKeys(daily, NthDay(start, m), n - 1) {
        DailySumAbsent(add, daily, NthDay(start, m), n - 1, key);
      }
    }
  }

  lemma DailyTotalSplit<R(!new)>(add: Adder<R>, daily: int -> map<string, R>, start: int, m: nat, n: nat)
    requires Associative(add)
    ensures DailyTotal(add, daily, start, m + n)
         == Plus(add, DailyTotal(add, daily, start, m), DailyTotal(add, daily, NthDay(start, m), n))
  {
    var whole := DailyTotal(add, daily, start, m + n);
    var parts := Plus(add, DailyTotal(add, daily, start, m), DailyTotal(add, daily, NthDay(start, m), n));
    DailyKeysSplit(daily, start, m, n);
    forall key | key in whole
      ensures whole[key] == parts[key]
    {
      DailySumSplit(add, daily, start, m, n, key);
      if key !in DailyKeys(daily, start, m) {
        DailySumAbsent(add, daily, start, m, key);
      }
    }
  }

  // ---- the rollup answer ----

  /** A rollup table stores each day of [start, start + days) as `daily` reports it, and nothing between day starts. */
  ghost predicate TableHolds<T(!new), R>(cells: map<Cell<T>, R>, table: T, site: string, daily: int -> map<string, R>,
                                         start: int, days: nat) {
    && (forall n: nat, key | n < days ::
          var cell := Cell(table, NthDay(start, n), site, key);
          (cell in cells <==> key in daily(NthDay(start, n))) && (cell in cells ==> cells[cell] == daily(NthDay(start, n))[key]))
    && (forall c | c in cells :: IsDay(c.day))
  }

  lemma {:induction false} SumOverNoRow<T(!new), R>(add: Adder<R>, cells: map<Cell<T>, R>, table: T, site: string,
                                                    key: string, start: int, mid: int, end: int)
    requires mid <= end && start <= mid
    requires forall day | mid <= day < end :: Cell(table, day, site, key) !in cells
    ensures SumOverDays(add, cells, table, site, key, start, end) == SumOverDays(add, cells, table, site, key, start, mid)
    decreases end - mid
  {
    if mid < end {
      SumOverNoRow(add, cells, table, site, key, start, mid, end - 1);
    }
  }

  lemma {:induction false} SumOverDaysIsDailySum<T(!new), R>(add: Adder<R>, cells: map<Cell<T>, R>, table: T, site: string,
                                                             daily: int -> map<string, R>, key: string, start: int, days: nat)
    requires IsDay(start) && TableHolds(cells, table, site, daily, start, days)
    ensures SumOverDays(add, cells, table, site, key, start, NthDay(start, days)) == DailySum(add, daily, start, days, key)
    decreases days
  {
    if days > 0 {
      SumOverDaysIsDailySum(add, cells, table, site, daily, key, start, days - 1);
      var day := NthDay(start, days - 1);
      assert IsDay(day);
      forall t | day + 1 <= t < NthDay(start, days)
        ensures Cell(table, t, site, key) !in cells
      {
        assert !IsDay(t);
      }
      SumOverNoRow(add, cells, table, site, key, start, day + 1, NthDay(start, days));
    }
  }

  lemma {:induction false} DailyKeysMember<R>(daily: int -> map<string, R>, start: int, days: nat, key: string)
    ensures key in DailyKeys(daily, start, days) <==> exists n: nat :: n < days && key in daily(NthDay(start, n))
  {
    if days > 0 {
      DailyKeysMember(daily, start, days - 1, key);
    }
  }

  lemma DayIndex(start: int, day: int)
    requires IsDay(start) && IsDay(day)
    ensures day == NthDay(start, (day - start) / SECONDS_PER_DAY)
  {}

  lemma StoredKeyIsDaily<T(!new), R>(cells: map<Cell<T>, R>, table: T, site: string, daily: int -> map<string, R>,
                                     start: int, days: nat, c: Cell<T>)
    requires IsDay(start) && TableHolds(cells, table, site, daily, start, days)
    requires c in cells && c.table == table && c.site == site && start <= c.day < NthDay(start, days)
    ensures c.key in DailyKeys(daily, start, days)
  {
    var n := (c.day - start) / SECONDS_PER_DAY;
    DayIndex(start, c.day);
    assert c == Cell(table, NthDay(start, n), site, c.key);
    DailyKeysMember(daily, start, days, c.key);
  }

  lemma DailyKeyIsStored<T(!new), R>(cells: map<Cell<T>, R>, table: T, site: string, daily: int -> map<string, R>,
                                     start: int, days: nat, key: string)
    returns (c: Cell<T>)
    requires TableHolds(cells, table, site, daily, start, days)
    requires key in DailyKeys(daily, start, days)
    ensures c in cells.Keys && c.table == table && c.site == site && start <= c.day < NthDay(start, days) && c.key == key
  {
    DailyKeysMember(daily, start, days, key);
    var n: nat :| n < days && key in daily(NthDay(start, n));
    c := Cell(table, NthDay(start, n), site, key);
  }

  lemma KeysInRangeAreDailyKeys<T(!new), R>(cells: map<Cell<T>, R>, table: T, site: string, daily: int -> map<string, R>,
                                            start: int, days: nat)
    requires IsDay(start) && TableHolds(cells, table, site, daily, start, days)
    ensures KeysInRange(cells, table, site, Range(start, NthDay(start, days))) == DailyKeys(daily, start, days)
  {
    var keys := KeysInRange(cells, table, site, Range(start, NthDay(start, days)));
    forall key | key in DailyKeys(daily, start, days)
      ensures key in keys
    {
      var c := DailyKeyIsStored(cells, table, site, daily, start, days, key);
    }
    forall c | c in cells.Keys && c.table == table && c.site == site && start <= c.day < NthDay(start, days)
      ensures c.key in DailyKeys(daily, start, days)
    {
      StoredKeyIsDaily(cells, table, site, daily, start, days, c);
    }
  }

  /** The rollup query over whole days is the daily total. */
  lemma RollupAnswerIsDailyTotal<T(!new), R>(add: Adder<R>, cells: map<Cell<T>, R>, table: T, site: string,
                                             daily: int -> map<string, R>, start: int, days: nat)
    requires IsDay(start) && TableHolds(cells, table, site, daily, start, days)
    ensures RollupAnswer(add, cells, table, site, Range(start, NthDay(start, days))) == DailyTotal(add, daily, start, days)
  {
    KeysInRangeAreDailyKeys(cells, table, site, daily, start, days);
    forall key | key in DailyKeys(daily, start, days)
      ensures SumOverDays(add, cells, table, site, key, start, NthDay(start, days)) == DailySum(add, daily, start, days, key)
    {
      SumOverDaysIsDailySum(add, cells, table, site, daily, key, start, days);
    }
  }

  // ---- the raw answer ----

  lemma {:induction false} QuietKeys<R>(daily: int -> map<string, R>, start: int, days: nat)
    requires days > 0
    requires forall n | 1 <= n < days :: daily(NthDay(start, n)) == map[]
    ensures DailyKeys(daily, start, days) == daily(start).Keys
  {
    if days > 1 {
      QuietKeys(daily, start, days - 1);
    } else {
      assert DailyKeys(daily, start, 0) == {} && NthDay(start, 0) == start;
    }
  }

  lemma {:induction false} QuietSum<R(!new)>(add: Adder<R>, daily: int -> map<string, R>, start: int, days: nat, key: string)
    requires Associative(add) && days > 0
    requires forall n | 1 <= n < days :: daily(NthDay(start, n)) == map[]
    requires key in daily(start)
    ensures DailySum(add, daily, start, days, key) == daily(start)[key]
  {
    if days > 1 {
      QuietSum(add, daily, start, days - 1, key);
    } else {
      assert DailySum(add, daily, start, 0, key) == add.zero && NthDay(start, 0) == start;
    }
  }

  /** When every later day is empty, the total is the first day's report. */
  lemma QuietTotal<R(!new)>(add: Adder<R>, daily: int -> map<string, R>, start: int, days: nat)
    requires Associative(add) && days > 0
    requires forall n | 1 <= n < days :: daily(NthDay(start, n)) == map[]
    ensures DailyTotal(add, daily, start, days) == daily(start)
  {
    QuietKeys(daily, start, days);
    forall key | key in daily(start)
      ensures DailySum(add, daily, start, days, key) == daily(start)[key]
    {
      QuietSum(add, daily, start, days, key);
    }
  }

  lemma {:induction false} DailyTotalAgree<R>(add: Adder<R>, f: int -> map<string, R>, g: int -> map<string, R>, start: int, days: nat)
    requires forall n | 0 <= n < days :: f(NthDay(start, n)) == g(NthDay(start, n))
    ensures DailyTotal(add, f, start, days) == DailyTotal(add, g, start, days)
  {
    forall key
      ensures DailySum(add, f, start, days, key) == DailySum(add, g, start, days, key)
    {
      DailySumAgree(add, f, g, start, days, key);
    }
    DailyKeysAgree(f, g, start, days);
  }

  lemma {:induction false} DailySumAgree<R>(add: Adder<R>, f: int -> map<string, R>, g: int -> map<string, R>, start: int, days: nat, key: string)
    requires forall n | 0 <= n < days :: f(NthDay(start, n)) == g(NthDay(start, n))
    ensures DailySum(add, f, start, days, key) == DailySum(add, g, start, days, key)
  {
    if days > 0 {
      DailySumAgree(add, f, g, start, days - 1, key);
    }
  }

  lemma {:induction false} DailyKeysAgree<R>(f: int -> map<string, R>, g: int -> map<string, R>, start: int, days: nat)
    requires forall n | 0 <= n < days :: f(NthDay(start, n)) == g(NthDay(start, n))
    ensures DailyKeys(f, start, days) == DailyKeys(g, start, days)
  {
    if days > 0 {
      DailyKeysAgree(f, g, start, days - 1);
    }
  }

  /** One more day adds that day's report. */
  lemma DailyTotalOneMore<R(!new)>(add: Adder<R>, daily: int -> map<string, R>, start: int, days: nat)
    requires Associative(add)
    ensures DailyTotal(add, daily, start, days + 1)
         == Plus(add, DailyTotal(add, daily, start, days), daily(NthDay(start, days)))
  {
    DailyTotalSplit(add, daily, start, days, 1);
    QuietTotal(add, daily, NthDay(start, days), 1);
  }

  lemma EmptyWindow(log: seq<Event>, start: int, end: int)
    requires forall e | e in log :: !(start <= e.ts < end)
    ensures Window(log, start, end) == []
  {
    FilterNone(log, (e: Event) => start <= e.ts < end);
  }

  lemma EmptyRawAnswer(log: seq<Event>, d: Dimension, site: string, range: Range)
    requires Window(log, range.startTs, range.endTs) == []
    ensures RawAnswer(log, d, site, range) == map[]
    ensures RawScrollAnswer(log, site, range) == map[]
  {}

  lemma WindowUpToNow(log: seq<Event>, start: int, end: int, lastEnd: int)
    requires end <= lastEnd
    requires forall e | e in log :: e.ts < end
    ensures Window(log, start, lastEnd) == Window(log, start, end)
  {
    FilterAgree(log, (e: Event) => start <= e.ts < lastEnd, (e: Event) => start <= e.ts < end);
  }

  /** What a daily report needs for a raw query over [start, start + days) to be its total. */
  ghost predicate AnswersDays<R>(raw: Range -> map<string, R>, daily: int -> map<string, R>, start: int, days: nat) {
    && (days == 0 ==> raw(Range(start, start)) == map[])
    && (days > 0 ==> raw(Range(start, NthDay(start, days))) == daily(start))
    && (forall n | 1 <= n < days :: daily(NthDay(start, n)) == map[])
  }

  lemma RawAnswerIsDailyTotal<R(!new)>(add: Adder<R>, raw: Range -> map<string, R>, daily: int -> map<string, R>,
                                       start: int, days: nat)
    requires Associative(add) && AnswersDays(raw, daily, start, days)
    ensures raw(Range(start, NthDay(start, days))) == DailyTotal(add, daily, start, days)
  {
    if days > 0 {
      QuietTotal(add, daily, start, days);
    }
  }

  // ---- stitching ----

  /** How many of an aligned range's days lie before `today`. */
  function ClosedDays(range: Range, today: int): (n: nat)
    requires Aligned(range) && IsDay(today)
    ensures n <= DayCount(range)
  {
    if today <= range.startTs then 0
    else if range.endTs <= today then DayCount(range)
    else (today - range.startTs) / SECONDS_PER_DAY
  }

  function OpenStart(range: Range, today: int): int
    requires Aligned(range) && IsDay(today)
  {
    NthDay(range.startTs, ClosedDays(range, today))
  }

  /** The range's last `days` days, from `start` on, are those not before `today`. */
  predicate OpenDays(range: Range, today: int, start: int, days: nat)
    requires Aligned(range) && IsDay(today)
  {
    start == OpenStart(range, today) && days == DayCount(range) - ClosedDays(range, today)
  }

  lemma PartsInDays(range: Range, today: int)
    requires Aligned(range) && IsDay(today)
    ensures var closed := ClosedDays(range, today);
            ClosedPart(range, today) == if closed == 0 then None else Some(Range(range.startTs, NthDay(range.startTs, closed)))
    ensures var open := DayCount(range) - ClosedDays(range, today);
            OpenPart(range, today) == if range.endTs <= today then None
                                      else Some(Range(OpenStart(range, today), NthDay(OpenStart(range, today), open)))
    ensures range.endTs <= today ==> ClosedDays(range, today) == DayCount(range)
    ensures range.startTs <= today ==> OpenStart(range, today) <= today
    ensures OpenStart(range, today) < today ==> DayCount(range) == ClosedDays(range, today)
    ensures range.startTs > today ==> OpenStart(range, today) == range.startTs
    ensures IsDay(OpenStart(range, today))
  {
    DayIndex(range.startTs, range.endTs);
    DayIndex(range.startTs, today);
  }

  /** Closed days from a table that holds them, the rest from a raw query that answers it: together, the daily total. */
  lemma SplitReportIsDailyTotal<T(!new), R(!new)>(add: Adder<R>, cells: map<Cell<T>, R>, table: T, site: string,
                                                  raw: Range -> map<string, R>, daily: int -> map<string, R>, range: Range, today: int,
                                                  start: int, days: nat)
    requires Associative(add) && Aligned(range) && IsDay(today)
    requires TableHolds(cells, table, site, daily, range.startTs, ClosedDays(range, today))
    requires OpenDays(range, today, start, days) && AnswersDays(raw, daily, start, days)
    ensures SplitReport(add, range, today, RollupQuery(add, cells, table, site), raw) == DailyTotal(add, daily, range.startTs, DayCount(range))
  {
    var closed, total := ClosedDays(range, today), DayCount(range);
    DailyTotalSplit(add, daily, range.startTs, closed, total - closed);
    ClosedAnswer(add, cells, table, site, daily, range, today);
    OpenAnswer(add, raw, daily, range, today);
  }

  lemma ClosedAnswer<T(!new), R>(add: Adder<R>, cells: map<Cell<T>, R>, table: T, site: string,
                                 daily: int -> map<string, R>, range: Range, today: int)
    requires Aligned(range) && IsDay(today)
    requires TableHolds(cells, table, site, daily, range.startTs, ClosedDays(range, today))
    ensures Answer(ClosedPart(range, today), RollupQuery(add, cells, table, site)) == DailyTotal(add, daily, range.startTs, ClosedDays(range, today))
  {
    PartsInDays(range, today);
    RollupAnswerIsDailyTotal(add, cells, table, site, daily, range.startTs, ClosedDays(range, today));
  }

  lemma OpenAnswer<R(!new)>(add: Adder<R>, raw: Range -> map<string, R>, daily: int -> map<string, R>, range: Range, today: int)
    requires Associative(add) && Aligned(range) && IsDay(today)
    requires AnswersDays(raw, daily, OpenStart(range, today), DayCount(range) - ClosedDays(range, today))
    ensures Answer(OpenPart(range, today), raw)
         == DailyTotal(add, daily, OpenStart(range, today), DayCount(range) - ClosedDays(range, today))
  {
    PartsInDays(range, today);
    RawAnswerIsDailyTotal(add, raw, daily, OpenStart(range, today), DayCount(range) - ClosedDays(range, today));
  }

  // ---- the two reports ----

  /** Every stored row belongs to a whole day. */
  ghost predicate AlignedTables(tables: Tables) {
    (forall c | c in tables.metrics :: IsDay(c.day)) && (forall c | c in tables.scroll :: IsDay(c.day))
  }

  /** The raw log still holds all of today's history, and nothing is dated later. */
  ghost predicate HoldsToday(log: seq<Event>, history: seq<Event>, today: int) {
    && DayRows(log, today) == DayRows(history, today)
    && (forall e | e in log :: e.ts < today + SECONDS_PER_DAY)
    && (forall e | e in history :: e.ts < today + SECONDS_PER_DAY)
  }

  /** Reading today's window from either log gives the same rows, however far the window reaches past today. */
  lemma OpenWindow(log: seq<Event>, history: seq<Event>, today: int, start: int, days: nat)
    requires HoldsToday(log, history, today) && IsDay(today) && IsDay(start) && today <= start
    ensures days > 0 ==> Window(log, start, NthDay(start, days)) == DayRows(history, start)
    ensures days == 0 ==> Window(log, start, NthDay(start, days)) == []
    ensures forall n | 1 <= n :: DayRows(history, NthDay(start, n)) == []
  {
    forall n | 1 <= n
      ensures DayRows(history, NthDay(start, n)) == []
    {
      EmptyWindow(history, NthDay(start, n), NthDay(start, n) + SECONDS_PER_DAY);
    }
    if days == 0 {
      EmptyWindow(log, start, start);
    } else if start == today {
      WindowUpToNow(log, start, start + SECONDS_PER_DAY, NthDay(start, days));
    } else {
      EmptyWindow(log, start, NthDay(start, days));
      EmptyWindow(history, start, start + SECONDS_PER_DAY);
    }
  }

  lemma RawAnswersDays(log: seq<Event>, history: seq<Event>, d: Dimension, site: string, today: int, start: int, days: nat)
    requires HoldsToday(log, history, today) && IsDay(today) && IsDay(start) && (today <= start || days == 0)
    ensures AnswersDays(RawQuery(log, d, site), Daily(history, d, site), start, days)
  {
    if days == 0 {
      EmptyWindow(log, start, start);
      EmptyRawAnswer(log, d, site, Range(start, start));
    } else {
      OpenWindow(log, history, today, start, days);
      forall n | 1 <= n < days
        ensures DayReport(history, d, site, NthDay(start, n)) == map[]
      {
        var day := NthDay(start, n);
        EmptyRawAnswer(history, d, site, Range(day, day + SECONDS_PER_DAY));
      }
      SameWindowSameAnswer(log, history, d, site, Range(start, NthDay(start, days)), Range(start, start + SECONDS_PER_DAY));
    }
  }

  lemma RawScrollAnswersDays(log: seq<Event>, history: seq<Event>, site: string, today: int, start: int, days: nat)
    requires HoldsToday(log, history, today) && IsDay(today) && IsDay(start) && (today <= start || days == 0)
    ensures AnswersDays(RawScrollQuery(log, site), DailyScroll(history, site), start, days)
  {
    if days == 0 {
      EmptyWindow(log, start, start);
      EmptyRawAnswer(log, DeviceDim, site, Range(start, start));
    } else {
      OpenWindow(log, history, today, start, days);
      forall n | 1 <= n < days
        ensures DayScrollReport(history, site, NthDay(start, n)) == map[]
      {
        var day := NthDay(start, n);
        EmptyRawAnswer(history, DeviceDim, site, Range(day, day + SECONDS_PER_DAY));
      }
      SameWindowSameAnswer(log, history, DeviceDim, site, Range(start, NthDay(start, days)), Range(start, start + SECONDS_PER_DAY));
    }
  }

  lemma SameWindowSameAnswer(log: seq<Event>, history: seq<Event>, d: Dimension, site: string, r: Range, s: Range)
    requires Window(log, r.startTs, r.endTs) == Window(history, s.startTs, s.endTs)
    ensures RawAnswer(log, d, site, r) == RawAnswer(history, d, site, s)
    ensures RawScrollAnswer(log, site, r) == RawScrollAnswer(history, site, s)
  {}

  lemma CurrentCell(metrics: MetricCells, history: seq<Event>, d: Dimension, site: string, day: int, key: string)
    requires MetricsCurrent(metrics, history, d, day)
    ensures var cell := Cell(d, day, site, key);
            && (cell in metrics <==> key in DayReport(history, d, site, day))
            && (cell in metrics ==> metrics[cell] == DayReport(history, d, site, day)[key])
  {
    assert Cell(d, day, site, key) in metrics <==> key in SiteDay(history, d, site, day);
  }

  lemma CurrentTableHolds(metrics: MetricCells, history: seq<Event>, d: Dimension, site: string, start: int, days: nat)
    requires forall c | c in metrics :: IsDay(c.day)
    requires forall n | 0 <= n < days :: MetricsCurrent(metrics, history, d, NthDay(start, n))
    ensures TableHolds(metrics, d, site, Daily(history, d, site), start, days)
  {
    forall n: nat, key | n < days
      ensures var cell := Cell(d, NthDay(start, n), site, key);
              && (cell in metrics <==> key in DayReport(history, d, site, NthDay(start, n)))
              && (cell in metrics ==> metrics[cell] == DayReport(history, d, site, NthDay(start, n))[key])
    {
      CurrentCell(metrics, history, d, site, NthDay(start, n), key);
    }
  }

  lemma CurrentScrollCell(scroll: ScrollCells, history: seq<Event>, site: string, day: int, path: string)
    requires ScrollCurrent(scroll, history, day)
    ensures var cell := Cell(ScrollTable, day, site, path);
            && (cell in scroll <==> path in DayScrollReport(history, site, day))
            && (cell in scroll ==> scroll[cell] == DayScrollReport(history, site, day)[path])
  {
    assert Cell(ScrollTable, day, site, path) in scroll <==> path in SiteScrollDay(history, site, day);
  }

  lemma CurrentScrollTableHolds(scroll: ScrollCells, history: seq<Event>, site: string, start: int, days: nat)
    requires forall c | c in scroll :: IsDay(c.day)
    requires forall n | 0 <= n < days :: ScrollCurrent(scroll, history, NthDay(start, n))
    ensures TableHolds(scroll, ScrollTable, site, DailyScroll(history, site), start, days)
  {
    forall n: nat, path | n < days
      ensures var cell := Cell(ScrollTable, NthDay(start, n), site, path);
              && (cell in scroll <==> path in DayScrollReport(history, site, NthDay(start, n)))
              && (cell in scroll ==> scroll[cell] == DayScrollReport(history, site, NthDay(start, n))[path])
    {
      CurrentScrollCell(scroll, history, site, NthDay(start, n), path);
    }
  }

  /** Every closed day of the range has current rollups. */
  ghost predicate ClosedDaysCurrent(tables: Tables, history: seq<Event>, range: Range, today: int) {
    forall day {:trigger Current(tables, history, day)} | IsDay(day) && range.startTs <= day < range.endTs && day < today ::
      Current(tables, history, day)
  }

  lemma ClosedDayIsCurrent(tables: Tables, history: seq<Event>, range: Range, today: int, n: int)
    requires Aligned(range) && IsDay(today) && ClosedDaysCurrent(tables, history, range, today)
    requires 0 <= n < ClosedDays(range, today)
    ensures Current(tables, history, NthDay(range.startTs, n))
  {
    DayIndex(range.startTs, range.endTs);
    DayIndex(range.startTs, today);
    assert IsDay(NthDay(range.startTs, n));
  }

  lemma ClosedDaysHeld(tables: Tables, history: seq<Event>, site: string, range: Range, d: Dimension, today: int)
    requires Aligned(range) && IsDay(today) && AlignedTables(tables) && ClosedDaysCurrent(tables, history, range, today)
    ensures TableHolds(tables.metrics, d, site, Daily(history, d, site), range.startTs, ClosedDays(range, today))
    ensures TableHolds(tables.scroll, ScrollTable, site, DailyScroll(history, site),
                       range.startTs, ClosedDays(range, today))
  {
    forall n | 0 <= n < ClosedDays(range, today)
      ensures MetricsCurrent(tables.metrics, history, d, NthDay(range.startTs, n))
      ensures ScrollCurrent(tables.scroll, history, NthDay(range.startTs, n))
    {
      ClosedDayIsCurrent(tables, history, range, today, n);
    }
    CurrentTableHolds(tables.metrics, history, d, site, range.startTs, ClosedDays(range, today));
    CurrentScrollTableHolds(tables.scroll, history, site, range.startTs, ClosedDays(range, today));
  }

  lemma OpenDaysBegin(range: Range, today: int, start: int, days: nat)
    requires Aligned(range) && IsDay(today) && OpenDays(range, today, start, days)
    ensures IsDay(start) && (today <= start || days == 0)
  {
    PartsInDays(range, today);
  }

  lemma {:induction false} MetricsReportInDays(tables: Tables, log: seq<Event>, history: seq<Event>, site: string, range: Range,
                                               d: Dimension, today: int, start: int, days: nat)
    requires Aligned(range) && IsDay(today) && AlignedTables(tables) && OpenDays(range, today, start, days)
    requires HoldsToday(log, history, today) && ClosedDaysCurrent(tables, history, range, today)
    ensures MetricsReport(tables, log, site, range, d, today)
         == DailyTotal(METRICS, Daily(history, d, site), range.startTs, DayCount(range))
  {
    RowsAddAssociatively();
    ClosedDaysHeld(tables, history, site, range, d, today);
    OpenDaysBegin(range, today, start, days);
    RawAnswersDays(log, history, d, site, today, start, days);
    SplitReportIsDailyTotal(METRICS, tables.metrics, d, site, RawQuery(log, d, site), Daily(history, d, site), range, today,
                            start, days);
  }

  lemma {:induction false} ScrollReportInDays(tables: Tables, log: seq<Event>, history: seq<Event>, site: string, range: Range,
                                              today: int, start: int, days: nat)
    requires Aligned(range) && IsDay(today) && AlignedTables(tables) && OpenDays(range, today, start, days)
    requires HoldsToday(log, history, today) && ClosedDaysCurrent(tables, history, range, today)
    ensures ScrollReport(tables, log, site, range, today)
         == DailyTotal(SCROLL, DailyScroll(history, site), range.startTs, DayCount(range))
  {
    RowsAddAssociatively();
    ClosedDaysHeld(tables, history, site, range, DeviceDim, today);
    OpenDaysBegin(range, today, start, days);
    RawScrollAnswersDays(log, history, site, today, start, days);
    SplitReportIsDailyTotal(SCROLL, tables.scroll, ScrollTable, site, RawScrollQuery(log, site), DailyScroll(history, site),
                            range, today, start, days);
  }

  /** The query equals the sum, over the range's days, of the reports computed straight from each day's events. */
  lemma {:induction false} MetricsReportIsExact(
      tables: Tables, log: seq<Event>, history: seq<Event>, site: string, range: Range, d: Dimension, today: int)
    requires Aligned(range) && IsDay(today) && AlignedTables(tables)
    requires HoldsToday(log, history, today) && ClosedDaysCurrent(tables, history, range, today)
    ensures MetricsReport(tables, log, site, range, d, today)
         == DailyTotal(METRICS, Daily(history, d, site), range.startTs, DayCount(range))
  {
    MetricsReportInDays(tables, log, history, site, range, d, today,
                        OpenStart(range, today), DayCount(range) - ClosedDays(range, today));
  }

  lemma {:induction false} ScrollReportIsExact(
      tables: Tables, log: seq<Event>, history: seq<Event>, site: string, range: Range, today: int)
    requires Aligned(range) && IsDay(today) && AlignedTables(tables)
    requires HoldsToday(log, history, today) && ClosedDaysCurrent(tables, history, range, today)
    ensures ScrollReport(tables, log, site, range, today)
         == DailyTotal(SCROLL, DailyScroll(history, site), range.startTs, DayCount(range))
  {
    ScrollReportInDays(tables, log, history, site, range, today,
                       OpenStart(range, today), DayCount(range) - ClosedDays(range, today));
  }
}
