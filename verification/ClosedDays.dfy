/** Once a closed day has been rebuilt after its last flush, its rollups are exact and final. */
module ClosedDays {
  import opened Wrappers
  import opened Counting
  import opened TrackedEvent
  import opened TimeRange
  import opened Aggregates
  import opened Database
  import opened RollupLaws
  import opened RangeReports
  import opened VisitorId
  import opened RecordEvent
  import opened Pipeline

  ghost predicate NoneOnDay(events: seq<Event>, day: int) {
    forall e | e in events :: !(day <= e.ts < day + SECONDS_PER_DAY)
  }

  /** The day is over and every event of it has reached the log. */
  ghost predicate Settled(s: State, day: int) {
    IsDay(day) && day <= Yesterday(s) && NoneOnDay(s.buffer, day) && NoneOnDay(s.inFlight, day)
  }

  lemma AppendOffDay(events: seq<Event>, more: seq<Event>, day: int)
    requires NoneOnDay(more, day)
    ensures DayRows(events + more, day) == DayRows(events, day)
  {
    FilterConcat(events, more, (e: Event) => day <= e.ts < day + SECONDS_PER_DAY);
    EmptyWindow(more, day, day + SECONDS_PER_DAY);
  }

  lemma SavedKeepsDay(cfg: Config, s: State, e: Event, day: int)
    requires Settled(s, day) && NoneOnDay([e], day)
    ensures Settled(Saved(cfg, s, e), day)
    ensures DayRows(History(Saved(cfg, s, e)), day) == DayRows(History(s), day)
    ensures Saved(cfg, s, e).tables == s.tables
  {
    AppendOffDay(History(s), [e], day);
    SavedAppends(cfg, s, e);
    assert e in [e];
  }

  lemma RequestedIsToday(cfg: Config, s: State, input: RecordInput, newSession: Bytes, day: int)
    requires day <= Yesterday(s)
    ensures var e := Requested(cfg, s, input, newSession); e.Some? ==> NoneOnDay([e.value], day)
  {}

  /** No step adds to a settled day. */
  lemma StepKeepsSettled(cfg: Config, s: State, a: Action, day: int)
    requires Settled(s, day) && Enabled(s, a)
    ensures Settled(Step(cfg, s, a), day)
    ensures DayRows(History(Step(cfg, s, a)), day) == DayRows(History(s), day)
  {
    match a
    case Tick(_) =>
    case RotateSalt(_) =>
    case Begin(input, newSession) => RequestedIsToday(cfg, s, input, newSession, day);
    case Save(index) =>
      assert s.inFlight[index] in s.inFlight;
      SavedKeepsDay(cfg, s.(inFlight := s.inFlight[..index] + s.inFlight[index + 1..]), s.inFlight[index], day);
    case Record(input, newSession) =>
      var e := Requested(cfg, s, input, newSession);
      RequestedIsToday(cfg, s, input, newSession, day);
      if e.Some? {
        SavedKeepsDay(cfg, s.(issued := s.issued + {newSession}, hashed := HashedBy(cfg, s, input)), e.value, day);
      }
    case Flush => assert s.written + s.buffer + [] == s.written + s.buffer;
    case RollupJob =>
    case PurgeJob =>
  }

  lemma YesterdayIsComplete(s: State, day: int)
    requires Inv(s) && Settled(s, day) && day == Yesterday(s)
    ensures DayRows(s.log, day) == DayRows(History(s), day)
  {
    RecentDaysAreComplete(s, day);
    AppendOffDay(s.written, s.buffer, day);
  }

  /** A committed rebuild of a settled yesterday makes it current for everything ever saved. */
  lemma RollupMakesCurrent(cfg: Config, s: State)
    requires Inv(s) && Settled(s, Yesterday(s)) && Storable(s.log, Yesterday(s))
    ensures Current(Step(cfg, s, RollupJob).tables, History(s), Yesterday(s))
  {
    RebuiltIsCurrent(s.tables, s.log, Yesterday(s));
    CurrentForHistory(s, Step(cfg, s, RollupJob).tables);
  }

  lemma CurrentForHistory(s: State, tables: Tables)
    requires Inv(s) && Settled(s, Yesterday(s)) && Current(tables, s.log, Yesterday(s))
    ensures Current(tables, History(s), Yesterday(s))
  {
    YesterdayIsComplete(s, Yesterday(s));
    CurrentDependsOnDayRows(tables, s.log, History(s), Yesterday(s));
  }

  /** No step changes the rows of a settled, current day: not a later rebuild, not a purge. */
  lemma StepKeepsCurrent(cfg: Config, s: State, a: Action, day: int)
    requires Inv(s) && Settled(s, day) && Enabled(s, a) && Current(s.tables, History(s), day)
    ensures Current(Step(cfg, s, a).tables, History(Step(cfg, s, a)), day)
    ensures SameDay(s.tables, Step(cfg, s, a).tables, day)
  {
    var next := Step(cfg, s, a);
    if a.RollupJob? && Storable(s.log, Yesterday(s)) {
      RebuiltIsCurrent(s.tables, s.log, Yesterday(s));
      if day == Yesterday(s) {
        RollupMakesCurrent(cfg, s);
        CurrentFixesDay(s.tables, next.tables, History(s), day);
      } else {
        CurrentFrame(s.tables, next.tables, History(s), day);
      }
    } else {
      StepKeepsSettled(cfg, s, a, day);
      OtherStepsKeepTables(cfg, s, a);
      CurrentDependsOnDayRows(s.tables, History(s), History(next), day);
    }
  }

  lemma OtherStepsKeepTables(cfg: Config, s: State, a: Action)
    requires Enabled(s, a) && !(a.RollupJob? && Storable(s.log, Yesterday(s)))
    ensures Step(cfg, s, a).tables == s.tables
  {}

  lemma {:induction false} RunKeepsCurrent(cfg: Config, s: State, actions: seq<Action>, day: int)
    requires Inv(s) && Settled(s, day) && ValidRun(cfg, s, actions) && cfg.retentionMonths >= 1
    requires Current(s.tables, History(s), day)
    ensures var end := Run(cfg, s, actions);
            && Settled(end, day) && Current(end.tables, History(end), day)
            && SameDay(s.tables, end.tables, day)
            && DayRows(History(end), day) == DayRows(History(s), day)
    decreases |actions|
  {
    if actions != [] {
      var next := Step(cfg, s, actions[0]);
      StepKeepsInv(cfg, s, actions[0]);
      StepKeepsSettled(cfg, s, actions[0], day);
      StepKeepsCurrent(cfg, s, actions[0], day);
      RunKeepsCurrent(cfg, next, actions[1..], day);
      SameDayTransitive(s.tables, next.tables, Run(cfg, next, actions[1..]).tables, day);
    }
  }

  lemma SameDayTransitive(a: Tables, b: Tables, c: Tables, day: int)
    requires SameDay(a, b, day) && SameDay(b, c, day)
    ensures SameDay(a, c, day)
  {
    forall cell: Cell<Dimension> | cell.day == day
      ensures SameCell(a.metrics, c.metrics, cell)
    {
      assert SameCell(a.metrics, b.metrics, cell) && SameCell(b.metrics, c.metrics, cell);
    }
    forall cell: Cell<ScrollTable> | cell.day == day
      ensures SameCell(a.scroll, c.scroll, cell)
    {
      assert SameCell(a.scroll, b.scroll, cell) && SameCell(b.scroll, c.scroll, cell);
    }
  }

  /**
   The main result. Take any run up to a moment when yesterday is settled and
   its rebuild commits. From then on, through any further run, the rollup rows
   of that day are exactly the aggregates of every event ever saved for it, and
   none of them ever changes again.
   */
  lemma RebuiltDayIsExactAndFinal(cfg: Config, nowMs: int, salt: Field, before: seq<Action>, after: seq<Action>)
    requires cfg.retentionMonths >= 1
    requires ValidRun(cfg, Initial(nowMs, salt), before)
    requires var s := Run(cfg, Initial(nowMs, salt), before);
             && Settled(s, Yesterday(s))
             && Storable(s.log, Yesterday(s))
             && ValidRun(cfg, Step(cfg, s, RollupJob), after)
    ensures var s := Run(cfg, Initial(nowMs, salt), before);
            var rebuilt := Step(cfg, s, RollupJob);
            var end := Run(cfg, rebuilt, after);
            && Current(end.tables, History(end), Yesterday(s))
            && DayRows(History(end), Yesterday(s)) == DayRows(History(s), Yesterday(s))
            && SameDay(rebuilt.tables, end.tables, Yesterday(s))
  {
    var s := Run(cfg, Initial(nowMs, salt), before);
    InitialInv(nowMs, salt);
    RunKeepsInv(cfg, Initial(nowMs, salt), before);
    RollupMakesCurrent(cfg, s);
    StepKeepsInv(cfg, s, RollupJob);
    StepKeepsSettled(cfg, s, RollupJob, Yesterday(s));
    RunKeepsCurrent(cfg, Step(cfg, s, RollupJob), after, Yesterday(s));
  }

  lemma InitialInv(nowMs: int, salt: Field)
    ensures Inv(Initial(nowMs, salt))
  {}

  /** Whether yesterday's rebuild commits is told from the events saved for it alone. */
  lemma YesterdayStorableIff(s: State)
    requires Inv(s) && Settled(s, Yesterday(s))
    ensures Storable(s.log, Yesterday(s)) <==>
            (forall d: Dimension :: EveryGroupCounts(DayRows(History(s), Yesterday(s)), d))
            && EveryScrollCounts(DayRows(History(s), Yesterday(s)))
  {
    YesterdayIsComplete(s, Yesterday(s));
    StorableIff(s.log, Yesterday(s));
  }

  // ---- which days of a run are kept ----

  /** Step k of the run is the rollup job, and it meets `day` as a settled yesterday whose rebuild commits. */
  ghost predicate RebuiltAt(cfg: Config, s: State, actions: seq<Action>, day: int, k: int)
    requires ValidRun(cfg, s, actions)
  {
    0 <= k < |actions| && actions[k].RollupJob?
    && (var t := StateAt(cfg, s, actions, k);
        day == Yesterday(t) && Settled(t, day) && Storable(t.log, day))
  }

  /** The run has rebuilt the day once it was settled, or has written no event of it. */
  ghost predicate KeptDay(cfg: Config, s: State, actions: seq<Action>, day: int)
    requires ValidRun(cfg, s, actions)
  {
    (exists k :: RebuiltAt(cfg, s, actions, day, k)) || NoneOnDay(Run(cfg, s, actions).written, day)
  }

  /** So it has with every day of the range that is over. */
  ghost predicate KeptDays(cfg: Config, s: State, actions: seq<Action>, range: Range)
    requires ValidRun(cfg, s, actions)
  {
    forall day {:trigger KeptDay(cfg, s, actions, day)} |
      IsDay(day) && range.startTs <= day < range.endTs && day < Today(Run(cfg, s, actions)) :: KeptDay(cfg, s, actions, day)
  }

  /** A rebuilt day stays current to the end of the run, for everything written. */
  lemma RebuiltDayIsCurrent(cfg: Config, nowMs: int, salt: Field, actions: seq<Action>, day: int, k: nat)
    requires ValidRun(cfg, Initial(nowMs, salt), actions) && cfg.retentionMonths >= 1
    requires RebuiltAt(cfg, Initial(nowMs, salt), actions, day, k)
    ensures var end := Run(cfg, Initial(nowMs, salt), actions);
            Settled(end, day) && Current(end.tables, end.written, day)
  {
    var s, t := Initial(nowMs, salt), StateAt(cfg, Initial(nowMs, salt), actions, k);
    StateAtIsRun(cfg, s, actions, k);
    RunKeepsInv(cfg, s, actions[..k]);
    assert actions[k..] == [actions[k]] + actions[k + 1..];
    RunFromFirst(cfg, t, actions[k], actions[k + 1..]);
    RebuiltStaysCurrent(cfg, t, actions[k + 1..], day, actions[k]);
  }

  lemma RebuiltStaysCurrent(cfg: Config, t: State, later: seq<Action>, day: int, a: Action)
    requires Inv(t) && a.RollupJob? && cfg.retentionMonths >= 1
    requires day == Yesterday(t) && Settled(t, day) && Storable(t.log, day) && ValidRun(cfg, Step(cfg, t, a), later)
    ensures var end := Run(cfg, Step(cfg, t, a), later);
            Settled(end, day) && Current(end.tables, end.written, day)
  {
    RollupMakesCurrent(cfg, t);
    StepKeepsInv(cfg, t, a);
    StepKeepsSettled(cfg, t, a, day);
    RunKeepsCurrent(cfg, Step(cfg, t, a), later, day);
    CurrentForWritten(Run(cfg, Step(cfg, t, a), later), day);
  }

  lemma CurrentForWritten(s: State, day: int)
    requires Settled(s, day) && Current(s.tables, History(s), day)
    ensures Current(s.tables, s.written, day)
  {
    AppendOffDay(s.written, s.buffer, day);
    CurrentDependsOnDayRows(s.tables, History(s), s.written, day);
  }

  // ---- days without events ----

  ghost predicate SomeOnDay(events: seq<Event>, day: int) {
    exists e :: e in events && day <= e.ts < day + SECONDS_PER_DAY
  }

  /** Every stored row belongs to a day with an event. */
  ghost predicate RowsHaveEvents(tables: Tables, written: seq<Event>) {
    && (forall c | c in tables.metrics :: SomeOnDay(written, c.day))
    && (forall c | c in tables.scroll :: SomeOnDay(written, c.day))
  }

  lemma RowsHaveMoreEvents(tables: Tables, written: seq<Event>, more: seq<Event>)
    requires RowsHaveEvents(tables, written)
    ensures RowsHaveEvents(tables, written + more)
  {
    forall day | SomeOnDay(written, day)
      ensures SomeOnDay(written + more, day)
    {
      var e :| e in written && day <= e.ts < day + SECONDS_PER_DAY;
      assert e in written + more;
    }
  }

  lemma ReportedDayHasEvent(log: seq<Event>, written: seq<Event>, site: string, day: int, d: Dimension, key: string)
    requires forall e | e in log :: e in written
    requires key in SiteDay(log, d, site, day) || key in SiteScrollDay(log, site, day)
    ensures SomeOnDay(written, day)
  {
    var e :| e in OfSite(DayRows(log, day), site);
    assert e in written;
  }

  lemma MetricCellHasEvent(after: Tables, log: seq<Event>, written: seq<Event>, day: int, c: Cell<Dimension>)
    requires Current(after, log, day) && (forall e | e in log :: e in written) && c in after.metrics && c.day == day
    ensures SomeOnDay(written, c.day)
  {
    assert MetricsCurrent(after.metrics, log, c.table, day);
    assert c == Cell(c.table, day, c.site, c.key);
    ReportedDayHasEvent(log, written, c.site, day, c.table, c.key);
  }

  lemma ScrollCellHasEvent(after: Tables, log: seq<Event>, written: seq<Event>, day: int, c: Cell<ScrollTable>)
    requires Current(after, log, day) && (forall e | e in log :: e in written) && c in after.scroll && c.day == day
    ensures SomeOnDay(written, c.day)
  {
    assert c.table.ScrollTable?;
    assert c == Cell(ScrollTable, day, c.site, c.key);
    ReportedDayHasEvent(log, written, c.site, day, DeviceDim, c.key);
  }

  lemma RebuiltRowsHaveEvents(tables: Tables, log: seq<Event>, written: seq<Event>, day: int)
    requires Storable(log, day) && RowsHaveEvents(tables, written) && forall e | e in log :: e in written
    ensures RowsHaveEvents(Rebuilt(tables, log, day), written)
  {
    RebuiltIsCurrent(tables, log, day);
    RowsOfCurrentDay(tables, Rebuilt(tables, log, day), log, written, day);
  }

  lemma RowsOfCurrentDay(tables: Tables, after: Tables, log: seq<Event>, written: seq<Event>, day: int)
    requires Current(after, log, day) && SameElsewhere(tables, after, day)
    requires RowsHaveEvents(tables, written) && forall e | e in log :: e in written
    ensures RowsHaveEvents(after, written)
  {
    forall c | c in after.metrics
      ensures SomeOnDay(written, c.day)
    {
      if c.day == day {
        MetricCellHasEvent(after, log, written, day, c);
      } else {
        assert SameCell(tables.metrics, after.metrics, c);
      }
    }
    forall c | c in after.scroll
      ensures SomeOnDay(written, c.day)
    {
      if c.day == day {
        ScrollCellHasEvent(after, log, written, day, c);
      } else {
        assert SameCell(tables.scroll, after.scroll, c);
      }
    }
  }

  lemma StepKeepsRowsHaveEvents(cfg: Config, s: State, a: Action)
    requires Dated(s) && Enabled(s, a) && RowsHaveEvents(s.tables, s.written)
    ensures RowsHaveEvents(Step(cfg, s, a).tables, Step(cfg, s, a).written)
  {
    if a.RollupJob? && Storable(s.log, Yesterday(s)) {
      RebuiltRowsHaveEvents(s.tables, s.log, s.written, Yesterday(s));
    } else {
      OtherStepsKeepTables(cfg, s, a);
      var more := WrittenGrows(cfg, s, a);
      RowsHaveMoreEvents(s.tables, s.written, more);
    }
  }

  lemma WrittenGrows(cfg: Config, s: State, a: Action) returns (more: seq<Event>)
    requires Enabled(s, a)
    ensures Step(cfg, s, a).written == s.written + more
  {
    more := Step(cfg, s, a).written[|s.written|..];
  }

  lemma {:induction false} RunKeepsRowsHaveEvents(cfg: Config, s: State, actions: seq<Action>)
    requires Dated(s) && ValidRun(cfg, s, actions) && RowsHaveEvents(s.tables, s.written)
    ensures var end := Run(cfg, s, actions); RowsHaveEvents(end.tables, end.written)
    decreases |actions|
  {
    if actions != [] {
      StepKeepsDated(cfg, s, actions[0]);
      StepKeepsRowsHaveEvents(cfg, s, actions[0]);
      RunKeepsRowsHaveEvents(cfg, Step(cfg, s, actions[0]), actions[1..]);
    }
  }

  /** A day without an event has no row, which is what its reports say. */
  lemma EmptyDayIsCurrent(tables: Tables, written: seq<Event>, day: int)
    requires RowsHaveEvents(tables, written) && NoneOnDay(written, day)
    ensures Current(tables, written, day)
  {
    EmptyWindow(written, day, day + SECONDS_PER_DAY);
    assert !SomeOnDay(written, day);
    forall d: Dimension
      ensures MetricsCurrent(tables.metrics, written, d, day)
    {
      HoldsNothing(tables.metrics, d, day, SiteDays(written, d, day), StoredCounters);
    }
    HoldsNothing(tables.scroll, ScrollTable, day, SiteScrollDays(written, day), StoredScroll);
  }

  lemma HoldsNothing<T(!new), A, R>(cells: map<Cell<T>, R>, table: T, day: int, daily: string -> map<string, A>, stored: A -> Option<R>)
    requires forall c | c in cells :: c.day != day
    requires forall site :: daily(site) == map[]
    ensures HoldsDay(cells, table, day, daily, stored)
  {}

  /** In every run the closed days it keeps are current. */
  lemma KeptDaysAreCurrent(cfg: Config, nowMs: int, salt: Field, actions: seq<Action>, range: Range)
    requires ValidRun(cfg, Initial(nowMs, salt), actions) && cfg.retentionMonths >= 1
    requires KeptDays(cfg, Initial(nowMs, salt), actions, range)
    ensures var s := Run(cfg, Initial(nowMs, salt), actions); ClosedDaysCurrent(s.tables, s.written, range, Today(s))
  {
    var s := Run(cfg, Initial(nowMs, salt), actions);
    RunKeepsRowsHaveEvents(cfg, Initial(nowMs, salt), actions);
    forall day | IsDay(day) && range.startTs <= day < range.endTs && day < Today(s)
      ensures Current(s.tables, s.written, day)
    {
      assert KeptDay(cfg, Initial(nowMs, salt), actions, day);
      if NoneOnDay(s.written, day) {
        EmptyDayIsCurrent(s.tables, s.written, day);
      } else {
        var k :| RebuiltAt(cfg, Initial(nowMs, salt), actions, day, k);
        RebuiltDayIsCurrent(cfg, nowMs, salt, actions, day, k);
      }
    }
  }

  // ---- later states ----

  lemma {:induction false} RunKeepsSettled(cfg: Config, s: State, actions: seq<Action>, day: int)
    requires Settled(s, day) && ValidRun(cfg, s, actions)
    ensures Settled(Run(cfg, s, actions), day)
    ensures DayRows(History(Run(cfg, s, actions)), day) == DayRows(History(s), day)
    decreases |actions|
  {
    if actions != [] {
      StepKeepsSettled(cfg, s, actions[0], day);
      RunKeepsSettled(cfg, Step(cfg, s, actions[0]), actions[1..], day);
    }
  }

  /** What is written of a settled day is written for good. */
  lemma SettledRowsStay(cfg: Config, s: State, actions: seq<Action>, day: int)
    requires Settled(s, day) && ValidRun(cfg, s, actions)
    ensures DayRows(Run(cfg, s, actions).written, day) == DayRows(s.written, day)
  {
    RunKeepsSettled(cfg, s, actions, day);
    AppendOffDay(s.written, s.buffer, day);
    AppendOffDay(Run(cfg, s, actions).written, Run(cfg, s, actions).buffer, day);
  }

  /** Every day of the range is over and has been rebuilt, once settled, before step m. */
  ghost predicate RebuiltBefore(cfg: Config, s: State, actions: seq<Action>, range: Range, m: nat)
    requires ValidRun(cfg, s, actions) && m <= |actions|
  {
    && range.endTs <= Today(StateAt(cfg, s, actions, m))
    && forall day {:trigger DayRebuiltBefore(cfg, s, actions, day, m)} | IsDay(day) && range.startTs <= day < range.endTs ::
         DayRebuiltBefore(cfg, s, actions, day, m)
  }

  ghost predicate DayRebuiltBefore(cfg: Config, s: State, actions: seq<Action>, day: int, m: nat)
    requires ValidRun(cfg, s, actions)
  {
    exists k :: k < m && RebuiltAt(cfg, s, actions, day, k)
  }

  lemma RebuiltInPrefix(cfg: Config, s: State, actions: seq<Action>, day: int, m: nat)
    requires ValidRun(cfg, s, actions) && m <= |actions| && DayRebuiltBefore(cfg, s, actions, day, m)
    ensures ValidRun(cfg, s, actions[..m]) && KeptDay(cfg, s, actions[..m], day) && KeptDay(cfg, s, actions, day)
  {
    var k :| k < m && RebuiltAt(cfg, s, actions, day, k);
    StateAtPrefix(cfg, s, actions, m, k);
    assert RebuiltAt(cfg, s, actions[..m], day, k);
  }

  lemma RebuiltRowsStay(cfg: Config, nowMs: int, salt: Field, actions: seq<Action>, day: int, m: nat)
    requires ValidRun(cfg, Initial(nowMs, salt), actions) && m <= |actions|
    requires DayRebuiltBefore(cfg, Initial(nowMs, salt), actions, day, m)
    ensures DayRows(Run(cfg, Initial(nowMs, salt), actions).written, day)
         == DayRows(StateAt(cfg, Initial(nowMs, salt), actions, m).written, day)
  {
    var s := Initial(nowMs, salt);
    var k :| k < m && RebuiltAt(cfg, s, actions, day, k);
    StateAtPrefix(cfg, s, actions, m, k);
    StateAtIsRun(cfg, s, actions, m);
    StateAtIsRun(cfg, s, actions[..m], k);
    RunKeepsSettled(cfg, StateAt(cfg, s, actions, k), actions[..m][k..], day);
    SettledRowsStay(cfg, StateAt(cfg, s, actions, m), actions[m..], day);
  }

  lemma RebuiltBeforeIsKept(cfg: Config, s: State, actions: seq<Action>, range: Range, m: nat)
    requires ValidRun(cfg, s, actions) && m <= |actions| && RebuiltBefore(cfg, s, actions, range, m)
    ensures ValidRun(cfg, s, actions[..m]) && KeptDays(cfg, s, actions[..m], range) && KeptDays(cfg, s, actions, range)
  {
    StateAtIsRun(cfg, s, actions, m);
    forall day | IsDay(day) && range.startTs <= day < range.endTs
      ensures KeptDay(cfg, s, actions[..m], day) && KeptDay(cfg, s, actions, day)
    {
      assert DayRebuiltBefore(cfg, s, actions, day, m);
      RebuiltInPrefix(cfg, s, actions, day, m);
    }
  }
}
