/**
 The whole server as a state machine: requests, the write buffer, the jobs that
 rotate the salt, rebuild yesterday's rollups and purge the log, and the clock.
 A request is two steps, so that others can run while it waits to be saved.
 */
module Pipeline {
  import opened Wrappers
  import opened Counting
  import opened TrackedEvent
  import opened TimeRange
  import opened Calendar
  import opened Database
  import opened RollupLaws
  import opened EventRepository
  import opened BatchingEventRepository
  import opened VisitorId
  import opened RecordEvent
  import opened PurgeExpiredData
  import opened QuerySiteMetrics
  import opened RangeReports

  datatype Config = Config(adapters: Adapters, allowedSites: set<string>, retentionMonths: nat, maxBatchSize: int)

  datatype State = State(
    nowMs: int,
    salt: Field,
    log: seq<Event>,
    buffer: seq<Event>,
    inFlight: seq<Event>,
    tables: Tables,
    /** Every event ever written to the log, purged or not. */
    written: seq<Event>,
    /** Every session id handed out and every identity hashed so far. */
    issued: set<Bytes>,
    hashed: set<VisitorInput>)

  datatype Action =
    | Tick(toMs: int)
    | RotateSalt(newSalt: Field)
    | Begin(input: RecordInput, newSession: Bytes)
    | Save(index: nat)
    | Record(request: RecordInput, session: Bytes)
    | Flush
    | RollupJob
    | PurgeJob

  function NowSeconds(s: State): int { s.nowMs / 1000 }

  function Today(s: State): int { TodayStart(s.nowMs) }

  function Yesterday(s: State): int { Today(s) - SECONDS_PER_DAY }

  /** Everything saved so far, in the order it was saved. */
  function History(s: State): seq<Event> { s.written + s.buffer }

  function Initial(nowMs: int, salt: Field): State {
    State(nowMs, salt, [], [], [], Tables(map[], map[]), [], {}, {})
  }

  predicate Enabled(s: State, a: Action) {
    match a
    case Tick(toMs) => s.nowMs <= toMs
    case RotateSalt(_) => true
    case Begin(_, newSession) => newSession !in s.issued
    case Save(index) => index < |s.inFlight|
    case Record(_, session) => session !in s.issued
    case Flush => true
    case RollupJob => true
    case PurgeJob => true
  }

  function Flushed(s: State): State {
    s.(log := s.log + s.buffer, written := s.written + s.buffer, buffer := [])
  }

  /** saveBatch of one event. */
  function Saved(cfg: Config, s: State, e: Event): State {
    var next := s.(buffer := s.buffer + [e]);
    if |next.buffer| >= cfg.maxBatchSize then Flushed(next) else next
  }

  /** The event a request would store now, or None when it is turned away. */
  function Requested(cfg: Config, s: State, input: RecordInput, newSession: Bytes): Option<Event> {
    match Accepted(cfg.adapters, cfg.allowedSites, input)
    case Err(_) => None
    case Ok(site) =>
      var id := DeriveVisitorId(cfg.adapters.hash, IdentityOf(cfg.adapters, site, input, s.salt));
      var session := SessionFor(BufferedLatest(s.buffer, s.log, id), s.nowMs, newSession);
      Some(EventFor(cfg.adapters, site, input, s.salt, s.nowMs, session))
  }

  function HashedBy(cfg: Config, s: State, input: RecordInput): set<VisitorInput> {
    match Accepted(cfg.adapters, cfg.allowedSites, input)
    case Err(_) => s.hashed
    case Ok(site) => s.hashed + {IdentityOf(cfg.adapters, site, input, s.salt)}
  }

  function WithYesterdayRolledUp(s: State): State {
    s.(tables := RolledUp(s.tables, s.log, Yesterday(s)))
  }

  function Step(cfg: Config, s: State, a: Action): State
    requires Enabled(s, a)
  {
    match a
    case Tick(toMs) => s.(nowMs := toMs)
    case RotateSalt(newSalt) => s.(salt := newSalt)
    case Begin(input, newSession) =>
      var e := Requested(cfg, s, input, newSession);
      if e.None? then s
      else s.(inFlight := s.inFlight + [e.value], issued := s.issued + {newSession}, hashed := HashedBy(cfg, s, input))
    case Save(index) =>
      Saved(cfg, s.(inFlight := s.inFlight[..index] + s.inFlight[index + 1..]), s.inFlight[index])
    case Record(input, newSession) =>
      var e := Requested(cfg, s, input, newSession);
      if e.None? then s
      else Saved(cfg, s.(issued := s.issued + {newSession}, hashed := HashedBy(cfg, s, input)), e.value)
    case Flush => Flushed(s)
    case RollupJob => WithYesterdayRolledUp(s)
    case PurgeJob => s.(log := Retained(s.log, Cutoff(s.nowMs, cfg.retentionMonths)))
  }

  /** Rebuilding a day does what the rollup step does when that day is yesterday. */
  lemma RolledUpTables(s: State, day: int, tables: Tables)
    requires day == Yesterday(s) && tables == RolledUp(s.tables, s.log, day)
    ensures WithYesterdayRolledUp(s) == s.(tables := tables)
  {}

  predicate ValidRun(cfg: Config, s: State, actions: seq<Action>)
    decreases |actions|
  {
    actions == [] || (Enabled(s, actions[0]) && ValidRun(cfg, Step(cfg, s, actions[0]), actions[1..]))
  }

  function Run(cfg: Config, s: State, actions: seq<Action>): State
    requires ValidRun(cfg, s, actions)
    decreases |actions|
  {
    if actions == [] then s else Run(cfg, Step(cfg, s, actions[0]), actions[1..])
  }

  lemma RunFromFirst(cfg: Config, s: State, a: Action, rest: seq<Action>)
    requires Enabled(s, a)
    ensures ValidRun(cfg, s, [a] + rest) <==> ValidRun(cfg, Step(cfg, s, a), rest)
    ensures ValidRun(cfg, s, [a] + rest) ==> Run(cfg, s, [a] + rest) == Run(cfg, Step(cfg, s, a), rest)
  {
    assert ([a] + rest)[0] == a && ([a] + rest)[1..] == rest;
  }

  /** A run can be taken in two parts. */
  lemma {:induction false} RunInTwoParts(cfg: Config, s: State, first: seq<Action>, second: seq<Action>)
    ensures ValidRun(cfg, s, first + second) <==> ValidRun(cfg, s, first) && ValidRun(cfg, Run(cfg, s, first), second)
    ensures ValidRun(cfg, s, first + second) ==> Run(cfg, s, first + second) == Run(cfg, Run(cfg, s, first), second)
    decreases |first|
  {
    if first == [] {
      assert first + second == second;
    } else {
      assert (first + second)[0] == first[0] && (first + second)[1..] == first[1..] + second;
      if Enabled(s, first[0]) {
        RunInTwoParts(cfg, Step(cfg, s, first[0]), first[1..], second);
      }
    }
  }

  /** The state before step n of a run. */
  function StateAt(cfg: Config, s: State, actions: seq<Action>, n: nat): State
    requires ValidRun(cfg, s, actions) && n <= |actions|
    decreases n
  {
    if n == 0 then s else StateAt(cfg, Step(cfg, s, actions[0]), actions[1..], n - 1)
  }

  lemma {:induction false} StateAtIsRun(cfg: Config, s: State, actions: seq<Action>, n: nat)
    requires ValidRun(cfg, s, actions) && n <= |actions|
    ensures ValidRun(cfg, s, actions[..n]) && StateAt(cfg, s, actions, n) == Run(cfg, s, actions[..n])
    ensures ValidRun(cfg, StateAt(cfg, s, actions, n), actions[n..])
    ensures Run(cfg, StateAt(cfg, s, actions, n), actions[n..]) == Run(cfg, s, actions)
    ensures n < |actions| ==> Enabled(StateAt(cfg, s, actions, n), actions[n])
    decreases n
  {
    if n > 0 {
      StateAtIsRun(cfg, Step(cfg, s, actions[0]), actions[1..], n - 1);
      assert actions[..n][0] == actions[0] && actions[..n][1..] == actions[1..][..n - 1];
      assert actions[1..][n - 1..] == actions[n..];
    } else {
      assert actions[0..] == actions && actions[..0] == [];
    }
  }

  lemma {:induction false} StateAtPrefix(cfg: Config, s: State, actions: seq<Action>, m: nat, n: nat)
    requires ValidRun(cfg, s, actions) && n <= m <= |actions|
    ensures ValidRun(cfg, s, actions[..m]) && StateAt(cfg, s, actions[..m], n) == StateAt(cfg, s, actions, n)
    decreases n
  {
    StateAtIsRun(cfg, s, actions, m);
    StateAtIsRun(cfg, s, actions[..m], n);
    StateAtIsRun(cfg, s, actions, n);
    assert actions[..m][..n] == actions[..n];
  }

  /** Buffering or not, saving appends to the history. */
  lemma SavedAppends(cfg: Config, s: State, e: Event)
    ensures History(Saved(cfg, s, e)) == History(s) + [e]
  {
    assert s.written + (s.buffer + [e]) == s.written + s.buffer + [e];
    assert s.written + s.buffer + [e] + [] == s.written + s.buffer + [e];
  }

  /** A batch is written when its last event arrives, and not before. */
  lemma BatchIsWrittenWhenFull(cfg: Config, s: State, e: Event)
    requires |s.buffer| < cfg.maxBatchSize
    ensures var t := Saved(cfg, s, e);
            if |s.buffer| == cfg.maxBatchSize - 1 then t.buffer == [] && t.log == s.log + s.buffer + [e]
            else t.buffer == s.buffer + [e] && t.log == s.log
  {
    assert s.log + (s.buffer + [e]) == s.log + s.buffer + [e];
  }

  /** So in every run less than a batch is buffered. */
  lemma {:induction false} BufferStaysBelowLimit(cfg: Config, s: State, actions: seq<Action>)
    requires ValidRun(cfg, s, actions) && |s.buffer| < cfg.maxBatchSize
    ensures |Run(cfg, s, actions).buffer| < cfg.maxBatchSize
    decreases |actions|
  {
    if actions != [] {
      BufferStaysBelowLimit(cfg, Step(cfg, s, actions[0]), actions[1..]);
    }
  }

  /** The purge job deletes the rows dated before the second that lies the configured number of months back, and no others. */
  lemma PurgeJobKeeps(cfg: Config, s: State, e: Event)
    ensures var cutoff := NowSeconds(s) - 86_400 * LengthOfMonthsBefore(MonthNow(s.nowMs), cfg.retentionMonths);
            multiset(Step(cfg, s, PurgeJob).log)[e] == if cutoff <= e.ts then multiset(s.log)[e] else 0
  {
    CutoffIsExact(s.nowMs, cfg.retentionMonths);
    RetainedKeepsEach(s.log, Cutoff(s.nowMs, cfg.retentionMonths), e);
  }

  // ---- what every run keeps ----

  const KEPT_SECONDS := 28 * SECONDS_PER_DAY

  /** The rows no purge with at least a month of retention may touch. */
  function Recent(events: seq<Event>, nowSeconds: int): seq<Event> {
    Retained(events, nowSeconds - KEPT_SECONDS)
  }

  ghost predicate DatedBy(events: seq<Event>, seconds: int) {
    forall e | e in events :: e.ts <= seconds
  }

  /** Nothing is dated in the future, the log holds only what was written, and rollup rows belong to whole days. */
  ghost predicate Dated(s: State) {
    && DatedBy(s.written, NowSeconds(s)) && DatedBy(s.buffer, NowSeconds(s)) && DatedBy(s.inFlight, NowSeconds(s))
    && (forall e | e in s.log :: e in s.written)
    && AlignedTables(s.tables)
  }

  /** Moreover nothing recent is missing from the log. */
  ghost predicate Inv(s: State) {
    Dated(s) && Recent(s.log, NowSeconds(s)) == Recent(s.written, NowSeconds(s))
  }

  lemma RetainedTwice(log: seq<Event>, a: int, b: int)
    ensures Retained(Retained(log, a), b) == Retained(log, if a < b then b else a)
  {
    FilterFilter(log, (e: Event) => a <= e.ts, (e: Event) => b <= e.ts, (e: Event) => (if a < b then b else a) <= e.ts);
  }

  lemma RetainedWindow(log: seq<Event>, from: int, day: int)
    requires from <= day
    ensures DayRows(Retained(log, from), day) == DayRows(log, day)
  {
    FilterFilter(log, (e: Event) => from <= e.ts, (e: Event) => day <= e.ts < day + SECONDS_PER_DAY,
                 (e: Event) => day <= e.ts < day + SECONDS_PER_DAY);
  }

  /** Days within the last four weeks are read from the log as they were written. */
  lemma RecentDaysAreComplete(s: State, day: int)
    requires Inv(s) && NowSeconds(s) - 28 * 86_400 <= day
    ensures DayRows(s.log, day) == DayRows(s.written, day)
  {
    RetainedWindow(s.log, NowSeconds(s) - KEPT_SECONDS, day);
    RetainedWindow(s.written, NowSeconds(s) - KEPT_SECONDS, day);
  }

  lemma TickKeepsRecent(log: seq<Event>, written: seq<Event>, now: int, later: int)
    requires now <= later && Recent(log, now) == Recent(written, now)
    ensures Recent(log, later) == Recent(written, later)
  {
    RetainedTwice(log, now - KEPT_SECONDS, later - KEPT_SECONDS);
    RetainedTwice(written, now - KEPT_SECONDS, later - KEPT_SECONDS);
  }

  lemma PurgeKeepsRecent(log: seq<Event>, nowMs: int, months: nat)
    requires months >= 1
    ensures Recent(Retained(log, Cutoff(nowMs, months)), nowMs / 1000) == Recent(log, nowMs / 1000)
  {
    CutoffIsExact(nowMs, months);
    MonthsBack(MonthNow(nowMs), months);
    RetainedTwice(log, Cutoff(nowMs, months), nowMs / 1000 - KEPT_SECONDS);
  }

  lemma RebuiltKeepsAlignment(tables: Tables, log: seq<Event>, day: int)
    requires Storable(log, day) && AlignedTables(tables) && IsDay(day)
    ensures AlignedTables(Rebuilt(tables, log, day))
  {
    RebuiltIsCurrent(tables, log, day);
    var after := Rebuilt(tables, log, day);
    forall c | c in after.metrics
      ensures IsDay(c.day)
    {
      if c.day != day {
        assert SameCell(tables.metrics, after.metrics, c);
      }
    }
    forall c | c in after.scroll
      ensures IsDay(c.day)
    {
      if c.day != day {
        assert SameCell(tables.scroll, after.scroll, c);
      }
    }
  }

  lemma SavedKeepsDated(cfg: Config, s: State, e: Event)
    requires Dated(s) && e.ts <= NowSeconds(s)
    ensures Dated(Saved(cfg, s, e))
  {}

  lemma RequestedIsNow(cfg: Config, s: State, input: RecordInput, newSession: Bytes)
    ensures var e := Requested(cfg, s, input, newSession); e.Some? ==> e.value.ts == NowSeconds(s)
  {}

  lemma RequestKeepsDated(cfg: Config, s: State, a: Action)
    requires Dated(s) && Enabled(s, a) && (a.Begin? || a.Save? || a.Record?)
    ensures Dated(Step(cfg, s, a))
  {
    match a
    case Begin(input, newSession) => RequestedIsNow(cfg, s, input, newSession);
    case Save(index) =>
      assert s.inFlight[index] in s.inFlight;
      SavedKeepsDated(cfg, s.(inFlight := s.inFlight[..index] + s.inFlight[index + 1..]), s.inFlight[index]);
    case Record(input, newSession) =>
      var e := Requested(cfg, s, input, newSession);
      RequestedIsNow(cfg, s, input, newSession);
      if e.Some? {
        SavedKeepsDated(cfg, s.(issued := s.issued + {newSession}, hashed := HashedBy(cfg, s, input)), e.value);
      }
  }

  /** Whatever the configuration. */
  lemma StepKeepsDated(cfg: Config, s: State, a: Action)
    requires Dated(s) && Enabled(s, a)
    ensures Dated(Step(cfg, s, a))
  {
    match a
    case Tick(_) =>
    case RotateSalt(_) =>
    case Begin(_, _) => RequestKeepsDated(cfg, s, a);
    case Save(_) => RequestKeepsDated(cfg, s, a);
    case Record(_, _) => RequestKeepsDated(cfg, s, a);
    case Flush =>
    case RollupJob =>
      if Storable(s.log, Yesterday(s)) {
        RebuiltKeepsAlignment(s.tables, s.log, Yesterday(s));
      }
    case PurgeJob =>
  }

  lemma {:induction false} RunKeepsDated(cfg: Config, s: State, actions: seq<Action>)
    requires Dated(s) && ValidRun(cfg, s, actions)
    ensures Dated(Run(cfg, s, actions))
    decreases |actions|
  {
    if actions != [] {
      StepKeepsDated(cfg, s, actions[0]);
      RunKeepsDated(cfg, Step(cfg, s, actions[0]), actions[1..]);
    }
  }

  lemma FlushKeepsRecent(s: State)
    requires Recent(s.log, NowSeconds(s)) == Recent(s.written, NowSeconds(s))
    ensures Recent(Flushed(s).log, NowSeconds(s)) == Recent(Flushed(s).written, NowSeconds(s))
  {
    FilterConcat(s.log, s.buffer, (e: Event) => NowSeconds(s) - KEPT_SECONDS <= e.ts);
    FilterConcat(s.written, s.buffer, (e: Event) => NowSeconds(s) - KEPT_SECONDS <= e.ts);
  }

  lemma SavedKeepsRecent(cfg: Config, s: State, e: Event)
    requires Recent(s.log, NowSeconds(s)) == Recent(s.written, NowSeconds(s))
    ensures Recent(Saved(cfg, s, e).log, NowSeconds(s)) == Recent(Saved(cfg, s, e).written, NowSeconds(s))
  {
    FlushKeepsRecent(s.(buffer := s.buffer + [e]));
  }

  /** With at least a month of retention. */
  lemma StepKeepsInv(cfg: Config, s: State, a: Action)
    requires Inv(s) && Enabled(s, a) && cfg.retentionMonths >= 1
    ensures Inv(Step(cfg, s, a))
  {
    StepKeepsDated(cfg, s, a);
    match a
    case Tick(toMs) => TickKeepsRecent(s.log, s.written, NowSeconds(s), toMs / 1000);
    case RotateSalt(_) =>
    case Begin(_, _) =>
    case Save(index) =>
      SavedKeepsRecent(cfg, s.(inFlight := s.inFlight[..index] + s.inFlight[index + 1..]), s.inFlight[index]);
    case Record(input, newSession) =>
      var e := Requested(cfg, s, input, newSession);
      if e.Some? {
        SavedKeepsRecent(cfg, s.(issued := s.issued + {newSession}, hashed := HashedBy(cfg, s, input)), e.value);
      }
    case Flush => FlushKeepsRecent(s);
    case RollupJob =>
    case PurgeJob => PurgeKeepsRecent(s.log, s.nowMs, cfg.retentionMonths);
  }

  lemma {:induction false} RunKeepsInv(cfg: Config, s: State, actions: seq<Action>)
    requires Inv(s) && ValidRun(cfg, s, actions) && cfg.retentionMonths >= 1
    ensures Inv(Run(cfg, s, actions))
    decreases |actions|
  {
    if actions != [] {
      StepKeepsInv(cfg, s, actions[0]);
      RunKeepsInv(cfg, Step(cfg, s, actions[0]), actions[1..]);
    }
  }
}
