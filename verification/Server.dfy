/** The composition root: the objects one server shares, and the jobs and requests that run on them. */
module Server {
  import opened Wrappers
  import opened TrackedEvent
  import opened TimeRange
  import opened Database
  import opened EventRepository
  import opened BatchingEventRepository
  import opened VisitorId
  import opened RecordEvent
  import opened PurgeExpiredData
  import opened SqliteRollupBuilder
  import ClosedDays
  import FlushTimer
  import JobStaleness
  import Pipeline
  import Scheduler

  const ONE_HOUR_MS := 60 * 60 * 1000
  const ONE_DAY_MS := 24 * ONE_HOUR_MS

  const SALT_ROTATION := Scheduler.SchedulerJob("saltRotation", ONE_DAY_MS)
  const ROLLUP_BUILD := Scheduler.SchedulerJob("rollupBuild", ONE_HOUR_MS)
  const RETENTION_PURGE := Scheduler.SchedulerJob("retentionPurge", ONE_DAY_MS)

  const JOBS: seq<Scheduler.SchedulerJob> := [SALT_ROTATION, ROLLUP_BUILD, RETENTION_PURGE]

  lemma JobNamesAreDistinct()
    ensures Scheduler.DistinctNames(JOBS) && ROLLUP_BUILD in JOBS
    ensures JOBS == [Scheduler.SchedulerJob("saltRotation", 86_400_000), Scheduler.SchedulerJob("rollupBuild", 3_600_000),
                     Scheduler.SchedulerJob("retentionPurge", 86_400_000)]
  {
    assert SALT_ROTATION.name[0] == 's' && ROLLUP_BUILD.name[1] == 'o' && RETENTION_PURGE.name[1] == 'e';
    assert JOBS[1] == ROLLUP_BUILD;
  }

  /**
   While the server stays up, its rollup timer fires at most `late` ms late and
   each run succeeds in `within` ms: an hour and those delays after any instant, a
   run of the job that began since has succeeded.
   */
  lemma ClosedDayIsRebuiltSoon(events: seq<Scheduler.Event>, late: int, within: int, since: int, now: int)
    returns (i: nat, k: nat)
    requires 0 <= late && 0 <= within
    requires JobStaleness.TimelyRun(JOBS, events, ROLLUP_BUILD, late, within, now)
    requires events[0].at <= since && since + ONE_HOUR_MS + late + 2 * within < now
    ensures JobStaleness.SucceededRun(events, ROLLUP_BUILD, i, k) && since <= events[i].at
  {
    JobNamesAreDistinct();
    JobStaleness.SucceedsSoonAfter(JOBS, events, ROLLUP_BUILD, late, within, since, now);
    i, k :| JobStaleness.SucceededRun(events, ROLLUP_BUILD, i, k) && since <= events[i].at;
  }

  /**
   Step j is what the run begun by events[i] does: it rebuilds at the instant it
   begins, and it can only succeed when its rebuild commits.
   */
  ghost predicate IsRollupStep(cfg: Pipeline.Config, s: Pipeline.State, actions: seq<Pipeline.Action>,
                               events: seq<Scheduler.Event>, i: nat, j: int)
    requires Pipeline.ValidRun(cfg, s, actions) && i < |events|
  {
    && 0 <= j < |actions| && actions[j].RollupJob?
    && (var t := Pipeline.StateAt(cfg, s, actions, j);
        && t.nowMs == events[i].at
        && ((exists k :: JobStaleness.SucceededRun(events, ROLLUP_BUILD, i, k)) ==> Storable(t.log, Pipeline.Yesterday(t))))
  }

  /** Every run of the rollup job that the scheduler begins is a rollup step of the server. */
  ghost predicate RollupsAreSteps(cfg: Pipeline.Config, s: Pipeline.State, actions: seq<Pipeline.Action>, events: seq<Scheduler.Event>)
    requires Pipeline.ValidRun(cfg, s, actions)
  {
    forall i: nat {:trigger HasRollupStep(cfg, s, actions, events, i)} |
      i < |events| && events[i].Fire? && events[i].job == ROLLUP_BUILD :: HasRollupStep(cfg, s, actions, events, i)
  }

  ghost predicate HasRollupStep(cfg: Pipeline.Config, s: Pipeline.State, actions: seq<Pipeline.Action>,
                                events: seq<Scheduler.Event>, i: nat)
    requires Pipeline.ValidRun(cfg, s, actions) && i < |events|
  {
    exists j :: IsRollupStep(cfg, s, actions, events, i, j)
  }

  lemma YesterdayOf(s: Pipeline.State, day: int)
    requires IsDay(day) && (day + SECONDS_PER_DAY) * 1000 <= s.nowMs < (day + 2 * SECONDS_PER_DAY) * 1000
    ensures Pipeline.Yesterday(s) == day
  {
    assert day + SECONDS_PER_DAY <= s.nowMs / 1000 < day + 2 * SECONDS_PER_DAY;
  }

  /**
   The two timers' promise about the tables. While the server stays up and keeps its
   timings, a day is settled soon after its midnight and rebuilt an hour and the
   delays later, before the next midnight: the run keeps it.
   */
  lemma ClosedDayIsKept(cfg: Pipeline.Config, delays: FlushTimer.Delays, nowMs: int, salt: Field, actions: seq<Pipeline.Action>,
                        events: seq<Scheduler.Event>, late: int, within: int, day: int, now: int)
    returns (j: nat)
    requires var s := Pipeline.Initial(nowMs, salt);
             && Pipeline.ValidRun(cfg, s, actions) && FlushTimer.Prompt(cfg, delays, FlushTimer.Unarmed(nowMs, salt), actions)
             && RollupsAreSteps(cfg, s, actions, events)
    requires 0 <= late && 0 <= within && IsDay(day)
    requires JobStaleness.TimelyRun(JOBS, events, ROLLUP_BUILD, late, within, now) && JobStaleness.MonotoneUntil(events, now)
    requires var since := FlushTimer.SettledBy(delays, day);
             && events[0].at <= since && since + ONE_HOUR_MS + late + 2 * within < now < (day + 2 * SECONDS_PER_DAY) * 1000
    ensures ClosedDays.RebuiltAt(cfg, Pipeline.Initial(nowMs, salt), actions, day, j)
  {
    var s := Pipeline.Initial(nowMs, salt);
    var i, k := ClosedDayIsRebuiltSoon(events, late, within, FlushTimer.SettledBy(delays, day), now);
    assert HasRollupStep(cfg, s, actions, events, i);
    j :| IsRollupStep(cfg, s, actions, events, i, j);
    YesterdayOf(Pipeline.StateAt(cfg, s, actions, j), day);
    FlushTimer.DaySettlesInTime(cfg, delays, nowMs, salt, actions, day, j);
  }

  /** Saving one event through the buffer. */
  lemma SaveStep(cfg: Pipeline.Config, s: Pipeline.State, e: Event)
    ensures Pipeline.Saved(cfg, s, e) ==
              if |s.buffer| + 1 < cfg.maxBatchSize then s.(buffer := s.buffer + [e])
              else s.(log := s.log + s.buffer + [e], written := s.written + s.buffer + [e], buffer := [])
  {
    assert s.log + (s.buffer + [e]) == s.log + s.buffer + [e];
    assert s.written + (s.buffer + [e]) == s.written + s.buffer + [e];
  }

  /** What the record step does to the machine and its timer: a refused request nothing, ... */
  lemma RefusedStep(cfg: Pipeline.Config, intervalMs: int, x: FlushTimer.Timed, input: RecordInput, newSession: Bytes)
    requires newSession !in x.state.issued && Accepted(cfg.adapters, cfg.allowedSites, input).Err?
    ensures FlushTimer.TimedStep(cfg, intervalMs, x, Pipeline.Record(input, newSession)) == x
  {}

  /** ... one whose event is held buffers it, ... */
  lemma HeldStep(cfg: Pipeline.Config, intervalMs: int, x: FlushTimer.Timed, input: RecordInput, newSession: Bytes, e: Event)
    requires newSession !in x.state.issued && Pipeline.Requested(cfg, x.state, input, newSession) == Some(e)
    requires |x.state.buffer| + 1 < cfg.maxBatchSize
    ensures var s := x.state;
            FlushTimer.TimedStep(cfg, intervalMs, x, Pipeline.Record(input, newSession)) == FlushTimer.Timed(
              s.(issued := s.issued + {newSession}, hashed := Pipeline.HashedBy(cfg, s, input), buffer := s.buffer + [e]),
              TimerAfter(true, x.timer, s.nowMs + intervalMs), x.arrivals + [s.nowMs])
  {}

  /** ... and one that fills the batch flushes it. */
  lemma FlushedStep(cfg: Pipeline.Config, intervalMs: int, x: FlushTimer.Timed, input: RecordInput, newSession: Bytes, e: Event)
    requires newSession !in x.state.issued && Pipeline.Requested(cfg, x.state, input, newSession) == Some(e)
    requires |x.state.buffer| + 1 >= cfg.maxBatchSize
    ensures var s := x.state;
            FlushTimer.TimedStep(cfg, intervalMs, x, Pipeline.Record(input, newSession)) == FlushTimer.Timed(
              s.(issued := s.issued + {newSession}, hashed := Pipeline.HashedBy(cfg, s, input),
                 log := s.log + s.buffer + [e], written := s.written + s.buffer + [e], buffer := []), None, [])
  {
    SaveStep(cfg, x.state.(issued := x.state.issued + {newSession}, hashed := Pipeline.HashedBy(cfg, x.state, input)), e);
  }

  class Server {
    const cfg: Pipeline.Config
    const db: Database
    const eventRepository: BatchingEventRepository
    const rollupBuilder: SqliteRollupBuilder
    const recordEvent: RecordEvent
    const purgeExpiredData: PurgeExpiredData
    var salt: Field
    /** The requests that have resolved their event and await its save. */
    var inFlight: seq<Event>
    /** The clock's last reading, the log's full history and every id and identity so far, for the state machine. */
    ghost var nowMs: int
    ghost var written: seq<Event>
    ghost var issued: set<Bytes>
    ghost var hashed: set<VisitorInput>

    ghost predicate Valid()
      reads this, eventRepository
    {
      && eventRepository.delegate.db == db
      && rollupBuilder.db == db
      && recordEvent.eventRepository == eventRepository
      && recordEvent.adapters == cfg.adapters && recordEvent.allowedSites == cfg.allowedSites
      && purgeExpiredData.eventRetention.db == db && purgeExpiredData.retentionMonths == cfg.retentionMonths
      && eventRepository.maxBatchSize == cfg.maxBatchSize
      && eventRepository.Valid() && eventRepository.lastSeen <= nowMs
    }

    /** The state of the whole, as the state machine sees it. */
    ghost function Snapshot(): Pipeline.State
      reads this, db, eventRepository
    {
      Pipeline.State(nowMs, salt, db.events, eventRepository.buffer, inFlight, db.TablesOf(), written, issued, hashed)
    }

    /** The same with the flush timer and the buffered events' arrivals. */
    ghost function TimedSnapshot(): FlushTimer.Timed
      reads this, db, eventRepository
    {
      FlushTimer.Timed(Snapshot(), eventRepository.flushTimer, eventRepository.arrivals)
    }

    constructor (cfg: Pipeline.Config, salt: Field, nowMs: int)
      ensures Valid() && this.cfg == cfg && TimedSnapshot() == FlushTimer.Unarmed(nowMs, salt)
      ensures fresh(db) && fresh(eventRepository) && eventRepository.flushIntervalMs == 1000
    {
      var database := new Database();
      var delegate := new SqliteEventRepository(database);
      var events := new BatchingEventRepository(delegate, cfg.maxBatchSize);
      this.cfg, this.db, this.eventRepository := cfg, database, events;
      this.rollupBuilder := new SqliteRollupBuilder(database);
      this.recordEvent := new RecordEvent(cfg.adapters, cfg.allowedSites, events);
      this.purgeExpiredData := new PurgeExpiredData(delegate, cfg.retentionMonths);
      this.salt, this.inFlight := salt, [];
      this.nowMs, this.written, this.issued, this.hashed := nowMs, [], {}, {};
      new;
      events.lastSeen := nowMs;
    }

    /** The rollupBuild job, the state machine's RollupJob: rebuild yesterday. */
    method RollupBuild(now: int)
      requires Valid() && now == nowMs
      modifies db`metrics, db`scroll
      ensures Valid() && Snapshot() == Pipeline.WithYesterdayRolledUp(old(Snapshot()))
    {
      ghost var before := Snapshot();
      var todayStart := DayStart(now / 1000);
      var committed := rollupBuilder.Execute(todayStart - SECONDS_PER_DAY);
      Pipeline.RolledUpTables(before, todayStart - SECONDS_PER_DAY, db.TablesOf());
    }

    /** The retentionPurge job. */
    method RetentionPurge(now: int)
      requires Valid() && now == nowMs
      modifies db`events
      ensures Valid() && Snapshot() == Pipeline.Step(cfg, old(Snapshot()), Pipeline.PurgeJob)
    {
      var changes := purgeExpiredData.Execute(now);
    }

    /** The saltRotation job. */
    method SaltRotation(newSalt: Field)
      requires Valid()
      modifies `salt
      ensures Valid() && Snapshot() == Pipeline.Step(cfg, old(Snapshot()), Pipeline.RotateSalt(newSalt))
    {
      salt := newSalt;
    }

    /** Time passes. */
    ghost method Tick(toMs: int)
      requires Valid() && nowMs <= toMs
      modifies `nowMs
      ensures Valid() && TimedSnapshot() == FlushTimer.TimedStep(cfg, eventRepository.flushIntervalMs, old(TimedSnapshot()), Pipeline.Tick(toMs))
    {
      nowMs := toMs;
    }

    /** The flush timer, or closing the server. `accepts` says whether the write commits. */
    method Flush(accepts: bool) returns (ok: bool)
      requires Valid()
      modifies `written, eventRepository, db`events
      ensures Valid() && (ok <==> accepts || old(eventRepository.buffer) == [])
      ensures ok ==> TimedSnapshot() == FlushTimer.TimedStep(cfg, eventRepository.flushIntervalMs, old(TimedSnapshot()), Pipeline.Flush)
      ensures !ok ==> TimedSnapshot() == FlushTimer.Lost(old(TimedSnapshot()))
    {
      ghost var buffered := eventRepository.buffer;
      ok := eventRepository.Flush(accepts);
      if ok {
        written := written + buffered;
      }
    }

    /** A request up to its save; others may run before it is saved. */
    method Begin(input: RecordInput, now: int, newSession: Bytes) returns (result: Result<Event, RecordError>)
      requires Valid() && now == nowMs && newSession !in issued
      modifies `inFlight, `issued, `hashed
      ensures Valid()
      ensures TimedSnapshot() == FlushTimer.TimedStep(cfg, eventRepository.flushIntervalMs, old(TimedSnapshot()), Pipeline.Begin(input, newSession))
      ensures result.Err? <==> Accepted(cfg.adapters, cfg.allowedSites, input).Err?
    {
      ghost var before := Snapshot();
      result := recordEvent.Resolve(input, salt, now, newSession);
      if result.Ok? {
        issued := issued + {newSession};
        hashed := Pipeline.HashedBy(cfg, before, input);
        inFlight := inFlight + [result.value];
      }
    }

    /** The save of one of the requests that await it; when the flush it triggers fails, the whole batch is lost. */
    method Save(index: nat, now: int, accepts: bool) returns (result: Result<Event, RecordError>)
      requires Valid() && now == nowMs && index < |inFlight|
      modifies `inFlight, `written, eventRepository, db`events
      ensures Valid()
      ensures result == if accepts || |old(eventRepository.buffer)| + 1 < cfg.maxBatchSize then Ok(old(inFlight)[index]) else Err(SaveFailed)
      ensures result.Ok? ==>
                TimedSnapshot() == FlushTimer.TimedStep(cfg, eventRepository.flushIntervalMs, old(TimedSnapshot()), Pipeline.Save(index))
      ensures result.Err? ==>
                var x := old(TimedSnapshot());
                var rest := x.state.inFlight[..index] + x.state.inFlight[index + 1..];
                TimedSnapshot() == FlushTimer.Lost(x.(state := x.state.(inFlight := rest)))
    {
      ghost var before := Snapshot();
      var event := inFlight[index];
      inFlight := inFlight[..index] + inFlight[index + 1..];
      SaveStep(cfg, before.(inFlight := inFlight), event);
      result := recordEvent.Store(event, now, accepts);
      if result.Ok? && eventRepository.buffer == [] {
        written := written + before.buffer + [event];
      }
    }

    /** One request that finds no other between its lookup and its save. */
    method Collect(input: RecordInput, now: int, newSession: Bytes, accepts: bool) returns (result: Result<Event, RecordError>)
      requires Valid() && now == nowMs && newSession !in issued
      modifies `written, `issued, `hashed, eventRepository, db`events
      ensures Valid()
      ensures var accepted := Accepted(cfg.adapters, cfg.allowedSites, input).Ok?;
              result == Err(SaveFailed) <==> accepted && !accepts && |old(eventRepository.buffer)| + 1 >= cfg.maxBatchSize
      ensures result.Ok? ==> Accepted(cfg.adapters, cfg.allowedSites, input).Ok?
      ensures result != Err(SaveFailed) ==>
                TimedSnapshot() == FlushTimer.TimedStep(cfg, eventRepository.flushIntervalMs, old(TimedSnapshot()), Pipeline.Record(input, newSession))
      ensures result == Err(SaveFailed) ==>
                var x := old(TimedSnapshot());
                var known := x.state.(issued := x.state.issued + {newSession}, hashed := Pipeline.HashedBy(cfg, x.state, input));
                TimedSnapshot() == FlushTimer.Lost(x.(state := known))
    {
      ghost var before, held := TimedSnapshot(), |eventRepository.buffer| + 1 < cfg.maxBatchSize;
      result := recordEvent.Execute(input, salt, now, newSession, accepts);
      if result.Err? && result.error != SaveFailed {
        RefusedStep(cfg, eventRepository.flushIntervalMs, before, input, newSession);
      } else {
        issued := issued + {newSession};
        hashed := Pipeline.HashedBy(cfg, before.state, input);
        if held {
          HeldStep(cfg, eventRepository.flushIntervalMs, before, input, newSession, result.value);
        } else if accepts {
          FlushedStep(cfg, eventRepository.flushIntervalMs, before, input, newSession, result.value);
          written := written + before.state.buffer + [result.value];
        }
      }
    }
  }
}
