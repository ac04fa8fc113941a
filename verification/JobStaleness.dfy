/** When the health page calls a job stale, and when the scheduler's own timing rules that out. */
module JobStaleness {
  import opened Wrappers
  import opened Scheduler

  const STALE_INTERVAL_MULTIPLIER := 2

  predicate IsJobStale(intervalMs: int, lastRunAt: Option<int>, now: int, schedulerStartedAt: Option<int>) {
    var reference := if lastRunAt.Some? then lastRunAt else schedulerStartedAt;
    reference.Some? && now - reference.value > STALE_INTERVAL_MULTIPLIER * intervalMs
  }

  /** What the health page shows for a job. */
  predicate StaleIn(s: State, job: SchedulerJob, now: int) {
    IsJobStale(job.intervalMs, StatusOf(s, job).lastRunAt, now, s.startedAt)
  }

  // ---- staleness and the run history ----

  ghost predicate MonotoneUntil(events: seq<Event>, now: int) {
    && (forall i, j | 0 <= i < j < |events| :: events[i].at <= events[j].at)
    && (forall i | 0 <= i < |events| :: events[i].at <= now)
  }

  /** The job has a success no older than `age` at `now`. */
  ghost predicate SucceededWithin(events: seq<Event>, name: string, age: int, now: int) {
    exists i :: 0 <= i < |events| && IsSuccess(name)(events[i]) && now - events[i].at <= age
  }

  ghost predicate EverSucceeded(events: seq<Event>, name: string) {
    exists i :: 0 <= i < |events| && IsSuccess(name)(events[i])
  }

  lemma {:induction false} LastSuccessIsLatest(events: seq<Event>, name: string, age: int, now: int)
    requires MonotoneUntil(events, now)
    ensures var last := TimeOf(Last(events, IsSuccess(name)));
            && (EverSucceeded(events, name) <==> last.Some?)
            && (SucceededWithin(events, name, age, now) <==> last.Some? && now - last.value <= age)
  {
    var p := IsSuccess(name);
    LastIsLast(events, p);
    if Last(events, p).Some? {
      var i :| LastIs(events, p, i) && events[i] == Last(events, p).value;
      assert p(events[i]);
      if SucceededWithin(events, name, age, now) {
        var k :| 0 <= k < |events| && p(events[k]) && now - events[k].at <= age;
        assert k <= i;
      }
    }
  }

  ghost predicate StartedBefore(events: seq<Event>, age: int, now: int) {
    exists i :: LastToTakeEffect(events, i) && now - events[i].at > age
  }

  /**
   At any instant of any run, restarts included, a job is stale exactly when it has
   no success within two intervals and either has succeeded before or the
   scheduler's latest start, ignored ones aside, is that long ago.
   */
  lemma StaleIffNoRecentSuccess(jobs: seq<SchedulerJob>, events: seq<Event>, job: SchedulerJob, now: int)
    requires Possible(jobs, events) && MonotoneUntil(events, now)
    ensures var s, limit := After(jobs, events), 2 * job.intervalMs;
            StaleIn(s, job, now) <==>
              && !SucceededWithin(events, job.name, limit, now)
              && (EverSucceeded(events, job.name) || StartedBefore(events, limit, now))
  {
    StatusFollowsHistory(jobs, events, job);
    StartFollowsHistory(jobs, events);
    LastSuccessIsLatest(events, job.name, 2 * job.intervalMs, now);
  }

  // ---- never stale ----

  /** Started once and never stopped. */
  ghost predicate StaysUp(events: seq<Event>) {
    events != [] && events[0].Start? && forall i | 0 <= i < |events| :: !events[i].Stop?
  }

  /** No timer of the job is more than `late` overdue, and no run of it has taken longer than `within`. */
  ghost predicate TimelyAt(s: State, job: SchedulerJob, late: int, within: int, now: int) {
    forall id | id in s.pending && s.pending[id].job == job ::
      match s.pending[id]
      case Timer(_, dueAt) => now <= dueAt + late
      case Run(_, beganAt) => now <= beganAt + within
  }

  /** The job's timers fire at most `late` ms late and each of its runs succeeds in `within` ms. */
  ghost predicate Timely(jobs: seq<SchedulerJob>, events: seq<Event>, job: SchedulerJob, late: int, within: int)
    requires Possible(jobs, events)
  {
    events == []
    || (var init, last := events[..|events| - 1], events[|events| - 1];
        && Timely(jobs, init, job, late, within)
        && TimelyAt(After(jobs, init), job, late, within, last.at)
        && (last.Settle? && last.job == job ==> last.succeeded))
  }

  /** A run with those timings, up to the instant `now`. */
  ghost predicate TimelyRun(jobs: seq<SchedulerJob>, events: seq<Event>, job: SchedulerJob, late: int, within: int, now: int) {
    && Possible(jobs, events) && StaysUp(events)
    && Timely(jobs, events, job, late, within)
    && TimelyAt(After(jobs, events), job, late, within, now)
  }

  ghost function Reference(s: State, job: SchedulerJob): int
    requires s.startedAt.Some?
  {
    if job.name in s.lastRunAt then s.lastRunAt[job.name] else s.startedAt.value
  }

  /** The job's timer is due an interval after its last success, and its run began at most `late` after that. */
  ghost predicate OnSchedule(s: State, jobs: seq<SchedulerJob>, job: SchedulerJob, late: int) {
    && Inv(s, jobs) && s.running && s.startedAt.Some?
    && forall id | id in s.pending && s.pending[id].job == job ::
         match s.pending[id]
         case Timer(_, dueAt) => dueAt == Reference(s, job) + job.intervalMs
         case Run(_, beganAt) => beganAt <= Reference(s, job) + job.intervalMs + late
  }

  lemma SettledStaysOnSchedule(s: State, jobs: seq<SchedulerJob>, job: SchedulerJob, late: int, e: Event)
    requires DistinctNames(jobs) && job in jobs && OnSchedule(s, jobs, job, late)
    requires e.Settle? && Enabled(s, e) && (e.job == job ==> e.succeeded)
    ensures OnSchedule(Step(s, jobs, e), jobs, job, late)
  {
    StepKeepsInv(s, jobs, e);
    NamesIdentify(jobs, e.job, job);
  }

  lemma StepStaysOnSchedule(s: State, jobs: seq<SchedulerJob>, job: SchedulerJob, late: int, within: int, e: Event)
    requires DistinctNames(jobs) && job in jobs && OnSchedule(s, jobs, job, late)
    requires Enabled(s, e) && !e.Stop? && TimelyAt(s, job, late, within, e.at)
    requires e.Settle? && e.job == job ==> e.succeeded
    ensures OnSchedule(Step(s, jobs, e), jobs, job, late)
  {
    if e.Settle? {
      SettledStaysOnSchedule(s, jobs, job, late, e);
    } else {
      StepKeepsInv(s, jobs, e);
    }
  }

  lemma {:induction false} RunStaysOnSchedule(
      jobs: seq<SchedulerJob>, events: seq<Event>, job: SchedulerJob, late: int, within: int)
    requires DistinctNames(jobs) && job in jobs
    requires Possible(jobs, events) && StaysUp(events) && Timely(jobs, events, job, late, within)
    ensures OnSchedule(After(jobs, events), jobs, job, late)
  {
    var init, last := events[..|events| - 1], events[|events| - 1];
    if init == [] {
      ScheduleAllFromNothing(INITIAL.(running := true, startedAt := Some(last.at)), jobs, last.at);
    } else {
      assert init[0] == events[0];
      RunStaysOnSchedule(jobs, init, job, late, within);
      StepStaysOnSchedule(After(jobs, init), jobs, job, late, within, last);
    }
  }

  ghost predicate NeverStale(jobs: seq<SchedulerJob>, job: SchedulerJob, late: int, within: int) {
    forall events: seq<Event>, now: int {:trigger TimelyRun(jobs, events, job, late, within, now)} |
      TimelyRun(jobs, events, job, late, within, now) :: !StaleIn(After(jobs, events), job, now)
  }

  lemma TimelyRunIsFresh(
      jobs: seq<SchedulerJob>, events: seq<Event>, job: SchedulerJob, late: int, within: int, now: int)
    requires DistinctNames(jobs) && job in jobs && 0 <= late && 0 <= within && late + within <= job.intervalMs
    requires TimelyRun(jobs, events, job, late, within, now)
    ensures !StaleIn(After(jobs, events), job, now)
  {
    RunStaysOnSchedule(jobs, events, job, late, within);
    var s := After(jobs, events);
    assert HasTask(s, job);
  }

  /** Fire as late as allowed, run as long as allowed, and look. */
  lemma SlowFirstRunIsStale(jobs: seq<SchedulerJob>, job: SchedulerJob, late: int, within: int)
    returns (events: seq<Event>, now: int)
    requires DistinctNames(jobs) && job in jobs && 0 <= late && 0 <= within && late + within > job.intervalMs
    ensures TimelyRun(jobs, events, job, late, within, now)
    ensures StaleIn(After(jobs, events), job, now)
  {
    var begun := INITIAL.(running := true, startedAt := Some(0));
    ScheduleAllFromNothing(begun, jobs, 0);
    var start := [Start(0)];
    assert start[..0] == [];
    var s := After(jobs, start);
    var id :| id in s.pending && s.pending[id].job == job;
    var fire := Fire(id, job, job.intervalMs + late);
    events, now := start + [fire], job.intervalMs + late + within;
    assert events[..1] == start;
    assert Timely(jobs, [], job, late, within);
    assert Timely(jobs, start, job, late, within);
    assert After(jobs, events) == Fired(s, id, fire.at);
  }

  /** A job that always succeeds in time is never stale exactly when its two delays fit in one interval. */
  lemma NeverStaleIff(jobs: seq<SchedulerJob>, job: SchedulerJob, late: int, within: int)
    requires DistinctNames(jobs) && job in jobs && 0 <= late && 0 <= within
    ensures NeverStale(jobs, job, late, within) <==> late + within <= job.intervalMs
  {
    if late + within <= job.intervalMs {
      forall events: seq<Event>, now: int | TimelyRun(jobs, events, job, late, within, now)
        ensures !StaleIn(After(jobs, events), job, now)
      {
        TimelyRunIsFresh(jobs, events, job, late, within, now);
      }
    } else {
      var events, now := SlowFirstRunIsStale(jobs, job, late, within);
    }
  }

  // ---- a success in every window ----

  /** events[i] begins the run that events[k] reports as succeeded. */
  ghost predicate SucceededRun(events: seq<Event>, job: SchedulerJob, i: int, k: int) {
    && 0 <= i < k < |events| && events[i].Fire? && events[i].job == job
    && events[k].Settle? && events[k].job == job && events[k].succeeded && events[k].task == events[i].task
  }

  ghost predicate BeganIn(events: seq<Event>, id: nat, run: Task) {
    exists i :: 0 <= i < |events| && run.Run? && events[i] == Fire(id, run.job, run.beganAt)
  }

  lemma BeganInMore(events: seq<Event>, last: Event, id: nat, run: Task)
    requires BeganIn(events, id, run)
    ensures BeganIn(events + [last], id, run)
  {
    var i :| 0 <= i < |events| && run.Run? && events[i] == Fire(id, run.job, run.beganAt);
    assert (events + [last])[i] == events[i];
  }

  lemma {:induction false} ScheduleAllKeepsRuns(s: State, jobs: seq<SchedulerJob>, now: int, id: nat)
    requires var t := ScheduleAll(s, jobs, now); id in t.pending && t.pending[id].Run?
    ensures id in s.pending && s.pending[id] == ScheduleAll(s, jobs, now).pending[id]
  {
    if jobs != [] {
      ScheduleAllKeepsRuns(s, jobs[..|jobs| - 1], now, id);
    }
  }

  /** Every run in flight was begun by the event that says so. */
  lemma {:induction false} RunsWereBegun(jobs: seq<SchedulerJob>, events: seq<Event>, id: nat)
    requires Possible(jobs, events) && id in After(jobs, events).pending && After(jobs, events).pending[id].Run?
    ensures BeganIn(events, id, After(jobs, events).pending[id])
  {
    if events != [] {
      var init, last := events[..|events| - 1], events[|events| - 1];
      var s, run := After(jobs, init), After(jobs, events).pending[id];
      assert events == init + [last];
      if last.Fire? && last.task == id {
        assert events[|events| - 1] == Fire(id, run.job, run.beganAt);
      } else {
        if last.Start? && !s.running {
          ScheduleAllKeepsRuns(s.(running := true, startedAt := Some(last.at)), jobs, last.at, id);
        }
        RunsWereBegun(jobs, init, id);
        BeganInMore(init, last, id, run);
      }
    }
  }

  /** The last success reports a run that began at most `within` before. */
  lemma {:induction false} LastSuccessWasTimely(
      jobs: seq<SchedulerJob>, events: seq<Event>, job: SchedulerJob, late: int, within: int)
    requires DistinctNames(jobs) && job in jobs
    requires Possible(jobs, events) && StaysUp(events) && Timely(jobs, events, job, late, within)
    requires job.name in After(jobs, events).lastRunAt
    ensures exists i, k :: SucceededRun(events, job, i, k) && events[k].at == After(jobs, events).lastRunAt[job.name]
                           && events[k].at <= events[i].at + within
  {
    var init, last := events[..|events| - 1], events[|events| - 1];
    if init == [] {
      ScheduleAllKeepsHealth(INITIAL.(running := true, startedAt := Some(last.at)), jobs, last.at);
    } else {
      var s := After(jobs, init);
      assert init[0] == events[0];
      RunStaysOnSchedule(jobs, init, job, late, within);
      if last.Settle? && last.job.name == job.name && last.succeeded {
        assert last.job in jobs;
        NamesIdentify(jobs, last.job, job);
        RunsWereBegun(jobs, init, last.task);
        var i :| 0 <= i < |init| && init[i] == Fire(last.task, job, s.pending[last.task].beganAt);
        assert SucceededRun(events, job, i, |events| - 1) && events[i] == init[i];
      } else {
        LastSuccessWasTimely(jobs, init, job, late, within);
        var i, k :| SucceededRun(init, job, i, k) && init[k].at == s.lastRunAt[job.name] && init[k].at <= init[i].at + within;
        assert SucceededRun(events, job, i, k) && events[k] == init[k] && events[i] == init[i];
      }
    }
  }

  /**
   Some run of the job begins at or after any instant `since` the scheduler is up,
   and has succeeded, once an interval and the three delays have passed. For the
   rollup job and a midnight: the closed day is rebuilt by then.
   */
  lemma SucceedsSoonAfter(jobs: seq<SchedulerJob>, events: seq<Event>, job: SchedulerJob, late: int, within: int,
                          since: int, now: int)
    requires DistinctNames(jobs) && job in jobs && 0 <= late && 0 <= within
    requires TimelyRun(jobs, events, job, late, within, now)
    requires events[0].at <= since && since + job.intervalMs + late + 2 * within < now
    ensures exists i, k :: SucceededRun(events, job, i, k) && since <= events[i].at
  {
    var s := After(jobs, events);
    RunStaysOnSchedule(jobs, events, job, late, within);
    FirstStartCounts(jobs, events);
    assert HasTask(s, job);
    assert now <= Reference(s, job) + job.intervalMs + late + within;
    LastSuccessWasTimely(jobs, events, job, late, within);
  }

  /** Later starts of a running scheduler change nothing. */
  lemma {:induction false} FirstStartCounts(jobs: seq<SchedulerJob>, events: seq<Event>)
    requires Possible(jobs, events) && StaysUp(events)
    ensures After(jobs, events).running && After(jobs, events).startedAt == Some(events[0].at)
  {
    var init, last := events[..|events| - 1], events[|events| - 1];
    if init == [] {
      ScheduleAllKeepsHealth(INITIAL.(running := true, startedAt := Some(last.at)), jobs, last.at);
    } else {
      assert init[0] == events[0];
      FirstStartCounts(jobs, init);
    }
  }
}
