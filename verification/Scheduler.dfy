/**
 The in-process scheduler: a job has a timer or a run in flight, and sets its
 next timer only when the run settles. What the event loop holds for the
 scheduler, timers that have not fired and runs that have not settled, is part
 of the state.
 */
module Scheduler {
  import opened Wrappers

  datatype SchedulerJob = SchedulerJob(name: string, intervalMs: int)

  datatype JobStatus =
    JobStatus(name: string, intervalMs: int, lastRunAt: Option<int>, hasRun: bool, lastRunFailed: bool)

  datatype Task =
    | Timer(job: SchedulerJob, dueAt: int)
    | Run(job: SchedulerJob, beganAt: int)

  datatype State = State(
    running: bool,
    startedAt: Option<int>,
    lastRunAt: map<string, int>,
    hasRun: set<string>,
    lastRunFailed: map<string, bool>,
    handles: map<string, nat>,
    pending: map<nat, Task>,
    issued: nat)

  const INITIAL := State(false, None, map[], {}, map[], map[], map[], 0)

  function Get<T>(m: map<string, T>, name: string): Option<T> {
    if name in m then Some(m[name]) else None
  }

  // ---- the steps, on values ----

  function ScheduleNext(s: State, job: SchedulerJob, now: int): State {
    s.(handles := s.handles[job.name := s.issued],
       pending := s.pending[s.issued := Timer(job, now + job.intervalMs)],
       issued := s.issued + 1)
  }

  function ScheduleAll(s: State, jobs: seq<SchedulerJob>, now: int): State {
    if jobs == [] then s
    else ScheduleNext(ScheduleAll(s, jobs[..|jobs| - 1], now), jobs[|jobs| - 1], now)
  }

  function Started(s: State, jobs: seq<SchedulerJob>, now: int): State {
    if s.running then s else ScheduleAll(s.(running := true, startedAt := Some(now)), jobs, now)
  }

  /** Cancelling touches timers only: the handle of a timer that has fired cancels nothing. */
  function Cancelled(pending: map<nat, Task>, handles: set<nat>): map<nat, Task> {
    map id | id in pending && !(pending[id].Timer? && id in handles) :: pending[id]
  }

  function Stopped(s: State): State {
    s.(running := false, handles := map[], pending := Cancelled(s.pending, s.handles.Values))
  }

  function Fired(s: State, id: nat, now: int): State
    requires id in s.pending
  {
    var job := s.pending[id].job;
    s.(hasRun := s.hasRun + {job.name}, pending := s.pending[id := Run(job, now)])
  }

  function Settled(s: State, id: nat, succeeded: bool, now: int): State
    requires id in s.pending
  {
    var job := s.pending[id].job;
    var settled := s.(
      pending := s.pending - {id},
      lastRunAt := if succeeded then s.lastRunAt[job.name := now] else s.lastRunAt,
      lastRunFailed := s.lastRunFailed[job.name := !succeeded]);
    if s.running then ScheduleNext(settled, job, now) else settled
  }

  function StatusOf(s: State, job: SchedulerJob): JobStatus {
    JobStatus(job.name, job.intervalMs, Get(s.lastRunAt, job.name), job.name in s.hasRun,
              job.name in s.lastRunFailed && s.lastRunFailed[job.name])
  }

  // ---- the objects ----

  class EventLoop {
    var pending: map<nat, Task>
    var issued: nat

    constructor ()
      ensures pending == map[] && issued == 0
    {
      pending, issued := map[], 0;
    }

    method Schedule(job: SchedulerJob, dueAt: int) returns (handle: nat)
      modifies this
      ensures handle == old(issued) && issued == old(issued) + 1
      ensures pending == old(pending)[handle := Timer(job, dueAt)]
    {
      handle := issued;
      pending := pending[handle := Timer(job, dueAt)];
      issued := issued + 1;
    }

    method Cancel(handle: nat)
      modifies `pending
      ensures pending == Cancelled(old(pending), {handle})
    {
      if handle in pending && pending[handle].Timer? {
        pending := pending - {handle};
      }
    }
  }

  class Scheduler {
    const jobs: seq<SchedulerJob>
    const loop: EventLoop
    var running: bool
    var startedAt: Option<int>
    var lastRunAt: map<string, int>
    var hasRun: set<string>
    var lastRunFailed: map<string, bool>
    var handles: map<string, nat>

    ghost function Snapshot(): State
      reads this, loop
    {
      State(running, startedAt, lastRunAt, hasRun, lastRunFailed, handles, loop.pending, loop.issued)
    }

    constructor (jobs: seq<SchedulerJob>, loop: EventLoop)
      requires loop.pending == map[] && loop.issued == 0
      ensures this.jobs == jobs && this.loop == loop && Snapshot() == INITIAL
    {
      this.jobs, this.loop := jobs, loop;
      running, startedAt := false, None;
      lastRunAt, hasRun, lastRunFailed, handles := map[], {}, map[], map[];
    }

    method Start(now: int)
      modifies this, loop
      ensures Snapshot() == Started(old(Snapshot()), jobs, now)
    {
      if running {
        return;
      }
      running := true;
      startedAt := Some(now);
      ghost var before := Snapshot();
      for i := 0 to |jobs|
        invariant Snapshot() == ScheduleAll(before, jobs[..i], now)
      {
        assert jobs[..i + 1][..i] == jobs[..i];
        ScheduleNextRun(jobs[i], now);
      }
      assert jobs[..|jobs|] == jobs;
    }

    method Stop()
      modifies this, loop
      ensures Snapshot() == Stopped(old(Snapshot()))
    {
      running := false;
      var pending := handles.Values;
      while pending != {}
        invariant pending <= handles.Values
        invariant Snapshot() == old(Snapshot()).(
          running := false,
          pending := Cancelled(old(loop.pending), handles.Values - pending))
      {
        var handle :| handle in pending;
        loop.Cancel(handle);
        pending := pending - {handle};
      }
      handles := map[];
    }

    function GetJobStatuses(): (statuses: seq<JobStatus>)
      reads this, loop
      ensures |statuses| == |jobs|
      ensures forall i | 0 <= i < |jobs| :: statuses[i] == StatusOf(Snapshot(), jobs[i])
    {
      seq(|jobs|, i requires 0 <= i < |jobs| reads this =>
        JobStatus(jobs[i].name, jobs[i].intervalMs, Get(lastRunAt, jobs[i].name), jobs[i].name in hasRun,
                  if jobs[i].name in lastRunFailed then lastRunFailed[jobs[i].name] else false))
    }

    method ScheduleNextRun(job: SchedulerJob, now: int)
      modifies this, loop
      ensures Snapshot() == ScheduleNext(old(Snapshot()), job, now)
    {
      var handle := loop.Schedule(job, now + job.intervalMs);
      handles := handles[job.name := handle];
    }

    /** The part of a run before it awaits the job: the timer `id` has just fired. */
    method BeginRun(id: nat, now: int)
      requires id in loop.pending && loop.pending[id].Timer?
      modifies this, loop
      ensures Snapshot() == Fired(old(Snapshot()), id, now)
    {
      var job := loop.pending[id].job;
      hasRun := hasRun + {job.name};
      loop.pending := loop.pending[id := Run(job, now)];
    }

    /** The part of a run after the job's promise has settled. */
    method FinishRun(id: nat, succeeded: bool, now: int)
      requires id in loop.pending && loop.pending[id].Run?
      modifies this, loop
      ensures Snapshot() == Settled(old(Snapshot()), id, succeeded, now)
    {
      var job := loop.pending[id].job;
      loop.pending := loop.pending - {id};
      if succeeded {
        lastRunAt := lastRunAt[job.name := now];
        lastRunFailed := lastRunFailed[job.name := false];
      } else {
        lastRunFailed := lastRunFailed[job.name := true];
      }
      if running {
        ScheduleNextRun(job, now);
      }
    }
  }

  // ---- one task per job ----

  ghost predicate DistinctNames(jobs: seq<SchedulerJob>) {
    forall i, j | 0 <= i < j < |jobs| :: jobs[i].name != jobs[j].name
  }

  function TasksOf(s: State, job: SchedulerJob): set<nat> {
    set id | id in s.pending && s.pending[id].job == job
  }

  ghost predicate HasTask(s: State, job: SchedulerJob) {
    exists id :: id in s.pending && s.pending[id].job == job
  }

  /** Every pending timer is the one its job's handle cancels. */
  ghost predicate Tracked(s: State) {
    forall id | id in s.pending && s.pending[id].Timer? ::
      && s.running
      && s.pending[id].job.name in s.handles
      && s.handles[s.pending[id].job.name] == id
  }

  /** A handle names a task of its own job, if that task is still pending. */
  ghost predicate HandlesNameTasks(s: State) {
    forall name | name in s.handles ::
      s.handles[name] < s.issued && (s.handles[name] in s.pending ==> s.pending[s.handles[name]].job.name == name)
  }

  /** Every task belongs to a job, no two to the same one. */
  ghost predicate AtMostOneEach(s: State, jobs: seq<SchedulerJob>) {
    && (forall id | id in s.pending :: id < s.issued && s.pending[id].job in jobs)
    && (forall a, b | a in s.pending && b in s.pending && s.pending[a].job == s.pending[b].job :: a == b)
    && Tracked(s) && HandlesNameTasks(s)
  }

  ghost predicate Inv(s: State, jobs: seq<SchedulerJob>) {
    && AtMostOneEach(s, jobs)
    && (s.running ==> forall job | job in jobs :: HasTask(s, job))
  }

  /** Setting the timer of a job that has no task. */
  lemma ScheduleNextAddsOne(s: State, jobs: seq<SchedulerJob>, job: SchedulerJob, now: int)
    requires AtMostOneEach(s, jobs) && s.running && job in jobs
    requires forall id | id in s.pending :: s.pending[id].job.name != job.name
    ensures AtMostOneEach(ScheduleNext(s, job, now), jobs)
  {}

  lemma ScheduleNextCovers(s: State, job: SchedulerJob, other: SchedulerJob, now: int)
    requires forall id | id in s.pending :: id < s.issued
    requires other == job || HasTask(s, other)
    ensures HasTask(ScheduleNext(s, job, now), other)
  {
    var t := ScheduleNext(s, job, now);
    if other == job {
      assert s.issued in t.pending;
    } else {
      var id :| id in s.pending && s.pending[id].job == other;
      assert id in t.pending && t.pending[id].job == other;
    }
  }

  lemma MoreJobs(s: State, fewer: seq<SchedulerJob>, jobs: seq<SchedulerJob>)
    requires AtMostOneEach(s, fewer) && forall job | job in fewer :: job in jobs
    ensures AtMostOneEach(s, jobs)
  {}

  lemma {:induction false} ScheduleAllFromNothing(s: State, jobs: seq<SchedulerJob>, now: int)
    requires DistinctNames(jobs) && s.running && s.pending == map[] && HandlesNameTasks(s)
    ensures var t := ScheduleAll(s, jobs, now);
            && t.running && t.startedAt == s.startedAt && t.lastRunAt == s.lastRunAt
            && Inv(t, jobs)
            && forall id | id in t.pending :: t.pending[id] == Timer(t.pending[id].job, now + t.pending[id].job.intervalMs)
  {
    if jobs != [] {
      var init, last := jobs[..|jobs| - 1], jobs[|jobs| - 1];
      ScheduleAllFromNothing(s, init, now);
      var t := ScheduleAll(s, init, now);
      forall job | job in init
        ensures job.name != last.name
      {
        var i :| 0 <= i < |init| && init[i] == job;
        assert jobs[i] == job;
      }
      MoreJobs(t, init, jobs);
      ScheduleNextAddsOne(t, jobs, last, now);
      forall job | job in jobs
        ensures HasTask(ScheduleAll(s, jobs, now), job)
      {
        ScheduleNextCovers(t, last, job, now);
      }
    }
  }

  /** Scheduling keeps what was pending and adds a timer for every job. */
  lemma {:induction false} ScheduleAllAdds(s: State, jobs: seq<SchedulerJob>, now: int)
    requires HandlesNameTasks(s) && forall id | id in s.pending :: id < s.issued
    ensures var t := ScheduleAll(s, jobs, now);
            && HandlesNameTasks(t)
            && t.running == s.running && t.issued >= s.issued
            && (forall id | id in t.pending :: id < t.issued)
            && (forall id | id in s.pending :: id in t.pending && t.pending[id] == s.pending[id])
            && (forall job | job in jobs :: HasNewTimer(t, job, s.issued))
  {
    if jobs != [] {
      var init, last := jobs[..|jobs| - 1], jobs[|jobs| - 1];
      ScheduleAllAdds(s, init, now);
      var t, u := ScheduleAll(s, init, now), ScheduleAll(s, jobs, now);
      forall job | job in jobs
        ensures HasNewTimer(u, job, s.issued)
      {
        if job == last {
          assert u.pending[t.issued].Timer?;
        } else {
          assert job in init;
          var id :| s.issued <= id && id in t.pending && t.pending[id].Timer? && t.pending[id].job == job;
          assert u.pending[id].Timer?;
        }
      }
    }
  }

  ghost predicate HasNewTimer(s: State, job: SchedulerJob, from: nat) {
    exists id :: from <= id && id in s.pending && s.pending[id].Timer? && s.pending[id].job == job
  }

  lemma FiredKeepsInv(s: State, jobs: seq<SchedulerJob>, id: nat, now: int)
    requires Inv(s, jobs) && id in s.pending && s.pending[id].Timer?
    ensures Inv(Fired(s, id, now), jobs)
  {
    var t := Fired(s, id, now);
    forall job | s.running && job in jobs
      ensures HasTask(t, job)
    {
      var a :| a in s.pending && s.pending[a].job == job;
      assert a in t.pending && t.pending[a].job == job;
    }
  }

  lemma NamesIdentify(jobs: seq<SchedulerJob>, a: SchedulerJob, b: SchedulerJob)
    requires DistinctNames(jobs) && a in jobs && b in jobs
    ensures a.name == b.name <==> a == b
  {}

  lemma SettledKeepsInv(s: State, jobs: seq<SchedulerJob>, id: nat, succeeded: bool, now: int)
    requires DistinctNames(jobs) && Inv(s, jobs) && id in s.pending && s.pending[id].Run?
    ensures Inv(Settled(s, id, succeeded, now), jobs)
  {
    var job := s.pending[id].job;
    var settled := Settled(s.(running := false), id, succeeded, now).(running := s.running);
    assert settled.pending == s.pending - {id};
    forall a | a in settled.pending
      ensures s.pending[a].job.name != job.name
    {
      NamesIdentify(jobs, s.pending[a].job, job);
    }
    assert AtMostOneEach(settled, jobs);
    if s.running {
      ScheduleNextAddsOne(settled, jobs, job, now);
      forall other | other in jobs
        ensures HasTask(ScheduleNext(settled, job, now), other)
      {
        var a :| a in s.pending && s.pending[a].job == other;
        assert other != job ==> a in settled.pending && settled.pending[a].job == other;
        ScheduleNextCovers(settled, job, other, now);
      }
    }
  }

  /** Whatever the outcome, the job's only task is then a timer due one interval later; a stopped scheduler sets none. */
  lemma NextTimerIsDue(s: State, jobs: seq<SchedulerJob>, id: nat, succeeded: bool, now: int, a: nat)
    requires DistinctNames(jobs) && Inv(s, jobs) && id in s.pending && s.pending[id].Run?
    ensures var t, job := Settled(s, id, succeeded, now), s.pending[id].job;
            && (a in t.pending && t.pending[a].job == job ==> s.running && t.pending[a] == Timer(job, now + job.intervalMs))
            && (s.running ==> HasTask(t, job))
            && (a in s.pending && s.pending[a].job != job ==> a in t.pending && t.pending[a] == s.pending[a])
  {
    SettledKeepsInv(s, jobs, id, succeeded, now);
    NamesIdentify(jobs, s.pending[id].job, s.pending[id].job);
  }

  /** Starting an idle scheduler sets one timer for each job, due one interval later. */
  lemma FirstTimersAreDue(s: State, jobs: seq<SchedulerJob>, now: int, job: SchedulerJob, a: nat)
    requires DistinctNames(jobs) && Inv(s, jobs) && !s.running && s.pending == map[] && job in jobs
    ensures var t := Started(s, jobs, now);
            && HasTask(t, job)
            && (a in t.pending ==> t.pending[a] == Timer(t.pending[a].job, now + t.pending[a].job.intervalMs))
  {
    ScheduleAllFromNothing(s.(running := true, startedAt := Some(now)), jobs, now);
  }

  lemma StoppedKeepsInv(s: State, jobs: seq<SchedulerJob>)
    requires Inv(s, jobs)
    ensures Inv(Stopped(s), jobs)
    ensures forall id | id in Stopped(s).pending :: Stopped(s).pending[id].Run?
  {}

  /** Stopping cancels every timer and no run: what is in flight still settles. */
  lemma StopCancelsTimersOnly(s: State, jobs: seq<SchedulerJob>, id: nat)
    requires Inv(s, jobs)
    ensures !Stopped(s).running
    ensures id in Stopped(s).pending <==> id in s.pending && s.pending[id].Run?
    ensures id in Stopped(s).pending ==> Stopped(s).pending[id] == s.pending[id]
  {}

  /** A stopped scheduler may be started again exactly when none of its runs is still in flight. */
  lemma StartKeepsInvIff(s: State, jobs: seq<SchedulerJob>, now: int)
    requires DistinctNames(jobs) && Inv(s, jobs) && !s.running
    ensures Inv(Started(s, jobs, now), jobs) <==> s.pending == map[]
  {
    var begun := s.(running := true, startedAt := Some(now));
    if s.pending == map[] {
      ScheduleAllFromNothing(begun, jobs, now);
    } else {
      var id :| id in s.pending;
      ScheduleAllAdds(begun, jobs, now);
      assert HasNewTimer(Started(s, jobs, now), s.pending[id].job, s.issued);
    }
  }

  /** Otherwise the run that settles sets a second timer, and stopping cancels only one of the two. */
  lemma RestartInFlightDoublesTimers(s: State, jobs: seq<SchedulerJob>, id: nat, succeeded: bool, now: int, later: int)
    requires DistinctNames(jobs) && Inv(s, jobs) && !s.running && id in s.pending
    ensures id in Started(s, jobs, now).pending
    ensures var t := Settled(Started(s, jobs, now), id, succeeded, later);
            exists a, b :: a != b && IsTimerOf(t, a, s.pending[id].job) && IsTimerOf(Stopped(t), b, s.pending[id].job)
                           && IsTimerOf(t, b, s.pending[id].job)
  {
    var begun := s.(running := true, startedAt := Some(now));
    ScheduleAllAdds(begun, jobs, now);
    var started := Started(s, jobs, now);
    var job := s.pending[id].job;
    var b :| s.issued <= b && b in started.pending && started.pending[b].Timer? && started.pending[b].job == job;
    var t := Settled(started, id, succeeded, later);
    assert IsTimerOf(t, started.issued, job) && IsTimerOf(t, b, job);
    assert b !in t.handles.Values;
  }

  predicate IsTimerOf(s: State, id: nat, job: SchedulerJob) {
    id in s.pending && s.pending[id].Timer? && s.pending[id].job == job
  }

  // ---- runs ----

  datatype Event =
    | Start(at: int)
    | Stop(at: int)
    | Fire(task: nat, job: SchedulerJob, at: int)
    | Settle(task: nat, job: SchedulerJob, succeeded: bool, at: int)

  predicate Enabled(s: State, e: Event) {
    match e
    case Start(_) => true
    case Stop(_) => true
    case Fire(id, job, _) => id in s.pending && s.pending[id].Timer? && s.pending[id].job == job
    case Settle(id, job, _, _) => id in s.pending && s.pending[id].Run? && s.pending[id].job == job
  }

  function Step(s: State, jobs: seq<SchedulerJob>, e: Event): State
    requires Enabled(s, e)
  {
    match e
    case Start(at) => Started(s, jobs, at)
    case Stop(_) => Stopped(s)
    case Fire(id, _, at) => Fired(s, id, at)
    case Settle(id, _, succeeded, at) => Settled(s, id, succeeded, at)
  }

  ghost predicate Possible(jobs: seq<SchedulerJob>, events: seq<Event>)
    decreases |events|, 0
  {
    events == []
    || (Possible(jobs, events[..|events| - 1])
        && Enabled(After(jobs, events[..|events| - 1]), events[|events| - 1]))
  }

  ghost function After(jobs: seq<SchedulerJob>, events: seq<Event>): State
    requires Possible(jobs, events)
    decreases |events|, 1
  {
    if events == [] then INITIAL
    else Step(After(jobs, events[..|events| - 1]), jobs, events[|events| - 1])
  }

  /** The scheduler is not started while a run from before it was stopped is in flight. */
  ghost predicate NoRestartInFlight(jobs: seq<SchedulerJob>, events: seq<Event>)
    requires Possible(jobs, events)
  {
    events == []
    || (var init, last := events[..|events| - 1], events[|events| - 1];
        NoRestartInFlight(jobs, init)
        && (last.Start? && !After(jobs, init).running ==> After(jobs, init).pending == map[]))
  }

  lemma StepKeepsInv(s: State, jobs: seq<SchedulerJob>, e: Event)
    requires DistinctNames(jobs) && Inv(s, jobs) && Enabled(s, e)
    requires e.Start? && !s.running ==> s.pending == map[]
    ensures Inv(Step(s, jobs, e), jobs)
  {
    match e
    case Start(at) => if !s.running { StartKeepsInvIff(s, jobs, at); }
    case Stop(_) => StoppedKeepsInv(s, jobs);
    case Fire(id, _, at) => FiredKeepsInv(s, jobs, id, at);
    case Settle(id, _, succeeded, at) => SettledKeepsInv(s, jobs, id, succeeded, at);
  }

  lemma {:induction false} RunKeepsInv(jobs: seq<SchedulerJob>, events: seq<Event>)
    requires DistinctNames(jobs) && Possible(jobs, events) && NoRestartInFlight(jobs, events)
    ensures Inv(After(jobs, events), jobs)
  {
    if events != [] {
      var init, last := events[..|events| - 1], events[|events| - 1];
      RunKeepsInv(jobs, init);
      StepKeepsInv(After(jobs, init), jobs, last);
    }
  }

  lemma OneTask(s: State, jobs: seq<SchedulerJob>, job: SchedulerJob)
    requires Inv(s, jobs)
    ensures |TasksOf(s, job)| <= 1
    ensures HasTask(s, job) ==> |TasksOf(s, job)| == 1
  {
    if HasTask(s, job) {
      var id :| id in s.pending && s.pending[id].job == job;
      assert TasksOf(s, job) == {id};
    } else {
      assert TasksOf(s, job) == {};
    }
  }

  /**
   In every run each job of a running scheduler has exactly one timer or run in
   flight, so its runs never overlap and it is never dropped; a stopped scheduler
   has no timer left.
   */
  lemma EachJobHasOneTask(jobs: seq<SchedulerJob>, events: seq<Event>, job: SchedulerJob)
    requires DistinctNames(jobs) && Possible(jobs, events) && NoRestartInFlight(jobs, events)
    ensures var s := After(jobs, events);
            && |TasksOf(s, job)| <= 1
            && (s.running && job in jobs ==> |TasksOf(s, job)| == 1)
            && (!s.running ==> forall id | id in s.pending :: s.pending[id].Run?)
  {
    RunKeepsInv(jobs, events);
    OneTask(After(jobs, events), jobs, job);
  }

  ghost predicate NoTwoTasks(s: State) {
    forall job :: |TasksOf(s, job)| <= 1
  }

  /** At no moment of the run has a job two timers, two runs, or a timer beside a run. */
  ghost predicate NeverTwoTasks(jobs: seq<SchedulerJob>, events: seq<Event>)
    requires Possible(jobs, events)
  {
    NoTwoTasks(After(jobs, events)) && (events == [] || NeverTwoTasks(jobs, events[..|events| - 1]))
  }

  lemma TwoTasks(s: State, a: nat, b: nat)
    requires a in s.pending && b in s.pending && a != b && s.pending[a].job == s.pending[b].job
    ensures !NoTwoTasks(s)
  {
    var tasks := TasksOf(s, s.pending[a].job);
    assert tasks == (tasks - {a, b}) + {a, b};
    assert |tasks| == |tasks - {a, b}| + |{a, b}|;
  }

  lemma RestartInFlightGivesTwoTasks(s: State, jobs: seq<SchedulerJob>, now: int)
    requires Inv(s, jobs) && !s.running && s.pending != map[]
    ensures !NoTwoTasks(Started(s, jobs, now))
  {
    var id :| id in s.pending;
    var job, started := s.pending[id].job, Started(s, jobs, now);
    ScheduleAllAdds(s.(running := true, startedAt := Some(now)), jobs, now);
    assert HasNewTimer(started, job, s.issued);
    var b :| s.issued <= b && b in started.pending && started.pending[b].Timer? && started.pending[b].job == job;
    TwoTasks(started, id, b);
  }

  /** No job ever has two tasks at once exactly in the runs that never restart the scheduler over a run in flight. */
  lemma {:induction false} NeverTwoTasksIff(jobs: seq<SchedulerJob>, events: seq<Event>)
    requires DistinctNames(jobs) && Possible(jobs, events)
    ensures NeverTwoTasks(jobs, events) <==> NoRestartInFlight(jobs, events)
  {
    if NoRestartInFlight(jobs, events) {
      forall job
        ensures |TasksOf(After(jobs, events), job)| <= 1
      {
        EachJobHasOneTask(jobs, events, job);
      }
    }
    if events != [] {
      var init, last := events[..|events| - 1], events[|events| - 1];
      NeverTwoTasksIff(jobs, init);
      if NoRestartInFlight(jobs, init) && !NoRestartInFlight(jobs, events) {
        RunKeepsInv(jobs, init);
        RestartInFlightGivesTwoTasks(After(jobs, init), jobs, last.at);
      }
    }
  }

  lemma PrefixOfRun(jobs: seq<SchedulerJob>, events: seq<Event>, more: seq<Event>)
    requires Possible(jobs, events + more)
    ensures Possible(jobs, events)
    ensures NoRestartInFlight(jobs, events + more) ==> NoRestartInFlight(jobs, events)
    decreases |more|
  {
    if more == [] {
      assert events + more == events;
    } else {
      assert (events + more)[..|events + more| - 1] == events + more[..|more| - 1];
      PrefixOfRun(jobs, events, more[..|more| - 1]);
    }
  }

  /** After a stop, and until the next start, no run begins. */
  lemma {:induction false} NothingBeginsAfterStop(jobs: seq<SchedulerJob>, events: seq<Event>, more: seq<Event>)
    requires DistinctNames(jobs) && Possible(jobs, events + more) && NoRestartInFlight(jobs, events + more)
    requires Possible(jobs, events) && !After(jobs, events).running
    requires forall e | e in more :: !e.Start?
    ensures !After(jobs, events + more).running
    ensures forall e | e in more :: !e.Fire?
    decreases |more|
  {
    if more == [] {
      assert events + more == events;
    } else {
      var init, last := more[..|more| - 1], more[|more| - 1];
      assert (events + more)[..|events + more| - 1] == events + init;
      NothingBeginsAfterStop(jobs, events, init);
      if last.Fire? {
        EachJobHasOneTask(jobs, events + init, last.job);
      }
      assert forall e | e in more :: e in init || e == last;
    }
  }

  // ---- stopping for good ----

  ghost predicate NoTimer(s: State) {
    forall id | id in s.pending :: s.pending[id].Run?
  }

  ghost predicate NoStart(events: seq<Event>) {
    forall e | e in events :: !e.Start?
  }

  /** However the run goes on without another start, no timer is left once the scheduler has been stopped. */
  ghost predicate StopsClean(jobs: seq<SchedulerJob>, events: seq<Event>)
    requires Possible(jobs, events)
  {
    forall more: seq<Event> | NoStart(more) && Possible(jobs, events + more) && !After(jobs, events + more).running ::
      NoTimer(After(jobs, events + more))
  }

  /** So at every moment of the run. */
  ghost predicate AlwaysStopsClean(jobs: seq<SchedulerJob>, events: seq<Event>)
    requires Possible(jobs, events)
  {
    StopsClean(jobs, events) && (events == [] || AlwaysStopsClean(jobs, events[..|events| - 1]))
  }

  lemma OneMoreEvent(jobs: seq<SchedulerJob>, events: seq<Event>, e: Event)
    requires Possible(jobs, events) && Enabled(After(jobs, events), e)
    ensures Possible(jobs, events + [e]) && After(jobs, events + [e]) == Step(After(jobs, events), jobs, e)
  {
    assert (events + [e])[..|events + [e]| - 1] == events;
  }

  lemma {:induction false} NoStartNoRestart(jobs: seq<SchedulerJob>, events: seq<Event>, more: seq<Event>)
    requires Possible(jobs, events) && NoRestartInFlight(jobs, events) && Possible(jobs, events + more) && NoStart(more)
    ensures NoRestartInFlight(jobs, events + more)
    decreases |more|
  {
    if more == [] {
      assert events + more == events;
    } else {
      var init := more[..|more| - 1];
      assert (events + more)[..|events + more| - 1] == events + init;
      NoStartNoRestart(jobs, events, init);
    }
  }

  lemma NoRestartStopsClean(jobs: seq<SchedulerJob>, events: seq<Event>)
    requires DistinctNames(jobs) && Possible(jobs, events) && NoRestartInFlight(jobs, events)
    ensures StopsClean(jobs, events)
  {
    forall more: seq<Event> | NoStart(more) && Possible(jobs, events + more) && !After(jobs, events + more).running
      ensures NoTimer(After(jobs, events + more))
    {
      NoStartNoRestart(jobs, events, more);
      RunKeepsInv(jobs, events + more);
    }
  }

  /** The run in flight settles, and the stop that follows cancels only one of its job's two timers. */
  lemma SettledRestartLeavesTimer(s: State, jobs: seq<SchedulerJob>, id: nat, at: int)
    requires DistinctNames(jobs) && Inv(s, jobs) && !s.running && id in s.pending
    ensures var started := Started(s, jobs, at);
            && id in started.pending && started.pending[id] == s.pending[id] && s.pending[id].Run?
            && !NoTimer(Stopped(Settled(started, id, true, at)))
  {
    ScheduleAllAdds(s.(running := true, startedAt := Some(at)), jobs, at);
    RestartInFlightDoublesTimers(s, jobs, id, true, at, at);
    var b :| IsTimerOf(Stopped(Settled(Started(s, jobs, at), id, true, at)), b, s.pending[id].job);
  }

  lemma SettleAndStop(jobs: seq<SchedulerJob>, events: seq<Event>, settle: Event, at: int)
    requires Possible(jobs, events) && settle.Settle? && Enabled(After(jobs, events), settle)
    requires !NoTimer(Stopped(Step(After(jobs, events), jobs, settle)))
    ensures !StopsClean(jobs, events)
  {
    OneMoreEvent(jobs, events, settle);
    OneMoreEvent(jobs, events + [settle], Stop(at));
    var more := [settle, Stop(at)];
    assert events + more == events + [settle] + [Stop(at)];
    assert NoStart(more);
  }

  lemma RestartLeavesTimer(jobs: seq<SchedulerJob>, events: seq<Event>, at: int)
    requires DistinctNames(jobs) && Possible(jobs, events) && Possible(jobs, events + [Start(at)])
    requires Inv(After(jobs, events), jobs) && !After(jobs, events).running && After(jobs, events).pending != map[]
    ensures !StopsClean(jobs, events + [Start(at)])
  {
    var s := After(jobs, events);
    var id :| id in s.pending;
    OneMoreEvent(jobs, events, Start(at));
    SettledRestartLeavesTimer(s, jobs, id, at);
    SettleAndStop(jobs, events + [Start(at)], Settle(id, s.pending[id].job, true, at), at);
  }

  /** A stop always ends the scheduler's timers exactly in the runs that never restart it over a run in flight. */
  lemma {:induction false} AlwaysStopsCleanIff(jobs: seq<SchedulerJob>, events: seq<Event>)
    requires DistinctNames(jobs) && Possible(jobs, events)
    ensures AlwaysStopsClean(jobs, events) <==> NoRestartInFlight(jobs, events)
  {
    if NoRestartInFlight(jobs, events) {
      NoRestartStopsClean(jobs, events);
    }
    if events != [] {
      var init, last := events[..|events| - 1], events[|events| - 1];
      AlwaysStopsCleanIff(jobs, init);
      if NoRestartInFlight(jobs, init) && !NoRestartInFlight(jobs, events) {
        RunKeepsInv(jobs, init);
        assert events == init + [Start(last.at)];
        RestartLeavesTimer(jobs, init, last.at);
      }
    }
  }

  // ---- statuses and the run history ----

  /** The last event of the history that satisfies p. */
  function Last(events: seq<Event>, p: Event -> bool): Option<Event> {
    if events == [] then None
    else if p(events[|events| - 1]) then Some(events[|events| - 1])
    else Last(events[..|events| - 1], p)
  }

  predicate LastIs(events: seq<Event>, p: Event -> bool, i: int) {
    0 <= i < |events| && p(events[i]) && forall k | i < k < |events| :: !p(events[k])
  }

  lemma {:induction false} LastIsLast(events: seq<Event>, p: Event -> bool)
    ensures Last(events, p) == None ==> forall k | 0 <= k < |events| :: !p(events[k])
    ensures Last(events, p).Some? ==> exists i :: LastIs(events, p, i) && events[i] == Last(events, p).value
  {
    if events != [] {
      var n := |events| - 1;
      LastIsLast(events[..n], p);
      if p(events[n]) {
        assert LastIs(events, p, n);
      } else if Last(events, p).Some? {
        var i :| LastIs(events[..n], p, i) && events[..n][i] == Last(events, p).value;
        assert LastIs(events, p, i);
      }
    }
  }

  function IsSuccess(name: string): Event -> bool {
    (e: Event) => e.Settle? && e.job.name == name && e.succeeded
  }

  function IsSettle(name: string): Event -> bool {
    (e: Event) => e.Settle? && e.job.name == name
  }

  function IsFire(name: string): Event -> bool {
    (e: Event) => e.Fire? && e.job.name == name
  }

  function TimeOf(e: Option<Event>): Option<int> {
    match e
    case Some(event) => Some(event.at)
    case None => None
  }

  lemma {:induction false} ScheduleAllKeepsHealth(s: State, jobs: seq<SchedulerJob>, now: int)
    ensures var t := ScheduleAll(s, jobs, now);
            && t.lastRunAt == s.lastRunAt && t.hasRun == s.hasRun && t.lastRunFailed == s.lastRunFailed
            && t.running == s.running && t.startedAt == s.startedAt
  {
    if jobs != [] {
      ScheduleAllKeepsHealth(s, jobs[..|jobs| - 1], now);
    }
  }

  /**
   Whatever was started, stopped or restarted, a job's status is what its history
   says: its last success, whether it was ever begun, whether its last settled run failed.
   */
  lemma {:induction false} StatusFollowsHistory(jobs: seq<SchedulerJob>, events: seq<Event>, job: SchedulerJob)
    requires Possible(jobs, events)
    ensures var last := Last(events, IsSettle(job.name));
            StatusOf(After(jobs, events), job) == JobStatus(
              job.name, job.intervalMs,
              TimeOf(Last(events, IsSuccess(job.name))),
              Last(events, IsFire(job.name)).Some?,
              last.Some? && last.value.Settle? && !last.value.succeeded)
  {
    if events != [] {
      var init, last := events[..|events| - 1], events[|events| - 1];
      StatusFollowsHistory(jobs, init, job);
      if last.Start? {
        var s := After(jobs, init);
        ScheduleAllKeepsHealth(s.(running := true, startedAt := Some(last.at)), jobs, last.at);
      }
    }
  }

  /** A start has not been followed by a stop. */
  ghost predicate Up(events: seq<Event>) {
    exists i :: 0 <= i < |events| && StartsFor(events, i)
  }

  ghost predicate StartsFor(events: seq<Event>, i: nat)
    requires i < |events|
  {
    events[i].Start? && forall k | i < k < |events| :: !events[k].Stop?
  }

  /** A start that was not ignored for coming while the scheduler was up. */
  ghost predicate TakesEffect(events: seq<Event>, i: int) {
    0 <= i < |events| && events[i].Start? && !Up(events[..i])
  }

  ghost predicate LastToTakeEffect(events: seq<Event>, i: int) {
    TakesEffect(events, i) && forall k | i < k < |events| :: !TakesEffect(events, k)
  }

  lemma UpOneMore(init: seq<Event>, last: Event)
    ensures Up(init + [last]) <==> last.Start? || (Up(init) && !last.Stop?)
  {
    var events, n := init + [last], |init|;
    if last.Start? {
      assert StartsFor(events, n);
    } else if Up(init) && !last.Stop? {
      var i: nat :| i < |init| && StartsFor(init, i);
      assert forall k | 0 <= k < n :: events[k] == init[k];
      assert StartsFor(events, i);
    }
    if Up(events) && !last.Start? {
      var i: nat :| i < |events| && StartsFor(events, i);
      assert events[n] == last && i < n;
      assert forall k | i < k < n :: init[k] == events[k];
      assert StartsFor(init, i);
    }
  }

  lemma EffectOneMore(init: seq<Event>, last: Event, i: int)
    requires LastToTakeEffect(init, i) && !TakesEffect(init + [last], |init|)
    ensures LastToTakeEffect(init + [last], i)
  {
    var events := init + [last];
    forall k | 0 <= k < |init|
      ensures TakesEffect(events, k) == TakesEffect(init, k)
    {
      assert events[..k] == init[..k];
    }
  }

  /** It is running if a start has not been stopped since, and was started by the last start that was not ignored. */
  lemma {:induction false} StartFollowsHistory(jobs: seq<SchedulerJob>, events: seq<Event>)
    requires Possible(jobs, events)
    ensures var s := After(jobs, events);
            && (s.running <==> Up(events))
            && (s.startedAt.None? <==> NoStart(events))
            && (s.startedAt.Some? ==> exists i :: LastToTakeEffect(events, i) && s.startedAt == Some(events[i].at))
  {
    if events != [] {
      var init, last := events[..|events| - 1], events[|events| - 1];
      assert events == init + [last] && events[..|init|] == init;
      StartFollowsHistory(jobs, init);
      UpOneMore(init, last);
      var s := After(jobs, init);
      if TakesEffect(events, |init|) {
        ScheduleAllKeepsHealth(s.(running := true, startedAt := Some(last.at)), jobs, last.at);
        assert LastToTakeEffect(events, |init|);
      } else if s.startedAt.Some? {
        var i :| LastToTakeEffect(init, i) && s.startedAt == Some(init[i].at);
        EffectOneMore(init, last, i);
      }
    }
  }
}
