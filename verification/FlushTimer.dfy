/** The write buffer's timer on the state machine: how long a saved event waits for the log, and when a day is settled. */
module FlushTimer {
  import opened Wrappers
  import opened TrackedEvent
  import opened TimeRange
  import opened BatchingEventRepository
  import opened VisitorId
  import opened Pipeline
  import opened ClosedDays

  /** The machine, when its armed timer is due, and when each buffered event was saved. */
  datatype Timed = Timed(state: State, timer: Option<int>, arrivals: seq<int>)

  /**
   The flush interval, how late the timer may fire, and how long after the second
   of its event a request may still await its save.
   */
  datatype Delays = Delays(intervalMs: nat, lateMs: nat, handlingMs: nat)

  /** After one event was saved: the first one buffered arms the timer, a flush disarms it. */
  function Armed(x: Timed, next: State, intervalMs: int): (r: Timed)
    ensures r.state == next
  {
    var held := next.buffer != [];
    Timed(next, TimerAfter(held, x.timer, x.state.nowMs + intervalMs), if held then x.arrivals + [x.state.nowMs] else [])
  }

  function TimedStep(cfg: Config, intervalMs: int, x: Timed, a: Action): (r: Timed)
    requires Enabled(x.state, a)
    ensures r.state == Step(cfg, x.state, a)
  {
    var next := Step(cfg, x.state, a);
    match a
    case Save(_) => Armed(x, next, intervalMs)
    case Record(input, newSession) =>
      if Requested(cfg, x.state, input, newSession).None? then x.(state := next) else Armed(x, next, intervalMs)
    case Flush => Timed(next, None, [])
    case _ => x.(state := next)
  }

  /** What a failed flush leaves: the buffered events are gone, the log is as it was. */
  function Lost(x: Timed): Timed {
    Timed(x.state.(buffer := []), None, [])
  }

  /** The clock leaves behind neither an overdue timer nor a request. */
  predicate MayTick(delays: Delays, x: Timed, toMs: int) {
    && (x.timer.Some? ==> toMs <= x.timer.value + delays.lateMs)
    && (forall e | e in x.state.inFlight :: toMs < (e.ts + 1) * 1000 + delays.handlingMs)
  }

  predicate Prompt(cfg: Config, delays: Delays, x: Timed, actions: seq<Action>)
    requires ValidRun(cfg, x.state, actions)
    decreases |actions|
  {
    actions == []
    || ((actions[0].Tick? ==> MayTick(delays, x, actions[0].toMs))
        && Prompt(cfg, delays, TimedStep(cfg, delays.intervalMs, x, actions[0]), actions[1..]))
  }

  function TimedRun(cfg: Config, intervalMs: int, x: Timed, actions: seq<Action>): (r: Timed)
    requires ValidRun(cfg, x.state, actions)
    ensures r.state == Run(cfg, x.state, actions)
    decreases |actions|
  {
    if actions == [] then x else TimedRun(cfg, intervalMs, TimedStep(cfg, intervalMs, x, actions[0]), actions[1..])
  }

  function Unarmed(nowMs: int, salt: Field): Timed {
    Timed(Initial(nowMs, salt), None, [])
  }

  // ---- the wait ----

  /** The timer covers every buffered event, is not overdue, and no request has been under way too long. */
  ghost predicate Waiting(delays: Delays, x: Timed) {
    var now := x.state.nowMs;
    && |x.arrivals| == |x.state.buffer|
    && (x.arrivals != [] ==> x.timer == Some(x.arrivals[0] + delays.intervalMs))
    && (x.timer.Some? ==> x.arrivals != [])
    && (x.timer.Some? ==> now <= x.timer.value + delays.lateMs && x.timer.value <= now + delays.intervalMs)
    && (forall i | 0 <= i < |x.arrivals| :: x.arrivals[i] <= now && x.timer.value <= x.arrivals[i] + delays.intervalMs)
    && (forall e | e in x.state.inFlight :: now < (e.ts + 1) * 1000 + delays.handlingMs)
  }

  lemma SavedWaits(cfg: Config, delays: Delays, x: Timed, s: State, e: Event)
    requires Waiting(delays, x)
    requires s.buffer == x.state.buffer && s.nowMs == x.state.nowMs && forall f | f in s.inFlight :: f in x.state.inFlight
    ensures Waiting(delays, Armed(x, Saved(cfg, s, e), delays.intervalMs))
  {}

  lemma StepKeepsWaiting(cfg: Config, delays: Delays, x: Timed, a: Action)
    requires Waiting(delays, x) && Enabled(x.state, a) && (a.Tick? ==> MayTick(delays, x, a.toMs))
    ensures Waiting(delays, TimedStep(cfg, delays.intervalMs, x, a))
  {
    var s := x.state;
    match a
    case Begin(input, newSession) => RequestedIsNow(cfg, s, input, newSession);
    case Save(index) =>
      SavedWaits(cfg, delays, x, s.(inFlight := s.inFlight[..index] + s.inFlight[index + 1..]), s.inFlight[index]);
    case Record(input, newSession) =>
      var e := Requested(cfg, s, input, newSession);
      if e.Some? {
        SavedWaits(cfg, delays, x, s.(issued := s.issued + {newSession}, hashed := HashedBy(cfg, s, input)), e.value);
      }
    case _ =>
  }

  lemma {:induction false} RunKeepsWaiting(cfg: Config, delays: Delays, x: Timed, actions: seq<Action>)
    requires Waiting(delays, x) && ValidRun(cfg, x.state, actions) && Prompt(cfg, delays, x, actions)
    ensures Waiting(delays, TimedRun(cfg, delays.intervalMs, x, actions))
    decreases |actions|
  {
    if actions != [] {
      StepKeepsWaiting(cfg, delays, x, actions[0]);
      RunKeepsWaiting(cfg, delays, TimedStep(cfg, delays.intervalMs, x, actions[0]), actions[1..]);
    }
  }

  /**
   In every run the armed timer is due one interval after the first buffered event
   was saved; when it fires at most lateMs late, no event waits in the buffer
   longer than the interval and that.
   */
  lemma NoEventWaitsLonger(cfg: Config, delays: Delays, nowMs: int, salt: Field, actions: seq<Action>)
    requires ValidRun(cfg, Initial(nowMs, salt), actions)
    requires Prompt(cfg, delays, Unarmed(nowMs, salt), actions)
    ensures var end := TimedRun(cfg, delays.intervalMs, Unarmed(nowMs, salt), actions);
            && |end.arrivals| == |end.state.buffer|
            && end.timer == (if end.arrivals == [] then None else Some(end.arrivals[0] + delays.intervalMs))
            && forall i | 0 <= i < |end.arrivals| ::
                 end.arrivals[i] <= end.state.nowMs <= end.arrivals[i] + delays.intervalMs + delays.lateMs
  {
    RunKeepsWaiting(cfg, delays, Unarmed(nowMs, salt), actions);
  }

  // ---- when a day is settled ----

  predicate OnDay(e: Event, day: int) {
    day <= e.ts < day + SECONDS_PER_DAY
  }

  /** When the last request of the day has been saved. */
  function SavedBy(delays: Delays, day: int): int {
    (day + SECONDS_PER_DAY) * 1000 + delays.handlingMs
  }

  /** When its event has been flushed as well. */
  function SettledBy(delays: Delays, day: int): int {
    SavedBy(delays, day) + delays.intervalMs + delays.lateMs
  }

  ghost predicate DayArrived(delays: Delays, x: Timed, day: int) {
    && |x.arrivals| == |x.state.buffer|
    && forall i | 0 <= i < |x.arrivals| && OnDay(x.state.buffer[i], day) :: x.arrivals[i] < SavedBy(delays, day)
  }

  lemma SavedArrives(cfg: Config, delays: Delays, x: Timed, s: State, e: Event, day: int)
    requires DayArrived(delays, x, day) && s.buffer == x.state.buffer
    requires OnDay(e, day) ==> x.state.nowMs < SavedBy(delays, day)
    ensures DayArrived(delays, Armed(x, Saved(cfg, s, e), delays.intervalMs), day)
  {}

  lemma StepKeepsDayArrived(cfg: Config, delays: Delays, x: Timed, a: Action, day: int)
    requires Waiting(delays, x) && DayArrived(delays, x, day) && Enabled(x.state, a)
    ensures DayArrived(delays, TimedStep(cfg, delays.intervalMs, x, a), day)
  {
    var s := x.state;
    match a
    case Save(index) =>
      assert s.inFlight[index] in s.inFlight;
      SavedArrives(cfg, delays, x, s.(inFlight := s.inFlight[..index] + s.inFlight[index + 1..]), s.inFlight[index], day);
    case Record(input, newSession) =>
      var e := Requested(cfg, s, input, newSession);
      RequestedIsNow(cfg, s, input, newSession);
      if e.Some? {
        SavedArrives(cfg, delays, x, s.(issued := s.issued + {newSession}, hashed := HashedBy(cfg, s, input)), e.value, day);
      }
    case _ =>
  }

  lemma SettledOnceFlushed(delays: Delays, x: Timed, day: int)
    requires Waiting(delays, x) && DayArrived(delays, x, day) && IsDay(day)
    requires x.state.nowMs >= SettledBy(delays, day)
    ensures Settled(x.state, day)
  {
    forall e | e in x.state.buffer
      ensures !OnDay(e, day)
    {
      var i :| 0 <= i < |x.state.buffer| && x.state.buffer[i] == e;
    }
  }

  lemma StepKeepsBoth(cfg: Config, delays: Delays, x: Timed, actions: seq<Action>, day: int, n: nat)
    requires Waiting(delays, x) && DayArrived(delays, x, day) && 0 < n <= |actions|
    requires ValidRun(cfg, x.state, actions) && Prompt(cfg, delays, x, actions)
    ensures var next := TimedStep(cfg, delays.intervalMs, x, actions[0]);
            && Waiting(delays, next) && DayArrived(delays, next, day)
            && ValidRun(cfg, next.state, actions[1..]) && Prompt(cfg, delays, next, actions[1..])
            && StateAt(cfg, x.state, actions, n) == StateAt(cfg, next.state, actions[1..], n - 1)
  {
    StepKeepsWaiting(cfg, delays, x, actions[0]);
    StepKeepsDayArrived(cfg, delays, x, actions[0], day);
  }

  lemma {:induction false} KeptUntil(cfg: Config, delays: Delays, x: Timed, actions: seq<Action>, day: int, n: nat) returns (y: Timed)
    requires Waiting(delays, x) && DayArrived(delays, x, day)
    requires ValidRun(cfg, x.state, actions) && Prompt(cfg, delays, x, actions) && n <= |actions|
    ensures y.state == StateAt(cfg, x.state, actions, n)
    ensures Waiting(delays, y) && DayArrived(delays, y, day)
    decreases n
  {
    if n == 0 {
      y := x;
    } else {
      StepKeepsBoth(cfg, delays, x, actions, day, n);
      y := KeptUntil(cfg, delays, TimedStep(cfg, delays.intervalMs, x, actions[0]), actions[1..], day, n - 1);
    }
  }

  /** In every such run a day is settled once its midnight, the handling of a request, the interval and the lateness have passed. */
  lemma DaySettlesInTime(cfg: Config, delays: Delays, nowMs: int, salt: Field, actions: seq<Action>, day: int, n: nat)
    requires IsDay(day) && ValidRun(cfg, Initial(nowMs, salt), actions) && n <= |actions|
    requires Prompt(cfg, delays, Unarmed(nowMs, salt), actions)
    requires StateAt(cfg, Initial(nowMs, salt), actions, n).nowMs >= SettledBy(delays, day)
    ensures Settled(StateAt(cfg, Initial(nowMs, salt), actions, n), day)
  {
    var y := KeptUntil(cfg, delays, Unarmed(nowMs, salt), actions, day, n);
    SettledOnceFlushed(delays, y, day);
  }
}
