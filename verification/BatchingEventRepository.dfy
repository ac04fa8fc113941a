/** The write buffer in front of the log: flushed at a size, or by a timer armed on the first buffered event. */
module BatchingEventRepository {
  import opened Wrappers
  import opened TrackedEvent
  import opened EventRepository

  const DEFAULT_MAX_BATCH_SIZE := 100
  const DEFAULT_FLUSH_INTERVAL_MS := 1000

  /** The most recently buffered event of a visitor. */
  function LastOf(buffer: seq<Event>, visitor: Bytes): Option<Event> {
    if buffer == [] then None
    else if buffer[|buffer| - 1].visitor == visitor then Some(buffer[|buffer| - 1])
    else LastOf(buffer[..|buffer| - 1], visitor)
  }

  /** The buffer answers first; only then the log. */
  function BufferedLatest(buffer: seq<Event>, log: seq<Event>, visitor: Bytes): Option<Event> {
    var inBuffer := LastOf(buffer, visitor);
    if inBuffer.Some? then inBuffer else Latest(log, visitor)
  }

  /** When the timer is due after a save: what is held is covered by the armed timer or by a new one. */
  function TimerAfter(held: bool, armed: Option<int>, dueAt: int): Option<int> {
    if !held then None else if armed.Some? then armed else Some(dueAt)
  }

  class BatchingEventRepository {
    const delegate: SqliteEventRepository
    const maxBatchSize: int
    const flushIntervalMs: int
    var buffer: seq<Event>
    /** When the armed timer is due, if one is armed. */
    var flushTimer: Option<int>
    /** When each buffered event arrived. */
    ghost var arrivals: seq<int>
    /** The time of the latest save. */
    ghost var lastSeen: int

    constructor (delegate: SqliteEventRepository, maxBatchSize: int := DEFAULT_MAX_BATCH_SIZE,
                 flushIntervalMs: int := DEFAULT_FLUSH_INTERVAL_MS)
      ensures Valid() && this.delegate == delegate && buffer == [] && flushTimer == None
      ensures this.maxBatchSize == maxBatchSize && this.flushIntervalMs == flushIntervalMs
    {
      this.delegate, this.maxBatchSize, this.flushIntervalMs := delegate, maxBatchSize, flushIntervalMs;
      buffer, flushTimer, arrivals := [], None, [];
    }

    /** A non-empty buffer has a timer armed, due no later than one interval after any of its events arrived. */
    ghost predicate TimerCovers()
      reads this
    {
      && |arrivals| == |buffer|
      && (buffer != [] ==> flushTimer.Some?)
      && (forall i | 0 <= i < |buffer| :: flushTimer.value <= arrivals[i] + flushIntervalMs)
      && (flushTimer.Some? ==> flushTimer.value <= lastSeen + flushIntervalMs)
    }

    ghost predicate Valid()
      reads this
    {
      TimerCovers() && (buffer == [] || |buffer| < maxBatchSize)
    }

    /** Everything saved and not lost, in order: the log, then the buffer. */
    function Contents(): seq<Event>
      reads this, delegate.db
    {
      delegate.db.events + buffer
    }

    /** `accepts` says whether the delegate's transaction commits; the promise rejects when it does not. */
    method SaveBatch(events: seq<Event>, nowMs: int, accepts: bool) returns (ok: bool)
      requires Valid()
      requires lastSeen <= nowMs  // the clock does not run backwards
      modifies this, delegate.db`events
      ensures Valid()
      ensures ok <==> accepts || |old(buffer) + events| < maxBatchSize || old(buffer) + events == []
      ensures ok ==> Contents() == old(Contents()) + events
      ensures !ok ==> Contents() == old(delegate.db.events)
      ensures buffer == if |old(buffer) + events| < maxBatchSize then old(buffer) + events else []
      ensures |old(buffer) + events| < maxBatchSize ==> delegate.db.events == old(delegate.db.events)
      ensures lastSeen == nowMs
      ensures var held := |old(buffer) + events| < maxBatchSize;
              && flushTimer == TimerAfter(held, old(flushTimer), nowMs + flushIntervalMs)
              && arrivals == (if held then old(arrivals) + seq(|events|, i => nowMs) else [])
    {
      buffer := buffer + events;
      arrivals := arrivals + seq(|events|, i => nowMs);
      lastSeen := nowMs;
      ScheduleFlush(nowMs);
      if |buffer| >= maxBatchSize {
        ok := Flush(accepts);
      } else {
        ok := true;
      }
    }

    method FindLastEventForVisitor(visitor: Bytes) returns (found: Option<Event>)
      ensures found == BufferedLatest(buffer, delegate.db.events, visitor)
    {
      var i := |buffer| - 1;
      assert buffer[..|buffer|] == buffer;
      while i >= 0
        invariant -1 <= i < |buffer|
        invariant LastOf(buffer, visitor) == LastOf(buffer[..i + 1], visitor)
      {
        var candidate := buffer[i];
        if candidate.visitor == visitor {
          return Some(candidate);
        }
        assert buffer[..i + 1][..i] == buffer[..i];
        i := i - 1;
      }
      found := delegate.FindLastEventForVisitor(visitor);
    }

    /** Empties the buffer before the delegate write, so a failed write loses exactly what was buffered. */
    method Flush(accepts: bool) returns (ok: bool)
      modifies this, delegate.db`events
      ensures Valid() && buffer == [] && flushTimer == None && lastSeen == old(lastSeen)
      ensures ok <==> accepts || old(buffer) == []
      ensures delegate.db.events == old(delegate.db.events) + if ok then old(buffer) else []
      ensures Contents() == old(Contents()) <==> ok
    {
      flushTimer := None;
      arrivals := [];
      if |buffer| == 0 {
        return true;
      }
      var toFlush := buffer;
      buffer := [];
      if accepts {
        delegate.SaveBatch(toFlush);
      }
      ok := accepts;
    }

    /** The timer's callback: the buffer is drained at the latest when the timer is due. */
    method FlushTimerFires(accepts: bool) returns (ok: bool)
      requires Valid() && flushTimer.Some?
      modifies this, delegate.db`events
      ensures Valid() && buffer == [] && flushTimer == None && lastSeen == old(lastSeen)
      ensures ok <==> accepts || old(buffer) == []
      ensures Contents() == old(Contents()) <==> ok
    {
      flushTimer := None;
      ok := Flush(accepts);
    }

    method ScheduleFlush(nowMs: int)
      modifies this`flushTimer
      ensures flushTimer == if old(flushTimer).Some? then old(flushTimer) else Some(nowMs + flushIntervalMs)
    {
      if flushTimer.Some? {
        return;
      }
      flushTimer := Some(nowMs + flushIntervalMs);
    }
  }
}
