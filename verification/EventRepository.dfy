/** The stored event log: append, look up a visitor's latest event, delete what has expired. */
module EventRepository {
  import opened Wrappers
  import opened Counting
  import opened TrackedEvent
  import opened Database

  function OfVisitor(events: seq<Event>, visitor: Bytes): seq<Event> {
    Filter(events, (e: Event) => e.visitor == visitor)
  }

  /** What a latest-first query cut to one row may return: any of the visitor's events with the greatest timestamp. */
  ghost predicate IsLatest(events: seq<Event>, visitor: Bytes, found: Option<Event>) {
    match found
    case None => forall e | e in events :: e.visitor != visitor
    case Some(last) =>
      last in events && last.visitor == visitor && forall e | e in events && e.visitor == visitor :: e.ts <= last.ts
  }

  function Latest(events: seq<Event>, visitor: Bytes): (found: Option<Event>)
    ensures IsLatest(events, visitor, found)
  {
    if events == [] then None
    else
      var rest := Latest(events[1..], visitor);
      if events[0].visitor == visitor && (rest.None? || rest.value.ts < events[0].ts) then Some(events[0]) else rest
  }

  /** The rows a purge with this cutoff keeps. */
  function Retained(log: seq<Event>, cutoffTs: int): seq<Event> {
    Filter(log, (e: Event) => cutoffTs <= e.ts)
  }

  /** Each row stays as often as it was there, if it is not older than the cutoff, and goes otherwise. */
  lemma {:induction false} RetainedKeepsEach(log: seq<Event>, cutoffTs: int, e: Event)
    ensures multiset(Retained(log, cutoffTs))[e] == if cutoffTs <= e.ts then multiset(log)[e] else 0
  {
    if log != [] {
      RetainedKeepsEach(log[1..], cutoffTs, e);
      assert log == [log[0]] + log[1..];
    }
  }

  class SqliteEventRepository {
    const db: Database

    constructor (db: Database)
      ensures this.db == db
    {
      this.db := db;
    }

    /** One transaction inserts the batch in order. */
    method SaveBatch(events: seq<Event>)
      modifies db`events
      ensures db.events == old(db.events) + events
    {
      for i := 0 to |events|
        invariant db.events == old(db.events) + events[..i]
      {
        assert events[..i + 1] == events[..i] + [events[i]];
        db.events := db.events + [events[i]];
      }
      assert events[..|events|] == events;
    }

    function FindLastEventForVisitor(visitor: Bytes): (found: Option<Event>)
      reads db
      ensures IsLatest(db.events, visitor, found)
    {
      Latest(db.events, visitor)
    }

    /** Drops what is older than the cutoff and says how many rows went. */
    method DeleteOlderThan(cutoffTs: int) returns (changes: nat)
      modifies db`events
      ensures db.events == Retained(old(db.events), cutoffTs)
      ensures forall e :: e in db.events <==> e in old(db.events) && e.ts >= cutoffTs
      ensures changes == |old(db.events)| - |db.events|
    {
      FilterShorter(db.events, (e: Event) => cutoffTs <= e.ts);
      var kept := Retained(db.events, cutoffTs);
      changes := |db.events| - |kept|;
      db.events := kept;
    }
  }
}
