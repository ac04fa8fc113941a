/**
 Sessionisation. Each visitor's history splits into contiguous sessions: stored
 gaps of at most 1800 s inside one, of at least 1800 s between two - although the
 rule compares the millisecond clock with timestamps floored to seconds, and
 whatever tie-break the lookup uses. Requests of one visitor that overlap keep
 this exactly under the conditions of `Orderly`.
 */
module Sessions {
  import opened Wrappers
  import opened Counting
  import opened TrackedEvent
  import opened EventRepository
  import opened BatchingEventRepository
  import opened VisitorId
  import opened RecordEvent
  import opened Identities
  import opened Pipeline

  /** Event i continues the session of the event before it, or opens a session not seen before. */
  ghost predicate Follows(v: seq<Event>, i: int)
    requires 0 < i < |v|
  {
    var gap := v[i].ts - v[i - 1].ts;
    && 0 <= gap
    && (v[i].session == v[i - 1].session ==> gap <= WINDOW_SECONDS)
    && (v[i].session != v[i - 1].session ==> gap >= WINDOW_SECONDS && NotAmong(v[..i], v[i].session))
  }

  ghost predicate NotAmong(v: seq<Event>, session: Bytes) {
    forall e | e in v :: e.session != session
  }

  /** One visitor's events, in the order they were saved. */
  ghost predicate SessionRuns(v: seq<Event>) {
    forall i | 0 < i < |v| :: Follows(v, i)
  }

  /** A session is an unbroken run: two events of it have nothing else between them. */
  lemma {:induction false} SessionsAreContiguous(v: seq<Event>, i: nat, j: nat, k: nat)
    requires SessionRuns(v) && i <= j <= k < |v| && v[i].session == v[k].session
    ensures v[j].session == v[i].session
    decreases k - j
  {
    if j < k {
      SessionsAreContiguous(v, i, j + 1, k);
      assert Follows(v, j + 1);
      assert v[i] in v[..j + 1];
    }
  }

  lemma {:induction false} SameSecondSameSession(v: seq<Event>, i: nat, k: nat)
    requires SessionRuns(v) && i <= k < |v| && v[i].ts == v[k].ts
    ensures v[i].session == v[k].session
    decreases k - i
  {
    if i < k {
      TimesIncrease(v, i + 1, k);
      assert Follows(v, i + 1);
      SameSecondSameSession(v, i + 1, k);
    }
  }

  lemma {:induction false} TimesIncrease(v: seq<Event>, i: nat, k: nat)
    requires SessionRuns(v) && i <= k < |v|
    ensures v[i].ts <= v[k].ts
    decreases k - i
  {
    if i < k {
      TimesIncrease(v, i, k - 1);
      assert Follows(v, k);
    }
  }

  /** A lookup that may have missed only events older than the window. */
  ghost predicate FindsLast(v: seq<Event>, nowMs: int, found: Option<Event>) {
    match found
    case Some(last) => last in v && forall e | e in v :: e.ts <= last.ts
    case None => forall e | e in v :: e.ts < nowMs / 1000 - WINDOW_SECONDS
  }

  /** What resolving a session needs of it: the last event, or none when all lie a whole window back. */
  ghost predicate ReadsLast(v: seq<Event>, nowMs: int, found: Option<Event>) {
    match found
    case Some(last) => last in v && forall e | e in v :: e.ts <= last.ts
    case None => forall e | e in v :: e.ts + WINDOW_SECONDS <= nowMs / 1000
  }

  /** Appending the next event, with its session resolved from any such lookup, keeps the runs. */
  lemma ResolvedSessionExtendsRuns(v: seq<Event>, nowMs: int, found: Option<Event>, newSession: Bytes, e: Event)
    requires SessionRuns(v) && ReadsLast(v, nowMs, found)
    requires forall x | x in v :: x.ts <= nowMs / 1000 && x.session != newSession
    requires e.ts == nowMs / 1000 && e.session == SessionFor(found, nowMs, newSession)
    ensures SessionRuns(v + [e])
  {
    var w := v + [e];
    if v != [] {
      assert v[|v| - 1] in v;
      if found.Some? {
        LookupIsLast(v, found.value);
      }
    }
    forall i | 0 < i < |w|
      ensures Follows(w, i)
    {
      assert w[..i] == v[..i];
      if i < |v| {
        assert Follows(v, i);
      }
    }
  }

  /** Whatever latest event a lookup returns, it carries the time and the session of the visitor's last one. */
  lemma LookupIsLast(v: seq<Event>, last: Event)
    requires SessionRuns(v) && last in v && forall e | e in v :: e.ts <= last.ts
    ensures v != [] && last.ts == v[|v| - 1].ts && last.session == v[|v| - 1].session
  {
    var i: nat :| i < |v| && v[i] == last;
    TimesIncrease(v, i, |v| - 1);
    assert v[|v| - 1] in v;
    SameSecondSameSession(v, i, |v| - 1);
  }

  lemma AppendedRunsIff(v: seq<Event>, e: Event)
    requires SessionRuns(v)
    ensures SessionRuns(v + [e]) <==> v == [] || Follows(v + [e], |v|)
  {
    var w := v + [e];
    forall i | 0 < i < |v|
      ensures Follows(w, i)
    {
      assert Follows(v, i) && w[..i] == v[..i];
    }
  }

  /** The visitor's looked-up event is recent enough for its session to go on. */
  predicate Continues(found: Option<Event>, nowMs: int) {
    found.Some? && BelongsToSameSession(found.value.ts * 1000, nowMs)
  }

  /**
   The last event under way either has the session that the lookup, which cannot
   see it, is about to continue, or lies a whole window back.
   */
  predicate Agrees(last: Event, nowMs: int, found: Option<Event>) {
    || (Continues(found, nowMs) && last.session == found.value.session)
    || last.ts + WINDOW_SECONDS <= nowMs / 1000
  }

  /** A request resolved from the saved events alone fits behind the events under way exactly when the last of them agrees. */
  lemma ResolvedBehindUnsavedIff(own: seq<Event>, flights: seq<Event>, nowMs: int, found: Option<Event>,
                                 newSession: Bytes, e: Event)
    requires SessionRuns(own + flights) && flights != [] && ReadsLast(own, nowMs, found)
    requires forall x | x in own + flights :: x.ts <= nowMs / 1000 && x.session != newSession
    requires e.ts == nowMs / 1000 && e.session == SessionFor(found, nowMs, newSession)
    ensures SessionRuns(own + flights + [e]) <==> Agrees(flights[|flights| - 1], nowMs, found)
  {
    var v := own + flights;
    var last := v[|v| - 1];
    var w := v + [e];
    AppendedRunsIff(v, e);
    assert w[..|v|] == v && w[|v|] == e && w[|v| - 1] == last && last in v;
    if Continues(found, nowMs) {
      assert found.value in v;
      var i: nat :| i < |own| && own[i] == found.value;
      assert v[i] == found.value;
      TimesIncrease(v, i, |v| - 1);
      if last.ts == found.value.ts {
        SameSecondSameSession(v, i, |v| - 1);
      }
    }
  }

  predicate SameProfile(v: seq<Event>, w: seq<Event>) {
    |v| == |w| && forall i | 0 <= i < |v| :: v[i].ts == w[i].ts && v[i].session == w[i].session
  }

  /** Only times and sessions matter. */
  lemma SameProfileSameRuns(v: seq<Event>, w: seq<Event>)
    requires SameProfile(v, w) && SessionRuns(v)
    ensures SessionRuns(w)
  {
    forall i | 0 < i < |w|
      ensures Follows(w, i)
    {
      assert Follows(v, i);
      if w[i].session != w[i - 1].session {
        forall e | e in w[..i]
          ensures e.session != w[i].session
        {
          var k :| 0 <= k < i && w[k] == e;
          assert v[k] in v[..i];
        }
      }
    }
  }

  lemma {:induction false} TimesBetween(v: seq<Event>, i: nat, j: nat, k: nat)
    requires SessionRuns(v) && i <= j <= k < |v| && v[i].ts == v[k].ts
    ensures v[j].ts == v[i].ts && v[j].session == v[i].session
  {
    TimesIncrease(v, i, j);
    TimesIncrease(v, j, k);
    SameSecondSameSession(v, i, j);
  }

  /** Saving an event before others that began earlier keeps the runs exactly when they all began in its second. */
  lemma SavedAheadIff(own: seq<Event>, ahead: seq<Event>, g: Event, behind: seq<Event>)
    requires SessionRuns(own + ahead + [g] + behind) && ahead != []
    ensures SessionRuns(own + [g] + ahead + behind) <==> ahead[0].ts == g.ts
  {
    var v, w := own + ahead + [g] + behind, own + [g] + ahead + behind;
    var i, k := |own|, |own| + |ahead|;
    assert v[i] == ahead[0] && v[k] == g && w[i] == g && w[i + 1] == ahead[0];
    TimesIncrease(v, i, k);
    if SessionRuns(w) {
      TimesIncrease(w, i, i + 1);
    }
    if ahead[0].ts == g.ts {
      forall j | i <= j <= k
        ensures v[j].ts == g.ts && v[j].session == g.session
      {
        TimesBetween(v, i, j, k);
        TimesBetween(v, i, k, k);
      }
      AheadProfile(own, ahead, g, behind);
      SameProfileSameRuns(v, w);
    }
  }

  lemma AheadProfile(own: seq<Event>, ahead: seq<Event>, g: Event, behind: seq<Event>)
    requires var v := own + ahead + [g] + behind;
             forall j | |own| <= j <= |own| + |ahead| :: v[j].ts == g.ts && v[j].session == g.session
    ensures SameProfile(own + ahead + [g] + behind, own + [g] + ahead + behind)
  {
    var v, w := own + ahead + [g] + behind, own + [g] + ahead + behind;
    forall j | 0 <= j < |v|
      ensures v[j].ts == w[j].ts && v[j].session == w[j].session
    {
      if |own| < j <= |own| + |ahead| {
        assert w[j] == ahead[j - |own| - 1] == v[j - 1];
      }
    }
  }

  /** A request saved at once, ahead of events under way, fits exactly when the first of them is of its second and session. */
  lemma RecordedAheadIff(own: seq<Event>, flights: seq<Event>, e: Event)
    requires SessionRuns(own + flights) && flights != []
    requires forall x | x in own + flights :: x.ts <= e.ts
    ensures SessionRuns(own + [e] + flights) <==> flights[0].ts == e.ts && flights[0].session == e.session
  {
    var v, w := own + flights, own + [e] + flights;
    var i, last := |own|, |own| + |flights| - 1;
    assert v[i] == flights[0] && flights[0] in v && v[last] in v && w[i] == e && w[i + 1] == flights[0];
    if SessionRuns(w) {
      assert Follows(w, i + 1);
    }
    if flights[0].ts == e.ts && flights[0].session == e.session {
      TimesIncrease(v, i, last);
      TimesBetween(v, i, last, last);
      AppendedRunsIff(v, e);
      assert (v + [e])[..|v|] == v;
      forall j | i <= j <= last
        ensures v[j].ts == e.ts && v[j].session == e.session
      {
        TimesBetween(v, i, j, last);
      }
      assert Follows(v + [e], |v|);
      forall j | 0 <= j < |w|
        ensures (v + [e])[j].ts == w[j].ts && (v + [e])[j].session == w[j].session
      {
        if j > i {
          assert w[j] == flights[j - i - 1] == v[j - 1];
        }
      }
      SameProfileSameRuns(v + [e], w);
    }
  }

  // ---- in the server ----

  function UnderWay(s: State, v: Bytes): seq<Event> {
    OfVisitor(s.inFlight, v)
  }

  /** The visitor's saved events, then those under way. */
  function PendingOf(s: State, v: Bytes): seq<Event> {
    OfVisitor(History(s), v) + UnderWay(s, v)
  }

  /** A request's lookup is not misled by the events under way that it cannot see. */
  predicate FitsBehind(flights: seq<Event>, nowMs: int, lookup: Option<Event>) {
    flights == [] || Agrees(flights[|flights| - 1], nowMs, lookup)
  }

  /** A request saved at once overtakes only events that began in its second and continue its session. */
  predicate FitsAhead(flights: seq<Event>, nowMs: int, lookup: Option<Event>) {
    flights == []
    || (flights[0].ts == nowMs / 1000 && Continues(lookup, nowMs) && flights[0].session == lookup.value.session)
  }

  predicate BeginsOrderly(cfg: Config, s: State, input: RecordInput, newSession: Bytes) {
    var e := Requested(cfg, s, input, newSession);
    e.None? || FitsBehind(UnderWay(s, e.value.visitor), s.nowMs, BufferedLatest(s.buffer, s.log, e.value.visitor))
  }

  predicate RecordsOrderly(cfg: Config, s: State, input: RecordInput, newSession: Bytes) {
    var e := Requested(cfg, s, input, newSession);
    e.None? || FitsAhead(UnderWay(s, e.value.visitor), s.nowMs, BufferedLatest(s.buffer, s.log, e.value.visitor))
  }

  /** The saved event overtakes only events of its visitor that began in the same second. */
  predicate SavesOrderly(s: State, index: nat)
    requires index < |s.inFlight|
  {
    var ahead := OfVisitor(s.inFlight[..index], s.inFlight[index].visitor);
    ahead == [] || ahead[0].ts == s.inFlight[index].ts
  }

  /** What a step must meet for its visitor's sessions to stay runs; different visitors may interleave freely. */
  predicate Orderly(cfg: Config, s: State, a: Action)
    requires Enabled(s, a)
  {
    match a
    case Begin(input, newSession) => BeginsOrderly(cfg, s, input, newSession)
    case Record(input, newSession) => RecordsOrderly(cfg, s, input, newSession)
    case Save(index) => SavesOrderly(s, index)
    case _ => true
  }

  predicate OrderlyRun(cfg: Config, s: State, actions: seq<Action>)
    requires ValidRun(cfg, s, actions)
    decreases |actions|
  {
    actions == [] || (Orderly(cfg, s, actions[0]) && OrderlyRun(cfg, Step(cfg, s, actions[0]), actions[1..]))
  }

  ghost predicate AllRuns(s: State) {
    forall v :: SessionRuns(PendingOf(s, v))
  }

  ghost predicate SessionInv(cfg: Config, s: State) {
    && Inv(s) && IdInv(cfg, s)
    && AllRuns(s)
  }

  lemma HistoryRuns(cfg: Config, s: State, v: Bytes)
    requires SessionInv(cfg, s)
    ensures SessionRuns(OfVisitor(History(s), v))
  {
    var own, pending := OfVisitor(History(s), v), PendingOf(s, v);
    forall i | 0 < i < |own|
      ensures Follows(own, i)
    {
      assert Follows(pending, i);
      assert pending[..i] == own[..i];
    }
  }

  lemma {:induction false} LastOfIsLast(buffer: seq<Event>, v: Bytes)
    ensures var own := OfVisitor(buffer, v);
            LastOf(buffer, v) == if own == [] then None else Some(own[|own| - 1])
  {
    if buffer != [] {
      var init, last := buffer[..|buffer| - 1], buffer[|buffer| - 1];
      LastOfIsLast(init, v);
      assert buffer == init + [last];
      FilterConcat(init, [last], (e: Event) => e.visitor == v);
    }
  }

  lemma LastIsLatest(v: seq<Event>)
    requires SessionRuns(v) && v != []
    ensures v[|v| - 1] in v && forall e | e in v :: e.ts <= v[|v| - 1].ts
  {
    forall e | e in v
      ensures e.ts <= v[|v| - 1].ts
    {
      var i: nat :| i < |v| && v[i] == e;
      TimesIncrease(v, i, |v| - 1);
    }
  }

  lemma BufferAnswers(s: State, v: Bytes)
    requires SessionRuns(OfVisitor(History(s), v)) && OfVisitor(s.buffer, v) != []
    ensures FindsLast(OfVisitor(History(s), v), s.nowMs, BufferedLatest(s.buffer, s.log, v))
  {
    var own, buffered := OfVisitor(History(s), v), OfVisitor(s.buffer, v);
    FilterConcat(s.written, s.buffer, (e: Event) => e.visitor == v);
    assert own[|own| - 1] == buffered[|buffered| - 1];
    LastOfIsLast(s.buffer, v);
    LastIsLatest(own);
  }

  /** Too old for any purge-safe lookup, and far too old to continue a session. */
  ghost predicate AllStale(v: seq<Event>, nowSeconds: int) {
    forall e | e in v :: e.ts < nowSeconds - KEPT_SECONDS
  }

  /** What a lookup over a log that has forgotten only long-past events may answer. */
  ghost predicate MayAnswer(own: seq<Event>, nowMs: int, found: Option<Event>) {
    FindsLast(own, nowMs, found) || (AllStale(own, nowMs / 1000) && (found.Some? ==> found.value in own))
  }

  lemma RecentIsHeld(s: State, v: Bytes, e: Event)
    requires Inv(s) && e in OfVisitor(History(s), v) && e.ts >= NowSeconds(s) - KEPT_SECONDS
    ensures e in s.log + s.buffer && e.visitor == v
  {
    if e in s.written {
      assert e in Recent(s.written, NowSeconds(s));
    }
  }

  /** So does any latest event of what the log and the buffer still hold. */
  lemma LatestMayAnswer(cfg: Config, s: State, v: Bytes, found: Option<Event>)
    requires SessionInv(cfg, s) && IsLatest(s.log + s.buffer, v, found)
    ensures MayAnswer(OfVisitor(History(s), v), s.nowMs, found)
  {
    var own := OfVisitor(History(s), v);
    if found.Some? {
      assert found.value in own;
    }
    forall e | e in own && e.ts >= NowSeconds(s) - KEPT_SECONDS
      ensures found.Some? && e.ts <= found.value.ts
    {
      RecentIsHeld(s, v, e);
    }
  }

  /** The lookup through the buffer is such an answer. */
  lemma LookupMayAnswer(cfg: Config, s: State, v: Bytes)
    requires SessionInv(cfg, s)
    ensures MayAnswer(OfVisitor(History(s), v), s.nowMs, BufferedLatest(s.buffer, s.log, v))
  {
    LastOfIsLast(s.buffer, v);
    if OfVisitor(s.buffer, v) != [] {
      HistoryRuns(cfg, s, v);
      BufferAnswers(s, v);
    } else {
      LatestOfLog(s.log, s.buffer, v);
      LatestMayAnswer(cfg, s, v, Latest(s.log, v));
    }
  }

  lemma LatestOfLog(log: seq<Event>, buffer: seq<Event>, v: Bytes)
    requires OfVisitor(buffer, v) == []
    ensures IsLatest(log + buffer, v, Latest(log, v))
  {
    forall e | e in buffer
      ensures e.visitor != v
    {
      assert e !in OfVisitor(buffer, v);
    }
  }

  /** The lookup's answer, with one that is too old to matter read as none. */
  function Useful(found: Option<Event>, nowMs: int): Option<Event> {
    if Continues(found, nowMs) then found else None
  }

  lemma UsefulResolves(found: Option<Event>, nowMs: int, newSession: Bytes)
    ensures SessionFor(Useful(found, nowMs), nowMs, newSession) == SessionFor(found, nowMs, newSession)
  {}

  lemma UsefulOfAnswer(own: seq<Event>, nowMs: int, found: Option<Event>)
    requires MayAnswer(own, nowMs, found)
    ensures ReadsLast(own, nowMs, Useful(found, nowMs))
  {}

  lemma PendingIsEarlier(cfg: Config, s: State, v: Bytes, newSession: Bytes)
    requires SessionInv(cfg, s) && newSession !in s.issued
    ensures forall x | x in PendingOf(s, v) :: x.ts <= NowSeconds(s) && x.session != newSession
  {
    forall x | x in PendingOf(s, v)
      ensures x.ts <= NowSeconds(s) && x.session != newSession
    {
      assert Known(s, x);
    }
  }

  /** What a request needs to know of its visitor: earlier events, in runs, none with the fresh session, and a usable lookup. */
  ghost predicate Ready(own: seq<Event>, flights: seq<Event>, nowMs: int, lookup: Option<Event>, newSession: Bytes, e: Event) {
    && SessionRuns(own + flights) && ReadsLast(own, nowMs, Useful(lookup, nowMs))
    && (forall x | x in own + flights :: x.ts <= nowMs / 1000 && x.session != newSession)
    && e.ts == nowMs / 1000 && e.session == SessionFor(lookup, nowMs, newSession)
  }

  lemma BegunBehindIff(own: seq<Event>, flights: seq<Event>, nowMs: int, lookup: Option<Event>, newSession: Bytes, e: Event)
    requires Ready(own, flights, nowMs, lookup, newSession, e)
    ensures SessionRuns(own + flights + [e]) <==> FitsBehind(flights, nowMs, lookup)
  {
    UsefulResolves(lookup, nowMs, newSession);
    if flights == [] {
      assert own + flights == own;
      ResolvedSessionExtendsRuns(own, nowMs, Useful(lookup, nowMs), newSession, e);
    } else {
      ResolvedBehindUnsavedIff(own, flights, nowMs, Useful(lookup, nowMs), newSession, e);
    }
  }

  lemma RecordedAheadOfIff(own: seq<Event>, flights: seq<Event>, nowMs: int, lookup: Option<Event>, newSession: Bytes, e: Event)
    requires Ready(own, flights, nowMs, lookup, newSession, e)
    ensures SessionRuns(own + [e] + flights) <==> FitsAhead(flights, nowMs, lookup)
  {
    UsefulResolves(lookup, nowMs, newSession);
    if flights == [] {
      assert own + flights == own && own + [e] + flights == own + [e];
      ResolvedSessionExtendsRuns(own, nowMs, Useful(lookup, nowMs), newSession, e);
    } else {
      assert flights[0] in own + flights;
      RecordedAheadIff(own, flights, e);
    }
  }

  lemma RequestIsReady(cfg: Config, s: State, input: RecordInput, newSession: Bytes)
    requires SessionInv(cfg, s) && newSession !in s.issued && Requested(cfg, s, input, newSession).Some?
    ensures var e := Requested(cfg, s, input, newSession).value;
            Ready(OfVisitor(History(s), e.visitor), UnderWay(s, e.visitor), s.nowMs,
                  BufferedLatest(s.buffer, s.log, e.visitor), newSession, e)
  {
    var e := Requested(cfg, s, input, newSession).value;
    LookupMayAnswer(cfg, s, e.visitor);
    UsefulOfAnswer(OfVisitor(History(s), e.visitor), s.nowMs, BufferedLatest(s.buffer, s.log, e.visitor));
    PendingIsEarlier(cfg, s, e.visitor, newSession);
    assert SessionRuns(PendingOf(s, e.visitor));
  }

  lemma BeginExtendsRunsIff(cfg: Config, s: State, input: RecordInput, newSession: Bytes)
    requires SessionInv(cfg, s) && newSession !in s.issued && Requested(cfg, s, input, newSession).Some?
    ensures var e := Requested(cfg, s, input, newSession).value;
            SessionRuns(PendingOf(s, e.visitor) + [e]) <==> BeginsOrderly(cfg, s, input, newSession)
  {
    var e := Requested(cfg, s, input, newSession).value;
    RequestIsReady(cfg, s, input, newSession);
    BegunBehindIff(OfVisitor(History(s), e.visitor), UnderWay(s, e.visitor), s.nowMs,
                   BufferedLatest(s.buffer, s.log, e.visitor), newSession, e);
  }

  lemma RecordExtendsRunsIff(cfg: Config, s: State, input: RecordInput, newSession: Bytes)
    requires SessionInv(cfg, s) && newSession !in s.issued && Requested(cfg, s, input, newSession).Some?
    ensures var e := Requested(cfg, s, input, newSession).value;
            SessionRuns(OfVisitor(History(s), e.visitor) + [e] + UnderWay(s, e.visitor))
            <==> RecordsOrderly(cfg, s, input, newSession)
  {
    var e := Requested(cfg, s, input, newSession).value;
    RequestIsReady(cfg, s, input, newSession);
    RecordedAheadOfIff(OfVisitor(History(s), e.visitor), UnderWay(s, e.visitor), s.nowMs,
                       BufferedLatest(s.buffer, s.log, e.visitor), newSession, e);
  }

  lemma HistoryOf(history: seq<Event>, e: Event, v: Bytes)
    ensures OfVisitor(history + [e], v) == OfVisitor(history, v) + if v == e.visitor then [e] else []
  {
    FilterConcat(history, [e], (x: Event) => x.visitor == v);
    assert OfVisitor([e], v) == if v == e.visitor then [e] else [];
  }

  /** The visitor's events under way around one of them. */
  lemma AroundOne(events: seq<Event>, index: nat)
    requires index < |events|
    ensures var g := events[index];
            var ahead, behind := OfVisitor(events[..index], g.visitor), OfVisitor(events[index + 1..], g.visitor);
            && OfVisitor(events, g.visitor) == ahead + [g] + behind
            && OfVisitor(events[..index] + events[index + 1..], g.visitor) == ahead + behind
    ensures forall v | v != events[index].visitor ::
              OfVisitor(events, v) == OfVisitor(events[..index] + events[index + 1..], v)
  {
    var front, back, g := events[..index], events[index + 1..], events[index];
    assert events == (front + [g]) + back;
    forall v
      ensures OfVisitor(events, v) == OfVisitor(front, v) + (if v == g.visitor then [g] else []) + OfVisitor(back, v)
      ensures OfVisitor(front + back, v) == OfVisitor(front, v) + OfVisitor(back, v)
    {
      FilterConcat(front + [g], back, (x: Event) => x.visitor == v);
      FilterConcat(front, back, (x: Event) => x.visitor == v);
      HistoryOf(front, g, v);
    }
  }

  /** Saving moves the visitor's event in front of those ahead of it; other visitors see no change. */
  lemma SaveMovesForward(cfg: Config, s: State, index: nat)
    requires index < |s.inFlight|
    ensures var g, next := s.inFlight[index], Step(cfg, s, Save(index));
            var own := OfVisitor(History(s), g.visitor);
            var ahead, behind := OfVisitor(s.inFlight[..index], g.visitor), OfVisitor(s.inFlight[index + 1..], g.visitor);
            && PendingOf(s, g.visitor) == own + ahead + [g] + behind
            && PendingOf(next, g.visitor) == own + [g] + ahead + behind
    ensures forall v | v != s.inFlight[index].visitor :: PendingOf(Step(cfg, s, Save(index)), v) == PendingOf(s, v)
  {
    var g := s.inFlight[index];
    var rest := s.inFlight[..index] + s.inFlight[index + 1..];
    SavedAppends(cfg, s.(inFlight := rest), g);
    AroundOne(s.inFlight, index);
    var own := OfVisitor(History(s), g.visitor);
    var ahead, behind := OfVisitor(s.inFlight[..index], g.visitor), OfVisitor(s.inFlight[index + 1..], g.visitor);
    HistoryOf(History(s), g, g.visitor);
    assert own + (ahead + [g] + behind) == own + ahead + [g] + behind;
    assert own + [g] + (ahead + behind) == own + [g] + ahead + behind;
    forall v | v != g.visitor
      ensures PendingOf(Step(cfg, s, Save(index)), v) == PendingOf(s, v)
    {
      HistoryOf(History(s), g, v);
    }
  }

  /** When only one visitor's sequence changes, the others' runs need no second look. */
  lemma OneVisitorChanges(s: State, next: State, u: Bytes)
    requires AllRuns(s) && forall v | v != u :: PendingOf(next, v) == PendingOf(s, v)
    ensures AllRuns(next) <==> SessionRuns(PendingOf(next, u))
  {
    forall v | v != u
      ensures SessionRuns(PendingOf(next, v))
    {
      assert SessionRuns(PendingOf(s, v)) && PendingOf(next, v) == PendingOf(s, v);
    }
  }

  lemma SaveKeepsRunsIff(cfg: Config, s: State, index: nat)
    requires AllRuns(s) && index < |s.inFlight|
    ensures AllRuns(Step(cfg, s, Save(index))) <==> SavesOrderly(s, index)
  {
    var g, next := s.inFlight[index], Step(cfg, s, Save(index));
    SaveMovesForward(cfg, s, index);
    OneVisitorChanges(s, next, g.visitor);
    MovedForwardIff(OfVisitor(History(s), g.visitor), OfVisitor(s.inFlight[..index], g.visitor), g,
                    OfVisitor(s.inFlight[index + 1..], g.visitor));
  }

  lemma MovedForwardIff(own: seq<Event>, ahead: seq<Event>, g: Event, behind: seq<Event>)
    requires SessionRuns(own + ahead + [g] + behind)
    ensures SessionRuns(own + [g] + ahead + behind) <==> ahead == [] || ahead[0].ts == g.ts
  {
    if ahead == [] {
      assert own + ahead + [g] + behind == own + [g] + ahead + behind;
    } else {
      SavedAheadIff(own, ahead, g, behind);
    }
  }

  lemma RecordAppends(cfg: Config, s: State, input: RecordInput, newSession: Bytes)
    requires newSession !in s.issued && Requested(cfg, s, input, newSession).Some?
    ensures var next := Step(cfg, s, Record(input, newSession));
            && History(next) == History(s) + [Requested(cfg, s, input, newSession).value]
            && next.inFlight == s.inFlight
  {
    var e := Requested(cfg, s, input, newSession).value;
    SavedAppends(cfg, s.(issued := s.issued + {newSession}, hashed := HashedBy(cfg, s, input)), e);
  }

  lemma BeginAppends(cfg: Config, s: State, input: RecordInput, newSession: Bytes)
    requires newSession !in s.issued && Requested(cfg, s, input, newSession).Some?
    ensures var next := Step(cfg, s, Begin(input, newSession));
            && History(next) == History(s)
            && next.inFlight == s.inFlight + [Requested(cfg, s, input, newSession).value]
  {}

  lemma RefusedChangesNothing(cfg: Config, s: State, a: Action)
    requires Enabled(s, a)
    requires (a.Begin? && Requested(cfg, s, a.input, a.newSession).None?)
             || (a.Record? && Requested(cfg, s, a.request, a.session).None?)
    ensures Step(cfg, s, a) == s
  {}

  lemma BegunPending(s: State, next: State, e: Event, v: Bytes)
    requires History(next) == History(s) && next.inFlight == s.inFlight + [e]
    ensures PendingOf(next, v) == PendingOf(s, v) + if v == e.visitor then [e] else []
  {
    HistoryOf(s.inFlight, e, v);
  }

  lemma BeginKeepsRunsIff(cfg: Config, s: State, input: RecordInput, newSession: Bytes)
    requires SessionInv(cfg, s) && newSession !in s.issued && Requested(cfg, s, input, newSession).Some?
    ensures AllRuns(Step(cfg, s, Begin(input, newSession))) <==> BeginsOrderly(cfg, s, input, newSession)
  {
    var e, next := Requested(cfg, s, input, newSession).value, Step(cfg, s, Begin(input, newSession));
    BeginAppends(cfg, s, input, newSession);
    BeginExtendsRunsIff(cfg, s, input, newSession);
    forall v
      ensures PendingOf(next, v) == PendingOf(s, v) + if v == e.visitor then [e] else []
    {
      BegunPending(s, next, e, v);
    }
    OneVisitorChanges(s, next, e.visitor);
  }

  lemma RecordedPending(s: State, next: State, e: Event, v: Bytes)
    requires History(next) == History(s) + [e] && next.inFlight == s.inFlight
    ensures PendingOf(next, v) == OfVisitor(History(s), v) + (if v == e.visitor then [e] else []) + UnderWay(s, v)
  {
    HistoryOf(History(s), e, v);
  }

  lemma RecordKeepsRunsIff(cfg: Config, s: State, input: RecordInput, newSession: Bytes)
    requires SessionInv(cfg, s) && newSession !in s.issued && Requested(cfg, s, input, newSession).Some?
    ensures AllRuns(Step(cfg, s, Record(input, newSession))) <==> RecordsOrderly(cfg, s, input, newSession)
  {
    var e, next := Requested(cfg, s, input, newSession).value, Step(cfg, s, Record(input, newSession));
    RecordAppends(cfg, s, input, newSession);
    RecordExtendsRunsIff(cfg, s, input, newSession);
    RecordedPending(s, next, e, e.visitor);
    forall v | v != e.visitor
      ensures PendingOf(next, v) == PendingOf(s, v)
    {
      RecordedPending(s, next, e, v);
      assert OfVisitor(History(s), v) + [] == OfVisitor(History(s), v);
    }
    OneVisitorChanges(s, next, e.visitor);
  }

  lemma OtherStepsKeepPending(cfg: Config, s: State, a: Action, v: Bytes)
    requires Enabled(s, a) && !a.Begin? && !a.Record? && !a.Save?
    ensures PendingOf(Step(cfg, s, a), v) == PendingOf(s, v) && Step(cfg, s, a).inFlight == s.inFlight
  {
    assert s.written + s.buffer + [] == s.written + s.buffer;
  }

  /** One step keeps every visitor's sessions runs exactly when it is orderly. */
  lemma StepKeepsSessionsIff(cfg: Config, s: State, a: Action)
    requires SessionInv(cfg, s) && Enabled(s, a) && cfg.retentionMonths >= 1
    ensures SessionInv(cfg, Step(cfg, s, a)) <==> Orderly(cfg, s, a)
  {
    StepKeepsInv(cfg, s, a);
    StepKeepsIdentities(cfg, s, a);
    match a
    case Begin(input, newSession) =>
      if Requested(cfg, s, input, newSession).Some? {
        BeginKeepsRunsIff(cfg, s, input, newSession);
      } else {
        RefusedChangesNothing(cfg, s, a);
      }
    case Record(input, newSession) =>
      if Requested(cfg, s, input, newSession).Some? {
        RecordKeepsRunsIff(cfg, s, input, newSession);
      } else {
        RefusedChangesNothing(cfg, s, a);
      }
    case Save(index) => SaveKeepsRunsIff(cfg, s, index);
    case _ => OtherStepsKeepRuns(cfg, s, a);
  }

  lemma OtherStepsKeepRuns(cfg: Config, s: State, a: Action)
    requires SessionInv(cfg, s) && Enabled(s, a) && !a.Begin? && !a.Record? && !a.Save?
    ensures AllRuns(Step(cfg, s, a))
  {
    forall v
      ensures SessionRuns(PendingOf(Step(cfg, s, a), v))
    {
      OtherStepsKeepPending(cfg, s, a, v);
      assert SessionRuns(PendingOf(s, v));
    }
  }

  lemma {:induction false} RunKeepsSessions(cfg: Config, s: State, actions: seq<Action>)
    requires SessionInv(cfg, s) && ValidRun(cfg, s, actions) && OrderlyRun(cfg, s, actions) && cfg.retentionMonths >= 1
    ensures SessionInv(cfg, Run(cfg, s, actions))
    decreases |actions|
  {
    if actions != [] {
      StepKeepsSessionsIff(cfg, s, actions[0]);
      RunKeepsSessions(cfg, Step(cfg, s, actions[0]), actions[1..]);
    }
  }

  lemma InitialSessionInv(cfg: Config, nowMs: int, salt: Field)
    ensures SessionInv(cfg, Initial(nowMs, salt))
  {}

  /** For every orderly run and every visitor. */
  lemma EveryRunHasSessionRuns(cfg: Config, nowMs: int, salt: Field, actions: seq<Action>, v: Bytes)
    requires ValidRun(cfg, Initial(nowMs, salt), actions) && OrderlyRun(cfg, Initial(nowMs, salt), actions)
    requires cfg.retentionMonths >= 1
    ensures SessionRuns(OfVisitor(History(Run(cfg, Initial(nowMs, salt), actions)), v))
  {
    InitialSessionInv(cfg, nowMs, salt);
    RunKeepsSessions(cfg, Initial(nowMs, salt), actions);
    HistoryRuns(cfg, Run(cfg, Initial(nowMs, salt), actions), v);
  }

  // ---- and only for orderly runs ----

  /** Saving everything under way, in the order it began. */
  function SaveAll(n: nat): seq<Action> {
    if n == 0 then [] else [Save(0)] + SaveAll(n - 1)
  }

  lemma SavesFirst(cfg: Config, s: State)
    requires s.inFlight != []
    ensures History(Step(cfg, s, Save(0))) == History(s) + [s.inFlight[0]] && Step(cfg, s, Save(0)).inFlight == s.inFlight[1..]
  {
    assert s.inFlight[..0] + s.inFlight[1..] == s.inFlight[1..];
    SavedAppends(cfg, s.(inFlight := s.inFlight[1..]), s.inFlight[0]);
  }

  lemma {:induction false} SavingAllStoresPending(cfg: Config, s: State, n: nat)
    requires n == |s.inFlight|
    ensures ValidRun(cfg, s, SaveAll(n))
    ensures History(Run(cfg, s, SaveAll(n))) == History(s) + s.inFlight
    decreases n
  {
    if n > 0 {
      var next := Step(cfg, s, Save(0));
      SavesFirst(cfg, s);
      SavingAllStoresPending(cfg, next, n - 1);
      RunFromFirst(cfg, s, Save(0), SaveAll(n - 1));
      FirstThenRest(History(s), s.inFlight);
    } else {
      assert s.inFlight == [];
    }
  }

  lemma FirstThenRest(front: seq<Event>, events: seq<Event>)
    requires events != []
    ensures front + [events[0]] + events[1..] == front + events
  {}

  /** The stored history once everything under way has been saved. */
  function StoredAfter(cfg: Config, s: State): seq<Event> {
    var n := |s.inFlight|;
    if ValidRun(cfg, s, SaveAll(n)) then History(Run(cfg, s, SaveAll(n))) else []
  }

  ghost predicate StoresRuns(cfg: Config, s: State) {
    forall v :: SessionRuns(OfVisitor(StoredAfter(cfg, s), v))
  }

  lemma StoresRunsIff(cfg: Config, s: State)
    ensures StoresRuns(cfg, s) <==> AllRuns(s)
  {
    SavingAllStoresPending(cfg, s, |s.inFlight|);
    forall v
      ensures OfVisitor(StoredAfter(cfg, s), v) == PendingOf(s, v)
    {
      FilterConcat(History(s), s.inFlight, (e: Event) => e.visitor == v);
    }
  }

  /** Requests under way are listed as they began. */
  ghost predicate InOrder(events: seq<Event>) {
    forall i, j | 0 <= i < j < |events| :: events[i].ts <= events[j].ts
  }

  lemma RemovalKeepsOrder(events: seq<Event>, index: nat)
    requires InOrder(events) && index < |events|
    ensures InOrder(events[..index] + events[index + 1..])
  {}

  lemma StepKeepsOrder(cfg: Config, s: State, a: Action)
    requires Dated(s) && InOrder(s.inFlight) && Enabled(s, a)
    ensures InOrder(Step(cfg, s, a).inFlight)
  {
    match a
    case Begin(input, newSession) =>
      RequestedIsNow(cfg, s, input, newSession);
    case Save(index) => RemovalKeepsOrder(s.inFlight, index);
    case _ =>
  }

  lemma PrefixRuns(v: seq<Event>, n: nat)
    requires SessionRuns(v) && n <= |v|
    ensures SessionRuns(v[..n])
  {
    forall i | 0 < i < n
      ensures Follows(v[..n], i)
    {
      assert Follows(v, i) && v[..n][..i] == v[..i];
    }
  }

  /** Without an event that was saved ahead of earlier ones, the rest are runs if all of them are. */
  lemma RunsWithoutSavedAhead(own: seq<Event>, e: Event, flights: seq<Event>)
    requires SessionRuns(own + [e] + flights) && forall x | x in flights :: x.ts <= e.ts
    ensures SessionRuns(own + flights)
  {
    var w, i, n := own + [e] + flights, |own|, |own| + |flights|;
    PrefixRuns(w, n);
    forall j | i <= j <= n
      ensures w[j].ts == e.ts && w[j].session == e.session
    {
      TimesIncrease(w, i, j);
      assert j > i ==> w[j] == flights[j - i - 1];
      TimesBetween(w, i, j, j);
    }
    forall j | 0 <= j < n
      ensures w[..n][j].ts == (own + flights)[j].ts && w[..n][j].session == (own + flights)[j].session
    {
      assert j >= i ==> (own + flights)[j] == w[j + 1];
    }
    SameProfileSameRuns(w[..n], own + flights);
  }

  /** Nor does saving an event ahead of others that began no later mend anything. */
  lemma RunsBeforeSave(own: seq<Event>, ahead: seq<Event>, g: Event, behind: seq<Event>)
    requires SessionRuns(own + [g] + ahead + behind) && forall x | x in ahead :: x.ts <= g.ts
    ensures SessionRuns(own + ahead + [g] + behind)
  {
    var w, v, i, k := own + [g] + ahead + behind, own + ahead + [g] + behind, |own|, |own| + |ahead|;
    forall j | i <= j <= k
      ensures w[j].ts == g.ts && w[j].session == g.session
    {
      TimesIncrease(w, i, j);
      assert j > i ==> w[j] == ahead[j - i - 1];
      TimesBetween(w, i, j, j);
    }
    forall j | 0 <= j < |w|
      ensures w[j].ts == v[j].ts && w[j].session == v[j].session
    {
      assert i <= j < k ==> v[j] == ahead[j - i] == w[j + 1];
      assert j > k ==> v[j] == behind[j - k - 1] == w[j];
    }
    SameProfileSameRuns(w, v);
  }

  lemma RecordNeverRepairs(cfg: Config, s: State, input: RecordInput, newSession: Bytes, v: Bytes)
    requires Dated(s) && newSession !in s.issued && SessionRuns(PendingOf(Step(cfg, s, Record(input, newSession)), v))
    ensures SessionRuns(PendingOf(s, v))
  {
    var next, e := Step(cfg, s, Record(input, newSession)), Requested(cfg, s, input, newSession);
    if e.None? {
      RefusedChangesNothing(cfg, s, Record(input, newSession));
    } else {
      RecordAppends(cfg, s, input, newSession);
      RecordedPending(s, next, e.value, v);
      RequestedIsNow(cfg, s, input, newSession);
      if v == e.value.visitor {
        RunsWithoutSavedAhead(OfVisitor(History(s), v), e.value, UnderWay(s, v));
      } else {
        assert OfVisitor(History(s), v) + [] == OfVisitor(History(s), v);
      }
    }
  }

  lemma BeginNeverRepairs(cfg: Config, s: State, input: RecordInput, newSession: Bytes, v: Bytes)
    requires newSession !in s.issued && SessionRuns(PendingOf(Step(cfg, s, Begin(input, newSession)), v))
    ensures SessionRuns(PendingOf(s, v))
  {
    var next, e := Step(cfg, s, Begin(input, newSession)), Requested(cfg, s, input, newSession);
    if e.None? {
      RefusedChangesNothing(cfg, s, Begin(input, newSession));
    } else {
      BeginAppends(cfg, s, input, newSession);
      BegunPending(s, next, e.value, v);
      PrefixRuns(PendingOf(next, v), |PendingOf(s, v)|);
      assert PendingOf(next, v)[..|PendingOf(s, v)|] == PendingOf(s, v);
    }
  }

  lemma SaveNeverRepairs(cfg: Config, s: State, index: nat, v: Bytes)
    requires InOrder(s.inFlight) && index < |s.inFlight| && SessionRuns(PendingOf(Step(cfg, s, Save(index)), v))
    ensures SessionRuns(PendingOf(s, v))
  {
    var g := s.inFlight[index];
    SaveMovesForward(cfg, s, index);
    if v == g.visitor {
      RunsBeforeSave(OfVisitor(History(s), v), OfVisitor(s.inFlight[..index], v), g, OfVisitor(s.inFlight[index + 1..], v));
    }
  }

  /** Sessions that are not runs never become runs again, whatever is saved later. */
  lemma StepNeverRepairs(cfg: Config, s: State, a: Action)
    requires Dated(s) && InOrder(s.inFlight) && Enabled(s, a) && AllRuns(Step(cfg, s, a))
    ensures AllRuns(s)
  {
    forall v
      ensures SessionRuns(PendingOf(s, v))
    {
      assert SessionRuns(PendingOf(Step(cfg, s, a), v));
      match a
      case Begin(input, newSession) => BeginNeverRepairs(cfg, s, input, newSession, v);
      case Record(input, newSession) => RecordNeverRepairs(cfg, s, input, newSession, v);
      case Save(index) => SaveNeverRepairs(cfg, s, index, v);
      case _ => OtherStepsKeepPending(cfg, s, a, v);
    }
  }

  lemma {:induction false} RunNeverRepairs(cfg: Config, s: State, actions: seq<Action>)
    requires Dated(s) && InOrder(s.inFlight) && ValidRun(cfg, s, actions) && AllRuns(Run(cfg, s, actions))
    ensures AllRuns(s)
    decreases |actions|
  {
    if actions != [] {
      StepKeepsDated(cfg, s, actions[0]);
      StepKeepsOrder(cfg, s, actions[0]);
      RunNeverRepairs(cfg, Step(cfg, s, actions[0]), actions[1..]);
      StepNeverRepairs(cfg, s, actions[0]);
    }
  }

  lemma {:induction false} RunEndsInRunsIff(cfg: Config, s: State, actions: seq<Action>)
    requires SessionInv(cfg, s) && InOrder(s.inFlight) && ValidRun(cfg, s, actions) && cfg.retentionMonths >= 1
    ensures AllRuns(Run(cfg, s, actions)) <==> OrderlyRun(cfg, s, actions)
    decreases |actions|
  {
    if actions != [] {
      var a, next := actions[0], Step(cfg, s, actions[0]);
      StepKeepsSessionsIff(cfg, s, a);
      StepKeepsInv(cfg, s, a);
      StepKeepsIdentities(cfg, s, a);
      StepKeepsOrder(cfg, s, a);
      if Orderly(cfg, s, a) {
        RunEndsInRunsIff(cfg, next, actions[1..]);
      } else if AllRuns(Run(cfg, next, actions[1..])) {
        RunNeverRepairs(cfg, next, actions[1..]);
      }
    }
  }

  lemma NothingPending(s: State)
    requires s.inFlight == []
    ensures AllRuns(s) <==> forall v :: SessionRuns(OfVisitor(History(s), v))
  {
    forall v
      ensures PendingOf(s, v) == OfVisitor(History(s), v)
    {
      assert OfVisitor(History(s), v) + [] == OfVisitor(History(s), v);
    }
  }

  /**
   Exactly the orderly runs store session runs: one disorderly step shows in the
   history for good, if nothing is under way any more, and otherwise once all
   that is has been saved in the order it began.
   */
  lemma SessionRunsIffOrderly(cfg: Config, nowMs: int, salt: Field, actions: seq<Action>)
    requires ValidRun(cfg, Initial(nowMs, salt), actions) && cfg.retentionMonths >= 1
    ensures var end := Run(cfg, Initial(nowMs, salt), actions);
            end.inFlight == [] ==>
              ((forall v :: SessionRuns(OfVisitor(History(end), v))) <==> OrderlyRun(cfg, Initial(nowMs, salt), actions))
    ensures StoresRuns(cfg, Run(cfg, Initial(nowMs, salt), actions)) <==> OrderlyRun(cfg, Initial(nowMs, salt), actions)
  {
    var end := Run(cfg, Initial(nowMs, salt), actions);
    InitialSessionInv(cfg, nowMs, salt);
    RunEndsInRunsIff(cfg, Initial(nowMs, salt), actions);
    StoresRunsIff(cfg, end);
    if end.inFlight == [] {
      NothingPending(end);
    }
  }

  /** Two requests of a new visitor that begin before either is saved, with different fresh sessions. */
  lemma OverlapBegins(cfg: Config, s: State, input: RecordInput, a: Bytes, b: Bytes)
    returns (second: State, x: Event, y: Event)
    requires s == Initial(s.nowMs, s.salt) && Accepted(cfg.adapters, cfg.allowedSites, input).Ok? && a != b
    ensures ValidRun(cfg, s, [Begin(input, a), Begin(input, b)]) && second == Run(cfg, s, [Begin(input, a), Begin(input, b)])
    ensures History(second) == [] && second.inFlight == [x, y]
    ensures x.visitor == y.visitor && x.ts == y.ts && x.session == a && y.session == b
  {
    var first := Step(cfg, s, Begin(input, a));
    x, y := Requested(cfg, s, input, a).value, Requested(cfg, first, input, b).value;
    BeginAppends(cfg, s, input, a);
    second := Step(cfg, first, Begin(input, b));
    BeginAppends(cfg, first, input, b);
    RunFromFirst(cfg, first, Begin(input, b), []);
    RunFromFirst(cfg, s, Begin(input, a), [Begin(input, b)]);
    assert [Begin(input, a)] + [Begin(input, b)] == [Begin(input, a), Begin(input, b)] && [Begin(input, b)] + [] == [Begin(input, b)];
  }

  lemma TwoSessionsInOneSecond(x: Event, y: Event)
    requires x.visitor == y.visitor && x.ts == y.ts && x.session != y.session
    ensures OfVisitor([x, y], x.visitor) == [x, y] && !SessionRuns([x, y])
  {
    HistoryOf([x], y, x.visitor);
    HistoryOf([], x, x.visitor);
    assert [x] + [y] == [x, y] && [] + [x] == [x];
    assert !Follows([x, y], 1);
  }

  /** Two overlapping first requests of one visitor store two sessions within the same second. */
  lemma OverlapSplitsSession(cfg: Config, nowMs: int, salt: Field, input: RecordInput, a: Bytes, b: Bytes)
    requires Accepted(cfg.adapters, cfg.allowedSites, input).Ok? && a != b
    ensures var s, actions := Initial(nowMs, salt), [Begin(input, a), Begin(input, b)] + SaveAll(2);
            && ValidRun(cfg, s, actions)
            && (var stored := History(Run(cfg, s, actions));
                |stored| == 2 && stored[0].visitor == stored[1].visitor && !SessionRuns(OfVisitor(stored, stored[0].visitor)))
  {
    var second, x, y := OverlapBegins(cfg, Initial(nowMs, salt), input, a, b);
    SavingAllStoresPending(cfg, second, 2);
    RunInTwoParts(cfg, Initial(nowMs, salt), [Begin(input, a), Begin(input, b)], SaveAll(2));
    assert [] + [x, y] == [x, y];
    TwoSessionsInOneSecond(x, y);
  }

  // ---- reading through the buffer ----

  /** Two lookups have the same effect: both continue one session, or neither continues any. */
  predicate ResolveAlike(a: Option<Event>, b: Option<Event>, nowMs: int) {
    && (Continues(a, nowMs) <==> Continues(b, nowMs))
    && (Continues(a, nowMs) ==> a.value.session == b.value.session)
  }

  /** Any two such answers do. */
  lemma AnswersAgree(own: seq<Event>, nowMs: int, a: Option<Event>, b: Option<Event>)
    requires SessionRuns(own) && MayAnswer(own, nowMs, a) && MayAnswer(own, nowMs, b)
    ensures ResolveAlike(a, b, nowMs)
  {
    if Continues(a, nowMs) {
      LookupIsLast(own, a.value);
    }
    if Continues(b, nowMs) {
      LookupIsLast(own, b.value);
    }
  }

  /** Nothing of the visitor is buffered, or its event saved last resolves like the latest one held. */
  predicate ReadsLatest(s: State, v: Bytes) {
    var saved := LastOf(s.buffer, v);
    saved.None? || ResolveAlike(saved, Latest(s.log + s.buffer, v), s.nowMs)
  }

  lemma {:induction false} NoneLeavesLatest(log: seq<Event>, more: seq<Event>, v: Bytes)
    requires forall e | e in more :: e.visitor != v
    ensures Latest(log + more, v) == Latest(log, v)
  {
    if log == [] {
      assert log + more == more;
    } else {
      assert (log + more)[0] == log[0] && (log + more)[1..] == log[1..] + more;
      NoneLeavesLatest(log[1..], more, v);
    }
  }

  /** In any state whatever, reading through the buffer resolves the session that the unbuffered log would exactly then. */
  lemma BufferingKeepsTheAnswerIff(cfg: Config, s: State, v: Bytes, newSession: Bytes)
    requires IdInv(cfg, s) && newSession !in s.issued
    ensures SessionFor(BufferedLatest(s.buffer, s.log, v), s.nowMs, newSession)
            == SessionFor(Latest(s.log + s.buffer, v), s.nowMs, newSession)
            <==> ReadsLatest(s, v)
  {
    var found, latest := BufferedLatest(s.buffer, s.log, v), Latest(s.log + s.buffer, v);
    LastOfBelongs(s.buffer, v);
    assert found.Some? ==> Known(s, found.value);
    assert latest.Some? ==> Known(s, latest.value);
    if LastOf(s.buffer, v).None? {
      NoneLeavesLatest(s.log, s.buffer, v);
    }
  }

  /** In orderly runs it does, whichever latest event the unbuffered log answers with. */
  lemma BufferingKeepsTheAnswer(cfg: Config, s: State, v: Bytes, unbuffered: Option<Event>, newSession: Bytes)
    requires SessionInv(cfg, s) && IsLatest(s.log + s.buffer, v, unbuffered)
    ensures SessionFor(BufferedLatest(s.buffer, s.log, v), s.nowMs, newSession) == SessionFor(unbuffered, s.nowMs, newSession)
  {
    HistoryRuns(cfg, s, v);
    LookupMayAnswer(cfg, s, v);
    LatestMayAnswer(cfg, s, v, unbuffered);
    AnswersAgree(OfVisitor(History(s), v), s.nowMs, BufferedLatest(s.buffer, s.log, v), unbuffered);
  }
}
