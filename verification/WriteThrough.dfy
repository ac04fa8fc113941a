/**
 Batching against writing through: the same server with a batch of one, which
 never holds anything back, goes through the same histories exactly when no
 request is misled by what the buffer answers.
 */
module WriteThrough {
  import opened Wrappers
  import opened TrackedEvent
  import opened EventRepository
  import opened BatchingEventRepository
  import opened VisitorId
  import opened RecordEvent
  import opened Identities
  import opened Pipeline
  import opened Sessions

  /** The server without a buffer: every save is flushed at once. */
  function Unbuffered(cfg: Config): Config {
    cfg.(maxBatchSize := 1)
  }

  /** Clock, salt and every id are the same, as many requests are under way, and one of the two has written everything. */
  ghost predicate Alike(s: State, t: State) {
    && s.nowMs == t.nowMs && s.salt == t.salt && |s.inFlight| == |t.inFlight| && s.issued == t.issued && s.hashed == t.hashed
    && t.buffer == []
  }

  /** The two servers have saved the same events in the same order and have the same ones under way. */
  ghost predicate SameEvents(s: State, t: State) {
    History(s) == History(t) && s.inFlight == t.inFlight
  }

  // ---- what one request resolves on either server ----

  lemma {:induction false} LatestOfRetained(log: seq<Event>, from: int, v: Bytes)
    ensures var found := Latest(log, v);
            Latest(Retained(log, from), v) == if found.Some? && from <= found.value.ts then found else None
  {
    if log != [] {
      LatestOfRetained(log[1..], from, v);
      var rest := Retained(log[1..], from);
      if from <= log[0].ts {
        assert ([log[0]] + rest)[1..] == rest;
      } else {
        assert [] + rest == rest;
      }
    }
  }

  /** Logs that agree on what is recent resolve alike. */
  lemma SameRecentAlike(a: seq<Event>, b: seq<Event>, nowMs: int, v: Bytes)
    requires Recent(a, nowMs / 1000) == Recent(b, nowMs / 1000)
    ensures ResolveAlike(Latest(a, v), Latest(b, v), nowMs)
  {
    LatestOfRetained(a, nowMs / 1000 - KEPT_SECONDS, v);
    LatestOfRetained(b, nowMs / 1000 - KEPT_SECONDS, v);
  }

  lemma HeldIsRecent(s: State)
    requires Inv(s)
    ensures Recent(s.log + s.buffer, NowSeconds(s)) == Recent(History(s), NowSeconds(s))
  {
    FlushKeepsRecent(s);
  }

  lemma ServersHoldAlike(s: State, t: State, v: Bytes)
    requires Alike(s, t) && SameEvents(s, t) && Inv(s) && Inv(t)
    ensures ResolveAlike(Latest(s.log + s.buffer, v), BufferedLatest(t.buffer, t.log, v), s.nowMs)
  {
    HeldIsRecent(s);
    HeldIsRecent(t);
    assert t.log + t.buffer == t.log;
    SameRecentAlike(s.log + s.buffer, t.log, s.nowMs, v);
  }

  /** Two servers that were alike so far request the same event exactly when the buffer's answer resolves like the latest event. */
  lemma SameRequestIff(cfg: Config, s: State, t: State, input: RecordInput, newSession: Bytes)
    requires Alike(s, t) && SameEvents(s, t) && Inv(s) && Inv(t) && IdInv(cfg, s) && newSession !in s.issued
    requires Requested(cfg, s, input, newSession).Some?
    ensures Requested(cfg, s, input, newSession) == Requested(Unbuffered(cfg), t, input, newSession)
            <==> ReadsLatest(s, Requested(cfg, s, input, newSession).value.visitor)
  {
    var v := Requested(cfg, s, input, newSession).value.visitor;
    ServersHoldAlike(s, t, v);
    BufferingKeepsTheAnswerIff(cfg, s, v, newSession);
  }

  lemma SameAcceptance(cfg: Config, s: State, t: State, input: RecordInput, newSession: Bytes)
    requires Alike(s, t)
    ensures var e, f := Requested(cfg, s, input, newSession), Requested(Unbuffered(cfg), t, input, newSession);
            (e.Some? <==> f.Some?) && HashedBy(cfg, s, input) == HashedBy(Unbuffered(cfg), t, input)
  {}

  // ---- one step ----

  /** The event the step requests, if it requests one. */
  function RequestedBy(cfg: Config, s: State, a: Action): Option<Event> {
    match a
    case Begin(input, newSession) => Requested(cfg, s, input, newSession)
    case Record(input, newSession) => Requested(cfg, s, input, newSession)
    case _ => None
  }

  /** The step requests nothing, or reads the latest event of the visitor it requests for. */
  predicate StepReadsLatest(cfg: Config, s: State, a: Action) {
    var e := RequestedBy(cfg, s, a);
    e.None? || ReadsLatest(s, e.value.visitor)
  }

  lemma OtherStepAddsNothing(cfg: Config, s: State, a: Action)
    requires Enabled(s, a) && !a.Begin? && !a.Save? && !a.Record?
    ensures History(Step(cfg, s, a)) == History(s) && Step(cfg, s, a).inFlight == s.inFlight
  {
    assert s.written + s.buffer + [] == s.written + s.buffer;
  }

  lemma SaveMovesOne(cfg: Config, s: State, index: nat)
    requires index < |s.inFlight|
    ensures History(Step(cfg, s, Save(index))) == History(s) + [s.inFlight[index]]
    ensures Step(cfg, s, Save(index)).inFlight == s.inFlight[..index] + s.inFlight[index + 1..]
  {
    SavedAppends(cfg, s.(inFlight := s.inFlight[..index] + s.inFlight[index + 1..]), s.inFlight[index]);
  }

  /** A step of any kind leaves the two servers alike. */
  lemma StepKeepsAlike(cfg: Config, s: State, t: State, a: Action)
    requires Alike(s, t) && Enabled(s, a)
    ensures Enabled(t, a) && Alike(Step(cfg, s, a), Step(Unbuffered(cfg), t, a))
  {
    match a
    case Begin(input, newSession) => SameAcceptance(cfg, s, t, input, newSession);
    case Record(input, newSession) => SameAcceptance(cfg, s, t, input, newSession);
    case _ =>
  }

  lemma {:induction false} SameAppended(a: seq<Event>, x: Event, b: seq<Event>, y: Event)
    ensures a + [x] == b + [y] <==> a == b && x == y
  {
    if a + [x] == b + [y] {
      assert |a| == |b|;
      assert a == (a + [x])[..|a|] == (b + [y])[..|b|] == b;
      assert x == (a + [x])[|a|] == (b + [y])[|b|] == y;
    }
  }

  lemma {:induction false} SameWithoutOne(f: seq<Event>, g: seq<Event>, index: nat)
    requires index < |f| && |f| == |g| && f[index] == g[index]
    ensures f[..index] + f[index + 1..] == g[..index] + g[index + 1..] <==> f == g
  {
    assert f == f[..index] + [f[index]] + f[index + 1..] && g == g[..index] + [g[index]] + g[index + 1..];
    if f[..index] + f[index + 1..] == g[..index] + g[index + 1..] {
      assert f[..index] == (f[..index] + f[index + 1..])[..index] == g[..index];
      assert f[index + 1..] == (f[..index] + f[index + 1..])[index..] == g[index + 1..];
    }
  }

  lemma BeginSameIff(cfg: Config, s: State, t: State, input: RecordInput, newSession: Bytes)
    requires Alike(s, t) && newSession !in s.issued && Requested(cfg, s, input, newSession).Some?
    ensures SameEvents(Step(cfg, s, Begin(input, newSession)), Step(Unbuffered(cfg), t, Begin(input, newSession)))
       <==> SameEvents(s, t) && Requested(cfg, s, input, newSession) == Requested(Unbuffered(cfg), t, input, newSession)
  {
    SameAcceptance(cfg, s, t, input, newSession);
    BeginAppends(cfg, s, input, newSession);
    BeginAppends(Unbuffered(cfg), t, input, newSession);
    SameAppended(s.inFlight, Requested(cfg, s, input, newSession).value,
                 t.inFlight, Requested(Unbuffered(cfg), t, input, newSession).value);
  }

  lemma RecordSameIff(cfg: Config, s: State, t: State, input: RecordInput, newSession: Bytes)
    requires Alike(s, t) && newSession !in s.issued && Requested(cfg, s, input, newSession).Some?
    ensures SameEvents(Step(cfg, s, Record(input, newSession)), Step(Unbuffered(cfg), t, Record(input, newSession)))
       <==> SameEvents(s, t) && Requested(cfg, s, input, newSession) == Requested(Unbuffered(cfg), t, input, newSession)
  {
    SameAcceptance(cfg, s, t, input, newSession);
    RecordAppends(cfg, s, input, newSession);
    RecordAppends(Unbuffered(cfg), t, input, newSession);
    SameAppended(History(s), Requested(cfg, s, input, newSession).value,
                 History(t), Requested(Unbuffered(cfg), t, input, newSession).value);
  }

  lemma RefusedSameIff(cfg: Config, s: State, t: State, a: Action)
    requires Alike(s, t) && Enabled(s, a)
    requires (a.Begin? && Requested(cfg, s, a.input, a.newSession).None?)
             || (a.Record? && Requested(cfg, s, a.request, a.session).None?)
    ensures SameEvents(Step(cfg, s, a), Step(Unbuffered(cfg), t, a)) <==> SameEvents(s, t)
  {
    RefusedChangesNothing(cfg, s, a);
    RefusedChangesNothing(Unbuffered(cfg), t, a);
  }

  lemma OtherSameIff(cfg: Config, s: State, t: State, a: Action)
    requires Alike(s, t) && Enabled(s, a) && !a.Begin? && !a.Record?
    ensures SameEvents(Step(cfg, s, a), Step(Unbuffered(cfg), t, a)) <==> SameEvents(s, t)
  {
    if a.Save? {
      SaveMovesOne(cfg, s, a.index);
      SaveMovesOne(Unbuffered(cfg), t, a.index);
      SameAppended(History(s), s.inFlight[a.index], History(t), t.inFlight[a.index]);
      if s.inFlight[a.index] == t.inFlight[a.index] {
        SameWithoutOne(s.inFlight, t.inFlight, a.index);
      }
    } else {
      OtherStepAddsNothing(cfg, s, a);
      OtherStepAddsNothing(Unbuffered(cfg), t, a);
    }
  }

  /** After any step the servers have the same events exactly when they had before and requested the same one now. */
  lemma StepSameIff(cfg: Config, s: State, t: State, a: Action)
    requires Alike(s, t) && Enabled(s, a)
    ensures Enabled(t, a)
    ensures SameEvents(Step(cfg, s, a), Step(Unbuffered(cfg), t, a))
       <==> SameEvents(s, t) && RequestedBy(cfg, s, a) == RequestedBy(Unbuffered(cfg), t, a)
  {
    match a
    case Begin(input, newSession) =>
      SameAcceptance(cfg, s, t, input, newSession);
      if Requested(cfg, s, input, newSession).Some? {
        BeginSameIff(cfg, s, t, input, newSession);
      } else {
        RefusedSameIff(cfg, s, t, a);
      }
    case Record(input, newSession) =>
      SameAcceptance(cfg, s, t, input, newSession);
      if Requested(cfg, s, input, newSession).Some? {
        RecordSameIff(cfg, s, t, input, newSession);
      } else {
        RefusedSameIff(cfg, s, t, a);
      }
    case _ => OtherSameIff(cfg, s, t, a);
  }

  lemma SameRequestedByIff(cfg: Config, s: State, t: State, a: Action)
    requires Alike(s, t) && SameEvents(s, t) && Inv(s) && Inv(t) && IdInv(cfg, s) && Enabled(s, a)
    ensures RequestedBy(cfg, s, a) == RequestedBy(Unbuffered(cfg), t, a) <==> StepReadsLatest(cfg, s, a)
  {
    if a.Begin? || a.Record? {
      var input := if a.Begin? then a.input else a.request;
      var newSession := if a.Begin? then a.newSession else a.session;
      SameAcceptance(cfg, s, t, input, newSession);
      if Requested(cfg, s, input, newSession).Some? {
        SameRequestIff(cfg, s, t, input, newSession);
      }
    }
  }

  // ---- runs ----

  /** Every request of the run reads the latest event of its visitor. */
  predicate RunReadsLatest(cfg: Config, s: State, actions: seq<Action>)
    requires ValidRun(cfg, s, actions)
    decreases |actions|
  {
    actions == [] || (StepReadsLatest(cfg, s, actions[0]) && RunReadsLatest(cfg, Step(cfg, s, actions[0]), actions[1..]))
  }

  /** The two servers can take the same steps to the end, and once they differ they differ for good. */
  lemma {:induction false} RunNeverMends(cfg: Config, s: State, t: State, actions: seq<Action>)
    requires Alike(s, t) && ValidRun(cfg, s, actions)
    ensures ValidRun(Unbuffered(cfg), t, actions)
    ensures var u, w := Run(cfg, s, actions), Run(Unbuffered(cfg), t, actions);
            Alike(u, w) && (SameEvents(u, w) ==> SameEvents(s, t))
    decreases |actions|
  {
    if actions != [] {
      StepKeepsAlike(cfg, s, t, actions[0]);
      StepSameIff(cfg, s, t, actions[0]);
      RunNeverMends(cfg, Step(cfg, s, actions[0]), Step(Unbuffered(cfg), t, actions[0]), actions[1..]);
    }
  }

  lemma {:induction false} RunSameIff(cfg: Config, s: State, t: State, actions: seq<Action>)
    requires Alike(s, t) && SameEvents(s, t) && Inv(s) && Inv(t) && IdInv(cfg, s)
    requires ValidRun(cfg, s, actions) && ValidRun(Unbuffered(cfg), t, actions) && cfg.retentionMonths >= 1
    ensures SameEvents(Run(cfg, s, actions), Run(Unbuffered(cfg), t, actions)) <==> RunReadsLatest(cfg, s, actions)
    decreases |actions|
  {
    if actions != [] {
      var a, u, w := actions[0], Step(cfg, s, actions[0]), Step(Unbuffered(cfg), t, actions[0]);
      StepKeepsAlike(cfg, s, t, a);
      StepSameIff(cfg, s, t, a);
      SameRequestedByIff(cfg, s, t, a);
      RunNeverMends(cfg, u, w, actions[1..]);
      if StepReadsLatest(cfg, s, a) {
        StepKeepsInv(cfg, s, a);
        StepKeepsInv(Unbuffered(cfg), t, a);
        StepKeepsIdentities(cfg, s, a);
        RunSameIff(cfg, u, w, actions[1..]);
      }
    }
  }

  /**
   A server that writes every event through can take the very same steps. It has
   then written, in the same order, exactly the events written or buffered here,
   and has the same ones under way, if and only if every request of the run read
   the latest event of its visitor.
   */
  lemma BatchingRefinesWritingThroughIff(cfg: Config, nowMs: int, salt: Field, actions: seq<Action>)
    requires ValidRun(cfg, Initial(nowMs, salt), actions) && cfg.retentionMonths >= 1
    ensures ValidRun(Unbuffered(cfg), Initial(nowMs, salt), actions)
    ensures var s, t := Run(cfg, Initial(nowMs, salt), actions), Run(Unbuffered(cfg), Initial(nowMs, salt), actions);
            && t.buffer == []
            && (s.written + s.buffer == t.written && s.inFlight == t.inFlight
                <==> RunReadsLatest(cfg, Initial(nowMs, salt), actions))
  {
    var first := Initial(nowMs, salt);
    RunNeverMends(cfg, first, first, actions);
    RunSameIff(cfg, first, first, actions);
    var t := Run(Unbuffered(cfg), first, actions);
    assert t.written + t.buffer == t.written;
  }

  // ---- orderly runs ----

  lemma OrderlyReadsLatest(cfg: Config, s: State, v: Bytes)
    requires SessionInv(cfg, s)
    ensures ReadsLatest(s, v)
  {
    HistoryRuns(cfg, s, v);
    LookupMayAnswer(cfg, s, v);
    LatestMayAnswer(cfg, s, v, Latest(s.log + s.buffer, v));
    AnswersAgree(OfVisitor(History(s), v), s.nowMs, BufferedLatest(s.buffer, s.log, v), Latest(s.log + s.buffer, v));
  }

  lemma {:induction false} OrderlyRunReadsLatest(cfg: Config, s: State, actions: seq<Action>)
    requires SessionInv(cfg, s) && ValidRun(cfg, s, actions) && OrderlyRun(cfg, s, actions) && cfg.retentionMonths >= 1
    ensures RunReadsLatest(cfg, s, actions)
    decreases |actions|
  {
    if actions != [] {
      var e := RequestedBy(cfg, s, actions[0]);
      if e.Some? {
        OrderlyReadsLatest(cfg, s, e.value.visitor);
      }
      StepKeepsSessionsIff(cfg, s, actions[0]);
      OrderlyRunReadsLatest(cfg, Step(cfg, s, actions[0]), actions[1..]);
    }
  }

  /** So it is for every orderly run. */
  lemma BatchingRefinesWritingThrough(cfg: Config, nowMs: int, salt: Field, actions: seq<Action>)
    requires ValidRun(cfg, Initial(nowMs, salt), actions) && OrderlyRun(cfg, Initial(nowMs, salt), actions)
    requires cfg.retentionMonths >= 1
    ensures ValidRun(Unbuffered(cfg), Initial(nowMs, salt), actions)
    ensures var s, t := Run(cfg, Initial(nowMs, salt), actions), Run(Unbuffered(cfg), Initial(nowMs, salt), actions);
            s.written + s.buffer == t.written && s.inFlight == t.inFlight && t.buffer == []
  {
    InitialSessionInv(cfg, nowMs, salt);
    OrderlyRunReadsLatest(cfg, Initial(nowMs, salt), actions);
    BatchingRefinesWritingThroughIff(cfg, nowMs, salt, actions);
  }

  // ---- disorderly runs ----

  /** Two requests of a new visitor a second apart, neither saved yet. */
  function TwoUnderWay(input: RecordInput, a: Bytes, b: Bytes, laterMs: int): seq<Action> {
    [Begin(input, a), Tick(laterMs), Begin(input, b)]
  }

  /** They are saved in the wrong order. */
  function SavedBackwards(): seq<Action> {
    [Save(1), Save(0)]
  }

  lemma BothUnderWay(cfg: Config, nowMs: int, salt: Field, input: RecordInput, a: Bytes, b: Bytes)
    returns (s: State, x: Event, y: Event)
    requires Accepted(cfg.adapters, cfg.allowedSites, input).Ok? && a != b
    ensures var actions := TwoUnderWay(input, a, b, nowMs + 1000);
            ValidRun(cfg, Initial(nowMs, salt), actions) && s == Run(cfg, Initial(nowMs, salt), actions)
    ensures s.log == [] && s.buffer == [] && s.inFlight == [x, y] && s.salt == salt && s.nowMs == nowMs + 1000
    ensures x.visitor == y.visitor && x.ts == nowMs / 1000 && y.ts == x.ts + 1 && x.session == a && y.session == b
    ensures VisitorNow(cfg, s, input) == x.visitor
  {
    var first := Initial(nowMs, salt);
    x := Requested(cfg, first, input, a).value;
    var second := Step(cfg, first, Begin(input, a));
    BeginAppends(cfg, first, input, a);
    var third := Step(cfg, second, Tick(nowMs + 1000));
    y := Requested(cfg, third, input, b).value;
    s := Step(cfg, third, Begin(input, b));
    BeginAppends(cfg, third, input, b);
    RunFromFirst(cfg, third, Begin(input, b), []);
    RunFromFirst(cfg, second, Tick(nowMs + 1000), [Begin(input, b)]);
    RunFromFirst(cfg, first, Begin(input, a), [Tick(nowMs + 1000), Begin(input, b)]);
  }

  function VisitorNow(cfg: Config, s: State, input: RecordInput): Bytes
    requires Accepted(cfg.adapters, cfg.allowedSites, input).Ok?
  {
    DeriveVisitorId(cfg.adapters.hash, IdentityOf(cfg.adapters, Accepted(cfg.adapters, cfg.allowedSites, input).value, input, s.salt))
  }

  lemma BothSaved(cfg: Config, s: State, x: Event, y: Event) returns (t: State)
    requires s.log == [] && s.buffer == [] && s.inFlight == [x, y]
    ensures ValidRun(cfg, s, SavedBackwards()) && t == Run(cfg, s, SavedBackwards())
    ensures t.log + t.buffer == [y, x] && t.nowMs == s.nowMs && t.salt == s.salt
    ensures cfg.maxBatchSize > 2 ==> t.buffer == [y, x]
    ensures cfg.maxBatchSize == 1 ==> t.buffer == []
  {
    var mid := Step(cfg, s, Save(1));
    assert s.inFlight[..1] + s.inFlight[2..] == [x];
    t := Step(cfg, mid, Save(0));
    RunFromFirst(cfg, mid, Save(0), []);
    RunFromFirst(cfg, s, Save(1), [Save(0)]);
  }

  lemma ReadsFirst(cfg: Config, s: State, a: Action, rest: seq<Action>)
    requires ValidRun(cfg, s, [a] + rest)
    ensures ValidRun(cfg, Step(cfg, s, a), rest)
    ensures RunReadsLatest(cfg, s, [a] + rest) <==> StepReadsLatest(cfg, s, a) && RunReadsLatest(cfg, Step(cfg, s, a), rest)
  {
    RunFromFirst(cfg, s, a, rest);
    assert ([a] + rest)[0] == a && ([a] + rest)[1..] == rest;
  }

  lemma {:induction false} SavesReadNothing(cfg: Config, s: State, n: nat)
    requires ValidRun(cfg, s, SaveAll(n))
    ensures RunReadsLatest(cfg, s, SaveAll(n))
    decreases n
  {
    if n > 0 {
      ReadsFirst(cfg, s, Save(0), SaveAll(n - 1));
      SavesReadNothing(cfg, Step(cfg, s, Save(0)), n - 1);
    }
  }

  /**
   Neither does disorder always matter: two overlapping first requests are not
   orderly and store two sessions, the same two on either server.
   */
  lemma OverlapIsUnaffected(cfg: Config, nowMs: int, salt: Field, input: RecordInput, a: Bytes, b: Bytes)
    requires Accepted(cfg.adapters, cfg.allowedSites, input).Ok? && a != b && cfg.retentionMonths >= 1
    ensures var first, actions := Initial(nowMs, salt), [Begin(input, a), Begin(input, b)] + SaveAll(2);
            ValidRun(cfg, first, actions) && !OrderlyRun(cfg, first, actions) && RunReadsLatest(cfg, first, actions)
  {
    var first, actions := Initial(nowMs, salt), [Begin(input, a), Begin(input, b)] + SaveAll(2);
    OverlapSplitsSession(cfg, nowMs, salt, input, a, b);
    if OrderlyRun(cfg, first, actions) {
      EveryRunHasSessionRuns(cfg, nowMs, salt, actions, History(Run(cfg, first, actions))[0].visitor);
    }
    assert actions == [Begin(input, a)] + ([Begin(input, b)] + SaveAll(2));
    ReadsFirst(cfg, first, Begin(input, a), [Begin(input, b)] + SaveAll(2));
    var second := Step(cfg, first, Begin(input, a));
    ReadsFirst(cfg, second, Begin(input, b), SaveAll(2));
    SavesReadNothing(cfg, Step(cfg, second, Begin(input, b)), 2);
  }

  /**
   Saves that overtake each other can tell the two servers apart: after the same
   steps the buffer answers with the event saved last and the log with the latest
   one, and the next request continues a different session.
   */
  lemma DisorderTellsThemApart(cfg: Config, nowMs: int, salt: Field, input: RecordInput, a: Bytes, b: Bytes, c: Bytes)
    requires Accepted(cfg.adapters, cfg.allowedSites, input).Ok? && a != b && cfg.maxBatchSize > 2
    ensures var first, actions := Initial(nowMs, salt), TwoUnderWay(input, a, b, nowMs + 1000) + SavedBackwards();
            && ValidRun(cfg, first, actions) && ValidRun(Unbuffered(cfg), first, actions)
            && (var s, t := Run(cfg, first, actions), Run(Unbuffered(cfg), first, actions);
                && Requested(cfg, s, input, c).Some? && Requested(cfg, s, input, c).value.session == a
                && Requested(Unbuffered(cfg), t, input, c).Some? && Requested(Unbuffered(cfg), t, input, c).value.session == b)
  {
    var first, begun := Initial(nowMs, salt), TwoUnderWay(input, a, b, nowMs + 1000);
    var s, x, y := BothUnderWay(cfg, nowMs, salt, input, a, b);
    var u, w, z := BothUnderWay(Unbuffered(cfg), nowMs, salt, input, a, b);
    var held := BothSaved(cfg, s, x, y);
    var through := BothSaved(Unbuffered(cfg), u, w, z);
    RunInTwoParts(cfg, first, begun, SavedBackwards());
    RunInTwoParts(Unbuffered(cfg), first, begun, SavedBackwards());
    BufferAnswersLastSaved(held.log, y, x);
    LogAnswersLatest(through.log, z, w);
  }

  lemma BufferAnswersLastSaved(log: seq<Event>, y: Event, x: Event)
    ensures BufferedLatest([y, x], log, x.visitor) == Some(x)
  {}

  lemma LogAnswersLatest(log: seq<Event>, y: Event, x: Event)
    requires log == [y, x] && x.visitor == y.visitor && x.ts < y.ts
    ensures BufferedLatest([], log, x.visitor) == Some(y)
  {
    assert y in log && x in log;
    var found := Latest(log, x.visitor);
    assert found.Some? && found.value in log;
  }
}
