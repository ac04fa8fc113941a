/** In every reachable state a session id has one visitor, and a visitor id has one device, browser, OS and country. */
module Identities {
  import opened TrackedEvent
  import opened BreakdownLaws
  import opened BatchingEventRepository
  import opened VisitorId
  import opened RecordEvent
  import opened Pipeline

  predicate Known(s: State, e: Event) {
    e in s.written || e in s.buffer || e in s.inFlight
  }

  /** What an event shows of the client it came from. */
  predicate ShowsClient(adapters: Adapters, i: VisitorInput, e: Event) {
    var device := adapters.device(i.userAgent);
    && e.visitor == DeriveVisitorId(adapters.hash, i)
    && e.country == adapters.country(i.ip)
    && e.deviceType == device.deviceType && e.browser == device.browserFamily && e.os == device.osFamily
  }

  ghost predicate ComesFrom(adapters: Adapters, inputs: set<VisitorInput>, e: Event) {
    exists i :: i in inputs && ShowsClient(adapters, i, e)
  }

  ghost predicate Traced(cfg: Config, s: State) {
    forall e | Known(s, e) :: ComesFrom(cfg.adapters, s.hashed, e) && e.session in s.issued
  }

  ghost predicate SessionsOwned(s: State) {
    forall x, y | Known(s, x) && Known(s, y) && x.session == y.session :: x.visitor == y.visitor
  }

  ghost predicate IdInv(cfg: Config, s: State) {
    Traced(cfg, s) && SessionsOwned(s) && forall e | e in s.log :: e in s.written
  }

  lemma {:induction false} LastOfBelongs(buffer: seq<Event>, visitor: Bytes)
    ensures var last := LastOf(buffer, visitor); last.Some? ==> last.value in buffer && last.value.visitor == visitor
    ensures LastOf(buffer, visitor).None? ==> forall e | e in buffer :: e.visitor != visitor
  {
    if buffer != [] {
      LastOfBelongs(buffer[..|buffer| - 1], visitor);
      assert buffer == buffer[..|buffer| - 1] + [buffer[|buffer| - 1]];
    }
  }

  /** The looked-up event is the same visitor's, so a continued session keeps its owner. */
  lemma RequestedSession(cfg: Config, s: State, input: RecordInput, newSession: Bytes)
    requires Requested(cfg, s, input, newSession).Some?
    ensures var e := Requested(cfg, s, input, newSession).value;
            e.session == newSession
            || exists last :: (last in s.buffer || last in s.log) && last.visitor == e.visitor && last.session == e.session
  {
    var e := Requested(cfg, s, input, newSession).value;
    LastOfBelongs(s.buffer, e.visitor);
    var last := BufferedLatest(s.buffer, s.log, e.visitor);
    if e.session != newSession {
      assert last.Some? && last.value.visitor == e.visitor && last.value.session == e.session;
    }
  }

  lemma RequestedClient(cfg: Config, s: State, input: RecordInput, newSession: Bytes)
    requires Requested(cfg, s, input, newSession).Some?
    ensures ComesFrom(cfg.adapters, HashedBy(cfg, s, input), Requested(cfg, s, input, newSession).value)
  {
    var site := Accepted(cfg.adapters, cfg.allowedSites, input).value;
    var i := IdentityOf(cfg.adapters, site, input, s.salt);
    assert i in HashedBy(cfg, s, input);
    assert ShowsClient(cfg.adapters, i, Requested(cfg, s, input, newSession).value);
  }

  /** A state that knows at most one more event, just requested, keeps the invariant. */
  lemma AdmitsRequested(cfg: Config, s: State, next: State, input: RecordInput, newSession: Bytes)
    requires IdInv(cfg, s) && newSession !in s.issued && Requested(cfg, s, input, newSession).Some?
    requires next.issued == s.issued + {newSession} && next.hashed == HashedBy(cfg, s, input)
    requires forall e | Known(next, e) :: Known(s, e) || e == Requested(cfg, s, input, newSession).value
    requires forall e | e in next.log :: e in next.written
    ensures IdInv(cfg, next)
  {
    var event := Requested(cfg, s, input, newSession).value;
    RequestedClient(cfg, s, input, newSession);
    RequestedSession(cfg, s, input, newSession);
    assert s.hashed <= next.hashed;
    forall e | Known(next, e)
      ensures ComesFrom(cfg.adapters, next.hashed, e) && e.session in next.issued
    {
      if Known(s, e) {
        var i :| i in s.hashed && ShowsClient(cfg.adapters, i, e);
        assert i in next.hashed;
      }
    }
    forall x | Known(s, x) && x.session == event.session
      ensures x.visitor == event.visitor
    {
      assert x.session in s.issued;
      var last :| (last in s.buffer || last in s.log) && last.visitor == event.visitor && last.session == event.session;
      assert Known(s, last);
    }
  }

  lemma SavedKnows(cfg: Config, s: State, e: Event)
    ensures forall x | Known(Saved(cfg, s, e), x) :: Known(s, x) || x == e
    ensures (forall x | x in s.log :: x in s.written) ==> forall x | x in Saved(cfg, s, e).log :: x in Saved(cfg, s, e).written
    ensures Saved(cfg, s, e).issued == s.issued && Saved(cfg, s, e).hashed == s.hashed
  {}

  lemma KnowsNoMore(cfg: Config, s: State, next: State)
    requires IdInv(cfg, s) && next.issued == s.issued && next.hashed == s.hashed
    requires forall e | Known(next, e) :: Known(s, e)
    requires forall e | e in next.log :: e in next.written
    ensures IdInv(cfg, next)
  {
    forall e | Known(next, e)
      ensures ComesFrom(cfg.adapters, next.hashed, e) && e.session in next.issued
    {
      assert Known(s, e);
    }
  }

  lemma StepKeepsIdentities(cfg: Config, s: State, a: Action)
    requires IdInv(cfg, s) && Enabled(s, a)
    ensures IdInv(cfg, Step(cfg, s, a))
  {
    var next := Step(cfg, s, a);
    match a
    case Begin(input, newSession) =>
      if Requested(cfg, s, input, newSession).Some? {
        AdmitsRequested(cfg, s, next, input, newSession);
      }
    case Record(input, newSession) =>
      var e := Requested(cfg, s, input, newSession);
      if e.Some? {
        SavedKnows(cfg, s.(issued := s.issued + {newSession}, hashed := HashedBy(cfg, s, input)), e.value);
        AdmitsRequested(cfg, s, next, input, newSession);
      }
    case Save(index) =>
      assert s.inFlight[index] in s.inFlight;
      SavedKnows(cfg, s.(inFlight := s.inFlight[..index] + s.inFlight[index + 1..]), s.inFlight[index]);
      KnowsNoMore(cfg, s, next);
    case Flush => KnowsNoMore(cfg, s, next);
    case PurgeJob => KnowsNoMore(cfg, s, next);
    case Tick(_) => KnowsNoMore(cfg, s, next);
    case RotateSalt(_) => KnowsNoMore(cfg, s, next);
    case RollupJob => KnowsNoMore(cfg, s, next);
  }

  lemma {:induction false} RunKeepsIdentities(cfg: Config, s: State, actions: seq<Action>)
    requires IdInv(cfg, s) && ValidRun(cfg, s, actions)
    ensures IdInv(cfg, Run(cfg, s, actions))
    decreases |actions|
  {
    if actions != [] {
      StepKeepsIdentities(cfg, s, actions[0]);
      RunKeepsIdentities(cfg, Step(cfg, s, actions[0]), actions[1..]);
    }
  }

  /** The dimensions that are computed from the client alone. */
  predicate IsClientDimension(d: Dimension) {
    d.DeviceDim? || d.BrowserDim? || d.OsDim? || d.CountryDim?
  }

  lemma OneInput(hash: Bytes -> Bytes, inputs: set<VisitorInput>, i: VisitorInput, j: VisitorInput)
    requires CollisionFreeOn(hash, inputs) && i in inputs && j in inputs && DeriveVisitorId(hash, i) == DeriveVisitorId(hash, j)
    ensures i == j
  {
    IdsFollowFields(hash, inputs, i, j);
  }

  lemma OneClient(adapters: Adapters, inputs: set<VisitorInput>, x: Event, y: Event)
    requires CollisionFreeOn(adapters.hash, inputs) && ComesFrom(adapters, inputs, x) && ComesFrom(adapters, inputs, y)
    requires x.visitor == y.visitor
    ensures x.country == y.country && x.deviceType == y.deviceType && x.browser == y.browser && x.os == y.os
  {
    var i :| i in inputs && ShowsClient(adapters, i, x);
    var j :| j in inputs && ShowsClient(adapters, j, y);
    OneInput(adapters.hash, inputs, i, j);
  }

  /** Short of a hash collision, a visitor id has one key in each client dimension. */
  lemma ClientDimensionsFollowVisitor(cfg: Config, s: State, rows: seq<Event>, d: Dimension)
    requires IdInv(cfg, s) && CollisionFreeOn(cfg.adapters.hash, s.hashed)
    requires IsClientDimension(d) && forall e | e in rows :: Known(s, e)
    ensures Determines(rows, VisitorOf(), d)
  {
    forall x, y | x in rows && y in rows && x.visitor == y.visitor
      ensures Key(d, x) == Key(d, y)
    {
      OneClient(cfg.adapters, s.hashed, x, y);
    }
  }

  /** A session id has one visitor, hence one key in each client dimension. */
  lemma ClientDimensionsFollowSession(cfg: Config, s: State, rows: seq<Event>, d: Dimension)
    requires IdInv(cfg, s) && CollisionFreeOn(cfg.adapters.hash, s.hashed)
    requires IsClientDimension(d) && forall e | e in rows :: Known(s, e)
    ensures Determines(rows, SessionOf(), d)
  {
    ClientDimensionsFollowVisitor(cfg, s, rows, d);
    forall x, y | x in rows && y in rows && x.session == y.session
      ensures Key(d, x) == Key(d, y)
    {
      assert Known(s, x) && Known(s, y);
      assert VisitorOf()(x) == VisitorOf()(y);
    }
  }
}
