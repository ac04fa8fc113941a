/** What an accepted request stores: its columns, its visitor, and the session it continues. */
module StoredEvents {
  import opened Wrappers
  import opened TrackedEvent
  import opened EventRepository
  import opened BatchingEventRepository
  import opened VisitorId
  import opened RecordEvent
  import opened Pipeline
  import opened Sessions

  /** A request is refused for its site first and for its type second, and for nothing else. */
  lemma AcceptedIff(adapters: Adapters, allowed: set<string>, input: RecordInput, site: string)
    ensures Accepted(adapters, allowed, input) == Ok(site) <==>
              adapters.siteOf(input.siteHeader) == Some(site) && site in allowed && input.kind.Some?
    ensures Accepted(adapters, allowed, input) == Err(SiteNotAllowed) <==>
              adapters.siteOf(input.siteHeader).None? || adapters.siteOf(input.siteHeader).value !in allowed
    ensures Accepted(adapters, allowed, input) == Err(InvalidEventType) <==>
              && adapters.siteOf(input.siteHeader).Some? && adapters.siteOf(input.siteHeader).value in allowed
              && input.kind.None?
  {}

  /** The path is stored sanitized, and the campaign columns and the referrer source come from the sanitized path. */
  lemma StoredColumns(cfg: Config, s: State, input: RecordInput, newSession: Bytes, e: Event)
    requires Requested(cfg, s, input, newSession) == Some(e)
    ensures Some(e.site) == cfg.adapters.siteOf(input.siteHeader) && Some(e.kind) == input.kind && e.ts == s.nowMs / 1000
    ensures e.path == cfg.adapters.page(input.path)
    ensures var utm := cfg.adapters.utm(cfg.adapters.page(input.path));
            && e.utmSource == utm.source && e.utmMedium == utm.medium && e.utmCampaign == utm.campaign
            && e.utmContent == utm.content && e.utmTerm == utm.term
            && e.referrerSource == cfg.adapters.referrer(input.referrer, e.site, utm.source)
    ensures e.country == cfg.adapters.country(input.ip)
    ensures e.deviceType == cfg.adapters.device(input.userAgent).deviceType
    ensures e.browser == cfg.adapters.device(input.userAgent).browserFamily
    ensures e.os == cfg.adapters.device(input.userAgent).osFamily
    ensures e.screenBucket == cfg.adapters.screen(input.screenBucket, input.screenWidth)
    ensures e.lang == input.lang && e.colorScheme == input.colorScheme
    ensures e.name == input.name && e.props == input.props && e.value == input.value
    ensures e.visitor == FirstSixteen(cfg.adapters.hash(
              LengthPrefixed(s.salt) + LengthPrefixed(cfg.adapters.siteBytes(e.site)) + LengthPrefixed(input.ip)
              + LengthPrefixed(input.userAgent)))
  {}

  // ---- the visitor ----

  /** What a request of a site is hashed from. */
  function HashedFields(cfg: Config, s: State, site: string, input: RecordInput): VisitorInput {
    VisitorInput(s.salt, cfg.adapters.siteBytes(site), input.ip, input.userAgent)
  }

  /**
   Short of a hash collision, two accepted requests, whenever they come, store the
   same visitor exactly when salt, site, address and user agent are the same.
   */
  lemma SameVisitorIff(cfg: Config, s: State, x: RecordInput, e: Event, a: Bytes, t: State, y: RecordInput, f: Event, b: Bytes)
    requires Requested(cfg, s, x, a) == Some(e) && Requested(cfg, t, y, b) == Some(f)
    requires CollisionFreeOn(cfg.adapters.hash, {HashedFields(cfg, s, e.site, x), HashedFields(cfg, t, f.site, y)})
    ensures e.visitor == f.visitor <==>
              && s.salt == t.salt && cfg.adapters.siteBytes(e.site) == cfg.adapters.siteBytes(f.site)
              && x.ip == y.ip && x.userAgent == y.userAgent
  {
    var i, j := HashedFields(cfg, s, e.site, x), HashedFields(cfg, t, f.site, y);
    StoredVisitor(cfg, s, x, a, e);
    StoredVisitor(cfg, t, y, b, f);
    IdsFollowFields(cfg.adapters.hash, {i, j}, i, j);
  }

  lemma StoredVisitor(cfg: Config, s: State, input: RecordInput, newSession: Bytes, e: Event)
    requires Requested(cfg, s, input, newSession) == Some(e)
    ensures e.visitor == DeriveVisitorId(cfg.adapters.hash, HashedFields(cfg, s, e.site, input))
  {}

  /** Once the salt has been replaced by another, the same client is a new visitor. */
  lemma NewSaltNewVisitor(cfg: Config, s: State, input: RecordInput, e: Event, a: Bytes, newSalt: Field, f: Event, b: Bytes)
    requires newSalt != s.salt
    requires var t := Step(cfg, s, RotateSalt(newSalt));
             && Requested(cfg, s, input, a) == Some(e) && Requested(cfg, t, input, b) == Some(f)
             && CollisionFreeOn(cfg.adapters.hash, {HashedFields(cfg, s, e.site, input), HashedFields(cfg, t, f.site, input)})
    ensures e.visitor != f.visitor
  {
    SameVisitorIff(cfg, s, input, e, a, Step(cfg, s, RotateSalt(newSalt)), input, f, b);
  }

  // ---- the session ----

  /** The visitor's latest saved event, or one of them. */
  ghost predicate IsLatestSaved(s: State, v: Bytes, last: Event) {
    last in History(s) && last.visitor == v && forall x | x in History(s) && x.visitor == v :: x.ts <= last.ts
  }

  lemma FoundIsLast(own: seq<Event>, nowMs: int, found: Option<Event>, last: Event, newSession: Bytes)
    requires SessionRuns(own) && MayAnswer(own, nowMs, found)
    requires last in own && forall x | x in own :: x.ts <= last.ts
    ensures SessionFor(found, nowMs, newSession) == if nowMs - last.ts * 1000 <= 1_800_000 then last.session else newSession
  {
    LookupIsLast(own, last);
    if found.Some? && FindsLast(own, nowMs, found) {
      LookupIsLast(own, found.value);
    }
  }

  /**
   In every orderly run a request continues the session of its visitor's latest saved
   event for half an hour to the millisecond, counted from that event's stored
   second, and after it opens a new one; so it does without any saved event.
   */
  lemma SessionContinuesForHalfAnHour(cfg: Config, nowMs: int, salt: Field, actions: seq<Action>, input: RecordInput,
                                      newSession: Bytes, e: Event)
    requires ValidRun(cfg, Initial(nowMs, salt), actions) && OrderlyRun(cfg, Initial(nowMs, salt), actions)
    requires cfg.retentionMonths >= 1
    requires Requested(cfg, Run(cfg, Initial(nowMs, salt), actions), input, newSession) == Some(e)
    ensures var s := Run(cfg, Initial(nowMs, salt), actions);
            forall last | IsLatestSaved(s, e.visitor, last) ::
              e.session == if s.nowMs - last.ts * 1000 <= 1_800_000 then last.session else newSession
    ensures var s := Run(cfg, Initial(nowMs, salt), actions);
            (forall x | x in History(s) :: x.visitor != e.visitor) ==> e.session == newSession
  {
    InitialSessionInv(cfg, nowMs, salt);
    RunKeepsSessions(cfg, Initial(nowMs, salt), actions);
    SessionOfRequest(cfg, Run(cfg, Initial(nowMs, salt), actions), input, newSession, e);
  }

  lemma SessionOfRequest(cfg: Config, s: State, input: RecordInput, newSession: Bytes, e: Event)
    requires SessionInv(cfg, s) && Requested(cfg, s, input, newSession) == Some(e)
    ensures forall last | IsLatestSaved(s, e.visitor, last) ::
              e.session == if s.nowMs - last.ts * 1000 <= 1_800_000 then last.session else newSession
    ensures (forall x | x in History(s) :: x.visitor != e.visitor) ==> e.session == newSession
  {
    var own, found := OfVisitor(History(s), e.visitor), BufferedLatest(s.buffer, s.log, e.visitor);
    HistoryRuns(cfg, s, e.visitor);
    LookupMayAnswer(cfg, s, e.visitor);
    ResolvedFrom(cfg, s, input, newSession, e);
    forall last | IsLatestSaved(s, e.visitor, last)
      ensures e.session == if s.nowMs - last.ts * 1000 <= 1_800_000 then last.session else newSession
    {
      FoundIsLast(own, s.nowMs, found, last, newSession);
    }
  }

  lemma ResolvedFrom(cfg: Config, s: State, input: RecordInput, newSession: Bytes, e: Event)
    requires Requested(cfg, s, input, newSession) == Some(e)
    ensures e.session == SessionFor(BufferedLatest(s.buffer, s.log, e.visitor), s.nowMs, newSession)
  {}
}
