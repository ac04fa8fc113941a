/** The ingestion use case: visitor id, session, stored event. */
module RecordEvent {
  import opened Wrappers
  import opened TrackedEvent
  import opened VisitorId
  import opened BatchingEventRepository

  const SESSION_INACTIVITY_WINDOW_MS := 30 * 60 * 1000
  const WINDOW_SECONDS := 1800

  /** The window itself still belongs to the session; one millisecond more does not. */
  predicate BelongsToSameSession(lastSeenMs: int, nowMs: int) {
    nowMs - lastSeenMs <= SESSION_INACTIVITY_WINDOW_MS
  }

  datatype DeviceProfile = DeviceProfile(deviceType: string, browserFamily: string, osFamily: string)

  datatype Utm = Utm(source: Option<string>, medium: Option<string>, campaign: Option<string>, content: Option<string>, term: Option<string>)

  /** The collaborators whose code is not modelled: pure functions of what they are given. */
  datatype Adapters = Adapters(
    hash: Bytes -> Bytes,
    siteOf: string -> Option<string>,
    siteBytes: string -> Field,
    country: Bytes -> string,
    device: Bytes -> DeviceProfile,
    page: string -> string,
    utm: string -> Utm,
    referrer: (Option<string>, string, Option<string>) -> Option<string>,
    screen: (Option<string>, Option<int>) -> Option<string>)

  /** `kind` is None for a type outside the allowed five. `ip` and `userAgent` are their UTF-8 bytes. */
  datatype RecordInput = RecordInput(
    siteHeader: string, ip: Field, userAgent: Field, path: string, kind: Option<EventType>,
    referrer: Option<string>, name: Option<string>, props: Option<string>, value: Option<int>,
    screenWidth: Option<int>, screenBucket: Option<string>, colorScheme: Option<string>, lang: Option<string>)

  /** SaveFailed stands for the rejected promise of a failed flush. */
  datatype RecordError = SiteNotAllowed | InvalidEventType | SaveFailed

  /** The site and type checks, in order. */
  function Accepted(adapters: Adapters, allowed: set<string>, input: RecordInput): Result<string, RecordError> {
    match adapters.siteOf(input.siteHeader)
    case None => Err(SiteNotAllowed)
    case Some(site) =>
      if site !in allowed then Err(SiteNotAllowed)
      else if input.kind.None? then Err(InvalidEventType)
      else Ok(site)
  }

  function IdentityOf(adapters: Adapters, site: string, input: RecordInput, salt: Field): VisitorInput {
    VisitorInput(salt, adapters.siteBytes(site), input.ip, input.userAgent)
  }

  function SessionFor(last: Option<Event>, nowMs: int, newSession: Bytes): Bytes {
    if last.Some? && BelongsToSameSession(last.value.ts * 1000, nowMs) then last.value.session else newSession
  }

  function EventFor(adapters: Adapters, site: string, input: RecordInput, salt: Field, nowMs: int, session: Bytes): Event
    requires input.kind.Some?
  {
    var device := adapters.device(input.userAgent);
    var path := adapters.page(input.path);
    var utm := adapters.utm(path);
    Event(nowMs / 1000, site, DeriveVisitorId(adapters.hash, IdentityOf(adapters, site, input, salt)), session,
          input.kind.value, path, adapters.referrer(input.referrer, site, utm.source),
          utm.source, utm.medium, utm.campaign, utm.content, utm.term,
          adapters.country(input.ip), device.deviceType, device.browserFamily, device.osFamily,
          input.lang, adapters.screen(input.screenBucket, input.screenWidth), input.colorScheme, input.name, input.props, input.value)
  }

  class RecordEvent {
    const adapters: Adapters
    const allowedSites: set<string>
    const eventRepository: BatchingEventRepository

    constructor (adapters: Adapters, allowedSites: set<string>, eventRepository: BatchingEventRepository)
      ensures this.adapters == adapters && this.allowedSites == allowedSites && this.eventRepository == eventRepository
    {
      this.adapters, this.allowedSites, this.eventRepository := adapters, allowedSites, eventRepository;
    }

    /**
     Everything up to the save: refuse, or look the visitor up and build the event.
     The salt, the clock and a fresh session id come from outside.
     */
    method Resolve(input: RecordInput, salt: Field, nowMs: int, newSession: Bytes) returns (result: Result<Event, RecordError>)
      ensures var accepted := Accepted(adapters, allowedSites, input);
              if accepted.Err? then result == Err(accepted.error)
              else
                var id := DeriveVisitorId(adapters.hash, IdentityOf(adapters, accepted.value, input, salt));
                var last := BufferedLatest(eventRepository.buffer, eventRepository.delegate.db.events, id);
                result == Ok(EventFor(adapters, accepted.value, input, salt, nowMs, SessionFor(last, nowMs, newSession)))
    {
      var site := adapters.siteOf(input.siteHeader);
      if site.None? || site.value !in allowedSites {
        return Err(SiteNotAllowed);
      }
      if input.kind.None? {
        return Err(InvalidEventType);
      }
      var visitorId := DeriveVisitorId(adapters.hash, IdentityOf(adapters, site.value, input, salt));
      var lastEvent := eventRepository.FindLastEventForVisitor(visitorId);
      var sessionId := SessionFor(lastEvent, nowMs, newSession);
      result := Ok(EventFor(adapters, site.value, input, salt, nowMs, sessionId));
    }

    /** The save; the promise rejects when the flush it triggers fails. */
    method Store(event: Event, nowMs: int, accepts: bool) returns (result: Result<Event, RecordError>)
      requires eventRepository.Valid() && eventRepository.lastSeen <= nowMs
      modifies eventRepository, eventRepository.delegate.db`events
      ensures eventRepository.Valid() && eventRepository.lastSeen == nowMs
      ensures var held := |old(eventRepository.buffer)| + 1 < eventRepository.maxBatchSize;
              && result == (if accepts || held then Ok(event) else Err(SaveFailed))
              && eventRepository.buffer == (if held then old(eventRepository.buffer) + [event] else [])
              && eventRepository.delegate.db.events ==
                   (if held || !accepts then old(eventRepository.delegate.db.events)
                    else old(eventRepository.Contents()) + [event])
              && eventRepository.flushTimer == TimerAfter(held, old(eventRepository.flushTimer), nowMs + eventRepository.flushIntervalMs)
              && eventRepository.arrivals == (if held then old(eventRepository.arrivals) + [nowMs] else [])
    {
      var saved := eventRepository.SaveBatch([event], nowMs, accepts);
      assert eventRepository.buffer == [] ==> eventRepository.Contents() == eventRepository.delegate.db.events;
      result := if saved then Ok(event) else Err(SaveFailed);
    }

    /** Both, with no other request in between. */
    method Execute(input: RecordInput, salt: Field, nowMs: int, newSession: Bytes, accepts: bool)
      returns (result: Result<Event, RecordError>)
      requires eventRepository.Valid() && eventRepository.lastSeen <= nowMs
      modifies eventRepository, eventRepository.delegate.db`events
      ensures eventRepository.Valid()
      ensures var accepted := Accepted(adapters, allowedSites, input);
              if accepted.Err? then
                result == Err(accepted.error) && unchanged(eventRepository) && unchanged(eventRepository.delegate.db)
              else
                var id := DeriveVisitorId(adapters.hash, IdentityOf(adapters, accepted.value, input, salt));
                var last := BufferedLatest(old(eventRepository.buffer), old(eventRepository.delegate.db.events), id);
                var event := EventFor(adapters, accepted.value, input, salt, nowMs, SessionFor(last, nowMs, newSession));
                var held := |old(eventRepository.buffer)| + 1 < eventRepository.maxBatchSize;
                && result == (if accepts || held then Ok(event) else Err(SaveFailed))
                && eventRepository.lastSeen == nowMs
                && eventRepository.buffer == (if held then old(eventRepository.buffer) + [event] else [])
                && eventRepository.delegate.db.events ==
                     (if held || !accepts then old(eventRepository.delegate.db.events)
                      else old(eventRepository.Contents()) + [event])
                && eventRepository.flushTimer == TimerAfter(held, old(eventRepository.flushTimer), nowMs + eventRepository.flushIntervalMs)
                && eventRepository.arrivals == (if held then old(eventRepository.arrivals) + [nowMs] else [])
    {
      result := Resolve(input, salt, nowMs, newSession);
      if result.Ok? {
        result := Store(result.value, nowMs, accepts);
      }
    }
  }
}
