/**
 The aggregation queries, one function per SQL statement: the nightly rollup
 groups every site's events of a day, the raw report reads one site's events of
 a range. Both see a row sequence already cut to the WHERE window.
 */
module Aggregates {
  import opened Wrappers
  import opened Counting
  import opened TrackedEvent

  /** The rows dated from `start` up to but excluding `end`. */
  function Window(log: seq<Event>, start: int, end: int): seq<Event> {
    Filter(log, (e: Event) => start <= e.ts < end)
  }

  function OfSite(rows: seq<Event>, site: string): seq<Event> {
    Filter(rows, (e: Event) => e.site == site)
  }

  /** SUM over a nullable column: NULL terms are skipped, and all-NULL sums to NULL. */
  function AddNullable(a: Option<int>, b: Option<int>): Option<int> {
    if a.None? then b else if b.None? then a else Some(a.value + b.value)
  }

  function MaxNullable(a: Option<int>, b: Option<int>): Option<int> {
    if a.None? then b else if b.None? then a else if a.value < b.value then b else a
  }

  /** The engagement column's sum: other events contribute zero, engagement events their nullable value. */
  function EngagementSum(rows: seq<Event>): Option<int> {
    if rows == [] then None
    else AddNullable(if rows[0].kind.Engagement? then rows[0].value else Some(0), EngagementSum(rows[1..]))
  }

  /** MAX(value). */
  function MaxValue(rows: seq<Event>): Option<int> {
    if rows == [] then None else MaxNullable(rows[0].value, MaxValue(rows[1..]))
  }

  /** One grouped row, before it is stored: the engagement sum may still be NULL. */
  datatype AggregatedRow = AggregatedRow(
    pageviews: int, visitors: int, sessions: int, engagement: Option<int>, bounces: int)

  // ---- queryRaw: one site ----

  /** session_pageview_counts. */
  function SessionPageviews(rows: seq<Event>, session: Bytes): nat {
    Count(rows, (e: Event) => e.IsPageview() && e.session == session)
  }

  /** bounce_sessions. */
  predicate IsBounceSession(rows: seq<Event>, session: Bytes) {
    SessionPageviews(rows, session) == 1
  }

  function Keys(rows: seq<Event>, d: Dimension): set<string> {
    set e | e in rows :: Key(d, e)
  }

  function Group(rows: seq<Event>, d: Dimension, key: string): seq<Event> {
    Filter(rows, (e: Event) => Key(d, e) == key)
  }

  function Visitors(rows: seq<Event>): set<Bytes> {
    set e | e in rows :: e.visitor
  }

  function Sessions(rows: seq<Event>): set<Bytes> {
    set e | e in rows :: e.session
  }

  /** bounce_agg's rows: pageviews joined with the bounce sessions. */
  predicate IsBounce(rows: seq<Event>, e: Event) {
    e.IsPageview() && IsBounceSession(rows, e.session)
  }

  function BounceKeys(rows: seq<Event>, d: Dimension): set<string> {
    set e | e in rows && IsBounce(rows, e) :: Key(d, e)
  }

  function BounceAgg(rows: seq<Event>, d: Dimension): map<string, int> {
    map key | key in BounceKeys(rows, d) ::
      Count(rows, (e: Event) => IsBounce(rows, e) && Key(d, e) == key)
  }

  /** One key's aggregates, with its bounces where the join finds any and 0 where it does not. */
  function RawRow(rows: seq<Event>, d: Dimension, key: string): AggregatedRow {
    var group := Group(rows, d, key);
    var bounceAgg := BounceAgg(rows, d);
    AggregatedRow(
      Count(group, (e: Event) => e.IsPageview()),
      |Visitors(group)|,
      |Sessions(group)|,
      EngagementSum(group),
      if key in bounceAgg then bounceAgg[key] else 0)
  }

  function RawReport(rows: seq<Event>, d: Dimension): map<string, AggregatedRow> {
    map key | key in Keys(rows, d) :: RawRow(rows, d, key)
  }

  // ---- SqliteRollupBuilder: every site at once, grouped by (site_id, dimension_value) ----

  datatype SiteKey = SiteKey(site: string, key: string)

  function SiteSessionPageviews(rows: seq<Event>, site: string, session: Bytes): nat {
    Count(rows, (e: Event) => e.IsPageview() && e.site == site && e.session == session)
  }

  function SiteGroup(rows: seq<Event>, d: Dimension, cell: SiteKey): seq<Event> {
    Filter(rows, (e: Event) => e.site == cell.site && Key(d, e) == cell.key)
  }

  predicate IsSiteBounce(rows: seq<Event>, e: Event) {
    e.IsPageview() && SiteSessionPageviews(rows, e.site, e.session) == 1
  }

  function SiteBounceCells(rows: seq<Event>, d: Dimension): set<SiteKey> {
    set e | e in rows && IsSiteBounce(rows, e) :: SiteKey(e.site, Key(d, e))
  }

  function SiteBounceAgg(rows: seq<Event>, d: Dimension): map<SiteKey, int> {
    map cell | cell in SiteBounceCells(rows, d) ::
      Count(rows, (e: Event) => IsSiteBounce(rows, e) && e.site == cell.site && Key(d, e) == cell.key)
  }

  function RollupRow(rows: seq<Event>, d: Dimension, cell: SiteKey): AggregatedRow {
    var group := SiteGroup(rows, d, cell);
    var bounceAgg := SiteBounceAgg(rows, d);
    AggregatedRow(
      Count(group, (e: Event) => e.IsPageview()),
      |Visitors(group)|,
      |Sessions(group)|,
      EngagementSum(group),
      if cell in bounceAgg then bounceAgg[cell] else 0)
  }

  function Cells(rows: seq<Event>, d: Dimension): set<SiteKey> {
    set e | e in rows :: SiteKey(e.site, Key(d, e))
  }

  function RollupReport(rows: seq<Event>, d: Dimension): map<SiteKey, AggregatedRow> {
    map cell | cell in Cells(rows, d) :: RollupRow(rows, d, cell)
  }

  // ---- scroll depth: MAX per session first, then SUM of the maxima ----

  datatype ScrollRow = ScrollRow(depthSum: Option<int>, sessionCount: int)

  function OfSession(rows: seq<Event>, session: Bytes): seq<Event> {
    Filter(rows, (e: Event) => e.session == session)
  }

  function NotOfSession(rows: seq<Event>, session: Bytes): (rest: seq<Event>)
    ensures rows != [] && rows[0].session == session ==> |rest| < |rows|
  {
    FilterShorter(rows, (e: Event) => e.session != session);
    Filter(rows, (e: Event) => e.session != session)
  }

  /** SUM over the session groups of their MAX(value). */
  function DepthSum(scrolls: seq<Event>): Option<int>
    decreases |scrolls|
  {
    if scrolls == [] then None
    else
      var session := scrolls[0].session;
      AddNullable(MaxValue(OfSession(scrolls, session)), DepthSum(NotOfSession(scrolls, session)))
  }

  function ScrollEvents(rows: seq<Event>, path: string): seq<Event> {
    Filter(rows, (e: Event) => e.IsScroll() && e.path == path)
  }

  function ScrollPaths(rows: seq<Event>): set<string> {
    set e | e in rows && e.IsScroll() :: e.path
  }

  function RawScrollReport(rows: seq<Event>): map<string, ScrollRow> {
    map path | path in ScrollPaths(rows) ::
      var scrolls := ScrollEvents(rows, path);
      ScrollRow(DepthSum(scrolls), |Sessions(scrolls)|)
  }

  function SiteScrollEvents(rows: seq<Event>, cell: SiteKey): seq<Event> {
    Filter(rows, (e: Event) => e.IsScroll() && e.site == cell.site && e.path == cell.key)
  }

  function SiteScrollCells(rows: seq<Event>): set<SiteKey> {
    set e | e in rows && e.IsScroll() :: SiteKey(e.site, e.path)
  }

  function RollupScrollReport(rows: seq<Event>): map<SiteKey, ScrollRow> {
    map cell | cell in SiteScrollCells(rows) ::
      var scrolls := SiteScrollEvents(rows, cell);
      ScrollRow(DepthSum(scrolls), |Sessions(scrolls)|)
  }

  // ---- the nightly statement and the raw statement agree ----

  lemma SiteBounceIsBounce(rows: seq<Event>, site: string, e: Event)
    requires e.site == site
    ensures IsSiteBounce(rows, e) == IsBounce(OfSite(rows, site), e)
  {
    FilterFilter(rows, (x: Event) => x.site == site, (x: Event) => x.IsPageview() && x.session == e.session,
                 (x: Event) => x.IsPageview() && x.site == site && x.session == e.session);
    FilterAgree(rows, (x: Event) => x.IsPageview() && x.site == site && x.session == e.session,
                (x: Event) => x.IsPageview() && x.site == e.site && x.session == e.session);
  }

  lemma RollupRowIsRawRow(rows: seq<Event>, d: Dimension, site: string, key: string)
    ensures RollupRow(rows, d, SiteKey(site, key)) == RawRow(OfSite(rows, site), d, key)
  {
    var cell := SiteKey(site, key);
    var own := OfSite(rows, site);
    FilterFilter(rows, (x: Event) => x.site == site, (x: Event) => Key(d, x) == key,
                 (x: Event) => x.site == cell.site && Key(d, x) == cell.key);
    assert SiteGroup(rows, d, cell) == Group(own, d, key);
    forall e | e in rows && e.site == site
      ensures IsSiteBounce(rows, e) == IsBounce(own, e)
    {
      SiteBounceIsBounce(rows, site, e);
    }
    FilterFilter(rows, (x: Event) => x.site == site, (x: Event) => IsBounce(own, x) && Key(d, x) == key,
                 (x: Event) => IsSiteBounce(rows, x) && x.site == cell.site && Key(d, x) == cell.key);
    assert cell in SiteBounceCells(rows, d) <==> key in BounceKeys(own, d);
  }

  /** GROUP BY (site, key) over all sites contains, for each site, that site's raw report. */
  lemma RollupAgreesWithRaw(rows: seq<Event>, d: Dimension, site: string, key: string)
    ensures SiteKey(site, key) in RollupReport(rows, d) <==> key in RawReport(OfSite(rows, site), d)
    ensures key in RawReport(OfSite(rows, site), d) ==>
              RollupReport(rows, d)[SiteKey(site, key)] == RawReport(OfSite(rows, site), d)[key]
  {
    RollupRowIsRawRow(rows, d, site, key);
    assert SiteKey(site, key) in Cells(rows, d) <==> key in Keys(OfSite(rows, site), d);
  }

  lemma RollupScrollAgreesWithRaw(rows: seq<Event>, site: string, path: string)
    ensures SiteKey(site, path) in RollupScrollReport(rows) <==> path in RawScrollReport(OfSite(rows, site))
    ensures path in RawScrollReport(OfSite(rows, site)) ==>
              RollupScrollReport(rows)[SiteKey(site, path)] == RawScrollReport(OfSite(rows, site))[path]
  {
    var cell := SiteKey(site, path);
    FilterFilter(rows, (x: Event) => x.site == site, (x: Event) => x.IsScroll() && x.path == path,
                 (x: Event) => x.IsScroll() && x.site == cell.site && x.path == cell.key);
    assert SiteScrollEvents(rows, cell) == ScrollEvents(OfSite(rows, site), path);
    assert cell in SiteScrollCells(rows) <==> path in ScrollPaths(OfSite(rows, site));
  }
}
