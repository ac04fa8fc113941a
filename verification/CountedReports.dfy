/**
 Reports counted by hand: which of the written events, one by one, make up each
 number. Nothing here goes through the queries, their windows or their grouping.
 */
module CountedReports {
  import opened Wrappers
  import opened Counting
  import opened TrackedEvent
  import opened TimeRange
  import opened Aggregates
  import opened BreakdownLaws
  import opened Database
  import opened Metrics
  import opened RangeReports

  // ---- which events count ----

  /** The i-th event is the site's and dated in [start, end). */
  predicate In(w: seq<Event>, i: nat, site: string, start: int, end: int) {
    i < |w| && w[i].site == site && start <= w[i].ts < end
  }

  predicate ShowsOptional(column: Option<string>, key: string) {
    column == Some(key) || (column == None && key == "")
  }

  /** The event shows the key in the dimension's column; a missing value shows as the empty string. */
  predicate Shows(d: Dimension, e: Event, key: string) {
    match d
    case PathDim => e.path == key
    case ReferrerDim => ShowsOptional(e.referrerSource, key)
    case CountryDim => e.country == key
    case DeviceDim => e.deviceType == key
    case BrowserDim => e.browser == key
    case OsDim => e.os == key
    case CampaignDim => ShowsOptional(e.utmCampaign, key)
    case ScreenDim => ShowsOptional(e.screenBucket, key)
    case LanguageDim => ShowsOptional(e.lang, key)
    case ColorSchemeDim => ShowsOptional(e.colorScheme, key)
  }

  /** All of a site's events, or those with one key. */
  datatype Slice = Whole | Keyed(d: Dimension, key: string)

  predicate Picks(slice: Slice, e: Event) {
    match slice
    case Whole => true
    case Keyed(d, key) => Shows(d, e, key)
  }

  predicate ViewIn(w: seq<Event>, i: nat, site: string, start: int, end: int) {
    In(w, i, site, start, end) && w[i].kind == Pageview
  }

  /** A pageview that is its session's only one on the site in that time. */
  ghost predicate OnlyViewIn(w: seq<Event>, i: nat, site: string, start: int, end: int) {
    && ViewIn(w, i, site, start, end)
    && forall j: nat | ViewIn(w, j, site, start, end) && w[j].session == w[i].session :: j == i
  }

  ghost function Views(w: seq<Event>, site: string, slice: Slice, start: int, end: int): set<nat> {
    set i: nat | i < |w| && ViewIn(w, i, site, start, end) && Picks(slice, w[i])
  }

  ghost function OnlyViews(w: seq<Event>, site: string, slice: Slice, start: int, end: int): set<nat> {
    set i: nat | i < |w| && OnlyViewIn(w, i, site, start, end) && Picks(slice, w[i])
  }

  ghost function Engagements(w: seq<Event>, site: string, slice: Slice, start: int, end: int): set<nat> {
    set i: nat | i < |w| && In(w, i, site, start, end) && w[i].kind == Engagement && Picks(slice, w[i])
  }

  ghost function VisitorIds(w: seq<Event>, site: string, slice: Slice, start: int, end: int): set<Bytes> {
    set i: nat | i < |w| && In(w, i, site, start, end) && Picks(slice, w[i]) :: w[i].visitor
  }

  ghost function SessionIds(w: seq<Event>, site: string, slice: Slice, start: int, end: int): set<Bytes> {
    set i: nat | i < |w| && In(w, i, site, start, end) && Picks(slice, w[i]) :: w[i].session
  }

  function ValueAt(w: seq<Event>): nat -> int {
    (i: nat) => if i < |w| then w[i].value.GetOr(0) else 0
  }

  ghost function Counted(w: seq<Event>, site: string, slice: Slice, start: int, end: int): Counters {
    Counters(|Views(w, site, slice, start, end)|, |VisitorIds(w, site, slice, start, end)|, |SessionIds(w, site, slice, start, end)|,
             |OnlyViews(w, site, slice, start, end)|, Total(Engagements(w, site, slice, start, end), ValueAt(w)))
  }

  /** Some event of the site dated in [start, end) shows the key. */
  ghost predicate SomeShows(w: seq<Event>, site: string, d: Dimension, key: string, start: int, end: int) {
    exists e :: e in w && e.site == site && start <= e.ts < end && Shows(d, e, key)
  }

  // ---- counting rows is counting positions ----

  ghost function Positions(s: seq<Event>, p: Event -> bool): set<nat> {
    set i: nat | i < |s| && p(s[i])
  }

  lemma PositionsOneMore(s: seq<Event>, last: Event, p: Event -> bool)
    ensures Positions(s + [last], p) == Positions(s, p) + if p(last) then {|s|} else {}
  {
    assert forall i: nat | i < |s| :: (s + [last])[i] == s[i];
    assert (s + [last])[|s|] == last;
  }

  lemma {:induction false} CountIsPositions(s: seq<Event>, p: Event -> bool)
    ensures Count(s, p) == |Positions(s, p)|
  {
    if s == [] {
      assert Positions(s, p) == {};
    } else {
      var init, last := s[..|s| - 1], s[|s| - 1];
      assert s == init + [last];
      CountIsPositions(init, p);
      FilterConcat(init, [last], p);
      PositionsOneMore(init, last, p);
    }
  }

  lemma {:induction false} EngagementOneMore(rows: seq<Event>, last: Event)
    ensures EngagementSum(rows + [last]).GetOr(0) == EngagementSum(rows).GetOr(0) + EngagementOf(last)
  {
    if rows == [] {
      assert [] + [last] == [last] && [last][1..] == [];
    } else {
      assert (rows + [last])[0] == rows[0] && (rows + [last])[1..] == rows[1..] + [last];
      EngagementOneMore(rows[1..], last);
    }
  }

  function EngagementIn(p: Event -> bool): Event -> bool {
    (e: Event) => p(e) && e.kind == Engagement
  }

  lemma TotalOneMore(init: seq<Event>, last: Event, p: Event -> bool)
    ensures Total(Positions(init + [last], p), ValueAt(init + [last]))
         == Total(Positions(init, p), ValueAt(init)) + if p(last) then last.value.GetOr(0) else 0
  {
    var s := init + [last];
    PositionsOneMore(init, last, p);
    assert forall i: nat | i < |init| :: s[i] == init[i];
    TotalAgree(Positions(init, p), ValueAt(init), ValueAt(s));
    if p(last) {
      TotalExtract<nat>(Positions(s, p), ValueAt(s), |init|);
      assert Positions(s, p) - {|init|} == Positions(init, p);
      assert ValueAt(s)(|init|) == last.value.GetOr(0);
    } else {
      assert Positions(s, p) == Positions(init, p);
    }
  }

  lemma EngagementFilterOneMore(init: seq<Event>, last: Event, p: Event -> bool)
    ensures EngagementSum(Filter(init + [last], p)).GetOr(0)
         == EngagementSum(Filter(init, p)).GetOr(0) + if EngagementIn(p)(last) then last.value.GetOr(0) else 0
  {
    FilterConcat(init, [last], p);
    assert [last][1..] == [];
    if p(last) {
      assert Filter([last], p) == [last];
      EngagementOneMore(Filter(init, p), last);
      assert EngagementIn(p)(last) <==> last.kind.Engagement?;
    } else {
      assert Filter(init, p) + [] == Filter(init, p);
    }
  }

  lemma {:induction false} EngagementIsTotal(s: seq<Event>, p: Event -> bool)
    ensures EngagementSum(Filter(s, p)).GetOr(0) == Total(Positions(s, EngagementIn(p)), ValueAt(s))
  {
    if s == [] {
      assert Positions(s, EngagementIn(p)) == {};
    } else {
      var init, last := s[..|s| - 1], s[|s| - 1];
      EngagementIsTotal(init, p);
      EngagementFilterOneMore(init, last, p);
      TotalOneMore(init, last, EngagementIn(p));
      assert s == init + [last];
    }
  }

  // ---- a day's rows ----

  /** The site's events of a day, as the queries read them. */
  function SiteDayRows(w: seq<Event>, site: string, day: int): seq<Event> {
    OfSite(DayRows(w, day), site)
  }

  function OnDay(site: string, day: int): Event -> bool {
    (e: Event) => e.site == site && day <= e.ts < day + 86_400
  }

  function PickedOn(site: string, slice: Slice, day: int): Event -> bool {
    (e: Event) => e.site == site && day <= e.ts < day + 86_400 && Picks(slice, e)
  }

  function And(p: Event -> bool, q: Event -> bool): Event -> bool {
    (e: Event) => p(e) && q(e)
  }

  lemma RowsOfDay(w: seq<Event>, site: string, day: int)
    ensures SiteDayRows(w, site, day) == Filter(w, OnDay(site, day))
  {
    FilterFilter(w, (e: Event) => day <= e.ts < day + SECONDS_PER_DAY, (e: Event) => e.site == site, OnDay(site, day));
  }

  lemma KeyShows(d: Dimension, e: Event, key: string)
    ensures Key(d, e) == key <==> Shows(d, e, key)
  {}

  /** The rows of a slice: all of the day's, or one group of them. */
  function SliceRows(w: seq<Event>, site: string, slice: Slice, day: int): seq<Event> {
    match slice
    case Whole => SiteDayRows(w, site, day)
    case Keyed(d, key) => Group(SiteDayRows(w, site, day), d, key)
  }

  lemma RowsOfSlice(w: seq<Event>, site: string, slice: Slice, day: int)
    ensures SliceRows(w, site, slice, day) == Filter(w, PickedOn(site, slice, day))
  {
    RowsOfDay(w, site, day);
    match slice
    case Whole => FilterAgree(w, OnDay(site, day), PickedOn(site, slice, day));
    case Keyed(d, key) =>
      forall e
        ensures Key(d, e) == key <==> Shows(d, e, key)
      {
        KeyShows(d, e, key);
      }
      FilterFilter(w, OnDay(site, day), (e: Event) => Key(d, e) == key, PickedOn(site, slice, day));
  }

  lemma CountInSlice(w: seq<Event>, site: string, slice: Slice, day: int, p: Event -> bool)
    ensures Count(SliceRows(w, site, slice, day), p) == |Positions(w, And(PickedOn(site, slice, day), p))|
  {
    RowsOfSlice(w, site, slice, day);
    FilterFilter(w, PickedOn(site, slice, day), p, And(PickedOn(site, slice, day), p));
    CountIsPositions(w, And(PickedOn(site, slice, day), p));
  }

  lemma ViewsOfSlice(w: seq<Event>, site: string, slice: Slice, day: int)
    ensures Count(SliceRows(w, site, slice, day), IsView()) == |Views(w, site, slice, day, day + 86_400)|
  {
    CountInSlice(w, site, slice, day, IsView());
    assert Positions(w, And(PickedOn(site, slice, day), IsView())) == Views(w, site, slice, day, day + 86_400);
  }

  lemma IdsOfSlice(w: seq<Event>, site: string, slice: Slice, day: int)
    ensures Visitors(SliceRows(w, site, slice, day)) == VisitorIds(w, site, slice, day, day + 86_400)
    ensures Sessions(SliceRows(w, site, slice, day)) == SessionIds(w, site, slice, day, day + 86_400)
  {
    RowsOfSlice(w, site, slice, day);
    var rows := SliceRows(w, site, slice, day);
    forall e | e in rows
      ensures exists i: nat :: i < |w| && w[i] == e && In(w, i, site, day, day + 86_400) && Picks(slice, w[i])
    {
      var i: nat :| i < |w| && w[i] == e;
      assert In(w, i, site, day, day + 86_400);
    }
    forall i: nat | i < |w| && In(w, i, site, day, day + 86_400) && Picks(slice, w[i])
      ensures w[i] in rows
    {
      assert PickedOn(site, slice, day)(w[i]);
    }
  }

  lemma EngagementOfSlice(w: seq<Event>, site: string, slice: Slice, day: int)
    ensures EngagementSum(SliceRows(w, site, slice, day)).GetOr(0)
         == Total(Engagements(w, site, slice, day, day + 86_400), ValueAt(w))
  {
    RowsOfSlice(w, site, slice, day);
    EngagementIsTotal(w, PickedOn(site, slice, day));
    assert Positions(w, EngagementIn(PickedOn(site, slice, day))) == Engagements(w, site, slice, day, day + 86_400);
  }

  // ---- bounces ----

  lemma OneMember(s: set<nat>, i: nat)
    requires i in s
    ensures |s| == 1 <==> forall j | j in s :: j == i
  {
    assert |s - {i}| == |s| - 1;
    if |s| == 1 {
      forall j | j in s
        ensures j == i
      {
        assert j !in s - {i};
      }
    }
    if |s| > 1 {
      var j :| j in s - {i};
    }
  }

  function ViewOfSession(session: Bytes): Event -> bool {
    (e: Event) => e.IsPageview() && e.session == session
  }

  /** A pageview of the day is a bounce, as the queries compute it, exactly when it is its session's only one. */
  lemma BounceIsOnlyView(w: seq<Event>, i: nat, site: string, day: int)
    requires In(w, i, site, day, day + 86_400)
    ensures IsBounce(SiteDayRows(w, site, day), w[i]) <==> OnlyViewIn(w, i, site, day, day + 86_400)
  {
    var rows, p := SiteDayRows(w, site, day), ViewOfSession(w[i].session);
    CountInSlice(w, site, Whole, day, p);
    FilterAgree(rows, p, (e: Event) => e.IsPageview() && e.session == w[i].session);
    var same := Positions(w, And(PickedOn(site, Whole, day), p));
    assert SessionPageviews(rows, w[i].session) == |same|;
    forall j: nat
      ensures j in same <==> ViewIn(w, j, site, day, day + 86_400) && w[j].session == w[i].session
    {}
    if w[i].IsPageview() {
      assert i in same;
      OneMember(same, i);
    }
  }

  lemma BouncesOfSlice(w: seq<Event>, site: string, slice: Slice, day: int, p: Event -> bool)
    requires forall e | e in SiteDayRows(w, site, day) :: p(e) == IsBounce(SiteDayRows(w, site, day), e)
    ensures Count(SliceRows(w, site, slice, day), p) == |OnlyViews(w, site, slice, day, day + 86_400)|
  {
    CountInSlice(w, site, slice, day, p);
    RowsOfDay(w, site, day);
    forall i: nat | i < |w| && In(w, i, site, day, day + 86_400)
      ensures p(w[i]) <==> OnlyViewIn(w, i, site, day, day + 86_400)
    {
      assert OnDay(site, day)(w[i]) && w[i] in w;
      BounceIsOnlyView(w, i, site, day);
    }
    assert Positions(w, And(PickedOn(site, slice, day), p)) == OnlyViews(w, site, slice, day, day + 86_400);
  }

  lemma BouncesOfKey(w: seq<Event>, site: string, d: Dimension, key: string, day: int)
    ensures RawRow(SiteDayRows(w, site, day), d, key).bounces == |OnlyViews(w, site, Keyed(d, key), day, day + 86_400)|
  {
    var rows := SiteDayRows(w, site, day);
    BounceJoinLosesNothing(rows, d, key);
    FilterFilter(rows, (e: Event) => Key(d, e) == key, IsBounceOf(rows), (e: Event) => IsBounce(rows, e) && Key(d, e) == key);
    BouncesOfSlice(w, site, Keyed(d, key), day, IsBounceOf(rows));
  }

  // ---- a day's report ----

  lemma RowsAre(w: seq<Event>, site: string, day: int)
    ensures forall e :: e in SiteDayRows(w, site, day) <==> e in w && e.site == site && day <= e.ts < day + 86_400
  {
    RowsOfDay(w, site, day);
    assert forall e :: OnDay(site, day)(e) <==> e.site == site && day <= e.ts < day + 86_400;
  }

  lemma KeysAre(rows: seq<Event>, d: Dimension, key: string)
    ensures key in Keys(rows, d) <==> exists e :: e in rows && Shows(d, e, key)
  {
    forall e
      ensures Key(d, e) == key <==> Shows(d, e, key)
    {
      KeyShows(d, e, key);
    }
  }

  lemma DayReportKeys(w: seq<Event>, site: string, d: Dimension, key: string, day: int)
    ensures key in DayReport(w, d, site, day) <==> key in Keys(SiteDayRows(w, site, day), d)
  {}

  lemma ShowsInRows(w: seq<Event>, rows: seq<Event>, site: string, d: Dimension, key: string, start: int, end: int)
    requires forall e :: e in rows <==> e in w && e.site == site && start <= e.ts < end
    ensures (exists e :: e in rows && Shows(d, e, key)) <==> SomeShows(w, site, d, key, start, end)
  {
    if SomeShows(w, site, d, key, start, end) {
      var e :| e in w && e.site == site && start <= e.ts < end && Shows(d, e, key);
      assert e in rows;
    }
  }

  /** A key has a row exactly when some event of the day shows it ... */
  lemma DayKeyIff(w: seq<Event>, site: string, d: Dimension, key: string, day: int)
    ensures key in DayReport(w, d, site, day) <==> SomeShows(w, site, d, key, day, day + 86_400)
  {
    var rows := SiteDayRows(w, site, day);
    DayReportKeys(w, site, d, key, day);
    KeysAre(rows, d, key);
    RowsAre(w, site, day);
    ShowsInRows(w, rows, site, d, key, day, day + 86_400);
  }

  /** ... and the row holds what those events add up to. */
  lemma DayRowIsCounted(w: seq<Event>, site: string, d: Dimension, key: string, day: int)
    requires key in DayReport(w, d, site, day)
    ensures DayReport(w, d, site, day)[key] == Counted(w, site, Keyed(d, key), day, day + 86_400)
  {
    var rows, slice := SiteDayRows(w, site, day), Keyed(d, key);
    assert DayReport(w, d, site, day)[key] == ToMetricRow(RawRow(rows, d, key));
    ViewsOfSlice(w, site, slice, day);
    FilterAgree(Group(rows, d, key), IsView(), (e: Event) => e.IsPageview());
    IdsOfSlice(w, site, slice, day);
    EngagementOfSlice(w, site, slice, day);
    BouncesOfKey(w, site, d, key, day);
  }

  /** Without such an event there is nothing to count. */
  lemma NothingCounted(w: seq<Event>, site: string, d: Dimension, key: string, start: int, end: int)
    requires !SomeShows(w, site, d, key, start, end)
    ensures Counted(w, site, Keyed(d, key), start, end) == METRICS.zero
  {
    forall i: nat | In(w, i, site, start, end)
      ensures !Shows(d, w[i], key)
    {
      assert w[i] in w;
    }
    var slice := Keyed(d, key);
    assert Views(w, site, slice, start, end) == {} && VisitorIds(w, site, slice, start, end) == {};
    assert SessionIds(w, site, slice, start, end) == {} && OnlyViews(w, site, slice, start, end) == {};
    assert Engagements(w, site, slice, start, end) == {};
  }

  /** A day's rows as a single row of everything. */
  function Together(rows: seq<Event>): Counters {
    Counters(Count(rows, IsView()), |Visitors(rows)|, |Sessions(rows)|, |BounceSessions(rows)|, EngagementSum(rows).GetOr(0))
  }

  /** The same for all of the site's events of the day. */
  lemma DayIsCounted(w: seq<Event>, site: string, day: int)
    ensures Counted(w, site, Whole, day, day + 86_400) == Together(SiteDayRows(w, site, day))
  {
    var rows := SiteDayRows(w, site, day);
    ViewsOfSlice(w, site, Whole, day);
    IdsOfSlice(w, site, Whole, day);
    EngagementOfSlice(w, site, Whole, day);
    BouncesBySession(rows);
    BouncesOfSlice(w, site, Whole, day, IsBounceOf(rows));
  }
}
