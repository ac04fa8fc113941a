/**
 The browser tracker's page state: how deep the page was scrolled, how long it
 was visible, and what was sent about it.
 */
module ScrollTracker {
  import opened Wrappers
  import opened Counting

  const SCROLL_MILESTONES: seq<int> := [25, 50, 75, 100]

  datatype Payload =
    | PageviewSent(path: string)
    | EngagementSent(path: string, seconds: int)
    | ScrollSent(path: string, milestone: int)

  /** Math.round: halves round up. */
  function Round(x: real): int {
    (x + 0.5).Floor
  }

  function Crosses(previousMax: int, current: int): int -> bool {
    m => m > previousMax && m <= current
  }

  function UpTo(depth: int): int -> bool {
    m => m <= depth
  }

  /** Which of the marks `ms` lie beyond the old maximum and not beyond the new position. */
  function NewlyCrossed(ms: seq<int>, previousMax: int, current: int): seq<int> {
    Filter(ms, Crosses(previousMax, current))
  }

  function MilestonesUpTo(ms: seq<int>, depth: int): seq<int> {
    Filter(ms, UpTo(depth))
  }

  /** A scroll position as a whole percentage; None when the page does not scroll. */
  function ScrollPercent(scrollY: real, scrollHeight: int, innerHeight: int): Option<int> {
    var scrollable := scrollHeight - innerHeight;
    if scrollable <= 0 then None
    else
      var percent := Round(scrollY / (scrollable as real) * 100.0);
      Some(if percent < 100 then percent else 100)
  }

  /**
   The percentage never passes 100 and reaches it at the end of the page and beyond;
   the top is 0, and a rubber-band scroll above it is not positive.
   */
  lemma PercentOfPage(scrollY: real, scrollHeight: int, innerHeight: int)
    requires scrollHeight > innerHeight
    ensures var percent := ScrollPercent(scrollY, scrollHeight, innerHeight).value;
            && percent <= 100
            && (scrollY >= 0.0 ==> percent >= 0)
            && (scrollY <= 0.0 ==> percent <= 0)
            && (scrollY >= (scrollHeight - innerHeight) as real ==> percent == 100)
    ensures ScrollPercent(scrollY, innerHeight, scrollHeight) == None
  {
    var scrollable := (scrollHeight - innerHeight) as real;
    var ratio := scrollY / scrollable;
    assert ratio * scrollable == scrollY;
    assert scrollY >= 0.0 ==> ratio >= 0.0;
    assert scrollY <= 0.0 ==> ratio <= 0.0;
    assert scrollY >= scrollable ==> ratio >= 1.0;
  }

  lemma OrderedTimes(a: real, b: real, s: real)
    requires s > 0.0
    ensures a <= b ==> a * s <= b * s
    ensures a < b ==> a * s < b * s
  {
    assert (b - a) * s == b * s - a * s;
  }

  lemma NearestPercent(scrollY: real, scrollable: real, ratio: real, percent: int)
    requires scrollable > 0.0 && ratio * scrollable == scrollY && percent == Round(ratio * 100.0)
    ensures (percent as real - 0.5) * scrollable <= 100.0 * scrollY < (percent as real + 0.5) * scrollable
  {
    var hundredfold, lower, upper := ratio * 100.0, percent as real - 0.5, percent as real + 0.5;
    assert lower <= hundredfold < upper;
    OrderedTimes(lower, hundredfold, scrollable);
    OrderedTimes(hundredfold, upper, scrollable);
    assert hundredfold * scrollable == 100.0 * (ratio * scrollable);
    assert 100.0 * scrollY < upper * scrollable;
    assert lower * scrollable <= 100.0 * scrollY;
  }

  /** Short of 100 it is the nearest whole percentage of what can be scrolled, halves up. */
  lemma PercentIsNearest(scrollY: real, scrollHeight: int, innerHeight: int)
    requires scrollHeight > innerHeight
    ensures var percent, scrollable := ScrollPercent(scrollY, scrollHeight, innerHeight).value, (scrollHeight - innerHeight) as real;
            percent < 100 ==> (percent as real - 0.5) * scrollable <= 100.0 * scrollY < (percent as real + 0.5) * scrollable
  {
    var scrollable := (scrollHeight - innerHeight) as real;
    NearestPercent(scrollY, scrollable, scrollY / scrollable, Round(scrollY / scrollable * 100.0));
  }

  function Deeper(deepest: int, percent: Option<int>): int {
    if percent.Some? && percent.value > deepest then percent.value else deepest
  }

  function ScrollPayloads(path: string, milestones: seq<int>): seq<Payload> {
    seq(|milestones|, i requires 0 <= i < |milestones| => ScrollSent(path, milestones[i]))
  }

  // ---- the engagement timer ----

  datatype Visibility = Shown(at: int) | Hidden(at: int)

  /** Whether the page is visible at instant t: what the last change up to t says, before any change how it was created. */
  predicate SeenAt(atStart: bool, changes: seq<Visibility>, t: int) {
    if changes == [] then atStart
    else if changes[|changes| - 1].at <= t then changes[|changes| - 1].Shown?
    else SeenAt(atStart, changes[..|changes| - 1], t)
  }

  /** How many of the milliseconds of [start, now) found the page visible. */
  function VisibleInstants(atStart: bool, changes: seq<Visibility>, start: int, now: int): nat
    decreases now - start
  {
    if now <= start then 0
    else VisibleInstants(atStart, changes, start, now - 1) + if SeenAt(atStart, changes, now - 1) then 1 else 0
  }

  /** When the visibility first changed, or now if it never did. */
  function FirstChange(changes: seq<Visibility>, now: int): int {
    if changes == [] then now else changes[0].at
  }

  datatype TimerState = TimerState(accumulated: int, shownAt: Option<int>)

  function HideAt(s: TimerState, now: int): TimerState {
    if s.shownAt.Some? then TimerState(s.accumulated + now - s.shownAt.value, None) else s
  }

  function ShowAt(s: TimerState, now: int): TimerState {
    if s.shownAt.None? then s.(shownAt := Some(now)) else s
  }

  function VisibleMs(s: TimerState, now: int): int {
    s.accumulated + if s.shownAt.Some? then now - s.shownAt.value else 0
  }

  /** The nearest whole second, halves up. */
  function ToSeconds(ms: int): (seconds: int)
    ensures 1000 * seconds - 500 <= ms < 1000 * seconds + 500
  {
    Round(ms as real / 1000.0)
  }

  function AfterChanges(changes: seq<Visibility>, start: int): TimerState {
    if changes == [] then TimerState(0, Some(start))
    else
      var s, last := AfterChanges(changes[..|changes| - 1], start), changes[|changes| - 1];
      if last.Shown? then ShowAt(s, last.at) else HideAt(s, last.at)
  }

  class EngagementTimer {
    var accumulated: int
    var shownAt: Option<int>

    ghost function State(): TimerState
      reads this
    {
      TimerState(accumulated, shownAt)
    }

    constructor (now: int)
      ensures State() == AfterChanges([], now)
    {
      accumulated, shownAt := 0, Some(now);
    }

    method Hide(now: int)
      modifies this
      ensures State() == HideAt(old(State()), now)
    {
      if shownAt.Some? {
        accumulated := accumulated + (now - shownAt.value);
        shownAt := None;
      }
    }

    method Show(now: int)
      modifies this
      ensures State() == ShowAt(old(State()), now)
    {
      if shownAt.None? {
        shownAt := Some(now);
      }
    }

    method VisibleSeconds(now: int) returns (seconds: int)
      ensures seconds == ToSeconds(VisibleMs(State(), now))
    {
      var live := if shownAt.None? then 0 else now - shownAt.value;
      seconds := Round((accumulated + live) as real / 1000.0);
    }
  }

  ghost predicate Monotone(changes: seq<Visibility>, start: int, now: int) {
    && start <= now
    && (forall i | 0 <= i < |changes| :: start <= changes[i].at <= now)
    && (forall i, j | 0 <= i < j < |changes| :: changes[i].at <= changes[j].at)
  }

  lemma {:induction false} LaterChangesDoNotMatter(atStart: bool, changes: seq<Visibility>, last: Visibility, start: int, now: int)
    requires now <= last.at
    ensures VisibleInstants(atStart, changes + [last], start, now) == VisibleInstants(atStart, changes, start, now)
    decreases now - start
  {
    if now > start {
      LaterChangesDoNotMatter(atStart, changes, last, start, now - 1);
      assert (changes + [last])[..|changes|] == changes;
    }
  }

  lemma {:induction false} SinceLastChange(atStart: bool, changes: seq<Visibility>, last: Visibility, start: int, now: int)
    requires start <= last.at <= now
    ensures VisibleInstants(atStart, changes + [last], start, now)
         == VisibleInstants(atStart, changes, start, last.at) + if last.Shown? then now - last.at else 0
    decreases now - last.at
  {
    if now == last.at {
      LaterChangesDoNotMatter(atStart, changes, last, start, now);
    } else {
      SinceLastChange(atStart, changes, last, start, now - 1);
    }
  }

  lemma {:induction false} WithoutChanges(atStart: bool, start: int, now: int)
    requires start <= now
    ensures VisibleInstants(atStart, [], start, now) == if atStart then now - start else 0
    decreases now - start
  {
    if start < now {
      WithoutChanges(atStart, start, now - 1);
    }
  }

  /**
   The timer starts as if the page were visible. However often it is hidden or
   shown, twice in a row included, the reading is the time the page was visible
   and, for a page created hidden, all the time up to the first change as well.
   */
  lemma {:induction false} TimerReading(atStart: bool, changes: seq<Visibility>, start: int, now: int)
    requires Monotone(changes, start, now)
    ensures VisibleMs(AfterChanges(changes, start), now)
         == VisibleInstants(atStart, changes, start, now) + if atStart then 0 else FirstChange(changes, now) - start
    decreases |changes|, now
  {
    if changes == [] {
      WithoutChanges(atStart, start, now);
    } else {
      var init, last := changes[..|changes| - 1], changes[|changes| - 1];
      assert changes == init + [last];
      TimerReading(atStart, init, start, last.at);
      SinceLastChange(atStart, init, last, start, now);
    }
  }

  /** So it measures visible time exactly when the page was visible to begin with, or its visibility changed at once. */
  lemma TimerMeasuresVisibilityIff(atStart: bool, changes: seq<Visibility>, start: int, now: int)
    requires Monotone(changes, start, now)
    ensures VisibleMs(AfterChanges(changes, start), now) == VisibleInstants(atStart, changes, start, now)
       <==> atStart || FirstChange(changes, now) == start
  {
    TimerReading(atStart, changes, start, now);
  }

  /** A page created in the background, by opening a tab or by a route change there, and left an hour without being shown. */
  lemma HiddenHourReadsAnHour(start: int)
    ensures VisibleInstants(false, [], start, start + 3_600_000) == 0
    ensures ToSeconds(VisibleMs(AfterChanges([], start), start + 3_600_000)) == 3600
  {
    WithoutChanges(false, start, start + 3_600_000);
  }

  // ---- the tracker ----

  class Tracker {
    var deepestScroll: int
    var engagement: EngagementTimer
    var currentPath: string
    var sent: seq<Payload>

    constructor (now: int)
      ensures deepestScroll == 0 && currentPath == "" && sent == [] && fresh(engagement)
      ensures engagement.State() == AfterChanges([], now)
    {
      deepestScroll, currentPath, sent := 0, "", [];
      engagement := new EngagementTimer(now);
    }

    method FlushEngagement(now: int)
      modifies `sent
      ensures var seconds := ToSeconds(VisibleMs(engagement.State(), now));
              sent == old(sent) + if seconds <= 0 then [] else [EngagementSent(currentPath, seconds)]
    {
      var seconds := engagement.VisibleSeconds(now);
      if seconds <= 0 {
        return;
      }
      sent := sent + [EngagementSent(currentPath, seconds)];
    }

    /** A new path starts a new page; the same path again changes nothing. */
    method TrackPageview(path: string, now: int)
      modifies this
      ensures path == old(currentPath) ==> unchanged(this)
      ensures path != old(currentPath) ==>
                && currentPath == path && deepestScroll == 0 && sent == old(sent) + [PageviewSent(path)]
                && fresh(engagement) && engagement.State() == AfterChanges([], now)
    {
      if path == currentPath {
        return;
      }
      currentPath := path;
      deepestScroll := 0;
      engagement := new EngagementTimer(now);
      sent := sent + [PageviewSent(path)];
    }

    method SendMilestones(milestones: seq<int>)
      modifies `sent
      ensures sent == old(sent) + ScrollPayloads(currentPath, milestones)
    {
      for i := 0 to |milestones|
        invariant sent == old(sent) + ScrollPayloads(currentPath, milestones)[..i]
      {
        sent := sent + [ScrollSent(currentPath, milestones[i])];
      }
    }

    method OnScroll(scrollY: real, scrollHeight: int, innerHeight: int)
      modifies `sent, `deepestScroll
      ensures var percent := ScrollPercent(scrollY, scrollHeight, innerHeight);
              && deepestScroll == Deeper(old(deepestScroll), percent)
              && sent == old(sent) + ScrollsSent(SCROLL_MILESTONES, old(deepestScroll), currentPath, percent)
    {
      var scrollable := scrollHeight - innerHeight;
      if scrollable <= 0 {
        return;
      }
      var rounded := Round(scrollY / (scrollable as real) * 100.0);
      var percent := if rounded < 100 then rounded else 100;
      SendMilestones(NewlyCrossed(SCROLL_MILESTONES, deepestScroll, percent));
      if percent > deepestScroll {
        deepestScroll := percent;
      }
    }
  }

  /** What one scroll event sends. */
  function ScrollsSent(ms: seq<int>, deepest: int, path: string, percent: Option<int>): seq<Payload> {
    if percent.None? then [] else ScrollPayloads(path, NewlyCrossed(ms, deepest, percent.value))
  }

  /** The deepest percentage after a page's scroll events, starting from the top. */
  function Deepest(scrolls: seq<Option<int>>): int {
    if scrolls == [] then 0 else Deeper(Deepest(scrolls[..|scrolls| - 1]), scrolls[|scrolls| - 1])
  }

  /** Everything a page's scroll events send. */
  function AllScrollsSent(ms: seq<int>, path: string, scrolls: seq<Option<int>>): seq<Payload> {
    if scrolls == [] then []
    else
      var init := scrolls[..|scrolls| - 1];
      AllScrollsSent(ms, path, init) + ScrollsSent(ms, Deepest(init), path, scrolls[|scrolls| - 1])
  }

  lemma {:induction false} DeepestIsMax(scrolls: seq<Option<int>>)
    ensures 0 <= Deepest(scrolls)
    ensures forall p | p in scrolls && p.Some? :: p.value <= Deepest(scrolls)
    ensures Deepest(scrolls) == 0 || Some(Deepest(scrolls)) in scrolls
  {
    if scrolls != [] {
      DeepestIsMax(scrolls[..|scrolls| - 1]);
    }
  }

  ghost predicate Increasing(s: seq<int>) {
    forall i, j | 0 <= i < j < |s| :: s[i] < s[j]
  }

  /** On an increasing list, what lies up to a is followed by what lies between a and b. */
  lemma {:induction false} CrossingsExtend(s: seq<int>, a: int, b: int)
    requires Increasing(s)
    ensures Filter(s, UpTo(a)) + Filter(s, Crosses(a, b)) == Filter(s, UpTo(if a < b then b else a))
  {
    if s != [] {
      CrossingsExtend(s[1..], a, b);
      if s[0] > a {
        FilterNone(s, UpTo(a));
      }
    }
  }

  lemma ScrollPayloadsConcat(path: string, a: seq<int>, b: seq<int>)
    ensures ScrollPayloads(path, a) + ScrollPayloads(path, b) == ScrollPayloads(path, a + b)
  {}

  /** A list of milestones: positive and increasing, like the shipped one. */
  ghost predicate Milestones(ms: seq<int>) {
    Increasing(ms) && forall m | m in ms :: m > 0
  }

  lemma ShippedMilestones()
    ensures Milestones(SCROLL_MILESTONES)
  {}

  /** Whatever the scroll positions, a page sends each milestone up to its deepest one once, in increasing order, and no other. */
  lemma {:induction false} PageSendsItsMilestones(ms: seq<int>, path: string, scrolls: seq<Option<int>>)
    requires Milestones(ms)
    ensures AllScrollsSent(ms, path, scrolls) == ScrollPayloads(path, MilestonesUpTo(ms, Deepest(scrolls)))
    ensures Increasing(MilestonesUpTo(ms, Deepest(scrolls)))
  {
    FilterIncreasing(ms, UpTo(Deepest(scrolls)));
    if scrolls == [] {
      FilterNone(ms, UpTo(0));
    } else {
      var init, last := scrolls[..|scrolls| - 1], scrolls[|scrolls| - 1];
      PageSendsItsMilestones(ms, path, init);
      if last.Some? {
        CrossingsExtend(ms, Deepest(init), last.value);
        ScrollPayloadsConcat(path, MilestonesUpTo(ms, Deepest(init)), NewlyCrossed(ms, Deepest(init), last.value));
      }
    }
  }

  /** The shipped marks: whatever the scroll positions, a page sends those not above its deepest percentage. */
  lemma ShippedPageSends(path: string, scrolls: seq<Option<int>>)
    ensures AllScrollsSent(SCROLL_MILESTONES, path, scrolls)
         == ScrollPayloads(path, MilestonesUpTo(SCROLL_MILESTONES, Deepest(scrolls)))
    ensures Increasing(MilestonesUpTo(SCROLL_MILESTONES, Deepest(scrolls)))
    ensures forall m :: m in MilestonesUpTo(SCROLL_MILESTONES, Deepest(scrolls)) <==> m in {25, 50, 75, 100} && m <= Deepest(scrolls)
  {
    ShippedMilestones();
    assert forall m :: m in SCROLL_MILESTONES <==> m in {25, 50, 75, 100};
    PageSendsItsMilestones(SCROLL_MILESTONES, path, scrolls);
  }

  lemma {:induction false} FilterIncreasing(s: seq<int>, p: int -> bool)
    requires Increasing(s)
    ensures Increasing(Filter(s, p))
  {
    if s != [] {
      var rest := Filter(s[1..], p);
      FilterIncreasing(s[1..], p);
      forall i | 0 <= i < |rest|
        ensures s[0] < rest[i]
      {
        assert rest[i] in s[1..];
        var k :| 0 <= k < |s[1..]| && s[1..][k] == rest[i];
        assert s[0] < s[k + 1];
      }
      IncreasingPrepend(s[0], rest);
    }
  }

  lemma IncreasingPrepend(x: int, s: seq<int>)
    requires Increasing(s) && forall i | 0 <= i < |s| :: x < s[i]
    ensures Increasing([x] + s)
  {}

  /** The largest milestone reached. */
  function MilestoneReached(ms: seq<int>, depth: int): Option<int> {
    var reached := MilestonesUpTo(ms, depth);
    if reached == [] then None else Some(reached[|reached| - 1])
  }

  lemma MilestoneReachedIsLargest(ms: seq<int>, depth: int)
    requires Milestones(ms)
    ensures MilestoneReached(ms, depth).None? <==> forall m | m in ms :: m > depth
    ensures MilestoneReached(ms, depth).Some? ==>
              var m := MilestoneReached(ms, depth).value;
              m in ms && m <= depth && forall k | k in ms && k <= depth :: k <= m
  {
    var reached := MilestonesUpTo(ms, depth);
    FilterIncreasing(ms, UpTo(depth));
    forall m | m in ms && m <= depth
      ensures m in reached && reached != []
    {
      assert UpTo(depth)(m);
    }
    if reached != [] {
      assert reached[|reached| - 1] in reached;
    }
  }

  // ---- several visits to one page ----

  /** The deepest of several visits. */
  function DeepestVisit(visits: seq<nat>): nat {
    if visits == [] then 0
    else
      var init := DeepestVisit(visits[..|visits| - 1]);
      if visits[|visits| - 1] > init then visits[|visits| - 1] else init
  }

  lemma {:induction false} DeepestVisitIsMax(visits: seq<nat>)
    ensures forall i | 0 <= i < |visits| :: visits[i] <= DeepestVisit(visits)
    ensures visits != [] ==> exists i :: 0 <= i < |visits| && visits[i] == DeepestVisit(visits)
  {
    if visits != [] {
      var init, last := visits[..|visits| - 1], visits[|visits| - 1];
      DeepestVisitIsMax(init);
      if DeepestVisit(visits) == last {
        assert visits[|visits| - 1] == DeepestVisit(visits);
      } else {
        var i :| 0 <= i < |init| && init[i] == DeepestVisit(init);
        assert visits[i] == DeepestVisit(visits);
      }
    }
  }

  /** Some visit sends the milestone. */
  ghost predicate SentInSome(ms: seq<int>, visits: seq<nat>, m: int) {
    exists i :: 0 <= i < |visits| && m in MilestonesUpTo(ms, visits[i])
  }

  /** Over several visits, the milestones sent are those up to the deepest visit. */
  lemma {:induction false} VisitsSend(ms: seq<int>, visits: seq<nat>, m: int)
    requires Milestones(ms)
    ensures SentInSome(ms, visits, m) <==> m in MilestonesUpTo(ms, DeepestVisit(visits))
  {
    DeepestVisitIsMax(visits);
    if m in MilestonesUpTo(ms, DeepestVisit(visits)) && visits != [] {
      var i :| 0 <= i < |visits| && visits[i] == DeepestVisit(visits);
      assert m in MilestonesUpTo(ms, visits[i]);
    }
    if SentInSome(ms, visits, m) {
      var i :| 0 <= i < |visits| && m in MilestonesUpTo(ms, visits[i]);
      assert UpTo(visits[i])(m) && UpTo(DeepestVisit(visits))(m);
    }
  }
}
