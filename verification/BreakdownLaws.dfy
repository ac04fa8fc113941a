/**
 What adding up a breakdown's rows means: which columns add up to the site's
 own number, and exactly when the distinct counts do.
 */
module BreakdownLaws {
  import opened Counting
  import opened TrackedEvent
  import opened Aggregates

  // One column of a breakdown's rows, by key.

  function PageviewsBy(rows: seq<Event>, d: Dimension): string -> int { k => RawRow(rows, d, k).pageviews }

  function VisitorsBy(rows: seq<Event>, d: Dimension): string -> int { k => RawRow(rows, d, k).visitors }

  function SessionsBy(rows: seq<Event>, d: Dimension): string -> int { k => RawRow(rows, d, k).sessions }

  function BouncesBy(rows: seq<Event>, d: Dimension): string -> int { k => RawRow(rows, d, k).bounces }

  function EngagementBy(rows: seq<Event>, d: Dimension): string -> int { k => RawRow(rows, d, k).engagement.GetOr(0) }

  // Row predicates, named so that they mean the same everywhere.

  function IsView(): Event -> bool { (e: Event) => e.IsPageview() }

  function KeyIn(d: Dimension): Event -> string { (e: Event) => Key(d, e) }

  function ViewsOf(d: Dimension): string -> (Event -> bool) {
    (k: string) => (e: Event) => e.IsPageview() && Key(d, e) == k
  }

  function SizeOf(rows: seq<Event>, within: string -> (Event -> bool)): string -> int {
    k => Count(rows, within(k))
  }

  lemma PageviewsOfKey(rows: seq<Event>, d: Dimension, k: string)
    ensures RawRow(rows, d, k).pageviews == Count(rows, ViewsOf(d)(k))
  {
    FilterFilter(rows, (e: Event) => Key(d, e) == k, (e: Event) => e.IsPageview(), ViewsOf(d)(k));
  }

  /** Pageviews partition over the keys of any dimension. */
  lemma PageviewsAddUp(rows: seq<Event>, d: Dimension)
    ensures Total(Keys(rows, d), PageviewsBy(rows, d)) == Count(rows, IsView())
  {
    CountByGroup(rows, IsView(), KeyIn(d), Keys(rows, d), ViewsOf(d), SizeOf(rows, ViewsOf(d)));
    forall k | k in Keys(rows, d)
      ensures PageviewsBy(rows, d)(k) == SizeOf(rows, ViewsOf(d))(k)
    {
      PageviewsOfKey(rows, d, k);
    }
    TotalAgree(Keys(rows, d), PageviewsBy(rows, d), SizeOf(rows, ViewsOf(d)));
  }

  /** The LEFT JOIN loses no bounce: every bounce key has an aggregate row, and the joined value is the count. */
  lemma BounceJoinLosesNothing(rows: seq<Event>, d: Dimension, key: string)
    ensures BounceAgg(rows, d).Keys <= RawReport(rows, d).Keys
    ensures RawRow(rows, d, key).bounces == Count(rows, (e: Event) => IsBounce(rows, e) && Key(d, e) == key)
  {
    if key !in BounceKeys(rows, d) {
      FilterNone(rows, (e: Event) => IsBounce(rows, e) && Key(d, e) == key);
    }
  }

  function BounceSessions(rows: seq<Event>): set<Bytes> {
    set s | s in Sessions(rows) && IsBounceSession(rows, s)
  }

  lemma SessionCountedOnce(rows: seq<Event>, session: Bytes)
    requires IsBounceSession(rows, session)
    ensures Count(rows, (e: Event) => IsBounce(rows, e) && e.session == session) == 1
    ensures session in Sessions(rows)
  {
    FilterAgree(rows, (e: Event) => IsBounce(rows, e) && e.session == session,
                (e: Event) => e.IsPageview() && e.session == session);
    var views := Filter(rows, (e: Event) => e.IsPageview() && e.session == session);
    assert views[0] in views;
  }

  function IsBounceOf(rows: seq<Event>): Event -> bool { (e: Event) => IsBounce(rows, e) }

  function BouncesOf(rows: seq<Event>, d: Dimension): string -> (Event -> bool) {
    (k: string) => (e: Event) => IsBounce(rows, e) && Key(d, e) == k
  }

  lemma BouncesByKey(rows: seq<Event>, d: Dimension)
    ensures Total(Keys(rows, d), BouncesBy(rows, d)) == Count(rows, IsBounceOf(rows))
  {
    CountByGroup(rows, IsBounceOf(rows), KeyIn(d), Keys(rows, d), BouncesOf(rows, d), SizeOf(rows, BouncesOf(rows, d)));
    forall k | k in Keys(rows, d)
      ensures BouncesBy(rows, d)(k) == SizeOf(rows, BouncesOf(rows, d))(k)
    {
      BounceJoinLosesNothing(rows, d, k);
      FilterAgree(rows, BouncesOf(rows, d)(k), (e: Event) => IsBounce(rows, e) && Key(d, e) == k);
    }
    TotalAgree(Keys(rows, d), BouncesBy(rows, d), SizeOf(rows, BouncesOf(rows, d)));
  }

  lemma BouncesBySession(rows: seq<Event>)
    ensures Count(rows, IsBounceOf(rows)) == |BounceSessions(rows)|
  {
    var within := (s: Bytes) => (e: Event) => IsBounce(rows, e) && e.session == s;
    var size := (s: Bytes) => Count(rows, within(s));
    CountByGroup(rows, IsBounceOf(rows), (e: Event) => e.session, BounceSessions(rows), within, size);
    forall s | s in BounceSessions(rows)
      ensures size(s) == 1
    {
      SessionCountedOnce(rows, s);
      FilterAgree(rows, within(s), (e: Event) => IsBounce(rows, e) && e.session == s);
    }
    TotalScaled(BounceSessions(rows), size, 1);
  }

  /** Bounces summed over the keys are the sessions with exactly one pageview. */
  lemma BouncesAddUp(rows: seq<Event>, d: Dimension)
    ensures Total(Keys(rows, d), BouncesBy(rows, d)) == |BounceSessions(rows)|
  {
    BouncesByKey(rows, d);
    BouncesBySession(rows);
  }

  /** Per key, bounces exceed neither pageviews nor sessions. */
  lemma BouncesAreBounded(rows: seq<Event>, d: Dimension, key: string)
    ensures 0 <= RawRow(rows, d, key).bounces <= RawRow(rows, d, key).pageviews
    ensures RawRow(rows, d, key).bounces <= RawRow(rows, d, key).sessions
  {
    var group := Group(rows, d, key);
    var bounce := (e: Event) => IsBounce(rows, e);
    BounceJoinLosesNothing(rows, d, key);
    FilterFilter(rows, (e: Event) => Key(d, e) == key, bounce, (e: Event) => IsBounce(rows, e) && Key(d, e) == key);
    assert RawRow(rows, d, key).bounces == Count(group, bounce);
    CountAtMost(group, bounce, (e: Event) => e.IsPageview());

    var within := (s: Bytes) => (e: Event) => IsBounce(rows, e) && e.session == s;
    var size := (s: Bytes) => Count(group, within(s));
    CountByGroup(group, bounce, (e: Event) => e.session, Sessions(group), within, size);
    forall s | s in Sessions(group)
      ensures size(s) <= 1
    {
      AtMostOneBouncePerSession(rows, group, s);
      FilterAgree(group, within(s), (e: Event) => IsBounce(rows, e) && e.session == s);
    }
    TotalAtMost(Sessions(group), size, s => 1);
    TotalScaled(Sessions(group), s => 1, 1);
  }

  lemma AtMostOneBouncePerSession(rows: seq<Event>, group: seq<Event>, session: Bytes)
    requires exists d, key :: group == Group(rows, d, key)
    ensures Count(group, (e: Event) => IsBounce(rows, e) && e.session == session) <= 1
  {
    var d, key :| group == Group(rows, d, key);
    var p := (e: Event) => IsBounce(rows, e) && e.session == session;
    FilterFilter(rows, (e: Event) => Key(d, e) == key, p, (e: Event) => p(e) && Key(d, e) == key);
    CountAtMost(rows, (e: Event) => p(e) && Key(d, e) == key, p);
    if IsBounceSession(rows, session) {
      SessionCountedOnce(rows, session);
    } else {
      FilterNone(rows, p);
    }
  }

  /** The dimension is a function of the identity: one identity, one key. */
  ghost predicate Determines(rows: seq<Event>, identity: Event -> Bytes, d: Dimension) {
    forall x, y | x in rows && y in rows && identity(x) == identity(y) :: Key(d, x) == Key(d, y)
  }

  function Distinct(rows: seq<Event>, identity: Event -> Bytes): set<Bytes> {
    set e | e in rows :: identity(e)
  }

  function KeyedIds(rows: seq<Event>, d: Dimension, identity: Event -> Bytes): set<(string, Bytes)> {
    set e | e in rows :: (Key(d, e), identity(e))
  }

  function KeyOf(): ((string, Bytes)) -> string { (p: (string, Bytes)) => p.0 }

  function IdOf(): ((string, Bytes)) -> Bytes { (p: (string, Bytes)) => p.1 }

  lemma PairsOfKey(rows: seq<Event>, d: Dimension, identity: Event -> Bytes, key: string)
    ensures |Fibre(KeyedIds(rows, d, identity), KeyOf(), key)| == |Distinct(Group(rows, d, key), identity)|
  {
    var part := Fibre(KeyedIds(rows, d, identity), KeyOf(), key);
    var ids := Distinct(Group(rows, d, key), identity);
    forall id | id in ids
      ensures (key, id) in part
    {
      var e :| e in Group(rows, d, key) && identity(e) == id;
      assert (Key(d, e), identity(e)) in KeyedIds(rows, d, identity);
    }
    forall p | p in part
      ensures p == (key, p.1) && p.1 in ids
    {}
    assert forall id | id in ids :: IdOf()((key, id)) == id;
    assert ids == Image(part, IdOf());
    ImageSize(part, IdOf());
  }

  lemma OneKeyEachIsDetermines(rows: seq<Event>, d: Dimension, identity: Event -> Bytes)
    ensures Injective(KeyedIds(rows, d, identity), IdOf()) <==> Determines(rows, identity, d)
  {
    var pairs := KeyedIds(rows, d, identity);
    if Injective(pairs, IdOf()) {
      forall x, y | x in rows && y in rows && identity(x) == identity(y)
        ensures Key(d, x) == Key(d, y)
      {
        assert (Key(d, x), identity(x)) in pairs && (Key(d, y), identity(y)) in pairs;
        assert IdOf()((Key(d, x), identity(x))) == IdOf()((Key(d, y), identity(y)));
      }
    }
  }

  /**
   Distinct counts summed over a breakdown never fall short of the distinct
   count, and are exact precisely when the identity determines the key.
   */
  lemma DistinctAddUp(rows: seq<Event>, d: Dimension, identity: Event -> Bytes, size: string -> int)
    requires forall k | k in Keys(rows, d) :: size(k) == |Distinct(Group(rows, d, k), identity)|
    ensures Total(Keys(rows, d), size) >= |Distinct(rows, identity)|
    ensures Total(Keys(rows, d), size) == |Distinct(rows, identity)| <==> Determines(rows, identity, d)
  {
    var pairs := KeyedIds(rows, d, identity);
    forall k | k in Keys(rows, d)
      ensures size(k) == FibreSizes(pairs, KeyOf())(k)
    {
      PairsOfKey(rows, d, identity, k);
    }
    TotalAgree(Keys(rows, d), size, FibreSizes(pairs, KeyOf()));
    SizeByGroup(pairs, KeyOf(), Keys(rows, d));
    DistinctOfPairs(rows, d, identity);
  }

  lemma IdsOfPairs(rows: seq<Event>, d: Dimension, identity: Event -> Bytes)
    ensures Distinct(rows, identity) == Image(KeyedIds(rows, d, identity), IdOf())
  {
    var pairs := KeyedIds(rows, d, identity);
    forall id | id in Distinct(rows, identity)
      ensures id in Image(pairs, IdOf())
    {
      var e :| e in rows && identity(e) == id;
      assert (Key(d, e), identity(e)) in pairs;
      assert IdOf()((Key(d, e), identity(e))) == id;
    }
  }

  lemma DistinctOfPairs(rows: seq<Event>, d: Dimension, identity: Event -> Bytes)
    ensures |Distinct(rows, identity)| <= |KeyedIds(rows, d, identity)|
    ensures |Distinct(rows, identity)| == |KeyedIds(rows, d, identity)| <==> Determines(rows, identity, d)
  {
    IdsOfPairs(rows, d, identity);
    ImageSize(KeyedIds(rows, d, identity), IdOf());
    OneKeyEachIsDetermines(rows, d, identity);
  }

  function VisitorOf(): Event -> Bytes { (e: Event) => e.visitor }

  function SessionOf(): Event -> Bytes { (e: Event) => e.session }

  lemma VisitorsAddUp(rows: seq<Event>, d: Dimension)
    ensures Total(Keys(rows, d), VisitorsBy(rows, d)) >= |Visitors(rows)|
    ensures Total(Keys(rows, d), VisitorsBy(rows, d)) == |Visitors(rows)| <==> Determines(rows, VisitorOf(), d)
  {
    forall k | k in Keys(rows, d)
      ensures Visitors(Group(rows, d, k)) == Distinct(Group(rows, d, k), VisitorOf())
    {}
    assert Visitors(rows) == Distinct(rows, VisitorOf());
    DistinctAddUp(rows, d, VisitorOf(), VisitorsBy(rows, d));
  }

  lemma SessionsAddUp(rows: seq<Event>, d: Dimension)
    ensures Total(Keys(rows, d), SessionsBy(rows, d)) >= |Sessions(rows)|
    ensures Total(Keys(rows, d), SessionsBy(rows, d)) == |Sessions(rows)| <==> Determines(rows, SessionOf(), d)
  {
    forall k | k in Keys(rows, d)
      ensures Sessions(Group(rows, d, k)) == Distinct(Group(rows, d, k), SessionOf())
    {}
    assert Sessions(rows) == Distinct(rows, SessionOf());
    DistinctAddUp(rows, d, SessionOf(), SessionsBy(rows, d));
  }

  function EngagementOf(e: Event): int {
    if e.kind.Engagement? then e.value.GetOr(0) else 0
  }

  function GroupEngagement(rows: seq<Event>, d: Dimension, key: string): int {
    EngagementSum(Group(rows, d, key)).GetOr(0)
  }

  function GroupEngagements(rows: seq<Event>, d: Dimension): string -> int {
    k => GroupEngagement(rows, d, k)
  }

  lemma EngagementOfGroup(rows: seq<Event>, d: Dimension, key: string)
    requires rows != []
    ensures GroupEngagement(rows, d, key)
         == GroupEngagement(rows[1..], d, key) + if Key(d, rows[0]) == key then EngagementOf(rows[0]) else 0
  {
    var tail := Group(rows[1..], d, key);
    if Key(d, rows[0]) == key {
      assert Group(rows, d, key) == [rows[0]] + tail;
      assert ([rows[0]] + tail)[1..] == tail;
    } else {
      assert Group(rows, d, key) == tail;
    }
  }

  lemma {:induction false} EngagementByKey(rows: seq<Event>, d: Dimension, keys: set<string>)
    requires Keys(rows, d) <= keys
    ensures Total(keys, GroupEngagements(rows, d)) == EngagementSum(rows).GetOr(0)
  {
    if rows == [] {
      TotalSupport({}, keys, GroupEngagements(rows, d));
    } else {
      assert Key(d, rows[0]) in Keys(rows, d);
      assert Keys(rows[1..], d) <= Keys(rows, d);
      EngagementByKey(rows[1..], d, keys);
      EngagementOfFirst(rows, d, keys);
    }
  }

  lemma EngagementOfFirst(rows: seq<Event>, d: Dimension, keys: set<string>)
    requires rows != [] && Key(d, rows[0]) in keys
    ensures Total(keys, GroupEngagements(rows, d))
         == Total(keys, GroupEngagements(rows[1..], d)) + EngagementOf(rows[0])
  {
    var head := (k: string) => if Key(d, rows[0]) == k then EngagementOf(rows[0]) else 0;
    forall k | k in keys
      ensures GroupEngagement(rows, d, k) == GroupEngagement(rows[1..], d, k) + head(k)
    {
      EngagementOfGroup(rows, d, k);
    }
    TotalPlus(keys, GroupEngagements(rows[1..], d), head, GroupEngagements(rows, d));
    TotalIndicator(keys, head, Key(d, rows[0]));
  }

  lemma EngagementAddsUp(rows: seq<Event>, d: Dimension)
    ensures Total(Keys(rows, d), EngagementBy(rows, d)) == EngagementSum(rows).GetOr(0)
  {
    EngagementByKey(rows, d, Keys(rows, d));
    TotalAgree(Keys(rows, d), GroupEngagements(rows, d), EngagementBy(rows, d));
  }
}
