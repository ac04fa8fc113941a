/** Report rows and the merging of rows from several sources. */
module Metrics {
  import opened Aggregates
  import opened Database
  import opened Listing

  /** How two rows of one key combine. Only associativity is ever needed: rows merge in source order. */
  datatype Adder<!R> = Adder(zero: R, plus: (R, R) -> R)

  ghost predicate Associative<R(!new)>(add: Adder<R>) {
    && (forall a :: add.plus(add.zero, a) == a)
    && (forall a, b, c :: add.plus(add.plus(a, b), c) == add.plus(a, add.plus(b, c)))
  }

  function AddMetricRow(a: Counters, b: Counters): Counters {
    Counters(a.pageviews + b.pageviews, a.visitors + b.visitors, a.sessions + b.sessions, a.bounces + b.bounces,
             a.engagementSeconds + b.engagementSeconds)
  }

  function AddScrollDepthAggregate(a: ScrollCounters, b: ScrollCounters): ScrollCounters {
    ScrollCounters(a.depthSum + b.depthSum, a.sessionCount + b.sessionCount)
  }

  const METRICS: Adder<Counters> := Adder(Counters(0, 0, 0, 0, 0), AddMetricRow)
  const SCROLL: Adder<ScrollCounters> := Adder(ScrollCounters(0, 0), AddScrollDepthAggregate)

  lemma RowsAddAssociatively()
    ensures Associative(METRICS) && Associative(SCROLL)
  {}

  /** A NULL sum reads as 0 in every later addition. */
  function ToMetricRow(row: AggregatedRow): Counters {
    Counters(row.pageviews, row.visitors, row.sessions, row.bounces, row.engagement.GetOr(0))
  }

  function ToScrollDepthAggregate(row: ScrollRow): ScrollCounters {
    ScrollCounters(row.depthSum.GetOr(0), row.sessionCount)
  }

  /** The columns a dashboard total is made of. */
  datatype Column = PageviewsCol | VisitorsCol | SessionsCol | BouncesCol | EngagementCol

  function Get(c: Column, row: Counters): int {
    match c
    case PageviewsCol => row.pageviews
    case VisitorsCol => row.visitors
    case SessionsCol => row.sessions
    case BouncesCol => row.bounces
    case EngagementCol => row.engagementSeconds
  }

  // ---- merging ----

  function MergeOne<R>(add: Adder<R>, merged: map<string, R>, row: Row<string, R>): map<string, R> {
    merged[row.key := if row.key in merged then add.plus(merged[row.key], row.value) else row.value]
  }

  function Merged<R>(add: Adder<R>, rows: seq<Row<string, R>>): map<string, R> {
    if rows == [] then map[]
    else MergeOne(add, Merged(add, rows[..|rows| - 1]), rows[|rows| - 1])
  }

  method MergeRowsByKey<R>(add: Adder<R>, rows: seq<Row<string, R>>) returns (result: seq<Row<string, R>>)
    ensures Lists(result, Merged(add, rows))
  {
    var merged: map<string, R> := map[];
    for i := 0 to |rows|
      invariant merged == Merged(add, rows[..i])
    {
      var row := rows[i];
      assert rows[..i + 1][..i] == rows[..i];
      if row.key in merged {
        merged := merged[row.key := add.plus(merged[row.key], row.value)];
      } else {
        merged := merged[row.key := row.value];
      }
    }
    assert rows[..|rows|] == rows;
    result := ListRows(merged);
  }

  /** Two reports, key by key. */
  function Plus<R>(add: Adder<R>, a: map<string, R>, b: map<string, R>): map<string, R> {
    map k | k in a.Keys + b.Keys ::
      if k in a && k in b then add.plus(a[k], b[k]) else if k in a then a[k] else b[k]
  }

  lemma {:induction false} MergedSuffix<R>(add: Adder<R>, front: seq<Row<string, R>>, rows: seq<Row<string, R>>)
    requires forall i, j | 0 <= i < j < |rows| :: rows[i].key != rows[j].key
    ensures Merged(add, front + rows).Keys == Merged(add, front).Keys + KeysOf(rows)
    ensures forall i | 0 <= i < |rows| ::
              Merged(add, front + rows)[rows[i].key]
              == if rows[i].key in Merged(add, front) then add.plus(Merged(add, front)[rows[i].key], rows[i].value)
                 else rows[i].value
    ensures forall k | k in Merged(add, front) && k !in KeysOf(rows) ::
              Merged(add, front + rows)[k] == Merged(add, front)[k]
  {
    if rows == [] {
      assert front + rows == front;
    } else {
      var init, last := rows[..|rows| - 1], rows[|rows| - 1];
      assert (front + rows)[..|front + rows| - 1] == front + init;
      MergedSuffix(add, front, init);
      assert rows == init + [last];
      assert KeysOf(rows) == KeysOf(init) + {last.key};
      assert last.key !in KeysOf(init);
    }
  }

  lemma MergedListing<R>(add: Adder<R>, front: seq<Row<string, R>>, rows: seq<Row<string, R>>, m: map<string, R>)
    requires Lists(rows, m)
    ensures Merged(add, front + rows) == Plus(add, Merged(add, front), m)
  {
    var before, after, plus := Merged(add, front), Merged(add, front + rows), Plus(add, Merged(add, front), m);
    MergedSuffix(add, front, rows);
    assert after.Keys == plus.Keys;
    forall k | k in plus
      ensures after[k] == plus[k]
    {
      if k in m {
        assert k in KeysOf(rows);
        var i :| 0 <= i < |rows| && rows[i].key == k;
      }
    }
  }

  lemma PlusNothing<R>(add: Adder<R>, a: map<string, R>)
    ensures Plus(add, map[], a) == a
  {
    assert Plus(add, map[], a).Keys == a.Keys;
  }

  /** Merging the concatenation of two listed reports adds the reports. */
  lemma MergedOfTwo<R>(add: Adder<R>, first: seq<Row<string, R>>, second: seq<Row<string, R>>,
                       a: map<string, R>, b: map<string, R>)
    requires Lists(first, a) && Lists(second, b)
    ensures Merged(add, first + second) == Plus(add, a, b)
  {
    assert Merged(add, first) == a by {
      MergedListing(add, [], first, a);
      assert [] + first == first;
      PlusNothing(add, a);
    }
    MergedListing(add, first, second, b);
  }
}
