/** A query's rows in whatever order the engine yields them. */
module Listing {

  datatype Row<+K, +V> = Row(key: K, value: V)

  ghost function KeysOf<K, V>(rows: seq<Row<K, V>>): set<K> {
    set r | r in rows :: r.key
  }

  /** Exactly the entries of `m`, each once, in some order. */
  ghost predicate Lists<K, V>(rows: seq<Row<K, V>>, m: map<K, V>) {
    && (forall i, j | 0 <= i < j < |rows| :: rows[i].key != rows[j].key)
    && (forall i | 0 <= i < |rows| :: rows[i].key in m && m[rows[i].key] == rows[i].value)
    && KeysOf(rows) == m.Keys
  }

  method ListRows<K(==), V>(m: map<K, V>) returns (rows: seq<Row<K, V>>)
    ensures Lists(rows, m)
  {
    rows := [];
    var pending := m.Keys;
    while pending != {}
      invariant pending <= m.Keys
      invariant KeysOf(rows) == m.Keys - pending
      invariant forall i | 0 <= i < |rows| :: rows[i].key in m && m[rows[i].key] == rows[i].value
      invariant forall i | 0 <= i < |rows| :: rows[i].key !in pending
      invariant forall i, j | 0 <= i < j < |rows| :: rows[i].key != rows[j].key
    {
      var k :| k in pending;
      var row := Row(k, m[k]);
      assert KeysOf(rows + [row]) == KeysOf(rows) + {k};
      rows := rows + [row];
      pending := pending - {k};
    }
  }
}
