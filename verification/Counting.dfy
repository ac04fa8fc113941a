/**
 Filtering, counting and summing: the arithmetic behind WHERE, COUNT(*),
 COUNT(DISTINCT ...) and GROUP BY.
 */
module Counting {

  /** The elements of `s` that satisfy `p`, in order. */
  function Filter<T(!new)>(s: seq<T>, p: T -> bool): (r: seq<T>)
    ensures forall x :: x in r <==> x in s && p(x)
  {
    if s == [] then []
    else (if p(s[0]) then [s[0]] else []) + Filter(s[1..], p)
  }

  /** COUNT(*) over the rows that satisfy `p`. */
  function Count<T(!new)>(s: seq<T>, p: T -> bool): nat {
    |Filter(s, p)|
  }

  lemma {:induction false} FilterConcat<T(!new)>(a: seq<T>, b: seq<T>, p: T -> bool)
    ensures Filter(a + b, p) == Filter(a, p) + Filter(b, p)
  {
    if a == [] {
      assert a + b == b;
    } else {
      assert (a + b)[1..] == a[1..] + b;
      FilterConcat(a[1..], b, p);
    }
  }

  lemma {:induction false} FilterFilter<T(!new)>(s: seq<T>, p: T -> bool, q: T -> bool, both: T -> bool)
    requires forall x | x in s :: both(x) == (p(x) && q(x))
    ensures Filter(Filter(s, p), q) == Filter(s, both)
  {
    if s != [] {
      var head := if p(s[0]) then [s[0]] else [];
      FilterFilter(s[1..], p, q, both);
      FilterConcat(head, Filter(s[1..], p), q);
      assert both(s[0]) == (p(s[0]) && q(s[0]));
    }
  }

  lemma {:induction false} FilterAgree<T(!new)>(s: seq<T>, p: T -> bool, q: T -> bool)
    requires forall x | x in s :: p(x) == q(x)
    ensures Filter(s, p) == Filter(s, q)
  {
    if s != [] {
      assert p(s[0]) == q(s[0]);
      FilterAgree(s[1..], p, q);
    }
  }

  lemma {:induction false} FilterNone<T(!new)>(s: seq<T>, p: T -> bool)
    requires forall x | x in s :: !p(x)
    ensures Filter(s, p) == []
  {
    if s != [] {
      assert !p(s[0]);
      FilterNone(s[1..], p);
    }
  }

  lemma {:induction false} FilterShorter<T(!new)>(s: seq<T>, p: T -> bool)
    ensures |Filter(s, p)| <= |s|
    ensures s != [] && !p(s[0]) ==> |Filter(s, p)| < |s|
  {
    if s != [] {
      FilterShorter(s[1..], p);
    }
  }

  lemma {:induction false} CountAtMost<T(!new)>(s: seq<T>, p: T -> bool, q: T -> bool)
    requires forall x | x in s && p(x) :: q(x)
    ensures Count(s, p) <= Count(s, q)
  {
    if s != [] {
      CountAtMost(s[1..], p, q);
    }
  }

  /** The sum of `f` over a finite set. */
  ghost function Total<K(!new)>(s: set<K>, f: K -> int): int {
    if s == {} then 0
    else
      var x :| x in s;
      f(x) + Total(s - {x}, f)
  }

  lemma {:induction false} TotalExtract<K(!new)>(s: set<K>, f: K -> int, x: K)
    requires x in s
    ensures Total(s, f) == f(x) + Total(s - {x}, f)
    decreases s
  {
    var y :| y in s && Total(s, f) == f(y) + Total(s - {y}, f);
    if x != y {
      TotalExtract(s - {y}, f, x);
      TotalExtract(s - {x}, f, y);
      assert s - {y} - {x} == s - {x} - {y};
    }
  }

  lemma {:induction false} TotalAgree<K(!new)>(s: set<K>, f: K -> int, g: K -> int)
    requires forall x | x in s :: f(x) == g(x)
    ensures Total(s, f) == Total(s, g)
  {
    if s != {} {
      var x :| x in s;
      TotalExtract(s, f, x);
      TotalExtract(s, g, x);
      TotalAgree(s - {x}, f, g);
    }
  }

  lemma {:induction false} TotalAtMost<K(!new)>(s: set<K>, f: K -> int, g: K -> int)
    requires forall x | x in s :: f(x) <= g(x)
    ensures Total(s, f) <= Total(s, g)
  {
    if s != {} {
      var x :| x in s;
      TotalExtract(s, f, x);
      TotalExtract(s, g, x);
      TotalAtMost(s - {x}, f, g);
    }
  }

  lemma {:induction false} TotalScaled<K(!new)>(s: set<K>, f: K -> int, c: int)
    requires forall x | x in s :: f(x) == c
    ensures Total(s, f) == c * |s|
  {
    if s != {} {
      var x :| x in s;
      TotalExtract(s, f, x);
      TotalScaled(s - {x}, f, c);
      assert |s| == |s - {x}| + 1;
    }
  }

  lemma {:induction false} TotalPlus<K(!new)>(s: set<K>, f: K -> int, g: K -> int, sum: K -> int)
    requires forall x | x in s :: sum(x) == f(x) + g(x)
    ensures Total(s, sum) == Total(s, f) + Total(s, g)
  {
    if s != {} {
      var x :| x in s;
      TotalExtract(s, f, x);
      TotalExtract(s, g, x);
      TotalExtract(s, sum, x);
      TotalPlus(s - {x}, f, g, sum);
    }
  }

  /** Keys outside the support of `f` do not change a sum. */
  lemma {:induction false} TotalSupport<K(!new)>(s: set<K>, t: set<K>, f: K -> int)
    requires s <= t
    requires forall x | x in t && x !in s :: f(x) == 0
    ensures Total(t, f) == Total(s, f)
    decreases t
  {
    if t != s {
      var x :| x in t && x !in s;
      TotalExtract(t, f, x);
      TotalSupport(s, t - {x}, f);
    }
  }

  lemma {:induction false} TotalUnion<K(!new)>(s: set<K>, t: set<K>, f: K -> int)
    requires s !! t
    ensures Total(s + t, f) == Total(s, f) + Total(t, f)
    decreases s
  {
    if s == {} {
      assert s + t == t;
    } else {
      var x :| x in s;
      TotalExtract(s, f, x);
      TotalExtract(s + t, f, x);
      assert s + t - {x} == (s - {x}) + t;
      TotalUnion(s - {x}, t, f);
    }
  }

  /** A sum of zero/one contributions with a single possible one. */
  lemma {:induction false} TotalIndicator<K(!new)>(s: set<K>, f: K -> int, x: K)
    requires forall y | y in s && y != x :: f(y) == 0
    ensures Total(s, f) == if x in s then f(x) else 0
  {
    if x in s {
      TotalExtract(s, f, x);
      TotalSupport({}, s - {x}, f);
    } else {
      TotalSupport({}, s, f);
    }
  }

  /** GROUP BY is a partition: the groups' counts add up to the count of the whole. */
  lemma {:induction false} CountByGroup<T(!new), K(!new)>(s: seq<T>, p: T -> bool, key: T -> K, keys: set<K>,
                                              within: K -> (T -> bool), size: K -> int)
    requires forall x | x in s && p(x) :: key(x) in keys
    requires forall k, x | x in s :: within(k)(x) == (p(x) && key(x) == k)
    requires forall k | k in keys :: size(k) == Count(s, within(k))
    ensures Total(keys, size) == Count(s, p)
  {
    if s == [] {
      TotalSupport({}, keys, size);
    } else {
      var rest := k => Count(s[1..], within(k));
      var head := k => if p(s[0]) && key(s[0]) == k then 1 else 0;
      CountByGroup(s[1..], p, key, keys, within, rest);
      forall k | k in keys
        ensures size(k) == rest(k) + head(k)
      {
        assert within(k)(s[0]) == (p(s[0]) && key(s[0]) == k);
      }
      TotalPlus(keys, rest, head, size);
      TotalIndicator(keys, head, key(s[0]));
    }
  }

  ghost function Image<X(!new), Y(!new)>(s: set<X>, f: X -> Y): set<Y> {
    set x | x in s :: f(x)
  }

  ghost predicate Injective<X(!new), Y(!new)>(s: set<X>, f: X -> Y) {
    forall x, y | x in s && y in s && f(x) == f(y) :: x == y
  }

  /** COUNT(DISTINCT ...) never exceeds the number of things counted ... */
  lemma {:induction false} ImageSize<X(!new), Y(!new)>(s: set<X>, f: X -> Y)
    ensures |Image(s, f)| <= |s|
    ensures |Image(s, f)| == |s| <==> Injective(s, f)
  {
    if s != {} {
      var x :| x in s;
      var rest := s - {x};
      ImageSize(rest, f);
      assert |s| == |rest| + 1;
      if f(x) in Image(rest, f) {
        assert Image(s, f) == Image(rest, f);
        var y :| y in rest && f(y) == f(x);
      } else {
        assert Image(s, f) == Image(rest, f) + {f(x)};
        assert forall y | y in rest :: f(y) in Image(rest, f) && f(y) != f(x);
      }
    }
  }

  /** The members of one group. */
  ghost function Fibre<X(!new), K(!new)>(s: set<X>, key: X -> K, k: K): set<X> {
    set x | x in s && key(x) == k
  }

  ghost function FibreSizes<X(!new), K(!new)>(s: set<X>, key: X -> K): K -> int {
    k => |Fibre(s, key, k)|
  }

  lemma FibreOfOneMore<X(!new), K(!new)>(s: set<X>, key: X -> K, e: X, k: K)
    requires e in s
    ensures |Fibre(s, key, k)| == |Fibre(s - {e}, key, k)| + if key(e) == k then 1 else 0
  {
    if key(e) == k {
      assert Fibre(s, key, k) == Fibre(s - {e}, key, k) + {e};
    } else {
      assert Fibre(s, key, k) == Fibre(s - {e}, key, k);
    }
  }

  /** ... and a set is as large as its groups together. */
  lemma {:induction false} SizeByGroup<X(!new), K(!new)>(s: set<X>, key: X -> K, keys: set<K>)
    requires forall x | x in s :: key(x) in keys
    ensures Total(keys, FibreSizes(s, key)) == |s|
  {
    if s == {} {
      forall k | k in keys
        ensures FibreSizes(s, key)(k) == 0
      {
        assert Fibre(s, key, k) == {};
      }
      TotalSupport({}, keys, FibreSizes(s, key));
    } else {
      var e :| e in s;
      var head := k => if key(e) == k then 1 else 0;
      SizeByGroup(s - {e}, key, keys);
      forall k | k in keys
        ensures FibreSizes(s, key)(k) == FibreSizes(s - {e}, key)(k) + head(k)
      {
        FibreOfOneMore(s, key, e, k);
      }
      TotalPlus(keys, FibreSizes(s - {e}, key), head, FibreSizes(s, key));
      TotalIndicator(keys, head, key(e));
      assert |s| == |s - {e}| + 1;
    }
  }
}
