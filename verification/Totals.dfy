/** Sums over finite maps: the `SUM(direction)` of SQL and the net vote of a Redis sorted set. */
module Totals {

  function ValueOr<K>(m: map<K, int>, k: K, default: int): int {
    if k in m then m[k] else default
  }

  lemma SomeMember<T>(s: set<T>) returns (x: T)
    requires s != {}
    ensures x in s
  {
    x :| x in s;
  }

  lemma {:induction false} SubsetCardinality<T>(a: set<T>, b: set<T>)
    requires a <= b
    ensures |a| <= |b|
    ensures |a| == |b| ==> a == b
    decreases |a|
  {
    if a != {} {
      var x := SomeMember(a);
      SubsetCardinality(a - {x}, b - {x});
      assert a == (a - {x}) + {x} && b == (b - {x}) + {x};
    }
  }

  lemma NoKeys<K, V>(m: map<K, V>)
    requires forall k :: k !in m
    ensures m == map[]
  {
  }

  lemma SameSet<T>(a: set<T>, b: set<T>)
    requires forall x :: x in a <==> x in b
    ensures a == b
  {
  }

  lemma SameMap<K, V>(a: map<K, V>, b: map<K, V>)
    requires forall k :: k in a <==> k in b
    requires forall k :: k in a ==> a[k] == b[k]
    ensures a == b
  {
  }

  ghost function Sum<K(!new)>(m: map<K, int>): int {
    if m == map[] then 0
    else
      var k :| k in m;
      m[k] + Sum(m - {k})
  }

  /** The order in which `Sum` picks the keys does not matter. */
  lemma {:induction false} SumRemove<K(!new)>(m: map<K, int>, k: K)
    requires k in m
    ensures Sum(m) == m[k] + Sum(m - {k})
    decreases |m|
  {
    var p :| p in m && Sum(m) == m[p] + Sum(m - {p});
    if p != k {
      SumRemove(m - {p}, k);
      SumRemove(m - {k}, p);
      assert m - {p} - {k} == m - {k} - {p};
    }
  }

  /** Writing one entry moves the sum by the difference: the incremental form. */
  lemma SumUpdate<K(!new)>(m: map<K, int>, k: K, v: int)
    ensures Sum(m[k := v]) == Sum(m) - ValueOr(m, k, 0) + v
  {
    SumRemove(m[k := v], k);
    assert m[k := v] - {k} == m - {k};
    if k in m {
      SumRemove(m, k);
    } else {
      assert m - {k} == m;
    }
  }

  lemma SumDelete<K(!new)>(m: map<K, int>, k: K)
    ensures Sum(m - {k}) == Sum(m) - ValueOr(m, k, 0)
  {
    if k in m {
      SumRemove(m, k);
    } else {
      assert m - {k} == m;
    }
  }

  /** Entries of value zero may be dropped without changing the sum. */
  lemma {:induction false} SumNonzero<K(!new)>(m: map<K, int>)
    ensures Sum(m) == Sum(map k | k in m && m[k] != 0 :: m[k])
    decreases |m|
  {
    var live := map k | k in m && m[k] != 0 :: m[k];
    if m != map[] {
      var k :| k in m;
      SumRemove(m, k);
      SumNonzero(m - {k});
      assert (map x | x in m - {k} && (m - {k})[x] != 0 :: (m - {k})[x]) == live - {k};
      SumDelete(live, k);
    } else {
      assert live == m;
    }
  }
}
