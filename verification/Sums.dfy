/** Sums of amounts over a finite map. */
module Sums {
  ghost function MapSum<K(!new)>(m: map<K, real>): real
    decreases |m|
  {
    if m == map[] then 0.0
    else
      var k :| k in m;
      RemoveShrinks(m, k);
      m[k] + MapSum(m - {k})
  }

  lemma RemoveShrinks<K>(m: map<K, real>, k: K)
    requires k in m
    ensures |m - {k}| < |m|
  {
    assert (m - {k}).Keys == m.Keys - {k};
  }

  // The choice of the element to split off does not matter.
  lemma {:induction false} SumSplit<K(!new)>(m: map<K, real>, k: K)
    requires k in m
    ensures MapSum(m) == m[k] + MapSum(m - {k})
    decreases |m|
  {
    var j :| j in m && MapSum(m) == m[j] + MapSum(m - {j});
    if j != k {
      RemoveShrinks(m, j);
      RemoveShrinks(m, k);
      SumSplit(m - {j}, k);
      SumSplit(m - {k}, j);
      assert m - {j} - {k} == m - {k} - {j};
    }
  }

  lemma SumUpdate<K(!new)>(m: map<K, real>, k: K, v: real)
    ensures MapSum(m[k := v]) == MapSum(m) - (if k in m then m[k] else 0.0) + v
  {
    SumSplit(m[k := v], k);
    assert m[k := v] - {k} == m - {k};
    if k in m {
      SumSplit(m, k);
    } else {
      assert m - {k} == m;
    }
  }

  lemma SumRemove<K(!new)>(m: map<K, real>, k: K)
    ensures MapSum(m - {k}) == MapSum(m) - (if k in m then m[k] else 0.0)
  {
    if k in m {
      SumSplit(m, k);
    } else {
      assert m - {k} == m;
    }
  }

  lemma {:induction false} SumMonotonic<K(!new)>(m: map<K, real>, n: map<K, real>)
    requires m.Keys == n.Keys && forall k :: k in m ==> m[k] <= n[k]
    ensures MapSum(m) <= MapSum(n)
    decreases |m|
  {
    if m == map[] {
      assert n == map[];
    } else {
      var k :| k in m;
      RemoveShrinks(m, k);
      SumSplit(m, k);
      SumSplit(n, k);
      SumMonotonic(m - {k}, n - {k});
    }
  }

  ghost function NonZero<K(!new)>(m: map<K, real>): map<K, real> {
    map k | k in m && m[k] != 0.0 :: m[k]
  }

  // Entries of zero may be left out.
  lemma {:induction false} SumOfNonZero<K(!new)>(m: map<K, real>)
    ensures MapSum(m) == MapSum(NonZero(m))
    decreases |m|
  {
    if k :| k in m && m[k] == 0.0 {
      RemoveShrinks(m, k);
      SumSplit(m, k);
      SumOfNonZero(m - {k});
      assert NonZero(m - {k}) == NonZero(m);
    } else {
      assert NonZero(m) == m;
    }
  }

  lemma SumSameSupport<K(!new)>(m: map<K, real>, n: map<K, real>)
    requires forall k :: k in m && m[k] != 0.0 ==> k in n && n[k] == m[k]
    requires forall k :: k in n && n[k] != 0.0 ==> k in m && m[k] == n[k]
    ensures MapSum(m) == MapSum(n)
  {
    SumOfNonZero(m);
    SumOfNonZero(n);
    assert NonZero(m) == NonZero(n);
  }

  lemma {:induction false} SumOfSums<K(!new)>(m: map<K, real>, a: map<K, real>, b: map<K, real>)
    requires m.Keys == a.Keys == b.Keys && forall k :: k in m ==> m[k] == a[k] + b[k]
    ensures MapSum(m) == MapSum(a) + MapSum(b)
    decreases |m|
  {
    if m == map[] {
      assert a == map[] && b == map[];
    } else {
      var k :| k in m;
      RemoveShrinks(m, k);
      SumSplit(m, k);
      SumSplit(a, k);
      SumSplit(b, k);
      SumOfSums(m - {k}, a - {k}, b - {k});
    }
  }

  // One more entry of a sum taken entry by entry.
  lemma SumTakes<K(!new)>(m: map<K, real>, todo: set<K>, k: K)
    requires k in todo
    ensures MapSum(m - (todo - {k})) == MapSum(m - todo) + (if k in m then m[k] else 0.0)
  {
    if k in m {
      assert m - (todo - {k}) == (m - todo)[k := m[k]];
      SumUpdate(m - todo, k, m[k]);
    } else {
      assert m - (todo - {k}) == m - todo;
    }
  }
}
