/** The sum of the values of a map. */
module MapSum {

  ghost function Sum<K(!new)>(m: map<K, int>): int
    decreases |m|
  {
    if m == map[] then 0
    else
      var k :| k in m;
      assert |m - {k}| < |m| by { Removed(m, k); }
      m[k] + Sum(m - {k})
  }

  lemma Removed<K>(m: map<K, int>, k: K)
    requires k in m
    ensures |m - {k}| == |m| - 1
  {
    assert (m - {k}).Keys == m.Keys - {k};
    assert |m.Keys| == |m| && |(m - {k}).Keys| == |m - {k}|;
  }

  /** The order in which the keys are taken does not matter. */
  lemma {:induction false} SumTakes<K(!new)>(m: map<K, int>, k: K)
    requires k in m
    ensures Sum(m) == m[k] + Sum(m - {k})
    decreases |m|
  {
    var h :| h in m && Sum(m) == m[h] + Sum(m - {h});
    if h != k {
      Removed(m, h);
      Removed(m, k);
      SumTakes(m - {h}, k);
      SumTakes(m - {k}, h);
      assert m - {h} - {k} == m - {k} - {h};
    }
  }

  function At<K>(m: map<K, int>, k: K): int {
    if k in m then m[k] else 0
  }

  lemma SumUpdates<K(!new)>(m: map<K, int>, k: K, v: int)
    ensures Sum(m[k := v]) == Sum(m) - At(m, k) + v
  {
    SumTakes(m[k := v], k);
    assert m[k := v] - {k} == m - {k};
    if k in m {
      SumTakes(m, k);
    } else {
      assert m - {k} == m;
    }
  }

  lemma SumRemoves<K(!new)>(m: map<K, int>, k: K)
    ensures Sum(m - {k}) == Sum(m) - At(m, k)
  {
    if k in m {
      SumTakes(m, k);
    } else {
      assert m - {k} == m;
    }
  }
}
