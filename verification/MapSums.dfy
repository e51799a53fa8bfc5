/** Sums over the values of a map. */
module MapSums {
  ghost function Sum<K>(m: map<K, int>): int
    decreases |m|
  {
    if m == map[] then 0
    else
      var k :| k in m;
      Sum(m - {k}) + m[k]
  }

  lemma Picked<K>(m: map<K, int>) returns (k: K)
    requires m != map[]
    ensures k in m && Sum(m) == Sum(m - {k}) + m[k]
  {
    k :| k in m && Sum(m) == Sum(m - {k}) + m[k];
  }

  /** The sum does not depend on the order in which the map is walked. */
  lemma {:induction false} SumWithout<K>(m: map<K, int>, k: K)
    requires k in m
    ensures Sum(m) == Sum(m - {k}) + m[k]
    decreases |m|
  {
    var j := Picked(m);
    if j != k {
      var a, b := m - {j}, m - {k};
      assert a - {k} == b - {j} && a[k] == m[k] && b[j] == m[j];
      SumWithout(a, k);
      SumWithout(b, j);
    }
  }

  function ValueAt<K>(m: map<K, int>, k: K): int {
    if k in m then m[k] else 0
  }

  /** Updating one entry changes the sum by the difference. */
  lemma SumUpdate<K>(m: map<K, int>, k: K, v: int)
    ensures Sum(m[k := v]) == Sum(m) - ValueAt(m, k) + v
  {
    var after := m[k := v];
    SumWithout(after, k);
    if k in m {
      SumWithout(m, k);
      assert after - {k} == m - {k};
    } else {
      assert after - {k} == m;
    }
  }
}
