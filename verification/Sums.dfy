/** Sums over sequences and over the values of a table. */
module Sums {

  function Total(amounts: seq<real>): real {
    if amounts == [] then 0.0 else Total(amounts[..|amounts| - 1]) + amounts[|amounts| - 1]
  }

  ghost function MapSum<K>(m: map<K, real>): real
    decreases |m|
  {
    if m == map[] then 0.0
    else
      var k :| k in m;
      assert |m - {k}| < |m| by { assert (m - {k}).Keys == m.Keys - {k}; }
      m[k] + MapSum(m - {k})
  }

  /** Any row may be taken out first. */
  lemma {:induction false} MapSumRemove<K>(m: map<K, real>, k: K)
    requires k in m
    ensures MapSum(m) == m[k] + MapSum(m - {k})
    decreases |m|
  {
    var j :| j in m && MapSum(m) == m[j] + MapSum(m - {j});
    if j != k {
      assert (m - {j}).Keys == m.Keys - {j} && (m - {k}).Keys == m.Keys - {k};
      MapSumRemove(m - {j}, k);
      MapSumRemove(m - {k}, j);
      assert m - {j} - {k} == m - {k} - {j};
    }
  }

  /** Writing one row moves the sum by the difference. */
  lemma MapSumUpdate<K>(m: map<K, real>, k: K, v: real)
    ensures MapSum(m[k := v]) == MapSum(m) - (if k in m then m[k] else 0.0) + v
  {
    MapSumRemove(m[k := v], k);
    assert m[k := v] - {k} == m - {k};
    if k in m {
      MapSumRemove(m, k);
    } else {
      assert m - {k} == m;
    }
  }

  lemma {:induction false} MapSumAdds<K>(total: map<K, real>, a: map<K, real>, b: map<K, real>)
    requires total.Keys == a.Keys == b.Keys
    requires forall k :: k in total ==> total[k] == a[k] + b[k]
    ensures MapSum(total) == MapSum(a) + MapSum(b)
    decreases |total|
  {
    if total != map[] {
      var k :| k in total;
      assert (total - {k}).Keys == total.Keys - {k};
      MapSumRemove(total, k);
      MapSumRemove(a, k);
      MapSumRemove(b, k);
      MapSumAdds(total - {k}, a - {k}, b - {k});
    }
  }
}
