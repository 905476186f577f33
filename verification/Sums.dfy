/** Sums over finite maps, independent of the order in which the keys are visited. */
module Sums {

  ghost function Total<K>(m: map<K, int>): int
  {
    if m == map[] then 0 else
      var k :| k in m;
      m[k] + Total(m - {k})
  }

  /** Any key may be taken out first. */
  lemma {:induction false} TotalRemove<K>(m: map<K, int>, k: K)
    requires k in m
    ensures Total(m) == m[k] + Total(m - {k})
    decreases |m|
  {
    var j :| j in m && Total(m) == m[j] + Total(m - {j});
    if j != k {
      TotalRemove(m - {j}, k);
      TotalRemove(m - {k}, j);
      assert m - {j} - {k} == m - {k} - {j};
    }
  }

  lemma TotalUpdate<K>(m: map<K, int>, k: K, v: int)
    ensures Total(m[k := v]) == Total(m) + v - (if k in m then m[k] else 0)
  {
    var n := m[k := v];
    TotalRemove(n, k);
    if k in m {
      TotalRemove(m, k);
      assert n - {k} == m - {k};
    } else {
      assert n - {k} == m;
    }
  }

  lemma {:induction false} TotalMonotone<K>(m: map<K, int>, n: map<K, int>)
    requires m.Keys == n.Keys
    requires forall k | k in m :: m[k] <= n[k]
    ensures Total(m) <= Total(n)
    decreases |m|
  {
    if m != map[] {
      var k :| k in m;
      TotalRemove(m, k);
      TotalRemove(n, k);
      TotalMonotone(m - {k}, n - {k});
    } else {
      assert n == map[];
    }
  }

  lemma {:induction false} TotalZero<K>(m: map<K, int>)
    requires forall k | k in m :: m[k] == 0
    ensures Total(m) == 0
    decreases |m|
  {
    if m != map[] {
      var k :| k in m;
      TotalRemove(m, k);
      TotalZero(m - {k});
    }
  }

  /** With nonnegative terms every term is at most the total. */
  lemma {:induction false} TotalNonnegative<K>(m: map<K, int>)
    requires forall k | k in m :: 0 <= m[k]
    ensures 0 <= Total(m)
    ensures forall k | k in m :: m[k] <= Total(m)
    decreases |m|
  {
    forall k | k in m
      ensures m[k] <= Total(m)
    {
      TotalRemove(m, k);
      TotalNonnegative(m - {k});
    }
    if m != map[] {
      var k :| k in m;
      assert m[k] <= Total(m);
    }
  }
}
