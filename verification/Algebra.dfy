/** Abelian groups, and a field acting on one: the arithmetic that commitments and asset proofs live in. */
module Algebra {

  datatype Group<!T> = Group(zero: T, add: (T, T) -> T, neg: T -> T)
  {
    function Sub(a: T, b: T): T {
      add(a, neg(b))
    }
  }

  ghost predicate Abelian<T(!new)>(g: Group<T>) {
    && (forall a, b, c :: g.add(g.add(a, b), c) == g.add(a, g.add(b, c)))
    && (forall a, b :: g.add(a, b) == g.add(b, a))
    && (forall a :: g.add(a, g.zero) == a)
    && (forall a :: g.add(a, g.neg(a)) == g.zero)
  }

  lemma Assoc<T(!new)>(g: Group<T>, a: T, b: T, c: T)
    requires Abelian(g)
    ensures g.add(g.add(a, b), c) == g.add(a, g.add(b, c))
  {
  }

  lemma Comm<T(!new)>(g: Group<T>, a: T, b: T)
    requires Abelian(g)
    ensures g.add(a, b) == g.add(b, a)
  {
  }

  lemma Zero<T(!new)>(g: Group<T>, a: T)
    requires Abelian(g)
    ensures g.add(a, g.zero) == a && g.add(g.zero, a) == a
    ensures g.add(a, g.neg(a)) == g.zero && g.add(g.neg(a), a) == g.zero
  {
    Comm(g, a, g.zero);
    Comm(g, a, g.neg(a));
  }

  /** (a + b) + c = (a + c) + b */
  lemma Swap<T(!new)>(g: Group<T>, a: T, b: T, c: T)
    requires Abelian(g)
    ensures g.add(g.add(a, b), c) == g.add(g.add(a, c), b)
  {
    Assoc(g, a, b, c);
    Comm(g, b, c);
    Assoc(g, a, c, b);
  }

  /** (a + b) - b = a, and (a - b) + b = a */
  lemma Cancel<T(!new)>(g: Group<T>, a: T, b: T)
    requires Abelian(g)
    ensures g.Sub(g.add(a, b), b) == a && g.add(g.Sub(a, b), b) == a
  {
    hide Abelian;
    Assoc(g, a, b, g.neg(b));
    Assoc(g, a, g.neg(b), b);
    Zero(g, b);
    Zero(g, a);
  }

  lemma SameSum<T(!new)>(g: Group<T>, a: T, b: T, c: T)
    requires Abelian(g) && g.add(a, c) == g.add(b, c)
    ensures a == b
  {
    hide Abelian;
    Cancel(g, a, c);
    Cancel(g, b, c);
  }

  /** a - b = 0 exactly when a = b */
  lemma SubZero<T(!new)>(g: Group<T>, a: T, b: T)
    requires Abelian(g)
    ensures g.Sub(a, b) == g.zero <==> a == b
  {
    hide Abelian;
    Zero(g, b);
    if g.Sub(a, b) == g.zero {
      SameSum(g, a, b, g.neg(b));
    }
  }

  /** From x - y = u - v follows x - u = y - v. */
  lemma Transpose<T(!new)>(g: Group<T>, x: T, y: T, u: T, v: T)
    requires Abelian(g) && g.Sub(x, y) == g.Sub(u, v)
    ensures g.Sub(x, u) == g.Sub(y, v)
  {
    hide Abelian;
    // x = (u - v) + y and x - u = ((u - v) + y) - u = y - v
    Cancel(g, x, y);
    Swap(g, u, g.neg(v), y);
    var w := g.Sub(y, v);
    Assoc(g, u, y, g.neg(v));
    assert x == g.add(u, w);
    Comm(g, u, w);
    Cancel(g, w, u);
  }

  // ----- sums --------------------------------------------------------------------------------

  function Sum<T>(g: Group<T>, s: seq<T>): T {
    if s == [] then g.zero else g.add(Sum(g, s[..|s| - 1]), s[|s| - 1])
  }

  /** Replacing one term moves the sum by the difference. */
  lemma {:induction false} SumReplace<T(!new)>(g: Group<T>, s: seq<T>, i: nat, v: T)
    requires Abelian(g) && i < |s|
    ensures g.add(Sum(g, s[i := v]), s[i]) == g.add(Sum(g, s), v)
    decreases |s|
  {
    hide Abelian;
    var n := |s| - 1;
    var init, last := s[..n], s[n];
    var t := s[i := v];
    if i == n {
      assert t[..n] == init;
      Swap(g, Sum(g, init), v, last);
    } else {
      assert t[..n] == init[i := v];
      SumReplace(g, init, i, v);
      Swap(g, Sum(g, init[i := v]), last, s[i]);
      Swap(g, Sum(g, init), last, v);
    }
  }

  /** Sums that differ have a term that differs. */
  lemma {:induction false} SumDiffers<T>(g: Group<T>, s: seq<T>, t: seq<T>) returns (i: nat)
    requires |s| == |t| && Sum(g, s) != Sum(g, t)
    ensures i < |s| && s[i] != t[i]
    decreases |s|
  {
    var n := |s| - 1;
    if s[n] != t[n] {
      i := n;
    } else {
      i := SumDiffers(g, s[..n], t[..n]);
    }
  }

  ghost function MapSum<K, T>(g: Group<T>, m: map<K, T>): T {
    if m == map[] then g.zero
    else
      var k :| k in m;
      g.add(MapSum(g, m - {k}), m[k])
  }

  /** Any key may be added last. */
  lemma {:induction false} MapSumRemove<K, T(!new)>(g: Group<T>, m: map<K, T>, k: K)
    requires Abelian(g) && k in m
    ensures MapSum(g, m) == g.add(MapSum(g, m - {k}), m[k])
    decreases |m|
  {
    hide Abelian;
    var j :| j in m && MapSum(g, m) == g.add(MapSum(g, m - {j}), m[j]);
    if j != k {
      MapSumRemove(g, m - {j}, k);
      MapSumRemove(g, m - {k}, j);
      assert m - {j} - {k} == m - {k} - {j};
      Swap(g, MapSum(g, m - {j} - {k}), m[k], m[j]);
    }
  }

  /** Adding to one entry, or making a new one, adds to the sum. */
  lemma MapSumAdd<K, T(!new)>(g: Group<T>, m: map<K, T>, k: K, v: T)
    requires Abelian(g)
    ensures MapSum(g, m[k := g.add(if k in m then m[k] else g.zero, v)]) == g.add(MapSum(g, m), v)
  {
    hide Abelian;
    var old' := if k in m then m[k] else g.zero;
    var n := m[k := g.add(old', v)];
    MapSumRemove(g, n, k);
    Assoc(g, MapSum(g, n - {k}), old', v);
    if k in m {
      MapSumRemove(g, m, k);
      assert n - {k} == m - {k};
    } else {
      assert n - {k} == m;
      Zero(g, MapSum(g, m));
    }
  }

  // ----- a field acting on a group -----------------------------------------------------------

  datatype Action<!F, !P> = Action(scalars: Group<F>, one: F, mul: (F, F) -> F, inv: F -> F,
                                   points: Group<P>, times: (P, F) -> P)

  ghost predicate Module<F(!new), P(!new)>(m: Action<F, P>) {
    && Abelian(m.scalars) && Abelian(m.points)
    && (forall a, b :: m.mul(a, b) == m.mul(b, a))
    && (forall a | a != m.scalars.zero :: m.mul(a, m.inv(a)) == m.one)
    && (forall p, a, b :: m.times(p, m.scalars.add(a, b)) == m.points.add(m.times(p, a), m.times(p, b)))
    && (forall p, a, b :: m.times(p, m.mul(a, b)) == m.times(m.times(p, a), b))
    && (forall p :: m.times(p, m.one) == p)
  }

  lemma Groups<F(!new), P(!new)>(m: Action<F, P>)
    requires Module(m)
    ensures Abelian(m.scalars) && Abelian(m.points)
  {
  }

  lemma TimesSum<F(!new), P(!new)>(m: Action<F, P>, p: P, a: F, b: F)
    requires Module(m)
    ensures m.times(p, m.scalars.add(a, b)) == m.points.add(m.times(p, a), m.times(p, b))
  {
    hide Abelian;
  }

  lemma TimesProduct<F(!new), P(!new)>(m: Action<F, P>, p: P, a: F, b: F)
    requires Module(m)
    ensures m.times(p, m.mul(a, b)) == m.times(m.times(p, a), b)
    ensures m.times(p, m.mul(b, a)) == m.times(m.times(p, a), b)
  {
    hide Abelian;
  }

  lemma TimesDifference<F(!new), P(!new)>(m: Action<F, P>, p: P, a: F, b: F)
    requires Module(m)
    ensures m.times(p, m.scalars.Sub(a, b)) == m.points.Sub(m.times(p, a), m.times(p, b))
  {
    hide Abelian, Module;
    Groups(m);
    var d := m.scalars.Sub(a, b);
    Cancel(m.scalars, a, b);
    TimesSum(m, p, d, b);
    Cancel(m.points, m.times(p, d), m.times(p, b));
  }

  /** r·c = h·z with c not zero gives r = h·(z / c). */
  lemma Divide<F(!new), P(!new)>(m: Action<F, P>, r: P, c: F, h: P, z: F)
    requires Module(m) && m.times(r, c) == m.times(h, z) && c != m.scalars.zero
    ensures r == m.times(h, m.mul(z, m.inv(c)))
  {
    TimesProduct(m, r, c, m.inv(c));
    TimesProduct(m, h, z, m.inv(c));
    hide Abelian;
  }
}
