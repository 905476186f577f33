/** The bytes a settlement contract hashes into its root: the whole state in sorted key order. */
module ChainRoot {
  import opened Numbers
  import opened Results
  import opened Wire
  import opened ChainSpec

  // ----- byte order --------------------------------------------------------------------------

  predicate Before(a: Bytes, b: Bytes) {
    b != [] && (a == [] || a[0] < b[0] || (a[0] == b[0] && Before(a[1..], b[1..])))
  }

  lemma {:induction false} BeforeTotal(a: Bytes, b: Bytes)
    ensures !(Before(a, b) && Before(b, a)) && !Before(a, a)
    ensures a != b ==> Before(a, b) || Before(b, a)
    decreases |a|
  {
    if a != [] {
      BeforeTotal(a[1..], a[1..]);
    }
    if a != [] && b != [] {
      BeforeTotal(a[1..], b[1..]);
      assert a == [a[0]] + a[1..] && b == [b[0]] + b[1..];
    }
  }

  lemma {:induction false} BeforeTransitive(a: Bytes, b: Bytes, c: Bytes)
    requires Before(a, b) && Before(b, c)
    ensures Before(a, c)
    decreases |a|
  {
    if a != [] && a[0] == b[0] == c[0] {
      BeforeTransitive(a[1..], b[1..], c[1..]);
    }
  }

  /** The strings agree up to this index, where the first ends or has the smaller byte. */
  ghost predicate SmallerAt(a: Bytes, b: Bytes, i: nat) {
    i <= |a| && i < |b| && a[..i] == b[..i] && (i == |a| || a[i] < b[i])
  }

  /**
   Byte strings are ordered by their first difference, the smaller byte first; a prefix comes
   before what extends it.
   */
  lemma {:induction false} BeforeAt(a: Bytes, b: Bytes)
    ensures Before(a, b) <==> exists i: nat :: SmallerAt(a, b, i)
    decreases |a|
  {
    if a != [] && b != [] && a[0] == b[0] {
      BeforeAt(a[1..], b[1..]);
      if i: nat :| SmallerAt(a[1..], b[1..], i) {
        SmallerLater(a, b, i);
        assert SmallerAt(a, b, i + 1);
      }
      if i: nat :| SmallerAt(a, b, i) {
        assert i > 0;
        SmallerLater(a, b, i - 1);
      }
    } else if b != [] && (a == [] || a[0] < b[0]) {
      assert SmallerAt(a, b, 0);
    } else {
      forall i: nat
        ensures !SmallerAt(a, b, i)
      {
        SameHead(a, b, i);
      }
    }
  }

  lemma SmallerLater(a: Bytes, b: Bytes, i: nat)
    requires a != [] && b != [] && a[0] == b[0]
    ensures SmallerAt(a[1..], b[1..], i) <==> SmallerAt(a, b, i + 1)
  {
    if i < |a| && i < |b| - 1 {
      assert a[..i + 1] == [a[0]] + a[1..][..i] && b[..i + 1] == [b[0]] + b[1..][..i];
      assert a[1..][..i] == a[..i + 1][1..] && b[1..][..i] == b[..i + 1][1..];
    }
  }

  lemma SameHead(a: Bytes, b: Bytes, i: nat)
    ensures 0 < i <= |a| && i <= |b| && a[..i] == b[..i] ==> a[0] == b[0]
  {
    if 0 < i <= |a| && i <= |b| {
      assert a[..i][0] == a[0] && b[..i][0] == b[0];
    }
  }

  ghost predicate First(m: Bytes, s: set<Bytes>) {
    m in s && forall x | x in s && x != m :: Before(m, x)
  }

  lemma {:induction false} FirstExists(s: set<Bytes>)
    requires s != {}
    ensures exists m :: First(m, s)
    decreases |s|
  {
    var x :| x in s;
    var rest := s - {x};
    if rest == {} {
      assert s == {x};
      assert First(x, s);
    } else {
      FirstExists(rest);
      var m :| First(m, rest);
      BeforeTotal(x, m);
      if Before(m, x) {
        assert First(m, s);
      } else {
        forall y | y in s && y != x
          ensures Before(x, y)
        {
          if y != m {
            BeforeTransitive(x, m, y);
          }
        }
        assert First(x, s);
      }
    }
  }

  lemma FirstUnique(m: Bytes, n: Bytes, s: set<Bytes>)
    requires First(m, s) && First(n, s)
    ensures m == n
  {
    BeforeTotal(m, n);
  }

  ghost function FirstOf(s: set<Bytes>): (m: Bytes)
    requires s != {}
    ensures First(m, s)
  {
    FirstExists(s);
    var m :| First(m, s);
    m
  }

  /** The elements of a set from first to last. */
  ghost function InOrder(s: set<Bytes>): (l: seq<Bytes>)
    ensures |l| == |s| && (forall k :: k in l <==> k in s)
    decreases |s|
  {
    if s == {} then []
    else
      var m := FirstOf(s);
      [m] + InOrder(s - {m})
  }

  ghost predicate Ascending(l: seq<Bytes>) {
    forall i, j | 0 <= i < j < |l| :: Before(l[i], l[j])
  }

  lemma {:induction false} InOrderAscending(s: set<Bytes>)
    ensures Ascending(InOrder(s))
    decreases |s|
  {
    if s != {} {
      var m := FirstOf(s);
      var rest := InOrder(s - {m});
      InOrderAscending(s - {m});
      assert InOrder(s) == [m] + rest;
      forall j | 0 <= j < |rest|
        ensures Before(m, rest[j])
      {
        assert rest[j] in rest;
      }
      hide InOrder, First, Before;
      AscendingPrefix(m, rest);
    }
  }

  lemma AscendingPrefix(m: Bytes, rest: seq<Bytes>)
    requires Ascending(rest) && forall j | 0 <= j < |rest| :: Before(m, rest[j])
    ensures Ascending([m] + rest)
  {
    hide Before;
    var l := [m] + rest;
    forall i, j | 0 <= i < j < |l|
      ensures Before(l[i], l[j])
    {
      assert l[j] == rest[j - 1];
    }
  }

  /** There is only one such listing. */
  lemma {:induction false} AscendingUnique(l: seq<Bytes>, s: set<Bytes>)
    requires Ascending(l) && forall k :: k in l <==> k in s
    ensures l == InOrder(s)
    decreases |s|
  {
    hide Before;
    if l == [] {
      assert s == {};
    } else {
      var m, rest := l[0], l[1..];
      HeadFirst(l, s);
      hide Before, First, Ascending;
      FirstUnique(m, FirstOf(s), s);
      BeforeTotal(m, m);
      RestOf(l, s);
      AscendingUnique(rest, s - {m});
      assert l == [m] + rest;
    }
  }

  lemma HeadFirst(l: seq<Bytes>, s: set<Bytes>)
    requires l != [] && Ascending(l) && forall k :: k in l <==> k in s
    ensures l[0] in s && First(l[0], s)
  {
    hide Before;
    assert l[0] in l;
    forall x | x in s && x != l[0]
      ensures Before(l[0], x)
    {
      var j :| 0 <= j < |l| && l[j] == x;
    }
  }

  lemma RestOf(l: seq<Bytes>, s: set<Bytes>)
    requires l != [] && Ascending(l) && forall k :: k in l <==> k in s
    ensures Ascending(l[1..]) && forall k :: k in l[1..] <==> k in s - {l[0]}
  {
    hide Before;
    var rest := l[1..];
    forall i | 0 <= i < |rest|
      ensures rest[i] == l[i + 1] && rest[i] != l[0]
    {
      assert Before(l[0], l[i + 1]);
      BeforeTotal(l[0], l[0]);
    }
    forall k | k in s && k != l[0]
      ensures k in rest
    {
      var j :| 0 <= j < |l| && l[j] == k;
      assert rest[j - 1] == k;
    }
  }

  // ----- fields ------------------------------------------------------------------------------

  datatype Field = Fixed(bytes: Bytes) | Word(n: nat) | Sized(bytes: Bytes)

  predicate Measured(f: Field) {
    match f
    case Fixed(b) => |b| == 32
    case Word(n) => n <= U64_MAX
    case Sized(b) => |b| <= U64_MAX
  }

  function FieldBytes(f: Field): Bytes {
    match f
    case Fixed(b) => b
    case Word(n) => Be(n, 8)
    case Sized(b) => Be(|b|, 8) + b
  }

  ghost predicate Alike(f: Field, g: Field) {
    (f.Fixed? <==> g.Fixed?) && (f.Word? <==> g.Word?)
  }

  /** What follows a field does not blur into it. */
  lemma PeelField(f: Field, g: Field, r: Bytes, t: Bytes)
    requires Alike(f, g) && Measured(f) && Measured(g)
    requires FieldBytes(f) + r == FieldBytes(g) + t
    ensures f == g && r == t
  {
    hide Be;
    match f
    case Fixed(b) => PeelBytes(b, g.bytes, r, t);
    case Word(n) => PeelWord(n, g.n, r, t);
    case Sized(b) => PeelLengthed(b, g.bytes, r, t);
  }

  lemma PeelWord(n: nat, m: nat, r: Bytes, t: Bytes)
    requires n <= U64_MAX && m <= U64_MAX && Be(n, 8) + r == Be(m, 8) + t
    ensures n == m && r == t
  {
    Widths();
    hide Be, FromBe, Pow256;
    PeelBytes(Be(n, 8), Be(m, 8), r, t);
    FromBeOfBe(n, 8);
    FromBeOfBe(m, 8);
  }

  lemma PeelLengthed(b: Bytes, c: Bytes, r: Bytes, t: Bytes)
    requires |b| <= U64_MAX && |c| <= U64_MAX && Be(|b|, 8) + b + r == Be(|c|, 8) + c + t
    ensures b == c && r == t
  {
    Widths();
    hide Be, Pow256;
    Rejoin(Be(|b|, 8), b, r);
    Rejoin(Be(|c|, 8), c, t);
    PeelSized(8, b, c, r, t);
  }

  lemma Rejoin(a: Bytes, b: Bytes, c: Bytes)
    ensures a + b + c == a + (b + c)
  {
  }

  function Flat(fs: seq<Field>): Bytes {
    if fs == [] then [] else FieldBytes(fs[0]) + Flat(fs[1..])
  }

  ghost predicate SameShape(fs: seq<Field>, gs: seq<Field>) {
    |fs| == |gs| && forall i | 0 <= i < |fs| :: Alike(fs[i], gs[i])
  }

  ghost predicate AllMeasured(fs: seq<Field>) {
    forall i | 0 <= i < |fs| :: Measured(fs[i])
  }

  lemma {:induction false} PeelFields(fs: seq<Field>, gs: seq<Field>, r: Bytes, t: Bytes)
    requires SameShape(fs, gs) && AllMeasured(fs) && AllMeasured(gs)
    requires Flat(fs) + r == Flat(gs) + t
    ensures fs == gs && r == t
    decreases |fs|
  {
    hide FieldBytes, Measured;
    if fs != [] {
      assert Flat(fs) + r == FieldBytes(fs[0]) + (Flat(fs[1..]) + r);
      assert Flat(gs) + t == FieldBytes(gs[0]) + (Flat(gs[1..]) + t);
      PeelField(fs[0], gs[0], Flat(fs[1..]) + r, Flat(gs[1..]) + t);
      PeelFields(fs[1..], gs[1..], r, t);
      assert fs == [fs[0]] + fs[1..] && gs == [gs[0]] + gs[1..];
    } else {
      assert Flat(fs) + r == r && Flat(gs) + t == t;
    }
  }

  // ----- tables ------------------------------------------------------------------------------

  type Row<!V> = (Bytes, V) -> seq<Field>

  /** The rows of a table one after another. */
  function Table<V>(keys: seq<Bytes>, m: map<Bytes, V>, row: Row<V>): Bytes
    requires forall k | k in keys :: k in m
  {
    if keys == [] then [] else Flat(row(keys[0], m[keys[0]])) + Table(keys[1..], m, row)
  }

  /** All rows have one shape, and a row gives its key and value away. */
  ghost predicate Legible<V(!new)>(row: Row<V>) {
    forall k, v, k', v' ::
      && SameShape(row(k, v), row(k', v'))
      && (row(k, v) == row(k', v') ==> k == k' && v == v')
  }

  ghost predicate RowsMeasured<V>(m: map<Bytes, V>, row: Row<V>) {
    forall k | k in m :: AllMeasured(row(k, m[k]))
  }

  lemma {:induction false} PeelTable<V(!new)>(k1: seq<Bytes>, m1: map<Bytes, V>, k2: seq<Bytes>, m2: map<Bytes, V>,
                                             row: Row<V>, r: Bytes, t: Bytes)
    requires |k1| == |k2| && (forall k | k in k1 :: k in m1) && (forall k | k in k2 :: k in m2)
    requires Legible(row) && RowsMeasured(m1, row) && RowsMeasured(m2, row)
    requires Table(k1, m1, row) + r == Table(k2, m2, row) + t
    ensures k1 == k2 && (forall k | k in k1 :: k in m2 && m1[k] == m2[k]) && r == t
    decreases |k1|
  {
    hide Flat, SameShape, AllMeasured;
    if k1 != [] {
      var a, b := k1[0], k2[0];
      var f, g := row(a, m1[a]), row(b, m2[b]);
      assert Table(k1, m1, row) + r == Flat(f) + (Table(k1[1..], m1, row) + r);
      assert Table(k2, m2, row) + t == Flat(g) + (Table(k2[1..], m2, row) + t);
      PeelFields(f, g, Table(k1[1..], m1, row) + r, Table(k2[1..], m2, row) + t);
      PeelTable(k1[1..], m1, k2[1..], m2, row, r, t);
      assert k1 == [a] + k1[1..] && k2 == [b] + k2[1..];
    } else {
      assert Table(k1, m1, row) + r == r && Table(k2, m2, row) + t == t;
    }
  }

  /** A counted table in key order fixes its map. */
  ghost function Section<V>(m: map<Bytes, V>, row: Row<V>): Bytes {
    Be(|m|, 8) + Table(InOrder(m.Keys), m, row)
  }

  lemma PeelSection<V(!new)>(m1: map<Bytes, V>, m2: map<Bytes, V>, row: Row<V>, r: Bytes, t: Bytes)
    requires Legible(row) && RowsMeasured(m1, row) && RowsMeasured(m2, row)
    requires |m1| <= U64_MAX && |m2| <= U64_MAX
    requires Section(m1, row) + r == Section(m2, row) + t
    ensures m1 == m2 && r == t
  {
    hide Legible, RowsMeasured, InOrder, Table;
    Widths();
    var k1, k2 := InOrder(m1.Keys), InOrder(m2.Keys);
    var t1, t2 := Table(k1, m1, row), Table(k2, m2, row);
    PeelCount(|m1|, |m2|, t1, t2, r, t);
    PeelTable(k1, m1, k2, m2, row, r, t);
    SameMaps(k1, m1, m2);
  }

  lemma PeelCount(n1: nat, n2: nat, t1: Bytes, t2: Bytes, r: Bytes, t: Bytes)
    requires n1 < Pow256(8) && n2 < Pow256(8)
    requires (Be(n1, 8) + t1) + r == (Be(n2, 8) + t2) + t
    ensures n1 == n2 && t1 + r == t2 + t
  {
    FromBeOfBe(n1, 8);
    FromBeOfBe(n2, 8);
    PeelNested(Be(n1, 8), Be(n2, 8), t1, t2, r, t);
  }

  lemma PeelNested(a: Bytes, b: Bytes, t1: Bytes, t2: Bytes, r: Bytes, t: Bytes)
    requires |a| == |b| && (a + t1) + r == (b + t2) + t
    ensures a == b && t1 + r == t2 + t
  {
    assert (a + t1) + r == a + (t1 + r);
    assert (b + t2) + t == b + (t2 + t);
    PeelBytes(a, b, t1 + r, t2 + t);
  }

  lemma SameMaps<V>(keys: seq<Bytes>, m1: map<Bytes, V>, m2: map<Bytes, V>)
    requires (forall k :: k in keys <==> k in m1.Keys) && (forall k :: k in keys <==> k in m2.Keys)
    requires forall k | k in keys :: m1[k] == m2[k]
    ensures m1 == m2
  {
    assert m1.Keys == m2.Keys;
  }

  // ----- the root ----------------------------------------------------------------------------

  const STATE_DOMAIN: Bytes := [81, 79, 77, 77, 58, 67, 72, 65, 73, 78, 58, 83, 84, 65, 84, 69, 58, 118, 49]

  function AccountRow(handle: Bytes, commitment: Bytes): seq<Field> {
    [Sized(handle), Fixed(commitment)]
  }

  function NullifierRow(nullifier: Bytes, deadline: nat): seq<Field> {
    [Fixed(nullifier), Word(deadline)]
  }

  function EscrowRow(leg: Bytes, e: Escrow): seq<Field> {
    [Sized(leg), Sized(e.payer), Sized(e.payee), Fixed(e.held), Word(e.deadline)]
  }

  lemma RowsLegible()
    ensures Legible<Bytes>(AccountRow) && Legible<nat>(NullifierRow) && Legible<Escrow>(EscrowRow)
  {
    assert Legible<Escrow>(EscrowRow) by {
      forall k, v: Escrow, k', v': Escrow
        ensures SameShape(EscrowRow(k, v), EscrowRow(k', v'))
        ensures EscrowRow(k, v) == EscrowRow(k', v') ==> k == k' && v == v'
      {
        var f, g := EscrowRow(k, v), EscrowRow(k', v');
        if f == g {
          assert f[0] == g[0] && f[1] == g[1] && f[2] == g[2] && f[3] == g[3] && f[4] == g[4];
        }
      }
    }
    assert Legible<Bytes>(AccountRow) by {
      forall k, v: Bytes, k', v': Bytes
        ensures SameShape(AccountRow(k, v), AccountRow(k', v'))
        ensures AccountRow(k, v) == AccountRow(k', v') ==> k == k' && v == v'
      {
        var f, g := AccountRow(k, v), AccountRow(k', v');
        if f == g {
          assert f[0] == g[0] && f[1] == g[1];
        }
      }
    }
    assert Legible<nat>(NullifierRow) by {
      forall k, v: nat, k', v': nat
        ensures SameShape(NullifierRow(k, v), NullifierRow(k', v'))
        ensures NullifierRow(k, v) == NullifierRow(k', v') ==> k == k' && v == v'
      {
        var f, g := NullifierRow(k, v), NullifierRow(k', v');
        if f == g {
          assert f[0] == g[0] && f[1] == g[1];
        }
      }
    }
  }

  ghost function Body(s: State): Bytes {
    Section<Bytes>(s.accounts, AccountRow)
    + (Section<nat>(s.nullifiers, NullifierRow) + Section<Escrow>(s.escrows, EscrowRow))
  }

  /** The bytes under the hash. */
  ghost function Preimage(s: State): Bytes {
    STATE_DOMAIN + Body(s)
  }

  /** Every count and every length fits the eight bytes it is written in. */
  ghost predicate Storable(s: State) {
    && |s.accounts| <= U64_MAX && |s.nullifiers| <= U64_MAX && |s.escrows| <= U64_MAX
    && (forall h | h in s.accounts :: |h| <= U64_MAX)
    && (forall l | l in s.escrows ::
          |l| <= U64_MAX && |s.escrows[l].payer| <= U64_MAX && |s.escrows[l].payee| <= U64_MAX)
  }

  lemma AccountsMeasured(m: map<Bytes, Bytes>)
    requires forall h | h in m :: |h| <= U64_MAX && |m[h]| == 32
    ensures RowsMeasured<Bytes>(m, AccountRow)
  {
  }

  lemma NullifiersMeasured(m: map<Bytes, nat>)
    requires forall n | n in m :: |n| == 32 && m[n] <= U64_MAX
    ensures RowsMeasured<nat>(m, NullifierRow)
  {
  }

  lemma EscrowsMeasured(m: map<Bytes, Escrow>)
    requires forall l | l in m :: |l| <= U64_MAX && |m[l].payer| <= U64_MAX && |m[l].payee| <= U64_MAX
    ensures RowsMeasured<Escrow>(m, EscrowRow)
  {
  }

  /** Two states hash the same bytes exactly when they are the same state. */
  lemma PreimageInjective(s: State, t: State)
    requires Storable(s) && Storable(t)
    ensures Preimage(s) == Preimage(t) <==> s == t
  {
    hide Legible, RowsMeasured, Section;
    if Preimage(s) == Preimage(t) {
      RowsLegible();
      RowsOf(s);
      RowsOf(t);
      PeelBytes(STATE_DOMAIN, STATE_DOMAIN, Body(s), Body(t));
      hide Preimage;
      PeelSections<Bytes, nat, Escrow>(s.accounts, t.accounts, AccountRow, s.nullifiers, t.nullifiers, NullifierRow,
                                       s.escrows, t.escrows, EscrowRow);
    }
  }

  lemma RowsOf(s: State)
    requires Storable(s)
    ensures RowsMeasured<Bytes>(s.accounts, AccountRow)
    ensures RowsMeasured<nat>(s.nullifiers, NullifierRow)
    ensures RowsMeasured<Escrow>(s.escrows, EscrowRow)
  {
    hide RowsMeasured;
    AccountsMeasured(s.accounts);
    NullifiersMeasured(s.nullifiers);
    EscrowsMeasured(s.escrows);
  }

  lemma PeelSections<A(!new), N(!new), E(!new)>(a1: map<Bytes, A>, a2: map<Bytes, A>, rowA: Row<A>,
                                               n1: map<Bytes, N>, n2: map<Bytes, N>, rowN: Row<N>,
                                               e1: map<Bytes, E>, e2: map<Bytes, E>, rowE: Row<E>)
    requires Legible(rowA) && RowsMeasured(a1, rowA) && RowsMeasured(a2, rowA)
    requires Legible(rowN) && RowsMeasured(n1, rowN) && RowsMeasured(n2, rowN)
    requires Legible(rowE) && RowsMeasured(e1, rowE) && RowsMeasured(e2, rowE)
    requires |a1| <= U64_MAX && |a2| <= U64_MAX && |n1| <= U64_MAX && |n2| <= U64_MAX && |e1| <= U64_MAX
      && |e2| <= U64_MAX
    requires Section(a1, rowA) + (Section(n1, rowN) + Section(e1, rowE))
          == Section(a2, rowA) + (Section(n2, rowN) + Section(e2, rowE))
    ensures a1 == a2 && n1 == n2 && e1 == e2
  {
    hide Legible, RowsMeasured, Section;
    PeelSection(a1, a2, rowA, Section(n1, rowN) + Section(e1, rowE), Section(n2, rowN) + Section(e2, rowE));
    PeelSection(n1, n2, rowN, Section(e1, rowE), Section(e2, rowE));
    assert Section(e1, rowE) + [] == Section(e2, rowE) + [];
    PeelSection(e1, e2, rowE, [], []);
  }
}
