/**
 Novation: every obligation between two parties is replaced by one from the payer to the house and
 one from the house to the payee. Amounts are commitments in an abelian group.
 */
module Clearing {
  import opened Results
  import opened Wire
  import opened Algebra

  datatype Obligation<P> = Obligation(payer: Bytes, payee: Bytes, asset: Bytes, commitment: P)

  datatype SignedObligation<P> = SignedObligation(obligation: Obligation<P>, byPayer: Bytes, byPayee: Bytes)

  datatype Novation<P> = Novation(house: Bytes, asset: Bytes, before: seq<SignedObligation<P>>,
                                  after: seq<Obligation<P>>, owedToHouse: P, owedByHouse: P)

  datatype ClearingError = Empty | MixedAssets

  // ----- the rewrite -------------------------------------------------------------------------

  function Commitments<P>(edges: seq<SignedObligation<P>>): seq<P> {
    seq(|edges|, i requires 0 <= i < |edges| => edges[i].obligation.commitment)
  }

  /** The edge that now stands at one position: even positions run to the house, odd ones from it. */
  function Leg<P>(house: Bytes, asset: Bytes, edges: seq<SignedObligation<P>>, i: nat): Obligation<P>
    requires i < 2 * |edges|
  {
    var o := edges[i / 2].obligation;
    if i % 2 == 0 then Obligation(o.payer, house, asset, o.commitment)
    else Obligation(house, o.payee, asset, o.commitment)
  }

  function Interposed<P>(house: Bytes, asset: Bytes, edges: seq<SignedObligation<P>>): seq<Obligation<P>> {
    seq(2 * |edges|, i requires 0 <= i < 2 * |edges| => Leg(house, asset, edges, i))
  }

  predicate OneAsset<P>(asset: Bytes, edges: seq<SignedObligation<P>>) {
    forall i | 0 <= i < |edges| :: edges[i].obligation.asset == asset
  }

  function Interposition<P>(g: Group<P>, house: Bytes, asset: Bytes, edges: seq<SignedObligation<P>>): Novation<P> {
    var total := Sum(g, Commitments(edges));
    Novation(house, asset, edges, Interposed(house, asset, edges), total, total)
  }

  method Novate<P>(g: Group<P>, house: Bytes, edges: seq<SignedObligation<P>>)
      returns (r: Result<Novation<P>, ClearingError>)
    ensures r == if edges == [] then Failure(Empty)
                 else if !OneAsset(edges[0].obligation.asset, edges) then Failure(MixedAssets)
                 else Success(Interposition(g, house, edges[0].obligation.asset, edges))
  {
    if edges == [] {
      return Failure(Empty);
    }
    var asset := edges[0].obligation.asset;
    for i := 0 to |edges|
      invariant forall j | 0 <= j < i :: edges[j].obligation.asset == asset
    {
      if edges[i].obligation.asset != asset {
        return Failure(MixedAssets);
      }
    }
    hide Interposed;
    TwoMoreLegs(house, asset, edges, 0);
    var after: seq<Obligation<P>> := [];
    var toHouse, byHouse := g.zero, g.zero;
    for i := 0 to |edges|
      invariant after == Interposed(house, asset, edges)[..2 * i]
      invariant toHouse == byHouse == Sum(g, Commitments(edges)[..i])
    {
      var o := edges[i].obligation;
      after := after + [Obligation(o.payer, house, asset, o.commitment),
                        Obligation(house, o.payee, asset, o.commitment)];
      toHouse, byHouse := g.add(toHouse, o.commitment), g.add(byHouse, o.commitment);
      TwoMoreLegs(house, asset, edges, i);
      assert Commitments(edges)[..i + 1][..i] == Commitments(edges)[..i];
    }
    assert Commitments(edges)[..|edges|] == Commitments(edges);
    assert Interposed(house, asset, edges)[..2 * |edges|] == Interposed(house, asset, edges);
    return Success(Novation(house, asset, edges, after, toHouse, byHouse));
  }

  lemma LegsAt<P>(house: Bytes, asset: Bytes, edges: seq<SignedObligation<P>>, i: nat)
    requires i < |edges|
    ensures var o, after := edges[i].obligation, Interposed(house, asset, edges);
      && after[2 * i] == Obligation(o.payer, house, asset, o.commitment)
      && after[2 * i + 1] == Obligation(house, o.payee, asset, o.commitment)
  {
  }

  lemma TwoMoreLegs<P>(house: Bytes, asset: Bytes, edges: seq<SignedObligation<P>>, i: nat)
    requires i < |edges|
    ensures |Interposed(house, asset, edges)| == 2 * |edges|
    ensures var o, after := edges[i].obligation, Interposed(house, asset, edges);
      after[..2 * (i + 1)]
      == after[..2 * i]
          + [Obligation(o.payer, house, asset, o.commitment), Obligation(house, o.payee, asset, o.commitment)]
  {
    LegsAt(house, asset, edges, i);
    assert |Interposed(house, asset, edges)| == 2 * |edges|;
    hide Interposed, Leg;
  }

  // ----- the checker -------------------------------------------------------------------------

  /** What the checker asks of one edge. */
  predicate EdgeHolds<P(==)>(house: Bytes, n: Novation<P>, i: nat)
    requires i < |n.before| && |n.after| == 2 * |n.before|
  {
    var o, first, second := n.before[i].obligation, n.after[2 * i], n.after[2 * i + 1];
    && first.payer == o.payer && first.payee == house
    && second.payer == house && second.payee == o.payee
    && first.commitment == o.commitment && second.commitment == o.commitment
    && o.asset == n.asset && first.asset == n.asset && second.asset == n.asset
  }

  /**
   The checker accepts exactly what the house's own rewrite gives: the object `Novate` returns, or
   the empty one, which `Novate` refuses to build.
   */
  method CheckNovation<P(==)>(g: Group<P>, house: Bytes, n: Novation<P>) returns (ok: bool)
    ensures ok <==> OneAsset(n.asset, n.before) && n == Interposition(g, house, n.asset, n.before)
  {
    if n.house != house || |n.after| != 2 * |n.before| {
      return false;
    }
    var toHouse, byHouse := g.zero, g.zero;
    for i := 0 to |n.before|
      invariant forall j | 0 <= j < i :: EdgeHolds(house, n, j)
      invariant toHouse == byHouse == Sum(g, Commitments(n.before)[..i])
    {
      if !EdgeHolds(house, n, i) {
        FailsHere(house, n, i);
        return false;
      }
      toHouse, byHouse := g.add(toHouse, n.after[2 * i].commitment), g.add(byHouse, n.after[2 * i + 1].commitment);
      assert Commitments(n.before)[..i + 1][..i] == Commitments(n.before)[..i];
    }
    assert Commitments(n.before)[..|n.before|] == Commitments(n.before);
    AllHold(house, n);
    if toHouse != n.owedToHouse || byHouse != n.owedByHouse {
      return false;
    }
    if toHouse != byHouse {
      assert false;
    }
    return true;
  }

  lemma FailsHere<P>(house: Bytes, n: Novation<P>, i: nat)
    requires i < |n.before| && |n.after| == 2 * |n.before| && !EdgeHolds(house, n, i)
    ensures !(OneAsset(n.asset, n.before) && n.after == Interposed(house, n.asset, n.before))
  {
    if n.after == Interposed(house, n.asset, n.before) {
      LegsAt(house, n.asset, n.before, i);
    }
  }

  lemma AllHold<P>(house: Bytes, n: Novation<P>)
    requires |n.after| == 2 * |n.before| && forall i | 0 <= i < |n.before| :: EdgeHolds(house, n, i)
    ensures OneAsset(n.asset, n.before) && n.after == Interposed(house, n.asset, n.before)
  {
    forall i | 0 <= i < |n.before|
      ensures n.before[i].obligation.asset == n.asset
    {
      assert EdgeHolds(house, n, i);
    }
    forall k | 0 <= k < |n.after|
      ensures n.after[k] == Leg(house, n.asset, n.before, k)
    {
      assert EdgeHolds(house, n, k / 2);
      assert k == 2 * (k / 2) || k == 2 * (k / 2) + 1;
    }
  }

  // ----- positions ---------------------------------------------------------------------------

  type Positions<P> = map<Bytes, (P, P)>

  /** What a party pays under the original obligations. */
  function Owed<P>(g: Group<P>, edges: seq<SignedObligation<P>>, party: Bytes): P {
    if edges == [] then g.zero
    else
      var n := |edges| - 1;
      var before, o := Owed(g, edges[..n], party), edges[n].obligation;
      if o.payer == party then g.add(before, o.commitment) else before
  }

  /** What a party receives under the original obligations. */
  function Claimed<P>(g: Group<P>, edges: seq<SignedObligation<P>>, party: Bytes): P {
    if edges == [] then g.zero
    else
      var n := |edges| - 1;
      var before, o := Claimed(g, edges[..n], party), edges[n].obligation;
      if o.payee == party then g.add(before, o.commitment) else before
  }

  ghost function Parties<P>(edges: seq<SignedObligation<P>>): set<Bytes> {
    (set i | 0 <= i < |edges| :: edges[i].obligation.payer) + (set i | 0 <= i < |edges| :: edges[i].obligation.payee)
  }

  function Position<P>(g: Group<P>, positions: Positions<P>, party: Bytes): (P, P) {
    if party in positions then positions[party] else (g.zero, g.zero)
  }

  /** Account for one edge of the rewritten graph. */
  function Posted<P>(g: Group<P>, house: Bytes, positions: Positions<P>, o: Obligation<P>): Positions<P> {
    if o.payer == house then
      var (owed, claimed) := Position(g, positions, o.payee);
      positions[o.payee := (owed, g.add(claimed, o.commitment))]
    else
      var (owed, claimed) := Position(g, positions, o.payer);
      positions[o.payer := (g.add(owed, o.commitment), claimed)]
  }

  function Net<P>(g: Group<P>, house: Bytes, after: seq<Obligation<P>>): Positions<P> {
    if after == [] then map[]
    else Posted(g, house, Net(g, house, after[..|after| - 1]), after[|after| - 1])
  }

  method NetPositions<P>(g: Group<P>, n: Novation<P>) returns (out: Positions<P>)
    ensures out == Net(g, n.house, n.after)
  {
    out := map[];
    for i := 0 to |n.after|
      invariant out == Net(g, n.house, n.after[..i])
    {
      var edge := n.after[i];
      assert n.after[..i + 1][..i] == n.after[..i];
      if edge.payer == n.house {
        var slot := Position(g, out, edge.payee);
        out := out[edge.payee := (slot.0, g.add(slot.1, edge.commitment))];
      } else {
        var slot := Position(g, out, edge.payer);
        out := out[edge.payer := (g.add(slot.0, edge.commitment), slot.1)];
      }
    }
    assert n.after[..|n.after|] == n.after;
  }

  /** One original edge posts twice: once for its payer and once for its payee. */
  lemma NetMore<P>(g: Group<P>, house: Bytes, asset: Bytes, edges: seq<SignedObligation<P>>)
    requires edges != []
    ensures var k, o := |edges| - 1, edges[|edges| - 1].obligation;
      var first := Obligation(o.payer, house, asset, o.commitment);
      var second := Obligation(house, o.payee, asset, o.commitment);
      Net(g, house, Interposed(house, asset, edges))
      == Posted(g, house, Posted(g, house, Net(g, house, Interposed(house, asset, edges[..k])), first), second)
  {
    var k, o := |edges| - 1, edges[|edges| - 1].obligation;
    var after := Interposed(house, asset, edges);
    LegsAt(house, asset, edges, k);
    assert |after| == 2 * |edges|;
    assert after[..2 * k] == Interposed(house, asset, edges[..k]);
    assert after[..2 * k + 1][..2 * k] == after[..2 * k];
    assert after[..|after| - 1] == after[..2 * k + 1];
    hide Posted, Interposed;
  }

  /** What is stored for a party: its own sums, except that the house's payments land on its claims. */
  ghost function Stored<P>(g: Group<P>, house: Bytes, edges: seq<SignedObligation<P>>, party: Bytes): (P, P) {
    var owed, claimed := Owed(g, edges, party), Claimed(g, edges, party);
    if party == house then (g.zero, g.add(owed, claimed)) else (owed, claimed)
  }

  lemma StoredMore<P(!new)>(g: Group<P>, house: Bytes, asset: Bytes, edges: seq<SignedObligation<P>>,
                            positions: Positions<P>, party: Bytes)
    requires Abelian(g) && edges != []
    requires var k := |edges| - 1; Position(g, positions, party) == Stored(g, house, edges[..k], party)
    ensures var o := edges[|edges| - 1].obligation;
      var first := Obligation(o.payer, house, asset, o.commitment);
      var second := Obligation(house, o.payee, asset, o.commitment);
      Position(g, Posted(g, house, Posted(g, house, positions, first), second), party) == Stored(g, house, edges, party)
  {
    hide Abelian;
    var k := |edges| - 1;
    var c, owed, claimed := edges[k].obligation.commitment, Owed(g, edges[..k], party), Claimed(g, edges[..k], party);
    Swap(g, owed, claimed, c);
    Assoc(g, owed, claimed, c);
    Assoc(g, g.add(owed, c), claimed, c);
  }

  lemma {:induction false} NetIs<P(!new)>(g: Group<P>, house: Bytes, asset: Bytes, edges: seq<SignedObligation<P>>,
                                          party: Bytes)
    requires Abelian(g)
    ensures Position(g, Net(g, house, Interposed(house, asset, edges)), party) == Stored(g, house, edges, party)
    decreases |edges|
  {
    if edges == [] {
      Zero(g, g.zero);
    } else {
      hide Abelian, Stored, Posted, Interposed;
      NetIs(g, house, asset, edges[..|edges| - 1], party);
      NetMore(g, house, asset, edges);
      StoredMore(g, house, asset, edges, Net(g, house, Interposed(house, asset, edges[..|edges| - 1])), party);
    }
  }

  /**
   Every party's position is its original owed and claimed sums exactly when the house owes nothing
   as a party to the original obligations; every other party's position is right in any case.
   */
  lemma PositionsExact<P(!new)>(g: Group<P>, house: Bytes, asset: Bytes, edges: seq<SignedObligation<P>>)
    requires Abelian(g)
    ensures var net := Net(g, house, Interposed(house, asset, edges));
      && (forall q | q != house :: Position(g, net, q) == (Owed(g, edges, q), Claimed(g, edges, q)))
      && (Position(g, net, house) == (Owed(g, edges, house), Claimed(g, edges, house)) <==>
            Owed(g, edges, house) == g.zero)
  {
    hide Abelian, Interposed, Net;
    forall q
      ensures Position(g, Net(g, house, Interposed(house, asset, edges)), q) == Stored(g, house, edges, q)
    {
      NetIs(g, house, asset, edges, q);
    }
    Zero(g, Claimed(g, edges, house));
  }

  /** A house that pays another party as a principal finds that payment among its claims. */
  lemma HouseAsPayer<P(!new)>(g: Group<P>, house: Bytes, edge: SignedObligation<P>)
    requires Abelian(g) && edge.obligation.payer == house != edge.obligation.payee
      && edge.obligation.commitment != g.zero
    ensures var asset, c := edge.obligation.asset, edge.obligation.commitment;
      && (Owed(g, [edge], house), Claimed(g, [edge], house)) == (c, g.zero)
      && Position(g, Net(g, house, Interposed(house, asset, [edge])), house) == (g.zero, c)
  {
    hide Abelian, Interposed, Net;
    NetIs(g, house, edge.obligation.asset, [edge], house);
    Zero(g, edge.obligation.commitment);
  }

  /** In particular when the house pays in none of them. */
  lemma {:induction false} OwesNothing<P>(g: Group<P>, edges: seq<SignedObligation<P>>, party: Bytes)
    requires forall i | 0 <= i < |edges| :: edges[i].obligation.payer != party
    ensures Owed(g, edges, party) == g.zero
    decreases |edges|
  {
    if edges != [] {
      OwesNothing(g, edges[..|edges| - 1], party);
    }
  }

  /** The parties with a position are the parties of the original obligations. */
  lemma {:induction false} NetParties<P>(g: Group<P>, house: Bytes, asset: Bytes, edges: seq<SignedObligation<P>>)
    ensures Net(g, house, Interposed(house, asset, edges)).Keys == Parties(edges)
    decreases |edges|
  {
    if edges != [] {
      hide Interposed, Net, Parties;
      NetParties(g, house, asset, edges[..|edges| - 1]);
      NetMore(g, house, asset, edges);
      PartiesMore(edges);
    } else {
      hide Posted;
    }
  }

  lemma PartiesMore<P>(edges: seq<SignedObligation<P>>)
    requires edges != []
    ensures var last := edges[|edges| - 1].obligation;
      Parties(edges) == Parties(edges[..|edges| - 1]) + {last.payer, last.payee}
  {
    assert edges == edges[..|edges| - 1] + [edges[|edges| - 1]];
  }

  // ----- conservation ------------------------------------------------------------------------

  function OwedSide<P>(positions: Positions<P>): map<Bytes, P> {
    map q | q in positions :: positions[q].0
  }

  function ClaimedSide<P>(positions: Positions<P>): map<Bytes, P> {
    map q | q in positions :: positions[q].1
  }

  lemma PostedSides<P(!new)>(g: Group<P>, house: Bytes, positions: Positions<P>, o: Obligation<P>)
    requires Abelian(g)
    ensures var after := Posted(g, house, positions, o);
      && MapSum(g, OwedSide(after)) == (if o.payer == house then MapSum(g, OwedSide(positions))
                                        else g.add(MapSum(g, OwedSide(positions)), o.commitment))
      && MapSum(g, ClaimedSide(after))
           == (if o.payer == house then g.add(MapSum(g, ClaimedSide(positions)), o.commitment)
               else MapSum(g, ClaimedSide(positions)))
  {
    hide Abelian, MapSum;
    var after := Posted(g, house, positions, o);
    var party := if o.payer == house then o.payee else o.payer;
    var (owed, claimed) := Position(g, positions, party);
    var owedMore := if o.payer == house then g.zero else o.commitment;
    var claimedMore := if o.payer == house then o.commitment else g.zero;
    Zero(g, owed);
    Zero(g, claimed);
    assert OwedSide(after) == OwedSide(positions)[party := g.add(owed, owedMore)];
    assert ClaimedSide(after) == ClaimedSide(positions)[party := g.add(claimed, claimedMore)];
    MapSumAdd(g, OwedSide(positions), party, owedMore);
    MapSumAdd(g, ClaimedSide(positions), party, claimedMore);
    Zero(g, MapSum(g, OwedSide(positions)));
    Zero(g, MapSum(g, ClaimedSide(positions)));
  }

  /**
   All owed positions together, with what the house itself owes, are the total of the obligations;
   all claimed positions together exceed that total by what the house itself owes.
   */
  lemma {:induction false} PositionsBalance<P(!new)>(g: Group<P>, house: Bytes, asset: Bytes,
                                                     edges: seq<SignedObligation<P>>)
    requires Abelian(g)
    ensures var net := Net(g, house, Interposed(house, asset, edges));
      && g.add(MapSum(g, OwedSide(net)), Owed(g, edges, house)) == Sum(g, Commitments(edges))
      && MapSum(g, ClaimedSide(net)) == g.add(Sum(g, Commitments(edges)), Owed(g, edges, house))
    decreases |edges|
  {
    hide Abelian;
    if edges == [] {
      Zero(g, g.zero);
      assert OwedSide<P>(map[]) == map[] && ClaimedSide<P>(map[]) == map[];
    } else {
      var k, o := |edges| - 1, edges[|edges| - 1].obligation;
      PositionsBalance(g, house, asset, edges[..k]);
      NetMore(g, house, asset, edges);
      assert Commitments(edges)[..k] == Commitments(edges[..k]);
      var net := Net(g, house, Interposed(house, asset, edges[..k]));
      var first := Obligation(o.payer, house, asset, o.commitment);
      var second := Obligation(house, o.payee, asset, o.commitment);
      hide Interposed, Net, Posted, OwedSide, ClaimedSide, MapSum;
      PostedSides(g, house, net, first);
      PostedSides(g, house, Posted(g, house, net, first), second);
      BalanceStep(g, MapSum(g, OwedSide(net)), Owed(g, edges[..k], house), o.commitment);
      BalanceStep(g, Sum(g, Commitments(edges[..k])), Owed(g, edges[..k], house), o.commitment);
    }
  }

  /**
   Total owed equals total claimed exactly when twice what the house itself owes is nothing; in
   particular when the house pays in none of the obligations.
   */
  lemma SidesEqual<P(!new)>(g: Group<P>, house: Bytes, asset: Bytes, edges: seq<SignedObligation<P>>)
    requires Abelian(g)
    ensures var net, debt := Net(g, house, Interposed(house, asset, edges)), Owed(g, edges, house);
      && (MapSum(g, OwedSide(net)) == MapSum(g, ClaimedSide(net)) <==> g.add(debt, debt) == g.zero)
      && ((forall i | 0 <= i < |edges| :: edges[i].obligation.payer != house) ==>
            MapSum(g, OwedSide(net)) == MapSum(g, ClaimedSide(net)) == Sum(g, Commitments(edges)))
  {
    hide Abelian, Interposed, Net, OwedSide, ClaimedSide, MapSum;
    var net, debt := Net(g, house, Interposed(house, asset, edges)), Owed(g, edges, house);
    var owed := MapSum(g, OwedSide(net));
    PositionsBalance(g, house, asset, edges);
    Assoc(g, owed, debt, debt);
    Comm(g, owed, g.add(debt, debt));
    Zero(g, owed);
    if owed == MapSum(g, ClaimedSide(net)) {
      SameSum(g, g.add(debt, debt), g.zero, owed);
    }
    if forall i | 0 <= i < |edges| :: edges[i].obligation.payer != house {
      OwesNothing(g, edges, house);
      Zero(g, g.zero);
    }
  }

  lemma BalanceStep<P(!new)>(g: Group<P>, a: P, b: P, c: P)
    requires Abelian(g)
    ensures g.add(g.add(a, b), c) == g.add(g.add(a, c), b)
    ensures g.add(a, g.add(b, c)) == g.add(g.add(a, b), c)
    ensures g.add(g.add(a, c), g.add(b, c)) == g.add(g.add(g.add(a, b), c), c)
  {
    hide Abelian;
    Swap(g, a, b, c);
    Assoc(g, a, b, c);
    Assoc(g, g.add(a, c), b, c);
    Swap(g, a, c, b);
  }
}
