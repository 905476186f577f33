/** The bytes a clearing house signs for a cycle: they name the cycle, the house, the asset and every trade. */
module Attestation {
  import opened Numbers
  import opened Wire
  import opened Clearing

  const CCP_DOMAIN: Bytes := [81, 79, 77, 77, 58, 68, 69, 70, 77, 73, 58, 67, 67, 80, 58, 118, 49]
  const OBLIGATION_TAG: Bytes := [58, 111, 98, 108, 105, 103, 97, 116, 105, 111, 110, 58]
  const NOVATION_TAG: Bytes := [58, 110, 111, 118, 97, 116, 105, 111, 110, 58]

  /** What both parties of an obligation sign, followed by whatever comes next. */
  function BodyThen<P>(encode: P -> Hash, o: Obligation<P>, rest: Bytes): Bytes {
    CCP_DOMAIN + (OBLIGATION_TAG + (Be(|o.payer|, 4) + (o.payer + (Be(|o.payee|, 4) + (o.payee
      + (Be(|o.asset|, 4) + (o.asset + (encode(o.commitment) + rest))))))))
  }

  /** The bodies of all trades in order. */
  function Bodies<P>(encode: P -> Hash, edges: seq<SignedObligation<P>>): Bytes {
    if edges == [] then [] else BodyThen(encode, edges[0].obligation, Bodies(encode, edges[1..]))
  }

  /** The bytes under the attestation's digest. */
  function DigestInput<P>(encode: P -> Hash, n: Novation<P>, cycle: Bytes): Bytes {
    CCP_DOMAIN + (NOVATION_TAG + (Be(|cycle|, 8) + (cycle + (Be(|n.house|, 8) + (n.house
      + (Be(|n.asset|, 8) + (n.asset + Bodies(encode, n.before))))))))
  }

  /** Distinct amounts have distinct encodings. */
  ghost predicate Faithful<P(!new)>(encode: P -> Hash) {
    forall a, b :: encode(a) == encode(b) ==> a == b
  }

  predicate Brief<P>(o: Obligation<P>) {
    |o.payer| <= U32_MAX && |o.payee| <= U32_MAX && |o.asset| <= U32_MAX
  }

  /** A signature over an obligation cannot be moved to another one. */
  lemma PeelBody<P(!new)>(encode: P -> Hash, o: Obligation<P>, p: Obligation<P>, r: Bytes, t: Bytes)
    requires Faithful(encode) && Brief(o) && Brief(p)
    requires BodyThen(encode, o, r) == BodyThen(encode, p, t)
    ensures o == p && r == t
  {
    hide Be;
    Widths();
    var o3, p3 := encode(o.commitment) + r, encode(p.commitment) + t;
    var o2, p2 := Be(|o.asset|, 4) + (o.asset + o3), Be(|p.asset|, 4) + (p.asset + p3);
    var o1, p1 := Be(|o.payee|, 4) + (o.payee + o2), Be(|p.payee|, 4) + (p.payee + p2);
    var o0, p0 := Be(|o.payer|, 4) + (o.payer + o1), Be(|p.payer|, 4) + (p.payer + p1);
    PeelBytes(CCP_DOMAIN, CCP_DOMAIN, OBLIGATION_TAG + o0, OBLIGATION_TAG + p0);
    PeelBytes(OBLIGATION_TAG, OBLIGATION_TAG, o0, p0);
    PeelSized(4, o.payer, p.payer, o1, p1);
    PeelSized(4, o.payee, p.payee, o2, p2);
    PeelSized(4, o.asset, p.asset, o3, p3);
    PeelBytes(encode(o.commitment), encode(p.commitment), r, t);
  }

  function Obligations<P>(edges: seq<SignedObligation<P>>): seq<Obligation<P>> {
    seq(|edges|, i requires 0 <= i < |edges| => edges[i].obligation)
  }

  ghost predicate AllBrief<P>(edges: seq<SignedObligation<P>>) {
    forall i | 0 <= i < |edges| :: Brief(edges[i].obligation)
  }

  lemma {:induction false} PeelBodies<P(!new)>(encode: P -> Hash, a: seq<SignedObligation<P>>,
                                               b: seq<SignedObligation<P>>)
    requires Faithful(encode) && AllBrief(a) && AllBrief(b) && Bodies(encode, a) == Bodies(encode, b)
    ensures Obligations(a) == Obligations(b)
    decreases |a|
  {
    if a != [] && b != [] {
      hide Faithful, Brief, BodyThen;
      assert AllBrief(a[1..]) && AllBrief(b[1..]);
      PeelBody(encode, a[0].obligation, b[0].obligation, Bodies(encode, a[1..]), Bodies(encode, b[1..]));
      PeelBodies(encode, a[1..], b[1..]);
      hide AllBrief, Bodies, Obligations;
      ObligationsFirst(a);
      ObligationsFirst(b);
    } else {
      NoBodies(encode, a);
      NoBodies(encode, b);
    }
  }

  lemma ObligationsFirst<P>(a: seq<SignedObligation<P>>)
    requires a != []
    ensures Obligations(a) == [a[0].obligation] + Obligations(a[1..])
  {
  }

  lemma NoBodies<P>(encode: P -> Hash, a: seq<SignedObligation<P>>)
    ensures Bodies(encode, a) == [] <==> a == []
  {
  }

  /** One attestation is for one cycle, one house, one asset and one list of trades. */
  lemma DigestInputInjective<P(!new)>(encode: P -> Hash, n: Novation<P>, cycle: Bytes, m: Novation<P>, other: Bytes)
    requires Faithful(encode) && AllBrief(n.before) && AllBrief(m.before)
    requires |cycle| <= U64_MAX && |n.house| <= U64_MAX && |n.asset| <= U64_MAX
    requires |other| <= U64_MAX && |m.house| <= U64_MAX && |m.asset| <= U64_MAX
    ensures DigestInput(encode, n, cycle) == DigestInput(encode, m, other)
       <==> cycle == other && n.house == m.house && n.asset == m.asset && Obligations(n.before) == Obligations(m.before)
  {
    if DigestInput(encode, n, cycle) == DigestInput(encode, m, other) {
      hide Be, Bodies, AllBrief, Faithful;
      Widths();
      var a3, b3 := Bodies(encode, n.before), Bodies(encode, m.before);
      var a2, b2 := Be(|n.asset|, 8) + (n.asset + a3), Be(|m.asset|, 8) + (m.asset + b3);
      var a1, b1 := Be(|n.house|, 8) + (n.house + a2), Be(|m.house|, 8) + (m.house + b2);
      var a0, b0 := Be(|cycle|, 8) + (cycle + a1), Be(|other|, 8) + (other + b1);
      PeelBytes(CCP_DOMAIN, CCP_DOMAIN, NOVATION_TAG + a0, NOVATION_TAG + b0);
      PeelBytes(NOVATION_TAG, NOVATION_TAG, a0, b0);
      PeelSized(8, cycle, other, a1, b1);
      PeelSized(8, n.house, m.house, a2, b2);
      PeelSized(8, n.asset, m.asset, a3, b3);
      PeelBodies(encode, n.before, m.before);
    } else if cycle == other && n.house == m.house && n.asset == m.asset
        && Obligations(n.before) == Obligations(m.before) {
      SameBodies(encode, n.before, m.before);
    }
  }

  lemma {:induction false} SameBodies<P>(encode: P -> Hash, a: seq<SignedObligation<P>>, b: seq<SignedObligation<P>>)
    requires Obligations(a) == Obligations(b)
    ensures Bodies(encode, a) == Bodies(encode, b)
    decreases |a|
  {
    assert |a| == |Obligations(a)| == |b|;
    if a != [] {
      hide BodyThen;
      assert a[0].obligation == Obligations(a)[0] == b[0].obligation;
      assert Obligations(a[1..]) == Obligations(a)[1..] && Obligations(b[1..]) == Obligations(b)[1..];
      SameBodies(encode, a[1..], b[1..]);
    }
  }
}
