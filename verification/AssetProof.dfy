/**
 Asset proofs: one of the registered assets, at one and the same position, opens both a blinded
 tag and, when given, an instruction's asset commitment. An OR over the cohort with a split challenge.
 */
module AssetProof {
  import opened Results
  import opened Wire
  import opened Algebra

  const MAX_ASSETS := 64

  // ----- the cohort --------------------------------------------------------------------------

  /** Byte order of identifiers of one length. */
  predicate Less(a: Hash, b: Hash) {
    FromBe(a) < FromBe(b)
  }

  predicate Rises(assets: seq<Hash>, i: nat)
    requires i + 1 < |assets|
  {
    Less(assets[i], assets[i + 1])
  }

  /** The whole eligible cohort: sorted, without repetition and without the zero identifier. */
  predicate ValidRegistry(assets: seq<Hash>) {
    && 2 <= |assets| <= MAX_ASSETS
    && ZERO_HASH !in assets
    && forall i | 0 <= i < |assets| - 1 :: Rises(assets, i)
  }

  lemma {:induction false} Sorted(assets: seq<Hash>, i: nat, j: nat)
    requires ValidRegistry(assets) && i < j < |assets|
    ensures Less(assets[i], assets[j])
    decreases j
  {
    assert Rises(assets, j - 1);
    if i < j - 1 {
      Sorted(assets, i, j - 1);
    }
  }

  /** A valid cohort has 2 to 64 assets in strictly rising byte order, none of them blank. */
  lemma CohortExact(assets: seq<Hash>)
    ensures ValidRegistry(assets) <==>
      && 2 <= |assets| <= 64
      && (forall i | 0 <= i < |assets| :: assets[i] != ZEROS)
      && (forall i, j | 0 <= i < j < |assets| :: FromBe(assets[i]) < FromBe(assets[j]))
  {
    hide FromBe;
    if ValidRegistry(assets) {
      forall i, j | 0 <= i < j < |assets|
        ensures FromBe(assets[i]) < FromBe(assets[j])
      {
        Sorted(assets, i, j);
      }
    }
  }

  lemma Distinct(a: Hash, b: Hash)
    requires a != b
    ensures FromBe(a) != FromBe(b)
  {
    BeOfFromBe(a);
    BeOfFromBe(b);
  }

  /** Binary search finds a registered asset at its only position, and nothing else. */
  method Find(assets: seq<Hash>, asset: Hash) returns (r: Option<nat>)
    requires ValidRegistry(assets)
    ensures r.Some? <==> asset in assets
    ensures r.Some? ==> r.value < |assets| && forall i | 0 <= i < |assets| :: assets[i] == asset <==> i == r.value
  {
    hide ValidRegistry, FromBe;
    var low, high := 0, |assets|;
    while low < high
      invariant low <= high <= |assets|
      invariant forall i | 0 <= i < low :: Less(assets[i], asset)
      invariant forall i | high <= i < |assets| :: Less(asset, assets[i])
    {
      var mid := low + (high - low) / 2;
      forall i | 0 <= i < |assets| && i != mid
        ensures if i < mid then Less(assets[i], assets[mid]) else Less(assets[mid], assets[i])
      {
        if i < mid {
          Sorted(assets, i, mid);
        } else {
          Sorted(assets, mid, i);
        }
      }
      if assets[mid] == asset {
        return Some(mid);
      }
      if Less(assets[mid], asset) {
        low := mid + 1;
      } else {
        Distinct(assets[mid], asset);
        high := mid;
      }
    }
    return None;
  }

  // ----- statements and proofs ---------------------------------------------------------------

  datatype ProofError = Malformed | Unregistered | WrongWitness | Refused

  /** Group, keys, the derivations from asset identifiers, the scalar encoding and the challenge hash. */
  datatype System<!F, !P> = System(
    m: Action<F, P>, g: P, h: P,
    generator: Hash -> P, assetScalar: Hash -> F,
    decode: Hash -> Option<F>, encode: F -> Hash,
    challenge: (seq<Hash>, P, Option<P>, Bytes, seq<(P, Option<P>)>) -> F)

  ghost predicate Lawful<F(!new), P(!new)>(sys: System<F, P>) {
    Module(sys.m) && forall f :: sys.decode(sys.encode(f)) == Some(f)
  }

  lemma Arithmetic<F(!new), P(!new)>(sys: System<F, P>)
    requires Lawful(sys)
    ensures Module(sys.m) && Abelian(sys.m.scalars) && Abelian(sys.m.points)
  {
    Groups(sys.m);
    hide Abelian;
  }

  datatype Statement<P> = Statement(assets: seq<Hash>, tag: P, instruction: Option<P>, context: Bytes)

  datatype Proof = Proof(challenges: seq<Hash>, tagResponses: seq<Hash>, instructionResponses: seq<Hash>)

  /** The scalars a proof carries. */
  datatype Answers<F> = Answers(cs: seq<F>, zs: seq<F>, ws: seq<F>)

  function TagResidual<F, P>(sys: System<F, P>, st: Statement<P>, i: nat): P
    requires i < |st.assets|
  {
    sys.m.points.Sub(st.tag, sys.generator(st.assets[i]))
  }

  function InstructionResidual<F, P>(sys: System<F, P>, st: Statement<P>, i: nat): P
    requires i < |st.assets| && st.instruction.Some?
  {
    sys.m.points.Sub(st.instruction.value, sys.m.times(sys.g, sys.assetScalar(st.assets[i])))
  }

  function Announcement<F, P>(sys: System<F, P>, residual: P, c: F, z: F): P {
    sys.m.points.Sub(sys.m.times(sys.h, z), sys.m.times(residual, c))
  }

  predicate Fits<F, P>(st: Statement<P>, a: Answers<F>) {
    |a.cs| == |a.zs| == |st.assets| && |a.ws| == (if st.instruction.Some? then |st.assets| else 0)
  }

  function AnnouncedAt<F, P>(sys: System<F, P>, st: Statement<P>, a: Answers<F>, i: nat): (P, Option<P>)
    requires Fits(st, a) && i < |st.assets|
  {
    (Announcement(sys, TagResidual(sys, st, i), a.cs[i], a.zs[i]),
     if st.instruction.Some? then Some(Announcement(sys, InstructionResidual(sys, st, i), a.cs[i], a.ws[i])) else None)
  }

  /** The announcements that a verifier reconstructs. */
  function Announced<F, P>(sys: System<F, P>, st: Statement<P>, a: Answers<F>): seq<(P, Option<P>)>
    requires Fits(st, a)
  {
    seq(|st.assets|, i requires 0 <= i < |st.assets| => AnnouncedAt(sys, st, a, i))
  }

  function Total<F, P>(sys: System<F, P>, st: Statement<P>, announced: seq<(P, Option<P>)>): F {
    sys.challenge(st.assets, st.tag, st.instruction, st.context, announced)
  }

  predicate WellStated<F, P(==)>(sys: System<F, P>, st: Statement<P>) {
    ValidRegistry(st.assets) && st.tag != sys.m.points.zero
  }

  ghost predicate Accepts<F, P>(sys: System<F, P>, st: Statement<P>, a: Answers<F>) {
    && WellStated(sys, st) && Fits(st, a)
    && Sum(sys.m.scalars, a.cs) == Total(sys, st, Announced(sys, st, a))
  }

  // ----- bytes -------------------------------------------------------------------------------

  ghost predicate Reads<F, P>(sys: System<F, P>, bytes: seq<Hash>, scalars: seq<F>) {
    |bytes| == |scalars| && forall i | 0 <= i < |bytes| :: sys.decode(bytes[i]) == Some(scalars[i])
  }

  ghost predicate Carries<F, P>(sys: System<F, P>, proof: Proof, a: Answers<F>) {
    Reads(sys, proof.challenges, a.cs) && Reads(sys, proof.tagResponses, a.zs)
    && Reads(sys, proof.instructionResponses, a.ws)
  }

  function Encoded<F, P>(sys: System<F, P>, scalars: seq<F>): seq<Hash> {
    seq<Hash>(|scalars|, i requires 0 <= i < |scalars| => sys.encode(scalars[i]))
  }

  function Written<F, P>(sys: System<F, P>, a: Answers<F>): Proof {
    Proof(Encoded(sys, a.cs), Encoded(sys, a.zs), Encoded(sys, a.ws))
  }

  lemma WrittenCarries<F(!new), P(!new)>(sys: System<F, P>, a: Answers<F>)
    requires Lawful(sys)
    ensures Carries(sys, Written(sys, a), a)
  {
    hide Module;
  }

  ghost predicate Verifies<F(!new), P>(sys: System<F, P>, st: Statement<P>, proof: Proof) {
    exists a: Answers<F> :: Carries(sys, proof, a) && Accepts(sys, st, a)
  }

  // ----- honest proofs -----------------------------------------------------------------------

  datatype Witness<F> = Witness(index: nat, gamma: F, rho: F)

  /** At one position the witness opens the tag and, if there is one, the instruction. */
  ghost predicate Opens<F, P>(sys: System<F, P>, st: Statement<P>, w: Witness<F>) {
    && w.index < |st.assets|
    && TagResidual(sys, st, w.index) == sys.m.times(sys.h, w.gamma)
    && (st.instruction.Some? ==> InstructionResidual(sys, st, w.index) == sys.m.times(sys.h, w.rho))
  }

  /** The randomness of one proof: two nonces, and for every other position a challenge and its responses. */
  datatype Coins<F> = Coins(k: F, l: F, cs: nat -> F, zs: nat -> F, ws: nat -> F)

  function Others<F>(n: nat, selected: nat, zero: F, coin: nat -> F): seq<F> {
    seq(n, i requires 0 <= i < n => if i == selected then zero else coin(i))
  }

  /** Every position but the selected one simulated, the selected one still zero. */
  function Simulated<F, P>(sys: System<F, P>, st: Statement<P>, selected: nat, coins: Coins<F>): (a: Answers<F>)
    ensures Fits(st, a)
  {
    var n, zero := |st.assets|, sys.m.scalars.zero;
    Answers(Others(n, selected, zero, coins.cs), Others(n, selected, zero, coins.zs),
            if st.instruction.Some? then Others(n, selected, zero, coins.ws) else [])
  }

  function Commitments<F, P>(sys: System<F, P>, st: Statement<P>, selected: nat, coins: Coins<F>): seq<(P, Option<P>)> {
    var a := Simulated(sys, st, selected, coins);
    seq(|st.assets|, i requires 0 <= i < |st.assets| =>
      if i == selected
      then (sys.m.times(sys.h, coins.k), if st.instruction.Some? then Some(sys.m.times(sys.h, coins.l)) else None)
      else AnnouncedAt(sys, st, a, i))
  }

  /** Answer at the selected position with what is left of the challenge. */
  function Closed<F, P>(sys: System<F, P>, st: Statement<P>, w: Witness<F>, coins: Coins<F>, a: Answers<F>,
                        c: F): (b: Answers<F>)
    requires Fits(st, a) && w.index < |st.assets|
    ensures Fits(st, b)
  {
    Answers(a.cs[w.index := c],
            a.zs[w.index := sys.m.scalars.add(coins.k, sys.m.mul(c, w.gamma))],
            if st.instruction.Some? then a.ws[w.index := sys.m.scalars.add(coins.l, sys.m.mul(c, w.rho))] else [])
  }

  function Honest<F, P>(sys: System<F, P>, st: Statement<P>, w: Witness<F>, coins: Coins<F>): (a: Answers<F>)
    requires w.index < |st.assets|
    ensures Fits(st, a)
  {
    var a := Simulated(sys, st, w.index, coins);
    var total := Total(sys, st, Commitments(sys, st, w.index, coins));
    Closed(sys, st, w, coins, a, sys.m.scalars.Sub(total, Sum(sys.m.scalars, a.cs)))
  }

  /** Answering an opened residual reproduces the nonce's commitment. */
  lemma AnswerOpens<F(!new), P(!new)>(sys: System<F, P>, residual: P, x: F, k: F, c: F)
    requires Lawful(sys) && residual == sys.m.times(sys.h, x)
    ensures Announcement(sys, residual, c, sys.m.scalars.add(k, sys.m.mul(c, x))) == sys.m.times(sys.h, k)
  {
    hide Lawful, Module, Abelian;
    var m := sys.m;
    Arithmetic(sys);
    TimesSum(m, sys.h, k, m.mul(c, x));
    TimesProduct(m, sys.h, x, c);
    Cancel(m.points, m.times(sys.h, k), m.times(residual, c));
  }

  lemma ClosedHere<F(!new), P(!new)>(sys: System<F, P>, st: Statement<P>, w: Witness<F>, coins: Coins<F>,
                                     a: Answers<F>, c: F)
    requires Lawful(sys) && Opens(sys, st, w) && Fits(st, a)
    ensures AnnouncedAt(sys, st, Closed(sys, st, w, coins, a, c), w.index)
         == (sys.m.times(sys.h, coins.k), if st.instruction.Some? then Some(sys.m.times(sys.h, coins.l)) else None)
  {
    hide Lawful, Announcement, TagResidual, InstructionResidual;
    AnswerOpens(sys, TagResidual(sys, st, w.index), w.gamma, coins.k, c);
    if st.instruction.Some? {
      AnswerOpens(sys, InstructionResidual(sys, st, w.index), w.rho, coins.l, c);
    }
  }

  lemma ClosedElsewhere<F, P>(sys: System<F, P>, st: Statement<P>, w: Witness<F>, coins: Coins<F>, a: Answers<F>,
                              c: F, i: nat)
    requires Fits(st, a) && w.index < |st.assets| && i < |st.assets| && i != w.index
    ensures AnnouncedAt(sys, st, Closed(sys, st, w, coins, a, c), i) == AnnouncedAt(sys, st, a, i)
  {
    hide Announcement, TagResidual, InstructionResidual;
  }

  lemma ClosedAnnounces<F(!new), P(!new)>(sys: System<F, P>, st: Statement<P>, w: Witness<F>, coins: Coins<F>, c: F)
    requires Lawful(sys) && Opens(sys, st, w)
    ensures var a := Closed(sys, st, w, coins, Simulated(sys, st, w.index, coins), c);
      Announced(sys, st, a) == Commitments(sys, st, w.index, coins)
  {
    hide Lawful, TagResidual, InstructionResidual, Simulated, Closed, AnnouncedAt;
    var a := Simulated(sys, st, w.index, coins);
    ClosedHere(sys, st, w, coins, a, c);
    forall i: nat | i < |st.assets| && i != w.index
      ensures AnnouncedAt(sys, st, Closed(sys, st, w, coins, a, c), i) == AnnouncedAt(sys, st, a, i)
    {
      ClosedElsewhere(sys, st, w, coins, a, c, i);
    }
  }

  /** What is left of the challenge makes the parts add up to it. */
  lemma ClosedSum<F(!new)>(g: Group<F>, cs: seq<F>, i: nat, total: F)
    requires Abelian(g) && i < |cs| && cs[i] == g.zero
    ensures Sum(g, cs[i := g.Sub(total, Sum(g, cs))]) == total
  {
    hide Abelian;
    var c := g.Sub(total, Sum(g, cs));
    SumReplace(g, cs, i, c);
    Zero(g, Sum(g, cs[i := c]));
    Cancel(g, total, Sum(g, cs));
    Comm(g, Sum(g, cs), c);
  }

  /** Every proof built from a witness is accepted, whatever the cohort, the position and the randomness. */
  lemma Complete<F(!new), P(!new)>(sys: System<F, P>, st: Statement<P>, w: Witness<F>, coins: Coins<F>)
    requires Lawful(sys) && WellStated(sys, st) && Opens(sys, st, w)
    ensures Accepts(sys, st, Honest(sys, st, w, coins))
  {
    var a := Simulated(sys, st, w.index, coins);
    var total := Total(sys, st, Commitments(sys, st, w.index, coins));
    var c := sys.m.scalars.Sub(total, Sum(sys.m.scalars, a.cs));
    assert a.cs[w.index] == sys.m.scalars.zero;
    Arithmetic(sys);
    ClosedAnnounces(sys, st, w, coins, c);
    ClosedSum(sys.m.scalars, a.cs, w.index, total);
    hide Lawful, Abelian, WellStated, Opens, Simulated, Commitments;
  }

  // ----- special soundness -------------------------------------------------------------------

  lemma ExtractOne<F(!new), P(!new)>(sys: System<F, P>, residual: P, c: F, z: F, d: F, y: F)
    requires Lawful(sys) && c != d
    requires Announcement(sys, residual, c, z) == Announcement(sys, residual, d, y)
    ensures residual == sys.m.times(sys.h, sys.m.mul(sys.m.scalars.Sub(z, y), sys.m.inv(sys.m.scalars.Sub(c, d))))
  {
    hide Lawful, Module, Abelian;
    var m := sys.m;
    Arithmetic(sys);
    Transpose(m.points, m.times(sys.h, z), m.times(residual, c), m.times(sys.h, y), m.times(residual, d));
    TimesDifference(m, sys.h, z, y);
    TimesDifference(m, residual, c, d);
    SubZero(m.scalars, c, d);
    Divide(m, residual, m.scalars.Sub(c, d), sys.h, m.scalars.Sub(z, y));
  }

  /**
   Two answers to the same announcements whose challenges add up differently give a witness: one
   position that opens both the tag and the instruction.
   */
  lemma Extract<F(!new), P(!new)>(sys: System<F, P>, st: Statement<P>, a: Answers<F>, b: Answers<F>)
      returns (w: Witness<F>)
    requires Lawful(sys) && Fits(st, a) && Fits(st, b)
    requires Announced(sys, st, a) == Announced(sys, st, b)
    requires Sum(sys.m.scalars, a.cs) != Sum(sys.m.scalars, b.cs)
    ensures Opens(sys, st, w)
  {
    hide Lawful, Announcement;
    var i := SumDiffers(sys.m.scalars, a.cs, b.cs);
    assert AnnouncedAt(sys, st, a, i) == Announced(sys, st, a)[i] == Announced(sys, st, b)[i]
        == AnnouncedAt(sys, st, b, i);
    hide Announced;
    var m := sys.m;
    var over := m.inv(m.scalars.Sub(a.cs[i], b.cs[i]));
    var gamma := m.mul(m.scalars.Sub(a.zs[i], b.zs[i]), over);
    ExtractOne(sys, TagResidual(sys, st, i), a.cs[i], a.zs[i], b.cs[i], b.zs[i]);
    if st.instruction.Some? {
      ExtractOne(sys, InstructionResidual(sys, st, i), a.cs[i], a.ws[i], b.cs[i], b.ws[i]);
      w := Witness(i, gamma, m.mul(m.scalars.Sub(a.ws[i], b.ws[i]), over));
    } else {
      w := Witness(i, gamma, gamma);
    }
  }

  /** The same for two accepted proofs, accepted under challenge hashes that answer the announcements differently. */
  lemma Forked<F(!new), P(!new)>(sys: System<F, P>, other: System<F, P>, st: Statement<P>, a: Answers<F>, b: Answers<F>)
      returns (w: Witness<F>)
    requires Lawful(sys) && other == sys.(challenge := other.challenge)
    requires Accepts(sys, st, a) && Accepts(other, st, b)
    requires Announced(sys, st, a) == Announced(other, st, b)
    requires Total(sys, st, Announced(sys, st, a)) != Total(other, st, Announced(other, st, b))
    ensures Opens(sys, st, w)
  {
    hide Lawful;
    forall i: nat | i < |st.assets|
      ensures AnnouncedAt(other, st, b, i) == AnnouncedAt(sys, st, b, i)
    {
    }
    assert Announced(other, st, b) == Announced(sys, st, b);
    hide AnnouncedAt, Announced, WellStated, Total;
    w := Extract(sys, st, a, b);
  }

  // ----- a proof does not tell which position was used ---------------------------------------

  function CoinsOf<F>(s: seq<F>, zero: F): nat -> F {
    (i: nat) => if i < |s| then s[i] else zero
  }

  lemma OthersBack<F>(s: seq<F>, selected: nat, zero: F)
    requires selected < |s|
    ensures Others(|s|, selected, zero, CoinsOf(s, zero))[selected := s[selected]] == s
  {
  }

  /** The randomness that makes a given witness produce given answers. */
  function CoinsFor<F, P>(sys: System<F, P>, st: Statement<P>, w: Witness<F>, a: Answers<F>): Coins<F>
    requires Fits(st, a) && w.index < |st.assets|
  {
    var f, zero := sys.m.scalars, sys.m.scalars.zero;
    Coins(f.Sub(a.zs[w.index], sys.m.mul(a.cs[w.index], w.gamma)),
          if st.instruction.Some? then f.Sub(a.ws[w.index], sys.m.mul(a.cs[w.index], w.rho)) else zero,
          CoinsOf(a.cs, zero), CoinsOf(a.zs, zero), CoinsOf(a.ws, zero))
  }

  lemma NonceOpens<F(!new), P(!new)>(sys: System<F, P>, residual: P, x: F, c: F, z: F)
    requires Lawful(sys) && residual == sys.m.times(sys.h, x)
    ensures sys.m.times(sys.h, sys.m.scalars.Sub(z, sys.m.mul(c, x))) == Announcement(sys, residual, c, z)
    ensures sys.m.scalars.add(sys.m.scalars.Sub(z, sys.m.mul(c, x)), sys.m.mul(c, x)) == z
  {
    hide Lawful, Module, Abelian;
    var m := sys.m;
    Arithmetic(sys);
    Cancel(m.scalars, z, m.mul(c, x));
    AnswerOpens(sys, residual, x, m.scalars.Sub(z, m.mul(c, x)), c);
  }

  lemma SimulatedAt<F, P>(sys: System<F, P>, st: Statement<P>, w: Witness<F>, a: Answers<F>, i: nat)
    requires Fits(st, a) && w.index < |st.assets| && i < |st.assets| && i != w.index
    ensures var b := Simulated(sys, st, w.index, CoinsFor(sys, st, w, a));
      && a.cs[i] == b.cs[i] && a.zs[i] == b.zs[i] && (st.instruction.Some? ==> a.ws[i] == b.ws[i])
      && AnnouncedAt(sys, st, b, i) == AnnouncedAt(sys, st, a, i)
  {
    hide Announcement, TagResidual, InstructionResidual;
  }

  lemma NonceAt<F(!new), P(!new)>(sys: System<F, P>, st: Statement<P>, w: Witness<F>, a: Answers<F>)
    requires Lawful(sys) && Opens(sys, st, w) && Fits(st, a)
    ensures var coins := CoinsFor(sys, st, w, a);
      AnnouncedAt(sys, st, a, w.index)
      == (sys.m.times(sys.h, coins.k), if st.instruction.Some? then Some(sys.m.times(sys.h, coins.l)) else None)
  {
    hide Lawful, Announcement, TagResidual, InstructionResidual;
    NonceOpens(sys, TagResidual(sys, st, w.index), w.gamma, a.cs[w.index], a.zs[w.index]);
    if st.instruction.Some? {
      NonceOpens(sys, InstructionResidual(sys, st, w.index), w.rho, a.cs[w.index], a.ws[w.index]);
    }
  }

  /** The announcements come out the same. */
  lemma SameCommitments<F(!new), P(!new)>(sys: System<F, P>, st: Statement<P>, w: Witness<F>, a: Answers<F>)
    requires Lawful(sys) && Opens(sys, st, w) && Fits(st, a)
    ensures Commitments(sys, st, w.index, CoinsFor(sys, st, w, a)) == Announced(sys, st, a)
  {
    hide Lawful, TagResidual, InstructionResidual, AnnouncedAt, CoinsFor, Simulated;
    NonceAt(sys, st, w, a);
    forall i: nat | i < |st.assets| && i != w.index
      ensures AnnouncedAt(sys, st, Simulated(sys, st, w.index, CoinsFor(sys, st, w, a)), i)
        == AnnouncedAt(sys, st, a, i)
    {
      SimulatedAt(sys, st, w, a, i);
    }
  }

  /** The parts of the challenge that the other positions leave over are the part of this one. */
  lemma LeftOver<F(!new)>(g: Group<F>, cs: seq<F>, i: nat)
    requires Abelian(g) && i < |cs|
    ensures g.Sub(Sum(g, cs), Sum(g, cs[i := g.zero])) == cs[i]
  {
    hide Abelian;
    SumReplace(g, cs, i, g.zero);
    Zero(g, Sum(g, cs));
    Comm(g, Sum(g, cs[i := g.zero]), cs[i]);
    Cancel(g, cs[i], Sum(g, cs[i := g.zero]));
  }

  /**
   Every accepted proof of a statement is what the honest prover writes, with suitable randomness,
   from any witness of that statement at any position. A proof therefore says nothing about which
   asset of the cohort it is for.
   */
  lemma Reproduced<F(!new), P(!new)>(sys: System<F, P>, st: Statement<P>, w: Witness<F>, a: Answers<F>)
    requires Lawful(sys) && Opens(sys, st, w) && Accepts(sys, st, a)
    ensures Honest(sys, st, w, CoinsFor(sys, st, w, a)) == a
  {
    hide Lawful, Module, Abelian, TagResidual, InstructionResidual, Commitments, Announced, WellStated;
    var coins := CoinsFor(sys, st, w, a);
    var b := Simulated(sys, st, w.index, coins);
    SameCommitments(sys, st, w, a);
    assert b.cs == a.cs[w.index := sys.m.scalars.zero];
    Arithmetic(sys);
    LeftOver(sys.m.scalars, a.cs, w.index);
    hide Simulated, CoinsFor, Closed;
    assert Honest(sys, st, w, coins) == Closed(sys, st, w, coins, b, a.cs[w.index]);
    ClosedBack(sys, st, w, a);
  }

  lemma ClosedBack<F(!new), P(!new)>(sys: System<F, P>, st: Statement<P>, w: Witness<F>, a: Answers<F>)
    requires Lawful(sys) && Fits(st, a) && w.index < |st.assets|
    ensures var coins := CoinsFor(sys, st, w, a);
      Closed(sys, st, w, coins, Simulated(sys, st, w.index, coins), a.cs[w.index]) == a
  {
    hide Lawful, Module, Abelian;
    var f, c := sys.m.scalars, a.cs[w.index];
    Arithmetic(sys);
    Cancel(f, a.zs[w.index], sys.m.mul(c, w.gamma));
    if st.instruction.Some? {
      Cancel(f, a.ws[w.index], sys.m.mul(c, w.rho));
    }
    OthersBack(a.cs, w.index, f.zero);
    OthersBack(a.zs, w.index, f.zero);
    if st.instruction.Some? {
      OthersBack(a.ws, w.index, f.zero);
    }
    hide Others, CoinsOf;
  }

  /** And by only one choice of that randomness. */
  lemma CoinsFixed<F(!new), P(!new)>(sys: System<F, P>, st: Statement<P>, w: Witness<F>, coins: Coins<F>, i: nat)
    requires Lawful(sys) && w.index < |st.assets| && i < |st.assets|
    ensures var used := CoinsFor(sys, st, w, Honest(sys, st, w, coins));
      && used.k == coins.k && (st.instruction.Some? ==> used.l == coins.l)
      && (i != w.index ==> used.cs(i) == coins.cs(i) && used.zs(i) == coins.zs(i)
                           && (st.instruction.Some? ==> used.ws(i) == coins.ws(i)))
  {
    hide Lawful, Module, Abelian, Commitments, Total, Sum;
    var a := Simulated(sys, st, w.index, coins);
    var total := Total(sys, st, Commitments(sys, st, w.index, coins));
    var c := sys.m.scalars.Sub(total, Sum(sys.m.scalars, a.cs));
    assert Honest(sys, st, w, coins) == Closed(sys, st, w, coins, a, c);
    hide Honest;
    ClosedNonces(sys, st, w, coins, a, c);
    hide CoinsFor, Closed;
    if i != w.index {
      ClosedCoins(sys, st, w, coins, c, i);
    }
  }

  lemma ClosedNonces<F(!new), P(!new)>(sys: System<F, P>, st: Statement<P>, w: Witness<F>, coins: Coins<F>,
                                       a: Answers<F>, c: F)
    requires Lawful(sys) && w.index < |st.assets| && Fits(st, a)
    ensures var used := CoinsFor(sys, st, w, Closed(sys, st, w, coins, a, c));
      used.k == coins.k && (st.instruction.Some? ==> used.l == coins.l)
  {
    hide Lawful, Module, Abelian, CoinsOf;
    Arithmetic(sys);
    Cancel(sys.m.scalars, coins.k, sys.m.mul(c, w.gamma));
    Cancel(sys.m.scalars, coins.l, sys.m.mul(c, w.rho));
  }

  lemma ClosedCoins<F, P>(sys: System<F, P>, st: Statement<P>, w: Witness<F>, coins: Coins<F>, c: F, i: nat)
    requires w.index < |st.assets| && i < |st.assets| && i != w.index
    ensures var used := CoinsFor(sys, st, w, Closed(sys, st, w, coins, Simulated(sys, st, w.index, coins), c));
      && used.cs(i) == coins.cs(i) && used.zs(i) == coins.zs(i) && (st.instruction.Some? ==> used.ws(i) == coins.ws(i))
  {
  }

  // ----- the prover and the verifier ---------------------------------------------------------

  function Stated<F, P>(assets: seq<Hash>, tag: P, instruction: Option<(P, F)>, context: Bytes): Statement<P> {
    Statement(assets, tag, if instruction.Some? then Some(instruction.value.0) else None, context)
  }

  /** Simulate every position but the selected one, in registry order. */
  method Simulate<F(==), P>(sys: System<F, P>, st: Statement<P>, selected: nat, coins: Coins<F>)
      returns (a: Answers<F>, announced: seq<(P, Option<P>)>)
    requires selected < |st.assets|
    ensures a == Simulated(sys, st, selected, coins)
    ensures announced == Commitments(sys, st, selected, coins)
  {
    var n, zero := |st.assets|, sys.m.scalars.zero;
    ghost var sim := Simulated(sys, st, selected, coins);
    var cs, zs, ws: seq<F> := [], [], [];
    announced := [];
    for i := 0 to n
      invariant |cs| == |zs| == |announced| == i && |ws| == (if st.instruction.Some? then i else 0)
      invariant cs == sim.cs[..i] && zs == sim.zs[..i]
      invariant ws == if st.instruction.Some? then sim.ws[..i] else []
      invariant announced == Commitments(sys, st, selected, coins)[..i]
    {
      hide Announcement, TagResidual, InstructionResidual;
      if i == selected {
        cs, zs := cs + [zero], zs + [zero];
        ws := if st.instruction.Some? then ws + [zero] else ws;
        announced := announced + [(sys.m.times(sys.h, coins.k),
                                   if st.instruction.Some? then Some(sys.m.times(sys.h, coins.l)) else None)];
      } else {
        cs, zs := cs + [coins.cs(i)], zs + [coins.zs(i)];
        var first := Announcement(sys, TagResidual(sys, st, i), cs[i], zs[i]);
        var second: Option<P> := None;
        if st.instruction.Some? {
          ws := ws + [coins.ws(i)];
          second := Some(Announcement(sys, InstructionResidual(sys, st, i), cs[i], ws[i]));
        }
        announced := announced + [(first, second)];
      }
    }
    a := Answers(cs, zs, ws);
  }

  method Close<F(==), P>(sys: System<F, P>, st: Statement<P>, selected: nat, gamma: F, rho: F, coins: Coins<F>)
      returns (proof: Proof)
    requires selected < |st.assets|
    ensures proof == Written(sys, Honest(sys, st, Witness(selected, gamma, rho), coins))
  {
    hide Simulated, Commitments, Encoded;
    var a, announced := Simulate(sys, st, selected, coins);
    var c := sys.m.scalars.Sub(Total(sys, st, announced), Sum(sys.m.scalars, a.cs));
    var cs, zs, ws := a.cs, a.zs, a.ws;
    cs := cs[selected := c];
    zs := zs[selected := sys.m.scalars.add(coins.k, sys.m.mul(c, gamma))];
    if st.instruction.Some? {
      ws := ws[selected := sys.m.scalars.add(coins.l, sys.m.mul(c, rho))];
    }
    return Written(sys, Answers(cs, zs, ws));
  }

  ghost predicate Matches<F, P>(sys: System<F, P>, asset: Hash, tag: P, gamma: F, instruction: Option<(P, F)>) {
    && tag == sys.m.points.add(sys.generator(asset), sys.m.times(sys.h, gamma))
    && (instruction.Some? ==>
          instruction.value.0
          == sys.m.points.add(sys.m.times(sys.g, sys.assetScalar(asset)), sys.m.times(sys.h, instruction.value.1)))
  }

  function WitnessAt<F, P>(index: nat, gamma: F, instruction: Option<(P, F)>): Witness<F> {
    Witness(index, gamma, if instruction.Some? then instruction.value.1 else gamma)
  }

  /** A proof comes out exactly when the statement is well formed and the witness fits, and then it verifies. */
  method Prove<F(==, !new), P(==, !new)>(sys: System<F, P>, assets: seq<Hash>, asset: Hash, tag: P, gamma: F,
                                         instruction: Option<(P, F)>, context: Bytes, coins: Coins<F>)
      returns (r: Result<Proof, ProofError>)
    requires Lawful(sys)
    ensures var st := Stated(assets, tag, instruction, context);
      && (r.Success? <==> WellStated(sys, st) && asset in assets && Matches(sys, asset, tag, gamma, instruction))
      && (r.Success? ==> Verifies(sys, st, r.value))
      && (r.Success? ==> forall i | 0 <= i < |assets| && assets[i] == asset ::
            r.value == Written(sys, Honest(sys, st, WitnessAt(i, gamma, instruction), coins)))
  {
    hide Lawful, ValidRegistry, Accepts, Carries, Written, Honest, Fits, TagResidual, InstructionResidual;
    var st := Stated(assets, tag, instruction, context);
    if !ValidRegistry(assets) || tag == sys.m.points.zero {
      return Failure(Malformed);
    }
    var found := Find(assets, asset);
    if found.None? {
      return Failure(Unregistered);
    }
    if tag != sys.m.points.add(sys.generator(asset), sys.m.times(sys.h, gamma)) {
      return Failure(WrongWitness);
    }
    var rho := gamma;
    if instruction.Some? {
      rho := instruction.value.1;
      if instruction.value.0 != sys.m.points.add(sys.m.times(sys.g, sys.assetScalar(asset)), sys.m.times(sys.h, rho)) {
        return Failure(WrongWitness);
      }
    }
    ghost var w := WitnessAt(found.value, gamma, instruction);
    MatchOpens(sys, st, asset, instruction, w);
    Complete(sys, st, w, coins);
    hide Matches, WellStated;
    var proof := Close(sys, st, found.value, gamma, rho, coins);
    assert proof == Written(sys, Honest(sys, st, w, coins));
    WrittenCarries(sys, Honest(sys, st, w, coins));
    return Success(proof);
  }

  lemma MatchOpens<F(!new), P(!new)>(sys: System<F, P>, st: Statement<P>, asset: Hash, instruction: Option<(P, F)>,
                                     w: Witness<F>)
    requires Lawful(sys) && w.index < |st.assets| && st.assets[w.index] == asset
    requires st == Stated(st.assets, st.tag, instruction, st.context)
    requires Matches(sys, asset, st.tag, w.gamma, instruction) && (instruction.Some? ==> instruction.value.1 == w.rho)
    ensures Opens(sys, st, w)
  {
    hide Lawful, Module, Abelian;
    Opened(sys, st.tag, sys.generator(asset), w.gamma);
    if instruction.Some? {
      Opened(sys, st.instruction.value, sys.m.times(sys.g, sys.assetScalar(asset)), w.rho);
    }
  }

  lemma Opened<F(!new), P(!new)>(sys: System<F, P>, target: P, base: P, x: F)
    requires Lawful(sys)
    ensures target == sys.m.points.add(base, sys.m.times(sys.h, x)) ==>
      sys.m.points.Sub(target, base) == sys.m.times(sys.h, x)
  {
    hide Lawful, Module, Abelian;
    Arithmetic(sys);
    Comm(sys.m.points, base, sys.m.times(sys.h, x));
    Cancel(sys.m.points, sys.m.times(sys.h, x), base);
  }

  lemma ReadsUnique<F, P>(sys: System<F, P>, bytes: seq<Hash>, s: seq<F>, t: seq<F>)
    requires Reads(sys, bytes, s) && Reads(sys, bytes, t)
    ensures s == t
  {
    forall i | 0 <= i < |s|
      ensures s[i] == t[i]
    {
      assert sys.decode(bytes[i]) == Some(s[i]) == Some(t[i]);
    }
  }

  /** The scalars of a proof are fixed, so they decide. */
  lemma Decided<F(!new), P>(sys: System<F, P>, st: Statement<P>, proof: Proof, a: Answers<F>)
    requires Carries(sys, proof, a)
    ensures Verifies(sys, st, proof) <==> Accepts(sys, st, a)
  {
    if b: Answers<F> :| Carries(sys, proof, b) && Accepts(sys, st, b) {
      hide Accepts;
      ReadsUnique(sys, proof.challenges, a.cs, b.cs);
      ReadsUnique(sys, proof.tagResponses, a.zs, b.zs);
      ReadsUnique(sys, proof.instructionResponses, a.ws, b.ws);
      hide Reads;
      assert a == b;
    }
  }

  lemma Undecodable<F(!new), P>(sys: System<F, P>, st: Statement<P>, proof: Proof, i: nat)
    requires i < |st.assets| == |proof.challenges| == |proof.tagResponses|
    requires |proof.instructionResponses| == if st.instruction.Some? then |st.assets| else 0
    requires sys.decode(proof.challenges[i]).None? || sys.decode(proof.tagResponses[i]).None?
      || (st.instruction.Some? && sys.decode(proof.instructionResponses[i]).None?)
    ensures !Verifies(sys, st, proof)
  {
    hide Accepts;
  }

  // ----- what the challenge binds ------------------------------------------------------------

  /** One reconstructed announcement, for tag or instruction: the response's point less the challenged residual. */
  function Reconstructed<F, P>(sys: System<F, P>, target: P, base: P, c: F, z: F): P {
    var points := sys.m.points;
    points.add(sys.m.times(sys.h, z), points.neg(sys.m.times(points.add(target, points.neg(base)), c)))
  }

  /** Everything under the hash but the statement. */
  function Reconstruction<F, P>(sys: System<F, P>, st: Statement<P>, a: Answers<F>): seq<(P, Option<P>)>
    requires Fits(st, a)
  {
    seq(|st.assets|, i requires 0 <= i < |st.assets| =>
      (Reconstructed(sys, st.tag, sys.generator(st.assets[i]), a.cs[i], a.zs[i]),
       match st.instruction
       case None => None
       case Some(commitment) =>
         Some(Reconstructed(sys, commitment, sys.m.times(sys.g, sys.assetScalar(st.assets[i])), a.cs[i], a.ws[i]))))
  }

  /**
   A proof verifies exactly when the cohort is valid, the tag is not the identity, the lengths fit and the
   challenges it carries add up to the hash of cohort, tag, instruction, context and reconstruction.
   */
  lemma ChallengeExact<F(!new), P(!new)>(sys: System<F, P>, st: Statement<P>, proof: Proof, a: Answers<F>)
    requires Carries(sys, proof, a)
    ensures Verifies(sys, st, proof) <==>
      && ValidRegistry(st.assets) && st.tag != sys.m.points.zero && Fits(st, a)
      && Sum(sys.m.scalars, a.cs)
         == sys.challenge(st.assets, st.tag, st.instruction, st.context, Reconstruction(sys, st, a))
  {
    Decided(sys, st, proof, a);
    hide Verifies, Carries, ValidRegistry;
    if Fits(st, a) {
      forall i | 0 <= i < |st.assets|
        ensures Announced(sys, st, a)[i] == Reconstruction(sys, st, a)[i]
      {
      }
      assert Announced(sys, st, a) == Reconstruction(sys, st, a);
    }
  }

  /** A proof is bound to its statement: if it verifies for two, the hash agrees on two different inputs. */
  lemma StatementBound<F(!new), P(!new)>(sys: System<F, P>, st: Statement<P>, other: Statement<P>, proof: Proof)
      returns (a: Answers<F>)
    requires Verifies(sys, st, proof) && Verifies(sys, other, proof) && st != other
    ensures Fits(st, a) && Fits(other, a)
    ensures (st.assets, st.tag, st.instruction, st.context) != (other.assets, other.tag, other.instruction,
      other.context)
    ensures sys.challenge(st.assets, st.tag, st.instruction, st.context, Reconstruction(sys, st, a))
         == sys.challenge(other.assets, other.tag, other.instruction, other.context, Reconstruction(sys, other, a))
  {
    a :| Carries(sys, proof, a) && Accepts(sys, st, a);
    ChallengeExact(sys, st, proof, a);
    ChallengeExact(sys, other, proof, a);
  }

  /** In particular to its context: the two inputs then differ in the context alone. */
  lemma ContextBound<F(!new), P(!new)>(sys: System<F, P>, st: Statement<P>, context: Bytes, proof: Proof)
      returns (announced: seq<(P, Option<P>)>)
    requires Verifies(sys, st, proof) && Verifies(sys, st.(context := context), proof)
    ensures sys.challenge(st.assets, st.tag, st.instruction, st.context, announced)
         == sys.challenge(st.assets, st.tag, st.instruction, context, announced)
  {
    var a :| Carries(sys, proof, a) && Accepts(sys, st, a);
    ChallengeExact(sys, st, proof, a);
    ChallengeExact(sys, st.(context := context), proof, a);
    announced := Reconstruction(sys, st, a);
    assert Reconstruction(sys, st.(context := context), a) == announced;
  }

  /** Accept exactly the proofs that verify. */
  method Verify<F(==, !new), P(==)>(sys: System<F, P>, st: Statement<P>, proof: Proof) returns (ok: bool)
    ensures ok <==> Verifies(sys, st, proof)
  {
    var n := |st.assets|;
    if !ValidRegistry(st.assets) || st.tag == sys.m.points.zero {
      return false;
    }
    if |proof.challenges| != n || |proof.tagResponses| != n
       || |proof.instructionResponses| != (if st.instruction.Some? then n else 0) {
      return false;
    }
    var sum := sys.m.scalars.zero;
    var announced: seq<(P, Option<P>)> := [];
    ghost var a: Answers<F> := Answers([], [], []);
    hide Verifies, ValidRegistry;
    for i := 0 to n
      invariant |a.cs| == |a.zs| == |announced| == i && |a.ws| == (if st.instruction.Some? then i else 0)
      invariant Reads(sys, proof.challenges[..i], a.cs) && Reads(sys, proof.tagResponses[..i], a.zs)
      invariant Reads(sys, proof.instructionResponses[..|a.ws|], a.ws)
      invariant sum == Sum(sys.m.scalars, a.cs)
      invariant Partly(sys, st, a, announced)
    {
      hide Reads, Partly, Pair;
      var c := sys.decode(proof.challenges[i]);
      var z := sys.decode(proof.tagResponses[i]);
      if c.None? || z.None? {
        Undecodable(sys, st, proof, i);
        return false;
      }
      ReadsMore(sys, proof.challenges, a.cs, c.value);
      ReadsMore(sys, proof.tagResponses, a.zs, z.value);
      ghost var cs := a.cs + [c.value];
      assert cs[..i] == a.cs;
      sum := sys.m.scalars.add(sum, c.value);
      var w := z;
      ghost var ws := a.ws;
      if st.instruction.Some? {
        w := sys.decode(proof.instructionResponses[i]);
        if w.None? {
          Undecodable(sys, st, proof, i);
          return false;
        }
        ReadsMore(sys, proof.instructionResponses, a.ws, w.value);
        ws := ws + [w.value];
      }
      PartlyMore(sys, st, a, announced, c.value, z.value, w.value);
      announced := announced + [Pair(sys, st, i, c.value, z.value, w.value)];
      a := Answers(cs, a.zs + [z.value], ws);
    }
    ok := sum == Total(sys, st, announced);
    assert proof.challenges[..n] == proof.challenges && proof.tagResponses[..n] == proof.tagResponses;
    assert proof.instructionResponses[..|a.ws|] == proof.instructionResponses;
    assert Carries(sys, proof, a);
    Decided(sys, st, proof, a);
    hide Reads, Carries;
    assert announced == Announced(sys, st, a);
    hide Announced, Partly;
  }

  lemma ReadsMore<F, P>(sys: System<F, P>, bytes: seq<Hash>, s: seq<F>, v: F)
    requires |s| < |bytes| && Reads(sys, bytes[..|s|], s) && sys.decode(bytes[|s|]) == Some(v)
    ensures Reads(sys, bytes[..|s| + 1], s + [v])
  {
    forall i | 0 <= i < |s|
      ensures sys.decode(bytes[i]) == Some(s[i])
    {
      assert bytes[..|s|][i] == bytes[i];
    }
  }

  /** The announcements of the first positions. */
  ghost predicate Partly<F, P>(sys: System<F, P>, st: Statement<P>, a: Answers<F>, announced: seq<(P, Option<P>)>) {
    && |announced| == |a.cs| == |a.zs| <= |st.assets| && |a.ws| == (if st.instruction.Some? then |a.cs| else 0)
    && forall j | 0 <= j < |announced| ::
         announced[j] == Pair(sys, st, j, a.cs[j], a.zs[j], if st.instruction.Some? then a.ws[j] else a.zs[j])
  }

  lemma PartlyMore<F, P>(sys: System<F, P>, st: Statement<P>, a: Answers<F>, announced: seq<(P, Option<P>)>, c: F,
                         z: F, w: F)
    requires Partly(sys, st, a, announced) && |a.cs| < |st.assets| && (st.instruction.None? ==> w == z)
    ensures Partly(sys, st,
                   Answers(a.cs + [c], a.zs + [z], if st.instruction.Some? then a.ws + [w] else a.ws),
                   announced + [Pair(sys, st, |a.cs|, c, z, w)])
  {
    hide Pair;
  }

  /** The two announcements of one position; the second only with an instruction. */
  function Pair<F, P>(sys: System<F, P>, st: Statement<P>, i: nat, c: F, z: F, w: F): (P, Option<P>)
    requires i < |st.assets|
  {
    (Announcement(sys, TagResidual(sys, st, i), c, z),
     if st.instruction.Some? then Some(Announcement(sys, InstructionResidual(sys, st, i), c, w)) else None)
  }
}
