/**
 The Merkle tree over snapshot chunks. A level with an odd number of nodes pairs its last node
 with itself. The hash function is a parameter; soundness needs it to be collision free only on
 the inputs that building the tree and checking the one proof actually hash.
 */
module Merkle {
  import opened Numbers
  import opened Wire

  type Hasher = Bytes -> Hash

  const LEAF_DOMAIN: Bytes :=
    [81, 79, 77, 77, 58, 83, 84, 65, 84, 69, 45, 83, 89, 78, 67, 58, 76, 69, 65, 70, 58, 118, 49]
  const NODE_DOMAIN: Bytes :=
    [81, 79, 77, 77, 58, 83, 84, 65, 84, 69, 45, 83, 89, 78, 67, 58, 78, 79, 68, 69, 58, 118, 49]

  const MAX_MERKLE_DEPTH := 32

  function LeafInput(index: nat, chunk: Bytes): Bytes {
    LEAF_DOMAIN + Be(index, 8) + Be(|chunk|, 8) + chunk
  }

  function NodeInput(left: Hash, right: Hash): Bytes {
    NODE_DOMAIN + left + right
  }

  function LeafHash(h: Hasher, index: nat, chunk: Bytes): Hash {
    h(LeafInput(index, chunk))
  }

  function NodeHash(h: Hasher, left: Hash, right: Hash): Hash {
    h(NodeInput(left, right))
  }

  function Leaves(h: Hasher, chunks: seq<Bytes>): (level: seq<Hash>)
    ensures |level| == |chunks|
  {
    seq(|chunks|, i requires 0 <= i < |chunks| => LeafHash(h, i, chunks[i]))
  }

  /** The right partner of the node at an even position. */
  function Partner(level: seq<Hash>, position: nat): Hash
    requires position < |level|
  {
    if position + 1 < |level| then level[position + 1] else level[position]
  }

  function NextLevel(h: Hasher, level: seq<Hash>): (next: seq<Hash>)
    ensures |next| == (|level| + 1) / 2
  {
    seq((|level| + 1) / 2, j requires 0 <= j < (|level| + 1) / 2 =>
      NodeHash(h, level[2 * j], Partner(level, 2 * j)))
  }

  /** The single node that repeated pairing leaves. */
  function Top(h: Hasher, level: seq<Hash>): Hash
    requires level != []
    decreases |level|
  {
    if |level| == 1 then level[0] else Top(h, NextLevel(h, level))
  }

  function Root(h: Hasher, chunks: seq<Bytes>): Hash
    requires chunks != []
  {
    Top(h, Leaves(h, chunks))
  }

  function Sibling(level: seq<Hash>, position: nat): Hash
    requires position < |level|
  {
    if position % 2 == 0 then Partner(level, position) else level[position - 1]
  }

  /** The siblings on the way from a position of a level to the top. */
  function Path(h: Hasher, level: seq<Hash>, position: nat): seq<Hash>
    requires position < |level|
    decreases |level|
  {
    if |level| == 1 then []
    else [Sibling(level, position)] + Path(h, NextLevel(h, level), position / 2)
  }

  function StepInput(node: Hash, position: nat, sibling: Hash): Bytes {
    if position % 2 == 0 then NodeInput(node, sibling) else NodeInput(sibling, node)
  }

  /** Fold a proof upwards from a node. */
  function Climb(h: Hasher, node: Hash, position: nat, proof: seq<Hash>): Hash
    decreases |proof|
  {
    if proof == [] then node
    else Climb(h, h(StepInput(node, position, proof[0])), position / 2, proof[1..])
  }

  function BitLength(n: nat): nat {
    if n == 0 then 0 else 1 + BitLength(n / 2)
  }

  function Pow2(k: nat): nat {
    if k == 0 then 1 else 2 * Pow2(k - 1)
  }

  /** Levels above `n` nodes when each level is half the one below, rounded up. */
  function Depth(n: nat): nat {
    if n <= 1 then 0 else 1 + Depth((n + 1) / 2)
  }

  /** What the verifier accepts. */
  predicate Accepts(h: Hasher, chunk: Bytes, index: nat, count: nat, proof: seq<Hash>, root: Hash) {
    && index < count
    && |proof| == Depth(count)
    && Climb(h, LeafHash(h, index, chunk), index, proof) == root
  }

  // ----- pairing -----------------------------------------------------------------------------

  /** In a level of an even number of nodes every node is hashed once, each pair left to right. */
  lemma EvenPairs(h: Hasher, level: seq<Hash>, j: nat)
    requires |level| % 2 == 0 && 2 * j < |level|
    ensures |NextLevel(h, level)| * 2 == |level|
    ensures NextLevel(h, level)[j] == h(NODE_DOMAIN + level[2 * j] + level[2 * j + 1])
  {
  }

  /** An odd level is treated as if its last node came twice. */
  lemma OddDuplicates(h: Hasher, level: seq<Hash>)
    requires |level| % 2 == 1 && |level| > 1
    ensures NextLevel(h, level) == NextLevel(h, level + [level[|level| - 1]])
    ensures Top(h, level) == Top(h, level + [level[|level| - 1]])
  {
    var longer := level + [level[|level| - 1]];
    var a, b := NextLevel(h, level), NextLevel(h, longer);
    assert |a| == |b|;
    forall j | 0 <= j < |a|
      ensures a[j] == b[j]
    {
      PairAlike(level, longer, j);
    }
    assert a == b;
    hide NextLevel;
    assert Top(h, level) == Top(h, a) && Top(h, longer) == Top(h, b);
  }

  lemma PairAlike(level: seq<Hash>, longer: seq<Hash>, j: nat)
    requires |level| % 2 == 1 && longer == level + [level[|level| - 1]] && 2 * j < |level|
    ensures longer[2 * j] == level[2 * j] && Partner(longer, 2 * j) == Partner(level, 2 * j)
  {
  }

  /** A path starts with the other node of the pair; the last node of an odd level is its own. */
  lemma PathStarts(h: Hasher, level: seq<Hash>, position: nat)
    requires position < |level| && |level| > 1
    ensures Path(h, level, position) != []
    ensures Path(h, level, position)[0] ==
      if position % 2 == 1 then level[position - 1]
      else if position == |level| - 1 then level[|level| - 1]
      else level[position + 1]
    ensures Path(h, level, position)[1..] == Path(h, NextLevel(h, level), position / 2)
  {
  }

  /** Leaves carry their own index and length, so equal chunks at different places differ under the hash. */
  lemma LeavesAt(h: Hasher, chunks: seq<Bytes>, i: nat)
    requires i < |chunks|
    ensures Leaves(h, chunks)[i] == h(LEAF_DOMAIN + Be(i, 8) + Be(|chunks[i]|, 8) + chunks[i])
  {
  }

  // ----- depth -------------------------------------------------------------------------------

  /** The verifier's depth, the bit length of `n - 1`, is the number of levels. */
  lemma {:induction false} DepthIsBitLength(n: nat)
    requires n > 0
    ensures Depth(n) == BitLength(n - 1)
  {
    if n > 1 {
      DepthIsBitLength((n + 1) / 2);
      assert (n + 1) / 2 - 1 == (n - 1) / 2;
    }
  }

  /** The depth is the least `d` with `n <= 2^d`. */
  lemma {:induction false} DepthIsCeilLog(n: nat)
    requires n > 0
    ensures n <= Pow2(Depth(n))
    ensures n > 1 ==> Pow2(Depth(n) - 1) < n
  {
    if n > 1 {
      DepthIsCeilLog((n + 1) / 2);
    }
  }

  /** Counts that fit 32 bits need no more than the supported depth. */
  lemma DepthSupported(n: nat)
    requires 0 < n <= U32_MAX
    ensures Depth(n) <= MAX_MERKLE_DEPTH
  {
    DepthIsCeilLog(n);
    Pow2Of32();
    if Depth(n) > MAX_MERKLE_DEPTH {
      Pow2Grows(MAX_MERKLE_DEPTH, Depth(n) - 1);
    }
  }

  lemma {:induction false} Pow2Grows(a: nat, b: nat)
    requires a <= b
    ensures Pow2(a) <= Pow2(b)
  {
    if a < b {
      Pow2Grows(a, b - 1);
    }
  }

  lemma Pow2Of32()
    ensures Pow2(32) == U32_MAX + 1
  {
    assert Pow2(8) == 256;
    assert Pow2(16) == 256 * Pow2(8) by { Pow2Add(8, 8); }
    assert Pow2(32) == Pow2(16) * Pow2(16) by { Pow2Add(16, 16); }
  }

  lemma {:induction false} Pow2Add(a: nat, b: nat)
    ensures Pow2(a + b) == Pow2(a) * Pow2(b)
  {
    if a > 0 {
      Pow2Add(a - 1, b);
    }
  }

  lemma {:induction false} PathLength(h: Hasher, level: seq<Hash>, position: nat)
    requires position < |level|
    ensures |Path(h, level, position)| == Depth(|level|)
    decreases |level|
  {
    if |level| > 1 {
      PathLength(h, NextLevel(h, level), position / 2);
    }
  }

  // ----- completeness ------------------------------------------------------------------------

  lemma StepUp(h: Hasher, level: seq<Hash>, position: nat)
    requires position < |level| && |level| > 1
    ensures h(StepInput(level[position], position, Sibling(level, position))) == NextLevel(h, level)[position / 2]
  {
    if position % 2 == 0 {
      assert 2 * (position / 2) == position;
    } else {
      assert 2 * (position / 2) == position - 1;
    }
  }

  lemma {:induction false} ClimbPath(h: Hasher, level: seq<Hash>, position: nat)
    requires position < |level|
    ensures Climb(h, level[position], position, Path(h, level, position)) == Top(h, level)
    decreases |level|
  {
    if |level| > 1 {
      StepUp(h, level, position);
      ClimbPath(h, NextLevel(h, level), position / 2);
      assert Path(h, level, position)[1..] == Path(h, NextLevel(h, level), position / 2);
    }
  }

  /** Every generated proof is accepted, for every number of chunks and every index. */
  lemma Complete(h: Hasher, chunks: seq<Bytes>, index: nat)
    requires index < |chunks|
    ensures Accepts(h, chunks[index], index, |chunks|, Path(h, Leaves(h, chunks), index), Root(h, chunks))
  {
    PathLength(h, Leaves(h, chunks), index);
    ClimbPath(h, Leaves(h, chunks), index);
    assert Leaves(h, chunks)[index] == LeafHash(h, index, chunks[index]);
  }

  // ----- soundness ---------------------------------------------------------------------------

  /** The hash does not collide on these inputs. */
  ghost predicate CollisionFree(h: Hasher, inputs: set<Bytes>) {
    forall x, y | x in inputs && y in inputs && h(x) == h(y) :: x == y
  }

  ghost function LevelInputs(h: Hasher, level: seq<Hash>): set<Bytes>
    requires level != []
    decreases |level|
  {
    if |level| == 1 then {}
    else (set j | 0 <= j < (|level| + 1) / 2 :: NodeInput(level[2 * j], Partner(level, 2 * j)))
         + LevelInputs(h, NextLevel(h, level))
  }

  /** Everything hashed while building the tree. */
  ghost function TreeInputs(h: Hasher, chunks: seq<Bytes>): set<Bytes>
    requires chunks != []
  {
    (set i | 0 <= i < |chunks| :: LeafInput(i, chunks[i])) + LevelInputs(h, Leaves(h, chunks))
  }

  ghost function ClimbInputs(h: Hasher, node: Hash, position: nat, proof: seq<Hash>): set<Bytes>
    decreases |proof|
  {
    if proof == [] then {}
    else var input := StepInput(node, position, proof[0]);
         {input} + ClimbInputs(h, h(input), position / 2, proof[1..])
  }

  /** Everything hashed while checking one proof. */
  ghost function ProofInputs(h: Hasher, chunk: Bytes, index: nat, proof: seq<Hash>): set<Bytes> {
    {LeafInput(index, chunk)} + ClimbInputs(h, LeafHash(h, index, chunk), index, proof)
  }

  lemma NodeInputInjective(a: Hash, b: Hash, c: Hash, d: Hash)
    requires NodeInput(a, b) == NodeInput(c, d)
    ensures a == c && b == d
  {
    var x, y := NodeInput(a, b), NodeInput(c, d);
    assert a == x[|NODE_DOMAIN|..|NODE_DOMAIN| + 32] && b == x[|NODE_DOMAIN| + 32..];
    assert c == y[|NODE_DOMAIN|..|NODE_DOMAIN| + 32] && d == y[|NODE_DOMAIN| + 32..];
  }

  lemma LeafInputInjective(index: nat, a: Bytes, b: Bytes)
    requires LeafInput(index, a) == LeafInput(index, b)
    ensures a == b
  {
    var x, y := LeafInput(index, a), LeafInput(index, b);
    assert a == x[|LEAF_DOMAIN| + 16..] && b == y[|LEAF_DOMAIN| + 16..];
  }

  lemma PairHashed(h: Hasher, level: seq<Hash>, j: nat)
    requires |level| > 1 && 2 * j < |level|
    ensures NodeInput(level[2 * j], Partner(level, 2 * j)) in LevelInputs(h, level)
    ensures NextLevel(h, level)[j] == h(NodeInput(level[2 * j], Partner(level, 2 * j)))
  {
    hide NodeInput;
  }

  /** A pair that hashes to a committed node is the committed pair. */
  lemma StepSound(h: Hasher, level: seq<Hash>, node: Hash, position: nat, sibling: Hash, inputs: set<Bytes>)
    requires position < |level| && |level| > 1
    requires h(StepInput(node, position, sibling)) == NextLevel(h, level)[position / 2]
    requires LevelInputs(h, level) + {StepInput(node, position, sibling)} <= inputs && CollisionFree(h, inputs)
    ensures node == level[position] && sibling == Sibling(level, position)
  {
    var j := position / 2;
    var left, right := level[2 * j], Partner(level, 2 * j);
    PairHashed(h, level, j);
    assert StepInput(node, position, sibling) == NodeInput(left, right) by {
      assert StepInput(node, position, sibling) in inputs && NodeInput(left, right) in inputs;
      hide StepInput, NodeInput, NextLevel, LevelInputs, Partner;
    }
    hide NextLevel, LevelInputs, NodeInput, CollisionFree;
    if position % 2 == 0 {
      assert position == 2 * j;
      NodeInputInjective(node, sibling, left, right);
    } else {
      assert position == 2 * j + 1;
      NodeInputInjective(sibling, node, left, right);
    }
  }

  /** A path of the right length that reaches the top is the tree's own path from the tree's own node. */
  lemma {:induction false} ClimbSound(h: Hasher, level: seq<Hash>, node: Hash, position: nat, proof: seq<Hash>,
                                      inputs: set<Bytes>)
    requires position < |level| && |proof| == Depth(|level|)
    requires Climb(h, node, position, proof) == Top(h, level)
    requires LevelInputs(h, level) <= inputs && ClimbInputs(h, node, position, proof) <= inputs
    requires CollisionFree(h, inputs)
    ensures node == level[position] && proof == Path(h, level, position)
    decreases |level|
  {
    if |level| > 1 {
      ClimbSound(h, NextLevel(h, level), h(StepInput(node, position, proof[0])), position / 2, proof[1..], inputs);
      StepSound(h, level, node, position, proof[0], inputs);
      assert proof == [proof[0]] + proof[1..];
    }
  }

  /** An accepted response carries exactly the committed chunk, with the one proof the tree generates. */
  lemma Sound(h: Hasher, chunks: seq<Bytes>, chunk: Bytes, index: nat, proof: seq<Hash>)
    requires index < |chunks|
    requires Accepts(h, chunk, index, |chunks|, proof, Root(h, chunks))
    requires CollisionFree(h, TreeInputs(h, chunks) + ProofInputs(h, chunk, index, proof))
    ensures chunk == chunks[index]
    ensures proof == Path(h, Leaves(h, chunks), index)
  {
    var inputs := TreeInputs(h, chunks) + ProofInputs(h, chunk, index, proof);
    ClimbSound(h, Leaves(h, chunks), LeafHash(h, index, chunk), index, proof, inputs);
    assert LeafInput(index, chunks[index]) in inputs && LeafInput(index, chunk) in inputs;
    LeafInputInjective(index, chunk, chunks[index]);
  }

  // ----- the loops ---------------------------------------------------------------------------

  method MerkleRoot(h: Hasher, chunks: seq<Bytes>) returns (root: Hash)
    requires chunks != []
    ensures root == Root(h, chunks)
  {
    var level := Leaves(h, chunks);
    while |level| > 1
      invariant level != [] && Top(h, level) == Root(h, chunks)
      decreases |level|
    {
      level := NextLevel(h, level);
    }
    return level[0];
  }

  method MerkleProof(h: Hasher, chunks: seq<Bytes>, index: nat) returns (proof: seq<Hash>)
    requires index < |chunks|
    ensures proof == Path(h, Leaves(h, chunks), index)
    ensures |chunks| <= U32_MAX ==> |proof| <= MAX_MERKLE_DEPTH
  {
    var level := Leaves(h, chunks);
    var position: nat := index;
    proof := [];
    while |level| > 1
      invariant 0 <= position < |level|
      invariant proof + Path(h, level, position) == Path(h, Leaves(h, chunks), index)
      decreases |level|
    {
      proof := proof + [Sibling(level, position)];
      level := NextLevel(h, level);
      position := position / 2;
    }
    PathLength(h, Leaves(h, chunks), index);
    if |chunks| <= U32_MAX {
      DepthSupported(|chunks|);
    }
  }

  /** The verifier's `width` bookkeeping can never disagree with the depth test. */
  method VerifyMerkleProof(h: Hasher, chunk: Bytes, index: nat, count: nat, proof: seq<Hash>, root: Hash)
      returns (ok: bool)
    ensures ok == Accepts(h, chunk, index, count, proof, root)
  {
    if count == 0 || index >= count {
      return false;
    }
    DepthIsBitLength(count);
    if |proof| != BitLength(count - 1) {
      return false;
    }
    var hash, position, width := LeafHash(h, index, chunk), index, count;
    for i := 0 to |proof|
      invariant width > 0 && |proof| - i == Depth(width)
      invariant Climb(h, hash, position, proof[i..]) == Climb(h, LeafHash(h, index, chunk), index, proof)
    {
      hash := h(StepInput(hash, position, proof[i]));
      position := position / 2;
      width := (width + 1) / 2;
    }
    return width == 1 && hash == root;
  }
}
