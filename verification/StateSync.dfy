/**
 Snapshot framing, chunk responses and the assembly a joining validator performs. The ledger
 state is opaque: it comes with an encoder, a decoder and a root.
 */
module StateSync {
  import opened Numbers
  import opened Results
  import opened Wire
  import opened Chunking
  import opened Merkle
  import opened SyncCodec
  import BlockCodec

  const SNAPSHOT_MAGIC: Bytes := [81, 79, 77, 77, 83, 78, 80, 49]
  const SNAPSHOT_DOMAIN: Bytes :=
    [81, 79, 77, 77, 58, 83, 84, 65, 84, 69, 45, 83, 89, 78, 67, 58,
     83, 78, 65, 80, 83, 72, 79, 84, 58, 118, 49]

  /** What the protocol uses of the hash function and of the ledger state. */
  datatype Host<!S> = Host(
    h: Hasher,
    encodeState: S -> Result<Bytes, WireError>,
    decodeState: Bytes -> Result<S, WireError>,
    root: S -> Hash)

  /** The state decoder accepts exactly the canonical encodings. */
  ghost predicate Canonical<S(!new)>(host: Host<S>) {
    forall s: S, b: Bytes :: host.decodeState(b) == Success(s) <==> host.encodeState(s) == Success(b)
  }

  function SnapshotBytes(block: Bytes, state: Bytes): Bytes {
    SNAPSHOT_MAGIC + (Be(|block|, 4) + (Be(|state|, 8) + (block + state)))
  }

  function SnapshotInput(snapshot: Bytes): Bytes {
    SNAPSHOT_DOMAIN + Be(|snapshot|, 8) + snapshot
  }

  function Summarize<S(!new)>(host: Host<S>, networkId: U32, chainId: Hash, genesisHash: Hash,
                        block: BlockCodec.Block, state: S): Result<(StateSummary, Bytes), WireError>
  {
    if !BlockCodec.Encodable(block) then Failure(OutOfBounds) else
    var blockBytes := BlockCodec.Encoding(block);
    var stateBytes :- host.encodeState(state);
    if |stateBytes| > U64_MAX then Failure(OutOfBounds) else
    var snapshot := SnapshotBytes(blockBytes, stateBytes);
    if |snapshot| > MAX_SNAPSHOT_BYTES then Failure(OutOfBounds) else
    var chunks := Chunks(snapshot, CHUNK_BYTES);
    ChunkCount(snapshot, CHUNK_BYTES);
    var summary := StateSummary(networkId, chainId, genesisHash, host.h(blockBytes), block.parentId,
      host.root(state), host.h(SnapshotInput(snapshot)), Root(host.h, chunks),
      block.height, block.timestamp, |snapshot|, CHUNK_BYTES, |chunks|);
    if ValidSummary(summary) then Success((summary, snapshot)) else Failure(OutOfBounds)
  }

  datatype Decoded<S> = Decoded(block: BlockCodec.Block, blockBytes: Bytes, state: S)

  function ParseSnapshot(snapshot: Bytes): Result<(Bytes, Bytes), WireError> {
    var (magic, r1) :- Take(snapshot, 8);
    if magic != SNAPSHOT_MAGIC then Failure(Unsupported) else
    var (blockLen, r2) :- TakeNumber(r1, 4);
    var (stateLen, r3) :- TakeNumber(r2, 8);
    var (block, r4) :- Take(r3, blockLen);
    var (state, r5) :- Take(r4, stateLen);
    if r5 != [] then Failure(Trailing) else Success((block, state))
  }

  /** The summary commits to these bytes. */
  predicate Commits<S>(host: Host<S>, summary: StateSummary, snapshot: Bytes) {
    && ValidSummary(summary)
    && |snapshot| == summary.snapshotLen
    && host.h(SnapshotInput(snapshot)) == summary.snapshotHash
    && snapshot != []
    && Root(host.h, Chunks(snapshot, CHUNK_BYTES)) == summary.chunkRoot
  }

  function DecodeSnapshot<S(!new)>(host: Host<S>, summary: StateSummary,
                                   snapshot: Bytes): Result<Decoded<S>, WireError>
  {
    if !Commits(host, summary, snapshot) then Failure(OutOfBounds) else
    var (blockBytes, stateBytes) :- ParseSnapshot(snapshot);
    var block :- BlockCodec.Decode(blockBytes);
    var state :- host.decodeState(stateBytes);
    if host.h(blockBytes) != summary.blockId || block.parentId != summary.parentId || block.height != summary.height
       || block.timestamp != summary.timestamp || host.root(state) != summary.stateRoot
    then Failure(OutOfBounds) else Success(Decoded(block, blockBytes, state))
  }

  lemma ParseOfSnapshot(block: Bytes, state: Bytes)
    requires |block| <= U32_MAX && |state| <= U64_MAX
    ensures ParseSnapshot(SnapshotBytes(block, state)) == Success((block, state))
  {
    Widths();
    var e3 := block + state;
    var e2 := Be(|state|, 8) + e3;
    TakeAppend(SNAPSHOT_MAGIC, Be(|block|, 4) + e2);
    TakeNumberAppend(|block|, 4, e2);
    TakeNumberAppend(|state|, 8, e3);
    TakeAppend(block, state);
    TakeAppend(state, []);
    assert state + [] == state;
  }

  /** A snapshot decodes, against its own summary, to the block and state it was built from. */
  lemma SnapshotRoundTrip<S(!new)>(host: Host<S>, networkId: U32, chainId: Hash, genesisHash: Hash,
                                   block: BlockCodec.Block, state: S, summary: StateSummary, snapshot: Bytes)
    requires Canonical(host)
    requires Summarize(host, networkId, chainId, genesisHash, block, state) == Success((summary, snapshot))
    ensures DecodeSnapshot(host, summary, snapshot) == Success(Decoded(block, BlockCodec.Encoding(block), state))
  {
    var stateBytes := host.encodeState(state).value;
    ParseOfSnapshot(BlockCodec.Encoding(block), stateBytes);
    BlockCodec.DecodeOfEncoding(block);
    assert host.decodeState(stateBytes) == Success(state);
  }

  /**
   A snapshot decodes exactly when the summary commits to it and what it holds is, in every respect the
   summary names, the summary's block and state.
   */
  lemma DecodeExact<S(!new)>(host: Host<S>, summary: StateSummary, snapshot: Bytes)
    ensures DecodeSnapshot(host, summary, snapshot).Success? <==>
      && ValidSummary(summary) && snapshot != [] && |snapshot| == summary.snapshotLen
      && host.h(SNAPSHOT_DOMAIN + Be(|snapshot|, 8) + snapshot) == summary.snapshotHash
      && Root(host.h, Chunks(snapshot, CHUNK_BYTES)) == summary.chunkRoot
      && ParseSnapshot(snapshot).Success?
      && var (block, state) := ParseSnapshot(snapshot).value;
      && BlockCodec.Decode(block).Success? && host.decodeState(state).Success?
      && var b := BlockCodec.Decode(block).value;
      && host.h(block) == summary.blockId && b.parentId == summary.parentId && b.height == summary.height
      && b.timestamp == summary.timestamp && host.root(host.decodeState(state).value) == summary.stateRoot
    ensures DecodeSnapshot(host, summary, snapshot).Success? ==>
      var d := DecodeSnapshot(host, summary, snapshot).value;
      && BlockCodec.Encoding(d.block) == d.blockBytes && host.h(d.blockBytes) == summary.blockId
      && host.root(d.state) == summary.stateRoot
  {
    hide ValidSummary, Chunks, ParseSnapshot, BlockCodec.Decode, BlockCodec.Encoding;
    if DecodeSnapshot(host, summary, snapshot).Success? {
      BlockCodec.EncodingOfDecode(ParseSnapshot(snapshot).value.0);
    }
  }

  // ----- responses ---------------------------------------------------------------------------

  function SummaryId(h: Hasher, summary: StateSummary): Hash {
    h(SummaryEncoding(summary))
  }

  /** What the serving side answers for one index of a snapshot it holds. */
  function Respond<S(!new)>(host: Host<S>, summary: StateSummary, snapshot: Bytes,
                            index: U32): Result<ChunkResponse, WireError>
  {
    var _ :- DecodeSnapshot(host, summary, snapshot);
    if index >= summary.chunkCount then Failure(OutOfBounds) else
    ChunkCount(snapshot, CHUNK_BYTES);
    var chunks := Chunks(snapshot, CHUNK_BYTES);
    Success(ChunkResponse(SummaryId(host.h, summary), index, summary.chunkCount,
                          Path(host.h, Leaves(host.h, chunks), index), chunks[index]))
  }

  /** What the joining side accepts. */
  predicate AcceptsResponse(h: Hasher, summary: StateSummary, response: ChunkResponse) {
    && ValidSummary(summary)
    && response.summaryId == SummaryId(h, summary)
    && response.chunkCount == summary.chunkCount
    && response.index < response.chunkCount
    && |response.bytes| == (if response.index + 1 == response.chunkCount
                            then summary.snapshotLen - response.index * CHUNK_BYTES else CHUNK_BYTES)
    && Accepts(h, response.bytes, response.index, response.chunkCount, response.proof, summary.chunkRoot)
  }

  /** Every honest answer is accepted. */
  lemma HonestResponseAccepted<S(!new)>(host: Host<S>, summary: StateSummary, snapshot: Bytes, index: U32)
    requires DecodeSnapshot(host, summary, snapshot).Success? && index < summary.chunkCount
    ensures Respond(host, summary, snapshot, index).Success?
    ensures AcceptsResponse(host.h, summary, Respond(host, summary, snapshot, index).value)
  {
    ChunkCount(snapshot, CHUNK_BYTES);
    ChunkAt(snapshot, CHUNK_BYTES, index);
    Complete(host.h, Chunks(snapshot, CHUNK_BYTES), index);
  }

  /** An answer for another summary, or for an index the summary does not have, is not accepted. */
  lemma ForeignAnswer(h: Hasher, summary: StateSummary, response: ChunkResponse)
    ensures AcceptsResponse(h, summary, response) ==>
      && response.summaryId == h(SummaryEncoding(summary)) && response.chunkCount == summary.chunkCount
      && response.index < summary.chunkCount && |response.proof| == Depth(summary.chunkCount)
      && |response.bytes| == (if response.index + 1 < summary.chunkCount then CHUNK_BYTES
                              else summary.snapshotLen - response.index * CHUNK_BYTES)
  {
    hide SummaryEncoding, ValidSummary;
  }

  /** Everything hashed to build the committed tree and to check these responses. */
  ghost function SyncInputs(h: Hasher, snapshot: Bytes, responses: seq<ChunkResponse>): set<Bytes>
    requires snapshot != []
  {
    TreeInputs(h, Chunks(snapshot, CHUNK_BYTES))
    + set i, x | 0 <= i < |responses| && x in ResponseInputs(h, responses[i]) :: x
  }

  ghost function ResponseInputs(h: Hasher, response: ChunkResponse): set<Bytes> {
    ProofInputs(h, response.bytes, response.index, response.proof)
  }

  /** An accepted response carries the committed chunk of the index it claims. */
  lemma ResponseSound<S>(host: Host<S>, summary: StateSummary, snapshot: Bytes, response: ChunkResponse)
    requires Commits(host, summary, snapshot) && AcceptsResponse(host.h, summary, response)
    requires CollisionFree(host.h, TreeInputs(host.h, Chunks(snapshot, CHUNK_BYTES)) + ResponseInputs(host.h, response))
    ensures response.index < |Chunks(snapshot, CHUNK_BYTES)|
    ensures response.bytes == Chunks(snapshot, CHUNK_BYTES)[response.index]
  {
    ChunkCount(snapshot, CHUNK_BYTES);
    Sound(host.h, Chunks(snapshot, CHUNK_BYTES), response.bytes, response.index, response.proof);
  }

  function Payloads(responses: seq<ChunkResponse>): seq<Bytes> {
    seq(|responses|, i requires 0 <= i < |responses| => responses[i].bytes)
  }

  ghost predicate AllAccepted(h: Hasher, summary: StateSummary, responses: seq<ChunkResponse>) {
    |responses| == summary.chunkCount
    && forall i | 0 <= i < |responses| :: AcceptsResponse(h, summary, responses[i])
  }

  /**
   The assembly step takes whatever accepted response fills a slot, without comparing the index
   the response claims with the slot. A full set of accepted responses assembles, slot for slot,
   to the committed snapshot exactly when each slot holds the chunk of its own index.
   */
  lemma AssemblyExact<S>(host: Host<S>, summary: StateSummary, snapshot: Bytes, responses: seq<ChunkResponse>)
    requires Commits(host, summary, snapshot) && AllAccepted(host.h, summary, responses)
    requires CollisionFree(host.h, SyncInputs(host.h, snapshot, responses))
    ensures var chunks, parts := Chunks(snapshot, CHUNK_BYTES), Payloads(responses);
      && |chunks| == |responses|
      && (forall i | 0 <= i < |responses| :: responses[i].index < |chunks|)
      && (Concat(parts) == snapshot && WellCut(parts, |snapshot|, CHUNK_BYTES)
          <==> forall i | 0 <= i < |responses| :: chunks[responses[i].index] == chunks[i])
  {
    var chunks, parts := Chunks(snapshot, CHUNK_BYTES), Payloads(responses);
    ChunksWellCut(snapshot, CHUNK_BYTES);
    forall i | 0 <= i < |responses|
      ensures responses[i].index < |chunks| && parts[i] == chunks[responses[i].index]
    {
      assert ResponseInputs(host.h, responses[i]) <= SyncInputs(host.h, snapshot, responses);
      ResponseSound(host, summary, snapshot, responses[i]);
    }
    ConcatChunks(snapshot, CHUNK_BYTES);
    if forall i | 0 <= i < |responses| :: chunks[responses[i].index] == chunks[i] {
      assert parts == chunks;
    }
    if WellCut(parts, |snapshot|, CHUNK_BYTES) {
      ChunksConcat(parts, |snapshot|, CHUNK_BYTES);
    }
  }

  /**
   The guard the assembly step does not make. Where no two chunks are the same and every answer has
   the length of its slot, the assembly is the committed snapshot exactly when each answer is for the
   slot it fills.
   */
  lemma SlotGuardExact<S>(host: Host<S>, summary: StateSummary, snapshot: Bytes, responses: seq<ChunkResponse>)
    requires Commits(host, summary, snapshot) && AllAccepted(host.h, summary, responses)
    requires CollisionFree(host.h, SyncInputs(host.h, snapshot, responses))
    requires forall i, j | 0 <= i < j < |Chunks(snapshot, CHUNK_BYTES)| ::
      Chunks(snapshot, CHUNK_BYTES)[i] != Chunks(snapshot, CHUNK_BYTES)[j]
    requires forall i | 0 <= i < |responses| :: |responses[i].bytes| == ExpectedLength(|snapshot|, CHUNK_BYTES, i)
    ensures Concat(Payloads(responses)) == snapshot <==> forall i | 0 <= i < |responses| :: responses[i].index == i
  {
    var chunks := Chunks(snapshot, CHUNK_BYTES);
    AssemblyExact(host, summary, snapshot, responses);
    ChunkCount(snapshot, CHUNK_BYTES);
    assert WellCut(Payloads(responses), |snapshot|, CHUNK_BYTES) by {
      hide ExpectedLength;
    }
    hide Commits, AllAccepted, CollisionFree, SyncInputs, Chunks, Concat, ExpectedLength, WellCut, Payloads;
    forall i | 0 <= i < |responses|
      ensures chunks[responses[i].index] == chunks[i] <==> responses[i].index == i
    {
    }
  }

  /** The lengths matter: where all bytes are the same, two chunks of different lengths join either way round. */
  lemma LengthsMatter(snapshot: Bytes)
    requires CHUNK_BYTES < |snapshot| < 2 * CHUNK_BYTES
    requires forall i | 0 <= i < |snapshot| :: snapshot[i] == snapshot[0]
    ensures var chunks := Chunks(snapshot, CHUNK_BYTES);
      |chunks| == 2 && chunks[0] != chunks[1] && Concat([chunks[1], chunks[0]]) == snapshot
  {
    var first, second := snapshot[..CHUNK_BYTES], snapshot[CHUNK_BYTES..];
    assert Chunks(snapshot, CHUNK_BYTES) == [first, second];
    assert |first| != |second|;
    ConcatTwo(second, first);
    assert second + first == snapshot;
  }

  lemma ConcatTwo(a: Bytes, b: Bytes)
    ensures Concat([a, b]) == a + b
  {
    assert [a, b][1..] == [b] && [b][1..] == [];
    assert Concat([b]) == b + Concat([]) == b;
  }

  /** The honest answer for one index is accepted in any other slot, and then the assembly is not the snapshot. */
  lemma MisplacedResponse<S(!new)>(host: Host<S>, summary: StateSummary, snapshot: Bytes, responses: seq<ChunkResponse>,
                                   slot: nat, index: U32)
    requires DecodeSnapshot(host, summary, snapshot).Success?
    requires |responses| == summary.chunkCount && slot < |responses| && index < summary.chunkCount
    requires forall i | 0 <= i < |responses| ::
      Respond(host, summary, snapshot, if i == slot then index else i) == Success(responses[i])
    requires |Chunks(snapshot, CHUNK_BYTES)| == |responses|
    requires Chunks(snapshot, CHUNK_BYTES)[index] != Chunks(snapshot, CHUNK_BYTES)[slot]
    requires |Chunks(snapshot, CHUNK_BYTES)[index]| == |Chunks(snapshot, CHUNK_BYTES)[slot]|
    ensures AllAccepted(host.h, summary, responses)
    ensures |Concat(Payloads(responses))| == |snapshot| && Concat(Payloads(responses)) != snapshot
  {
    var chunks, parts := Chunks(snapshot, CHUNK_BYTES), Payloads(responses);
    ChunksWellCut(snapshot, CHUNK_BYTES);
    forall i | 0 <= i < |responses|
      ensures AcceptsResponse(host.h, summary, responses[i])
      ensures parts[i] == chunks[if i == slot then index else i]
    {
      HonestResponseAccepted(host, summary, snapshot, if i == slot then index else i);
    }
    ChunksConcat(parts, |snapshot|, CHUNK_BYTES);
    assert parts[slot] != chunks[slot];
  }

  /** Whatever was assembled, only the committed snapshot is ever decoded, so nothing else is installed. */
  lemma InstallsOnlyCommitted<S(!new)>(host: Host<S>, networkId: U32, chainId: Hash, genesisHash: Hash,
                                       block: BlockCodec.Block, state: S, summary: StateSummary, snapshot: Bytes,
                                       assembled: Bytes)
    requires Canonical(host)
    requires Summarize(host, networkId, chainId, genesisHash, block, state) == Success((summary, snapshot))
    requires CollisionFree(host.h, {SnapshotInput(snapshot), SnapshotInput(assembled)})
    ensures DecodeSnapshot(host, summary, assembled).Success? ==>
      assembled == snapshot
      && DecodeSnapshot(host, summary, assembled).value == Decoded(block, BlockCodec.Encoding(block), state)
  {
    SnapshotRoundTrip(host, networkId, chainId, genesisHash, block, state, summary, snapshot);
    if DecodeSnapshot(host, summary, assembled).Success? {
      SnapshotInputInjective(assembled, snapshot);
    }
  }

  lemma SnapshotInputInjective(a: Bytes, b: Bytes)
    ensures SnapshotInput(a) == SnapshotInput(b) ==> a == b
  {
    assert a == SnapshotInput(a)[|SNAPSHOT_DOMAIN| + 8..];
    assert b == SnapshotInput(b)[|SNAPSHOT_DOMAIN| + 8..];
  }

  /** Responses that answer their own slots rebuild the snapshot, which installs the original block and state. */
  lemma SyncRecovers<S(!new)>(host: Host<S>, networkId: U32, chainId: Hash, genesisHash: Hash,
                              block: BlockCodec.Block, state: S, summary: StateSummary, snapshot: Bytes,
                              responses: seq<ChunkResponse>)
    requires Canonical(host)
    requires Summarize(host, networkId, chainId, genesisHash, block, state) == Success((summary, snapshot))
    requires AllAccepted(host.h, summary, responses)
    requires forall i | 0 <= i < |responses| :: responses[i].index == i
    requires CollisionFree(host.h, SyncInputs(host.h, snapshot, responses))
    ensures Concat(Payloads(responses)) == snapshot
    ensures DecodeSnapshot(host, summary, Concat(Payloads(responses)))
         == Success(Decoded(block, BlockCodec.Encoding(block), state))
  {
    SnapshotRoundTrip(host, networkId, chainId, genesisHash, block, state, summary, snapshot);
    AssemblyExact(host, summary, snapshot, responses);
  }

  // ----- the joining side --------------------------------------------------------------------

  function Decodable(h: Hasher, summary: StateSummary, bytes: Bytes): Option<ChunkResponse> {
    var response := DecodeResponse(bytes);
    if response.Success? && AcceptsResponse(h, summary, response.value) then Some(response.value) else None
  }

  method VerifyResponse(h: Hasher, summary: StateSummary, response: ChunkResponse) returns (ok: bool)
    ensures ok == AcceptsResponse(h, summary, response)
  {
    if !ValidSummary(summary) {
      return false;
    }
    if response.summaryId != SummaryId(h, summary) || response.chunkCount != summary.chunkCount
       || response.index >= response.chunkCount {
      return false;
    }
    var expected: int := CHUNK_BYTES;
    if response.index + 1 == response.chunkCount {
      expected := summary.snapshotLen - response.index * CHUNK_BYTES;
    }
    if |response.bytes| != expected {
      return false;
    }
    ok := VerifyMerkleProof(h, response.bytes, response.index, response.chunkCount, response.proof, summary.chunkRoot);
  }

  /** A peer is what it answers for each index, if it answers. */
  type Peer = U32 -> Option<Bytes>

  ghost predicate Answers(h: Hasher, summary: StateSummary, peer: Peer, index: U32) {
    peer(index).Some? && Decodable(h, summary, peer(index).value).Some?
  }

  /** The peer asked at one offset of the rotation for one index. */
  function Turn(index: nat, offset: nat, n: nat): (k: nat)
    requires n > 0
    ensures k < n
  {
    (index + offset) % n
  }

  /** The peer asked first moves on with the index, and each further offset asks the next one. */
  lemma TurnMoves(index: nat, offset: nat, n: nat)
    requires n > 0
    ensures Turn(index, 0, n) == index % n && Turn(index + 1, offset, n) == Turn(index, offset + 1, n)
    ensures Turn(index, offset + 1, n) == if Turn(index, offset, n) + 1 == n then 0 else Turn(index, offset, n) + 1
  {
    assert index + (offset + 1) == index + offset + 1 == index + 1 + offset;
    NextRemainder(index + offset, n);
  }

  lemma NextRemainder(x: nat, n: nat)
    requires n > 0
    ensures (x + 1) % n == if x % n + 1 == n then 0 else x % n + 1
  {
    var q, r := x / n, x % n;
    var q', r' := if r + 1 == n then q + 1 else q, if r + 1 == n then 0 else r + 1;
    assert x + 1 == n * q' + r' by {
      assert x == n * q + r && n * (q + 1) == n * q + n;
    }
    DivUnique(x + 1, n, q', r');
  }

  /** Starting anywhere, a full turn over the peers reaches each of them. */
  lemma Rotation(k: nat, index: nat, n: nat) returns (offset: nat)
    requires k < n
    ensures offset < n && Turn(index, offset, n) == k
  {
    offset := (k - index) % n;
    var q := (k - index) / n;
    assert index + offset == k + n * (-q);
    ModShift(k, -q, n);
  }

  lemma ModShift(k: nat, q: int, n: nat)
    requires k < n && 0 <= k + n * q
    ensures (k + n * q) % n == k
  {
    MulGap(n, 0, if q < 0 then -q else 0);
    assert n * q == -(n * -q);
    DivUnique(k + n * q, n, q, k);
  }

  /** The first acceptable answer from this point of the rotation on. */
  function FirstAnswer(h: Hasher, summary: StateSummary, peers: seq<Peer>, index: U32,
                       offset: nat): Option<ChunkResponse>
    requires offset <= |peers|
    decreases |peers| - offset
  {
    if offset == |peers| then None else
    var answer := Offered(h, summary, peers[Turn(index, offset, |peers|)](index));
    if answer.Some? then answer else FirstAnswer(h, summary, peers, index, offset + 1)
  }

  function Offered(h: Hasher, summary: StateSummary, message: Option<Bytes>): Option<ChunkResponse> {
    if message.None? then None else Decodable(h, summary, message.value)
  }

  /** The answer the store holds for a slot, where the joining side accepts it. */
  function Held(h: Hasher, summary: StateSummary, stored: map<U32, Bytes>, index: U32): Option<ChunkResponse> {
    Offered(h, summary, if index in stored then Some(stored[index]) else None)
  }

  /** What fills one slot: the stored answer if it is acceptable, else the first acceptable one of the peers. */
  function Slot(h: Hasher, summary: StateSummary, stored: map<U32, Bytes>, peers: seq<Peer>,
                index: U32): Option<ChunkResponse>
  {
    var held := Held(h, summary, stored, index);
    if held.Some? then held else FirstAnswer(h, summary, peers, index, 0)
  }

  lemma {:induction false} FirstAnswerFound(h: Hasher, summary: StateSummary, peers: seq<Peer>, index: U32, offset: nat)
    requires offset <= |peers|
    ensures var r := FirstAnswer(h, summary, peers, index, offset);
      && (r.Some? ==> AcceptsResponse(h, summary, r.value))
      && (r.Some? <==> exists o | offset <= o < |peers| :: Answers(h, summary, peers[Turn(index, o, |peers|)], index))
    decreases |peers| - offset
  {
    hide DecodeResponse, AcceptsResponse, Turn;
    if offset < |peers| {
      FirstAnswerFound(h, summary, peers, index, offset + 1);
      assert Answers(h, summary, peers[Turn(index, offset, |peers|)], index)
        <==> Offered(h, summary, peers[Turn(index, offset, |peers|)](index)).Some?;
    }
  }

  /** It is the first: every peer asked before it had nothing acceptable. */
  lemma {:induction false} FirstIsFirst(h: Hasher, summary: StateSummary, peers: seq<Peer>, index: U32, offset: nat)
      returns (at: nat)
    requires offset <= |peers| && FirstAnswer(h, summary, peers, index, offset).Some?
    ensures offset <= at < |peers|
    ensures Offered(h, summary, peers[Turn(index, at, |peers|)](index)) == FirstAnswer(h, summary, peers, index, offset)
    ensures forall o | offset <= o < at :: Offered(h, summary, peers[Turn(index, o, |peers|)](index)).None?
    decreases |peers| - offset
  {
    hide Offered, Turn;
    if Offered(h, summary, peers[Turn(index, offset, |peers|)](index)).Some? {
      at := offset;
    } else {
      at := FirstIsFirst(h, summary, peers, index, offset + 1);
    }
  }

  /** A slot is filled exactly when the store or some peer has an acceptable answer for it. */
  lemma SlotFilled(h: Hasher, summary: StateSummary, stored: map<U32, Bytes>, peers: seq<Peer>, index: U32)
    ensures Slot(h, summary, stored, peers, index).Some? <==>
      (index in stored && Decodable(h, summary, stored[index]).Some?)
      || exists k | 0 <= k < |peers| :: Answers(h, summary, peers[k], index)
    ensures Slot(h, summary, stored, peers, index).Some? ==>
      AcceptsResponse(h, summary, Slot(h, summary, stored, peers, index).value)
  {
    FirstAnswerFound(h, summary, peers, index, 0);
    hide DecodeResponse, AcceptsResponse, FirstAnswer, Turn;
    if k :| 0 <= k < |peers| && Answers(h, summary, peers[k], index) {
      var o := Rotation(k, index, |peers|);
      assert Answers(h, summary, peers[Turn(index, o, |peers|)], index);
    }
  }

  method FetchChunk(h: Hasher, summary: StateSummary, peers: seq<Peer>, index: U32)
      returns (r: Option<ChunkResponse>)
    ensures r == FirstAnswer(h, summary, peers, index, 0)
  {
    for offset := 0 to |peers|
      invariant FirstAnswer(h, summary, peers, index, 0) == FirstAnswer(h, summary, peers, index, offset)
    {
      hide Offered;
      var peer := peers[Turn(index, offset, |peers|)];
      r := Checked(h, summary, peer(index));
      if r.Some? {
        return;
      }
    }
    return None;
  }

  /** Decode and verify one message, if there is one. */
  method Checked(h: Hasher, summary: StateSummary, message: Option<Bytes>) returns (r: Option<ChunkResponse>)
    ensures r == Offered(h, summary, message)
  {
    if message.None? {
      return None;
    }
    var response := ReadResponse(message.value);
    if response.Failure? {
      return None;
    }
    var ok := VerifyResponse(h, summary, response.value);
    return if ok then Some(response.value) else None;
  }

  /** The store once a slot has been filled: the answer is kept under the slot's key, in its byte form. */
  function Keep(stored: map<U32, Bytes>, index: U32, answer: Option<ChunkResponse>): map<U32, Bytes> {
    if answer.Some? then stored[index := ResponseEncoding(answer.value)] else stored
  }

  /** An answer already in the store is left there, and one from a peer is written. */
  method FillSlot(h: Hasher, summary: StateSummary, stored: map<U32, Bytes>, peers: seq<Peer>, index: U32)
      returns (r: Option<ChunkResponse>, kept: map<U32, Bytes>)
    ensures r == Slot(h, summary, stored, peers, index)
    ensures kept == Keep(stored, index, r)
  {
    hide FirstAnswer, AcceptsResponse, ResponseEncoding;
    kept := stored;
    r := Checked(h, summary, if index in stored then Some(stored[index]) else None);
    if r.Some? {
      ResponseOfDecode(stored[index]);
      assert kept == kept[index := ResponseEncoding(r.value)];
      return;
    }
    r := FetchChunk(h, summary, peers, index);
    if r.Some? {
      kept := kept[index := ResponseEncoding(r.value)];
    }
  }

  /** The chunks in the slots before this one, as far as they can be filled. */
  function Filling(h: Hasher, summary: StateSummary, stored: map<U32, Bytes>, peers: seq<Peer>,
                   count: U32): Option<seq<Bytes>>
  {
    if count == 0 then Some([]) else
    var before := Filling(h, summary, stored, peers, count - 1);
    var last := Slot(h, summary, stored, peers, count - 1);
    if before.None? || last.None? then None else Some(before.value + [last.value.bytes])
  }

  /** If every slot can be filled, what fills them is one accepted answer per slot. */
  lemma {:induction false} FillingAccepted(h: Hasher, summary: StateSummary, stored: map<U32, Bytes>,
                                           peers: seq<Peer>, count: U32)
      returns (responses: seq<ChunkResponse>)
    ensures Filling(h, summary, stored, peers, count).Some?
       <==> forall i: U32 | i < count :: Slot(h, summary, stored, peers, i).Some?
    ensures var filled := Filling(h, summary, stored, peers, count);
      filled.Some? ==>
        && |responses| == count && filled.value == Payloads(responses)
        && forall i | 0 <= i < count :: AcceptsResponse(h, summary, responses[i])
    decreases count
  {
    hide Slot, AcceptsResponse, Decodable, Answers;
    responses := [];
    if count > 0 {
      var before := FillingAccepted(h, summary, stored, peers, count - 1);
      var last := Slot(h, summary, stored, peers, count - 1);
      SlotFilled(h, summary, stored, peers, count - 1);
      if last.Some? {
        responses := before + [last.value];
      }
    }
  }

  /** The store after the slots before this one have been tried, up to the first that cannot be filled. */
  function StoreAfter(h: Hasher, summary: StateSummary, stored: map<U32, Bytes>, peers: seq<Peer>, count: U32):
    map<U32, Bytes>
  {
    if count == 0 then stored else
    var before := StoreAfter(h, summary, stored, peers, count - 1);
    if Filling(h, summary, stored, peers, count - 1).None? then before
    else Keep(before, count - 1, Slot(h, summary, stored, peers, count - 1))
  }

  /** The store after one attempt at the whole snapshot. */
  function Attempt(h: Hasher, summary: StateSummary, stored: map<U32, Bytes>, peers: seq<Peer>): map<U32, Bytes> {
    if peers == [] || !ValidSummary(summary) then stored else StoreAfter(h, summary, stored, peers, summary.chunkCount)
  }

  /**
   Fill every slot from the stored responses or, failing that, from the peers in rotation, and
   concatenate. It succeeds exactly when there is a peer, the summary is valid, every slot can be
   filled and what fills them has the length of the snapshot. Every slot filled on the way stays
   filled in the store.
   */
  method AssembleSnapshot(h: Hasher, summary: StateSummary, stored: map<U32, Bytes>, peers: seq<Peer>)
      returns (r: Option<Bytes>, kept: map<U32, Bytes>)
    ensures r == Assembly(h, summary, stored, peers)
    ensures kept == Attempt(h, summary, stored, peers)
  {
    hide Slot, Concat, ResponseEncoding;
    kept := stored;
    if peers == [] || !ValidSummary(summary) {
      return None, kept;
    }
    var chunks: seq<Bytes> := [];
    for index := 0 to summary.chunkCount
      invariant Filling(h, summary, stored, peers, index) == Some(chunks)
      invariant kept == StoreAfter(h, summary, stored, peers, index)
      invariant forall i: U32 | index <= i :: SameEntry(kept, stored, i)
    {
      SlotReads(h, summary, kept, stored, peers, index);
      ghost var before := kept;
      var accepted;
      accepted, kept := FillSlot(h, summary, kept, peers, index);
      forall i: U32 | index + 1 <= i
        ensures SameEntry(kept, stored, i)
      {
        assert SameEntry(before, stored, i);
      }
      if accepted.None? {
        StaysEmpty(h, summary, stored, peers, index + 1, summary.chunkCount);
        return None, kept;
      }
      chunks := chunks + [accepted.value.bytes];
    }
    var snapshot := Joined(chunks);
    if |snapshot| != summary.snapshotLen {
      return None, kept;
    }
    return Some(snapshot), kept;
  }

  function Assembly(h: Hasher, summary: StateSummary, stored: map<U32, Bytes>, peers: seq<Peer>): Option<Bytes> {
    var filled := Filling(h, summary, stored, peers, summary.chunkCount);
    if peers != [] && ValidSummary(summary) && filled.Some? && |Concat(filled.value)| == summary.snapshotLen
    then Some(Concat(filled.value)) else None
  }

  ghost predicate SameEntry(a: map<U32, Bytes>, b: map<U32, Bytes>, i: U32) {
    (i in a <==> i in b) && (i in a ==> a[i] == b[i])
  }

  lemma SlotReads(h: Hasher, summary: StateSummary, a: map<U32, Bytes>, b: map<U32, Bytes>, peers: seq<Peer>,
                  index: U32)
    requires SameEntry(a, b, index)
    ensures Slot(h, summary, a, peers, index) == Slot(h, summary, b, peers, index)
  {
    hide Offered, FirstAnswer;
  }

  lemma {:induction false} StaysEmpty(h: Hasher, summary: StateSummary, stored: map<U32, Bytes>, peers: seq<Peer>,
                                      count: U32, more: U32)
    requires count <= more && Filling(h, summary, stored, peers, count).None?
    ensures Filling(h, summary, stored, peers, more).None?
    ensures StoreAfter(h, summary, stored, peers, more) == StoreAfter(h, summary, stored, peers, count)
    decreases more
  {
    hide Slot;
    if count < more {
      StaysEmpty(h, summary, stored, peers, count, more - 1);
    }
  }

  method Joined(chunks: seq<Bytes>) returns (snapshot: Bytes)
    ensures snapshot == Concat(chunks)
  {
    snapshot := [];
    for i := 0 to |chunks|
      invariant snapshot + Concat(chunks[i..]) == Concat(chunks)
    {
      snapshot := snapshot + chunks[i];
    }
    assert snapshot + [] == snapshot;
  }
}
