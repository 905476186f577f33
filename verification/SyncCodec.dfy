/** State summaries, chunk requests and chunk responses, and their canonical byte forms. */
module SyncCodec {
  import opened Numbers
  import opened Results
  import opened Wire
  import opened HashList
  import opened Merkle

  const SUMMARY_MAGIC: Bytes := [81, 79, 77, 77, 83, 83, 77, 49]
  const REQUEST_MAGIC: Bytes := [81, 79, 77, 77, 83, 83, 82, 49]
  const RESPONSE_MAGIC: Bytes := [81, 79, 77, 77, 83, 83, 68, 49]
  const SUMMARY_VERSION := 1
  const SUMMARY_BYTES := 270
  const CHUNK_BYTES := 524_288
  const MAX_SNAPSHOT_BYTES := 536_870_912

  // ----- summary -----------------------------------------------------------------------------

  datatype StateSummary = StateSummary(
    networkId: U32, chainId: Hash, genesisHash: Hash, blockId: Hash, parentId: Hash,
    stateRoot: Hash, snapshotHash: Hash, chunkRoot: Hash,
    height: U64, timestamp: I64, snapshotLen: U64, chunkSize: U32, chunkCount: U32)

  predicate ValidSummary(s: StateSummary) {
    && s.chainId != ZERO_HASH && s.genesisHash != ZERO_HASH && s.blockId != ZERO_HASH
    && s.stateRoot != ZERO_HASH && s.snapshotHash != ZERO_HASH && s.chunkRoot != ZERO_HASH
    && 0 <= s.timestamp
    && 0 < s.snapshotLen <= MAX_SNAPSHOT_BYTES
    && s.chunkSize == CHUNK_BYTES
    && s.chunkCount == DivCeil(s.snapshotLen, CHUNK_BYTES)
  }

  function SummaryHashes(s: StateSummary): seq<Hash> {
    [s.chainId, s.genesisHash, s.blockId, s.parentId, s.stateRoot, s.snapshotHash, s.chunkRoot]
  }

  function SummaryTail(s: StateSummary): Bytes {
    Be(s.height, 8) + (Be(ToUnsigned(s.timestamp), 8) + (Be(s.snapshotLen, 8)
      + (Be(s.chunkSize, 4) + Be(s.chunkCount, 4))))
  }

  function SummaryEncoding(s: StateSummary): (b: Bytes)
    ensures |b| == SUMMARY_BYTES
  {
    SUMMARY_MAGIC + (Be(SUMMARY_VERSION, 2) + (Be(s.networkId, 4) + (HashBytes(SummaryHashes(s)) + SummaryTail(s))))
  }

  datatype TailFields = TailFields(height: nat, timestamp: nat, snapshotLen: nat, chunkSize: nat, chunkCount: nat)

  function ParseTail(rest: Bytes): Result<TailFields, WireError> {
    var (height, r1) :- TakeNumber(rest, 8);
    var (timestamp, r2) :- TakeNumber(r1, 8);
    var (snapshotLen, r3) :- TakeNumber(r2, 8);
    var (chunkSize, r4) :- TakeNumber(r3, 4);
    var (chunkCount, r5) :- TakeNumber(r4, 4);
    if r5 != [] then Failure(Trailing) else
    Success(TailFields(height, timestamp, snapshotLen, chunkSize, chunkCount))
  }

  lemma ParseOfTail(s: StateSummary)
    ensures ParseTail(SummaryTail(s))
         == Success(TailFields(s.height, ToUnsigned(s.timestamp), s.snapshotLen, s.chunkSize, s.chunkCount))
  {
    Widths();
    var e4 := Be(s.chunkCount, 4);
    var e3 := Be(s.chunkSize, 4) + e4;
    var e2 := Be(s.snapshotLen, 8) + e3;
    var e1 := Be(ToUnsigned(s.timestamp), 8) + e2;
    TakeNumberAppend(s.height, 8, e1);
    TakeNumberAppend(ToUnsigned(s.timestamp), 8, e2);
    TakeNumberAppend(s.snapshotLen, 8, e3);
    TakeNumberAppend(s.chunkSize, 4, e4);
    TakeNumberAppend(s.chunkCount, 4, []);
    assert e4 + [] == e4;
  }

  lemma TailOfParse(rest: Bytes)
    requires ParseTail(rest).Success?
    ensures var t := ParseTail(rest).value;
      && t.height <= U64_MAX && t.timestamp <= U64_MAX && t.snapshotLen <= U64_MAX
      && t.chunkSize <= U32_MAX && t.chunkCount <= U32_MAX
      && Be(t.height, 8) + (Be(t.timestamp, 8) + (Be(t.snapshotLen, 8) + (Be(t.chunkSize, 4) + Be(t.chunkCount, 4))))
         == rest
  {
    Widths();
    TakeNumberJoins(rest, 8);
    var r1 := TakeNumber(rest, 8).value.1;
    TakeNumberJoins(r1, 8);
    var r2 := TakeNumber(r1, 8).value.1;
    TakeNumberJoins(r2, 8);
    var r3 := TakeNumber(r2, 8).value.1;
    TakeNumberJoins(r3, 4);
    var r4 := TakeNumber(r3, 4).value.1;
    TakeNumberJoins(r4, 4);
    assert Be(TakeNumber(r4, 4).value.0, 4) + [] == Be(TakeNumber(r4, 4).value.0, 4);
  }

  datatype SummaryParts = SummaryParts(networkId: nat, hashes: seq<Hash>, tail: TailFields)

  ghost predicate InRange(parts: SummaryParts) {
    && parts.networkId <= U32_MAX && |parts.hashes| == 7
    && parts.tail.height <= U64_MAX && parts.tail.timestamp <= U64_MAX && parts.tail.snapshotLen <= U64_MAX
    && parts.tail.chunkSize <= U32_MAX && parts.tail.chunkCount <= U32_MAX
  }

  function Assembled(parts: SummaryParts): StateSummary
    requires InRange(parts)
  {
    var h, t := parts.hashes, parts.tail;
    StateSummary(parts.networkId, h[0], h[1], h[2], h[3], h[4], h[5], h[6],
                 t.height, ToSigned(t.timestamp), t.snapshotLen, t.chunkSize, t.chunkCount)
  }

  function ParseSummary(bytes: Bytes): Result<SummaryParts, WireError> {
    if |bytes| != SUMMARY_BYTES then Failure(OutOfBounds) else
    var (magic, r1) :- Take(bytes, 8);
    if magic != SUMMARY_MAGIC then Failure(Unsupported) else
    var (version, r2) :- TakeNumber(r1, 2);
    if version != SUMMARY_VERSION then Failure(Unsupported) else
    var (networkId, r3) :- TakeNumber(r2, 4);
    var (hashes, r4) :- ParseHashes(r3, 7);
    var tail :- ParseTail(r4);
    Success(SummaryParts(networkId, hashes, tail))
  }

  lemma PartsOfParse(bytes: Bytes)
    requires ParseSummary(bytes).Success?
    ensures var parts := ParseSummary(bytes).value;
      InRange(parts) && SummaryEncoding(Assembled(parts)) == bytes
  {
    Widths();
    TakeJoins(bytes, 8);
    var r1 := Take(bytes, 8).value.1;
    TakeNumberJoins(r1, 2);
    var r2 := TakeNumber(r1, 2).value.1;
    TakeNumberJoins(r2, 4);
    var r3 := TakeNumber(r2, 4).value.1;
    HashesOfParse(r3, 7);
    var (hashes, r4) := ParseHashes(r3, 7).value;
    TailOfParse(r4);
    hide Be, FromBe, Pow256, HashBytes, ParseHashes;
    var parts := ParseSummary(bytes).value;
    assert SummaryHashes(Assembled(parts)) == hashes;
    assert SummaryTail(Assembled(parts)) == r4;
  }

  function DecodeSummary(bytes: Bytes): Result<StateSummary, WireError> {
    var parts :- ParseSummary(bytes);
    PartsOfParse(bytes);
    var summary := Assembled(parts);
    if ValidSummary(summary) then Success(summary) else Failure(OutOfBounds)
  }

  lemma DecodeOfSummary(s: StateSummary)
    requires ValidSummary(s)
    ensures DecodeSummary(SummaryEncoding(s)) == Success(s)
  {
    Widths();
    var e4 := SummaryTail(s);
    var e3 := HashBytes(SummaryHashes(s)) + e4;
    var e2 := Be(s.networkId, 4) + e3;
    TakeAppend(SUMMARY_MAGIC, Be(SUMMARY_VERSION, 2) + e2);
    TakeNumberAppend(SUMMARY_VERSION, 2, e2);
    TakeNumberAppend(s.networkId, 4, e3);
    ParseOfHashes(SummaryHashes(s), e4);
    ParseOfTail(s);
    SignedRoundTrip(s.timestamp);
  }

  lemma SummaryOfDecode(bytes: Bytes)
    requires DecodeSummary(bytes).Success?
    ensures ValidSummary(DecodeSummary(bytes).value) && SummaryEncoding(DecodeSummary(bytes).value) == bytes
  {
    PartsOfParse(bytes);
  }

  method EncodeSummary(s: StateSummary) returns (r: Result<Bytes, WireError>)
    ensures r == if ValidSummary(s) then Success(SummaryEncoding(s)) else Failure(OutOfBounds)
  {
    if !ValidSummary(s) {
      return Failure(OutOfBounds);
    }
    hide Be, HashBytes, ValidSummary, SummaryHashes;
    var out := SUMMARY_MAGIC;
    out := out + Be(SUMMARY_VERSION, 2);
    out := out + Be(s.networkId, 4);
    out := WriteHashes(out, SummaryHashes(s));
    ghost var head := out;
    out := out + Be(s.height, 8);
    out := out + Be(ToUnsigned(s.timestamp), 8);
    out := out + Be(s.snapshotLen, 8);
    ghost var timed := out;
    out := out + Be(s.chunkSize, 4);
    out := out + Be(s.chunkCount, 4);
    assert out == timed + (Be(s.chunkSize, 4) + Be(s.chunkCount, 4));
    RightNested(head, Be(s.height, 8), Be(ToUnsigned(s.timestamp), 8), Be(s.snapshotLen, 8),
                Be(s.chunkSize, 4) + Be(s.chunkCount, 4));
    assert out == head + SummaryTail(s);
    hide SummaryTail;
    RightNested(SUMMARY_MAGIC, Be(SUMMARY_VERSION, 2), Be(s.networkId, 4), HashBytes(SummaryHashes(s)), SummaryTail(s));
    return Success(out);
  }

  method ReadTail(reader: Reader) returns (r: Result<TailFields, WireError>)
    requires reader.Valid()
    modifies reader
    ensures r == ParseTail(old(reader.Rest()))
  {
    var height := reader.TakeInteger(8);
    if height.Failure? { return Failure(height.error); }
    var timestamp := reader.TakeInteger(8);
    if timestamp.Failure? { return Failure(timestamp.error); }
    var snapshotLen := reader.TakeInteger(8);
    if snapshotLen.Failure? { return Failure(snapshotLen.error); }
    var chunkSize := reader.TakeInteger(4);
    if chunkSize.Failure? { return Failure(chunkSize.error); }
    var chunkCount := reader.TakeInteger(4);
    if chunkCount.Failure? { return Failure(chunkCount.error); }
    if reader.Rest() != [] {
      return Failure(Trailing);
    }
    return Success(TailFields(height.value, timestamp.value, snapshotLen.value, chunkSize.value, chunkCount.value));
  }

  method ReadParts(bytes: Bytes) returns (r: Result<SummaryParts, WireError>)
    ensures r == ParseSummary(bytes)
  {
    if |bytes| != SUMMARY_BYTES {
      return Failure(OutOfBounds);
    }
    var reader := new Reader(bytes);
    var magic := reader.TakeBytes(8);
    if magic.Failure? { return Failure(magic.error); }
    if magic.value != SUMMARY_MAGIC {
      return Failure(Unsupported);
    }
    var version := reader.TakeInteger(2);
    if version.Failure? { return Failure(version.error); }
    if version.value != SUMMARY_VERSION {
      return Failure(Unsupported);
    }
    var networkId := reader.TakeInteger(4);
    if networkId.Failure? { return Failure(networkId.error); }
    var hashes := ReadHashes(reader, 7);
    if hashes.Failure? { return Failure(hashes.error); }
    var tail := ReadTail(reader);
    if tail.Failure? { return Failure(tail.error); }
    return Success(SummaryParts(networkId.value, hashes.value, tail.value));
  }

  /** Decoding checks canonicity by encoding again; that check never refuses anything. */
  method ReadSummary(bytes: Bytes) returns (r: Result<StateSummary, WireError>)
    ensures r == DecodeSummary(bytes)
  {
    var parts := ReadParts(bytes);
    if parts.Failure? { return Failure(parts.error); }
    PartsOfParse(bytes);
    var summary := Assembled(parts.value);
    if !ValidSummary(summary) {
      return Failure(OutOfBounds);
    }
    var again := EncodeSummary(summary);
    if again != Success(bytes) {
      assert false;
    }
    return Success(summary);
  }

  // ----- request -----------------------------------------------------------------------------

  datatype ChunkRequest = ChunkRequest(summary: StateSummary, index: U32)

  predicate ValidRequest(q: ChunkRequest) {
    ValidSummary(q.summary) && q.index < q.summary.chunkCount
  }

  function RequestEncoding(q: ChunkRequest): Bytes {
    REQUEST_MAGIC + (SummaryEncoding(q.summary) + Be(q.index, 4))
  }

  function DecodeRequest(bytes: Bytes): Result<ChunkRequest, WireError> {
    if |bytes| != 8 + SUMMARY_BYTES + 4 || bytes[..8] != REQUEST_MAGIC then Failure(Unsupported) else
    var summary :- DecodeSummary(bytes[8..8 + SUMMARY_BYTES]);
    Widths();
    var index := FromBe(bytes[8 + SUMMARY_BYTES..]);
    if index >= summary.chunkCount then Failure(OutOfBounds) else Success(ChunkRequest(summary, index))
  }

  lemma DecodeOfRequest(q: ChunkRequest)
    requires ValidRequest(q)
    ensures DecodeRequest(RequestEncoding(q)) == Success(q)
  {
    Widths();
    var bytes, body := RequestEncoding(q), SummaryEncoding(q.summary);
    assert bytes[..8] == REQUEST_MAGIC && bytes[8..8 + SUMMARY_BYTES] == body
        && bytes[8 + SUMMARY_BYTES..] == Be(q.index, 4);
    DecodeOfSummary(q.summary);
    FromBeOfBe(q.index, 4);
  }

  lemma RequestOfDecode(bytes: Bytes)
    requires DecodeRequest(bytes).Success?
    ensures ValidRequest(DecodeRequest(bytes).value) && RequestEncoding(DecodeRequest(bytes).value) == bytes
  {
    SummaryOfDecode(bytes[8..8 + SUMMARY_BYTES]);
    BeOfFromBe(bytes[8 + SUMMARY_BYTES..]);
    Split3(bytes, 8, 8 + SUMMARY_BYTES);
  }

  // ----- response ----------------------------------------------------------------------------

  datatype ChunkResponse = ChunkResponse(summaryId: Hash, index: U32, chunkCount: U32, proof: seq<Hash>, bytes: Bytes)

  predicate ValidResponse(p: ChunkResponse) {
    && p.summaryId != ZERO_HASH
    && p.index < p.chunkCount
    && |p.proof| <= MAX_MERKLE_DEPTH
    && 0 < |p.bytes| <= CHUNK_BYTES
  }

  function ResponseEncoding(p: ChunkResponse): Bytes {
    RESPONSE_MAGIC + (p.summaryId + (Be(p.index, 4) + (Be(p.chunkCount, 4) + (Be(|p.proof|, 2)
      + (HashBytes(p.proof) + (Be(|p.bytes|, 4) + p.bytes))))))
  }

  function DecodeResponse(bytes: Bytes): Result<ChunkResponse, WireError> {
    var (magic, r1) :- Take(bytes, 8);
    if magic != RESPONSE_MAGIC then Failure(Unsupported) else
    var (summaryId, r2) :- Take(r1, 32);
    var (index, r3) :- TakeNumber(r2, 4);
    var (chunkCount, r4) :- TakeNumber(r3, 4);
    var (proofLen, r5) :- TakeNumber(r4, 2);
    if proofLen > MAX_MERKLE_DEPTH then Failure(OutOfBounds) else
    var (proof, r6) :- ParseHashes(r5, proofLen);
    var (byteLen, r7) :- TakeNumber(r6, 4);
    if byteLen == 0 || byteLen > CHUNK_BYTES then Failure(OutOfBounds) else
    var (chunk, r8) :- Take(r7, byteLen);
    if r8 != [] then Failure(Trailing) else
    Widths();
    var response := ChunkResponse(summaryId, index, chunkCount, proof, chunk);
    if ValidResponse(response) then Success(response) else Failure(OutOfBounds)
  }

  lemma DecodeOfResponse(p: ChunkResponse)
    requires ValidResponse(p)
    ensures DecodeResponse(ResponseEncoding(p)) == Success(p)
  {
    Widths();
    var e7 := p.bytes;
    var e6 := Be(|p.bytes|, 4) + e7;
    var e5 := HashBytes(p.proof) + e6;
    var e4 := Be(|p.proof|, 2) + e5;
    var e3 := Be(p.chunkCount, 4) + e4;
    var e2 := Be(p.index, 4) + e3;
    TakeAppend(RESPONSE_MAGIC, p.summaryId + e2);
    TakeAppend(p.summaryId, e2);
    TakeNumberAppend(p.index, 4, e3);
    TakeNumberAppend(p.chunkCount, 4, e4);
    TakeNumberAppend(|p.proof|, 2, e5);
    ParseOfHashes(p.proof, e6);
    TakeNumberAppend(|p.bytes|, 4, e7);
    TakeAppend(e7, []);
    assert e7 + [] == e7;
  }

  lemma ResponseOfDecode(bytes: Bytes)
    requires DecodeResponse(bytes).Success?
    ensures ValidResponse(DecodeResponse(bytes).value) && ResponseEncoding(DecodeResponse(bytes).value) == bytes
  {
    TakeJoins(bytes, 8);
    var r1 := Take(bytes, 8).value.1;
    TakeJoins(r1, 32);
    var r2 := Take(r1, 32).value.1;
    TakeNumberJoins(r2, 4);
    var r3 := TakeNumber(r2, 4).value.1;
    TakeNumberJoins(r3, 4);
    var r4 := TakeNumber(r3, 4).value.1;
    TakeNumberJoins(r4, 2);
    var (proofLen, r5) := TakeNumber(r4, 2).value;
    HashesOfParse(r5, proofLen);
    var r6 := ParseHashes(r5, proofLen).value.1;
    TakeNumberJoins(r6, 4);
    var (byteLen, r7) := TakeNumber(r6, 4).value;
    TakeJoins(r7, byteLen);
    assert Take(r7, byteLen).value.0 + [] == Take(r7, byteLen).value.0;
  }

  method EncodeResponse(p: ChunkResponse) returns (r: Result<Bytes, WireError>)
    ensures r == if ValidResponse(p) then Success(ResponseEncoding(p)) else Failure(OutOfBounds)
  {
    if !ValidResponse(p) {
      return Failure(OutOfBounds);
    }
    hide Be, HashBytes, ValidResponse;
    var out := RESPONSE_MAGIC;
    out := out + p.summaryId;
    out := out + Be(p.index, 4);
    out := out + Be(p.chunkCount, 4);
    ghost var head := out;
    out := out + Be(|p.proof|, 2);
    out := WriteHashes(out, p.proof);
    out := out + Be(|p.bytes|, 4);
    out := out + p.bytes;
    RightNested(head, Be(|p.proof|, 2), HashBytes(p.proof), Be(|p.bytes|, 4), p.bytes);
    RightNested(RESPONSE_MAGIC, p.summaryId, Be(p.index, 4), Be(p.chunkCount, 4),
                Be(|p.proof|, 2) + (HashBytes(p.proof) + (Be(|p.bytes|, 4) + p.bytes)));
    return Success(out);
  }

  method ReadResponse(bytes: Bytes) returns (r: Result<ChunkResponse, WireError>)
    ensures r == DecodeResponse(bytes)
  {
    hide TakeNumber, ParseHashes, Pow256;
    var reader := new Reader(bytes);
    var magic := reader.TakeBytes(8);
    if magic.Failure? { return Failure(magic.error); }
    if magic.value != RESPONSE_MAGIC {
      return Failure(Unsupported);
    }
    var summaryId := reader.TakeBytes(32);
    if summaryId.Failure? { return Failure(summaryId.error); }
    var index := reader.TakeInteger(4);
    if index.Failure? { return Failure(index.error); }
    var chunkCount := reader.TakeInteger(4);
    if chunkCount.Failure? { return Failure(chunkCount.error); }
    var proofLen := reader.TakeInteger(2);
    if proofLen.Failure? { return Failure(proofLen.error); }
    if proofLen.value > MAX_MERKLE_DEPTH {
      return Failure(OutOfBounds);
    }
    var proof := ReadHashes(reader, proofLen.value);
    if proof.Failure? { return Failure(proof.error); }
    var byteLen := reader.TakeInteger(4);
    if byteLen.Failure? { return Failure(byteLen.error); }
    if byteLen.value == 0 || byteLen.value > CHUNK_BYTES {
      return Failure(OutOfBounds);
    }
    var chunk := reader.TakeBytes(byteLen.value);
    if chunk.Failure? { return Failure(chunk.error); }
    if reader.Rest() != [] {
      return Failure(Trailing);
    }
    Widths();
    var response := ChunkResponse(summaryId.value, index.value, chunkCount.value, proof.value, chunk.value);
    return if ValidResponse(response) then Success(response) else Failure(OutOfBounds);
  }
}
