/** The manifest that heads a persisted state, and its canonical byte form. */
module ManifestCodec {
  import opened Numbers
  import opened Results
  import opened Wire
  import opened HashList
  import opened Chunking

  const MANIFEST_MAGIC: Bytes := [81, 79, 77, 77, 80, 83, 77, 49]
  const MANIFEST_VERSION := 1
  const MANIFEST_HEADER_BYTES := 99
  const STATE_CHUNK_BYTES := 8_388_608
  const MAX_STATE_BYTES := 536_870_912
  const MAX_STATE_CHUNKS := 64
  const CANONICAL_STATE := 0
  const BLOB_REFERENCES := 1

  datatype Manifest = Manifest(encoding: nat, payloadLen: nat, payloadHash: Hash, stateLen: nat, stateHash: Hash,
                               chunkHashes: seq<Hash>)

  predicate ValidLength(n: nat) {
    0 < n <= MAX_STATE_BYTES
  }

  predicate ValidCount(payloadLen: nat, count: nat) {
    count == DivCeil(payloadLen, STATE_CHUNK_BYTES) && count <= MAX_STATE_CHUNKS
  }

  predicate ValidManifest(m: Manifest) {
    && (m.encoding == CANONICAL_STATE || m.encoding == BLOB_REFERENCES)
    && ValidLength(m.payloadLen) && ValidLength(m.stateLen)
    && ValidCount(m.payloadLen, |m.chunkHashes|)
  }

  function Tail(m: Manifest): Bytes
    requires ValidManifest(m)
  {
    Be(m.stateLen, 8) + (m.stateHash + (Be(|m.chunkHashes|, 4) + HashBytes(m.chunkHashes)))
  }

  function ManifestEncoding(m: Manifest): (b: Bytes)
    requires ValidManifest(m)
    ensures |b| == MANIFEST_HEADER_BYTES + 32 * |m.chunkHashes|
  {
    MANIFEST_MAGIC + (Be(MANIFEST_VERSION, 2) + (Be(m.encoding, 1) + (Be(STATE_CHUNK_BYTES, 4)
      + (Be(m.payloadLen, 8) + (m.payloadHash + Tail(m))))))
  }

  // ----- reading -----------------------------------------------------------------------------

  datatype Front = Front(encoding: nat, payloadLen: nat, payloadHash: Hash)

  function ParseFront(bytes: Bytes): Result<(Front, Bytes), WireError> {
    var (magic, r1) :- Take(bytes, 8);
    if magic != MANIFEST_MAGIC then Failure(Unsupported) else
    var (version, r2) :- TakeNumber(r1, 2);
    if version != MANIFEST_VERSION then Failure(Unsupported) else
    var (encoding, r3) :- TakeNumber(r2, 1);
    if encoding != CANONICAL_STATE && encoding != BLOB_REFERENCES then Failure(Unsupported) else
    var (chunkBytes, r4) :- TakeNumber(r3, 4);
    if chunkBytes != STATE_CHUNK_BYTES then Failure(Unsupported) else
    var (payloadLen, r5) :- TakeNumber(r4, 8);
    if !ValidLength(payloadLen) then Failure(OutOfBounds) else
    var (payloadHash, r6) :- Take(r5, 32);
    Success((Front(encoding, payloadLen, payloadHash), r6))
  }

  datatype Back = Back(stateLen: nat, stateHash: Hash, chunkHashes: seq<Hash>)

  function ParseBack(rest: Bytes, payloadLen: nat): Result<Back, WireError> {
    var (stateLen, r1) :- TakeNumber(rest, 8);
    if !ValidLength(stateLen) then Failure(OutOfBounds) else
    var (stateHash, r2) :- Take(r1, 32);
    var (count, r3) :- TakeNumber(r2, 4);
    if !ValidCount(payloadLen, count) then Failure(OutOfBounds) else
    if |r3| != 32 * count then Failure(Trailing) else
    var (hashes, _) :- ParseHashes(r3, count);
    Success(Back(stateLen, stateHash, hashes))
  }

  function DecodeManifest(bytes: Bytes): Result<Manifest, WireError> {
    if |bytes| < MANIFEST_HEADER_BYTES then Failure(Truncated) else
    var (front, rest) :- ParseFront(bytes);
    var back :- ParseBack(rest, front.payloadLen);
    Success(Manifest(front.encoding, front.payloadLen, front.payloadHash, back.stateLen, back.stateHash,
                     back.chunkHashes))
  }

  lemma FrontOfEncoding(m: Manifest)
    requires ValidManifest(m)
    ensures ParseFront(ManifestEncoding(m)) == Success((Front(m.encoding, m.payloadLen, m.payloadHash), Tail(m)))
  {
    hide Tail, HashBytes;
    Widths();
    var e6 := Tail(m);
    var e5 := m.payloadHash + e6;
    var e4 := Be(m.payloadLen, 8) + e5;
    var e3 := Be(STATE_CHUNK_BYTES, 4) + e4;
    var e2 := Be(m.encoding, 1) + e3;
    TakeAppend(MANIFEST_MAGIC, Be(MANIFEST_VERSION, 2) + e2);
    TakeNumberAppend(MANIFEST_VERSION, 2, e2);
    assert Pow256(1) == 256;
    TakeNumberAppend(m.encoding, 1, e3);
    TakeNumberAppend(STATE_CHUNK_BYTES, 4, e4);
    TakeNumberAppend(m.payloadLen, 8, e5);
    TakeAppend(m.payloadHash, e6);
  }

  lemma BackOfEncoding(m: Manifest)
    requires ValidManifest(m)
    ensures ParseBack(Tail(m), m.payloadLen) == Success(Back(m.stateLen, m.stateHash, m.chunkHashes))
  {
    Widths();
    var e3 := HashBytes(m.chunkHashes);
    var e2 := Be(|m.chunkHashes|, 4) + e3;
    TakeNumberAppend(m.stateLen, 8, m.stateHash + e2);
    TakeAppend(m.stateHash, e2);
    TakeNumberAppend(|m.chunkHashes|, 4, e3);
    ParseOfHashes(m.chunkHashes, []);
    assert e3 + [] == e3;
  }

  lemma DecodeOfManifest(m: Manifest)
    requires ValidManifest(m)
    ensures DecodeManifest(ManifestEncoding(m)) == Success(m)
  {
    hide ParseFront, ParseBack, Tail, ValidCount, ValidLength;
    FrontOfEncoding(m);
    BackOfEncoding(m);
  }

  lemma EncodingOfFront(bytes: Bytes)
    requires ParseFront(bytes).Success?
    ensures var (f, rest) := ParseFront(bytes).value;
      && (f.encoding == CANONICAL_STATE || f.encoding == BLOB_REFERENCES) && ValidLength(f.payloadLen)
      && MANIFEST_MAGIC + (Be(MANIFEST_VERSION, 2) + (Be(f.encoding, 1) + (Be(STATE_CHUNK_BYTES, 4)
           + (Be(f.payloadLen, 8) + (f.payloadHash + rest))))) == bytes
  {
    TakeJoins(bytes, 8);
    var r1 := Take(bytes, 8).value.1;
    TakeNumberJoins(r1, 2);
    var r2 := TakeNumber(r1, 2).value.1;
    TakeNumberJoins(r2, 1);
    var r3 := TakeNumber(r2, 1).value.1;
    TakeNumberJoins(r3, 4);
    var r4 := TakeNumber(r3, 4).value.1;
    TakeNumberJoins(r4, 8);
    var r5 := TakeNumber(r4, 8).value.1;
    TakeJoins(r5, 32);
  }

  lemma EncodingOfBack(rest: Bytes, payloadLen: nat)
    requires ParseBack(rest, payloadLen).Success?
    ensures var b := ParseBack(rest, payloadLen).value;
      && ValidLength(b.stateLen) && ValidCount(payloadLen, |b.chunkHashes|)
      && Be(b.stateLen, 8) + (b.stateHash + (Be(|b.chunkHashes|, 4) + HashBytes(b.chunkHashes))) == rest
  {
    TakeNumberJoins(rest, 8);
    var r1 := TakeNumber(rest, 8).value.1;
    TakeJoins(r1, 32);
    var r2 := Take(r1, 32).value.1;
    TakeNumberJoins(r2, 4);
    var (count, r3) := TakeNumber(r2, 4).value;
    HashesOfParse(r3, count);
    var (hashes, end) := ParseHashes(r3, count).value;
    assert end == [] && HashBytes(hashes) + end == HashBytes(hashes);
  }

  lemma ManifestOfDecode(bytes: Bytes)
    requires DecodeManifest(bytes).Success?
    ensures ValidManifest(DecodeManifest(bytes).value) && ManifestEncoding(DecodeManifest(bytes).value) == bytes
  {
    hide ParseFront, ParseBack, ValidCount, ValidLength;
    EncodingOfFront(bytes);
    var (front, rest) := ParseFront(bytes).value;
    EncodingOfBack(rest, front.payloadLen);
    assert Tail(DecodeManifest(bytes).value) == rest;
    hide Tail;
  }

  method EncodeManifest(m: Manifest) returns (r: Result<Bytes, WireError>)
    ensures r == if ValidManifest(m) then Success(ManifestEncoding(m)) else Failure(OutOfBounds)
  {
    hide ValidCount, ValidLength;
    if !ValidManifest(m) {
      return Failure(OutOfBounds);
    }
    hide Be;
    var out := MANIFEST_MAGIC + Be(MANIFEST_VERSION, 2) + Be(m.encoding, 1) + Be(STATE_CHUNK_BYTES, 4);
    out := out + Be(m.payloadLen, 8) + m.payloadHash;
    ghost var head := out;
    out := out + Be(m.stateLen, 8) + m.stateHash + Be(|m.chunkHashes|, 4);
    out := WriteHashes(out, m.chunkHashes);
    assert out == head + Tail(m) by {
      RightNested(head, Be(m.stateLen, 8), m.stateHash, Be(|m.chunkHashes|, 4), HashBytes(m.chunkHashes));
    }
    hide Tail, HashBytes;
    RightNested(MANIFEST_MAGIC, Be(MANIFEST_VERSION, 2), Be(m.encoding, 1), Be(STATE_CHUNK_BYTES, 4),
                Be(m.payloadLen, 8) + (m.payloadHash + Tail(m)));
    ghost var sized := MANIFEST_MAGIC + Be(MANIFEST_VERSION, 2) + Be(m.encoding, 1) + Be(STATE_CHUNK_BYTES, 4);
    assert out == sized + Be(m.payloadLen, 8) + m.payloadHash + Tail(m);
    assert out == sized + (Be(m.payloadLen, 8) + (m.payloadHash + Tail(m)));
    return Success(out);
  }

  method ReadFront(reader: Reader) returns (r: Result<Front, WireError>)
    requires reader.Valid()
    modifies reader
    ensures reader.Valid()
    ensures match ParseFront(old(reader.Rest()))
            case Success((front, rest)) => r == Success(front) && reader.Rest() == rest
            case Failure(error) => r == Failure(error)
  {
    hide TakeNumber, Pow256;
    var magic := reader.TakeBytes(8);
    if magic.Failure? { return Failure(magic.error); }
    if magic.value != MANIFEST_MAGIC {
      return Failure(Unsupported);
    }
    var version := reader.TakeInteger(2);
    if version.Failure? { return Failure(version.error); }
    if version.value != MANIFEST_VERSION {
      return Failure(Unsupported);
    }
    var encoding := reader.TakeInteger(1);
    if encoding.Failure? { return Failure(encoding.error); }
    if encoding.value != CANONICAL_STATE && encoding.value != BLOB_REFERENCES {
      return Failure(Unsupported);
    }
    var chunkBytes := reader.TakeInteger(4);
    if chunkBytes.Failure? { return Failure(chunkBytes.error); }
    if chunkBytes.value != STATE_CHUNK_BYTES {
      return Failure(Unsupported);
    }
    var payloadLen := reader.TakeInteger(8);
    if payloadLen.Failure? { return Failure(payloadLen.error); }
    if !ValidLength(payloadLen.value) {
      return Failure(OutOfBounds);
    }
    var payloadHash := reader.TakeBytes(32);
    if payloadHash.Failure? { return Failure(payloadHash.error); }
    return Success(Front(encoding.value, payloadLen.value, payloadHash.value));
  }

  method ReadBack(reader: Reader, payloadLen: nat) returns (r: Result<Back, WireError>)
    requires reader.Valid()
    modifies reader
    ensures r == ParseBack(old(reader.Rest()), payloadLen)
  {
    hide ValidCount;
    var stateLen := reader.TakeInteger(8);
    if stateLen.Failure? { return Failure(stateLen.error); }
    if !ValidLength(stateLen.value) {
      return Failure(OutOfBounds);
    }
    var stateHash := reader.TakeBytes(32);
    if stateHash.Failure? { return Failure(stateHash.error); }
    var count := reader.TakeInteger(4);
    if count.Failure? { return Failure(count.error); }
    if !ValidCount(payloadLen, count.value) {
      return Failure(OutOfBounds);
    }
    if |reader.Rest()| != 32 * count.value {
      return Failure(Trailing);
    }
    var hashes := ReadHashes(reader, count.value);
    if hashes.Failure? { return Failure(hashes.error); }
    return Success(Back(stateLen.value, stateHash.value, hashes.value));
  }

  /** Decoding checks canonicity by encoding again; that check never refuses anything. */
  method ReadManifest(bytes: Bytes) returns (r: Result<Manifest, WireError>)
    ensures r == DecodeManifest(bytes)
  {
    hide ParseFront, ParseBack;
    if |bytes| < MANIFEST_HEADER_BYTES {
      return Failure(Truncated);
    }
    var reader := new Reader(bytes);
    var front := ReadFront(reader);
    if front.Failure? { return Failure(front.error); }
    var back := ReadBack(reader, front.value.payloadLen);
    if back.Failure? { return Failure(back.error); }
    var manifest := Manifest(front.value.encoding, front.value.payloadLen, front.value.payloadHash,
                             back.value.stateLen, back.value.stateHash, back.value.chunkHashes);
    ManifestOfDecode(bytes);
    var again := EncodeManifest(manifest);
    if again != Success(bytes) {
      assert false;
    }
    return Success(manifest);
  }
}
