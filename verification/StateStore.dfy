/**
 Persisted ledger states as immutable, content-addressed pieces. A head is a small manifest; the
 payload behind it is cut into chunks, and proof-upload bytes are kept beside it as blobs.
 */
module StateStore {
  import opened Numbers
  import opened Results
  import opened Sums
  import opened Wire
  import opened Chunking
  import opened ManifestCodec
  import R = ResearchBooks

  datatype StoreError = Unavailable | Corrupt

  datatype Digests = Digests(chunk: Bytes -> Hash, payload: Bytes -> Hash, state: Bytes -> Hash, blob: Bytes -> string)

  datatype Key = StateChunk(hash: Hash) | ProofBlob(sha: string)

  type Db = map<Key, Bytes>

  /** A ledger state: everything else, and the proof chunks received for each operation. */
  datatype State<B> = State(body: B, uploads: map<string, seq<R.Chunk>>)

  datatype Slot = Embedded(sha: string, bytes: Bytes) | Referenced(sha: string, digest: string, length: nat)

  /** A state as written to its payload, each proof chunk embedded or replaced by a reference. */
  datatype Projection<B> = Projection(body: B, uploads: map<string, seq<Slot>>)

  datatype Codec<!B> = Codec(
    encodeState: State<B> -> Result<Bytes, StoreError>,
    decodeState: Bytes -> Result<State<B>, StoreError>,
    encodeProjection: Projection<B> -> Bytes,
    decodeProjection: Bytes -> Result<Projection<B>, StoreError>)

  /** Encodings are read back as what was encoded. */
  ghost predicate Lawful<B(!new)>(codec: Codec<B>) {
    && (forall s: State<B> :: codec.encodeState(s).Success? ==>
          codec.decodeState(codec.encodeState(s).value) == Success(s))
    && (forall p: Projection<B> :: codec.decodeProjection(codec.encodeProjection(p)) == Success(p))
  }

  /** The digests do not collide on these contents. */
  ghost predicate Distinguishes(d: Digests, contents: set<Bytes>) {
    && (forall x, y | x in contents && y in contents && d.chunk(x) == d.chunk(y) :: x == y)
    && (forall x, y | x in contents && y in contents && d.blob(x) == d.blob(y) :: x == y)
  }

  /** Every entry sits under the digest of its content. */
  ghost predicate Addressed(d: Digests, db: Db) {
    forall k | k in db :: if k.StateChunk? then d.chunk(db[k]) == k.hash else d.blob(db[k]) == k.sha
  }

  ghost predicate Grows(before: Db, after: Db) {
    forall k | k in before :: k in after && after[k] == before[k]
  }

  // ----- what a state is stored as -----------------------------------------------------------

  predicate SoundChunk(d: Digests, c: R.Chunk) {
    0 < |c.bytes| <= R.PROOF_CHUNK_BYTES && c.sha == d.blob(c.bytes)
  }

  ghost predicate SoundChunks<B>(d: Digests, s: State<B>) {
    forall op, i | op in s.uploads && 0 <= i < |s.uploads[op]| :: SoundChunk(d, s.uploads[op][i])
  }

  function Lengths<T>(lists: map<string, seq<T>>): map<string, int> {
    map op | op in lists :: |lists[op]|
  }

  ghost function ChunkTotal<B>(s: State<B>): int {
    Total(Lengths(s.uploads))
  }

  function ReferenceTo(c: R.Chunk): Slot {
    Referenced(c.sha, c.sha, |c.bytes|)
  }

  function References(chunks: seq<R.Chunk>): seq<Slot> {
    seq(|chunks|, i requires 0 <= i < |chunks| => ReferenceTo(chunks[i]))
  }

  function Projected<B>(s: State<B>): Projection<B> {
    Projection(s.body, map op | op in s.uploads :: References(s.uploads[op]))
  }

  ghost function Payload<B>(codec: Codec<B>, s: State<B>, canonical: Bytes): Bytes {
    if ChunkTotal(s) == 0 then canonical else codec.encodeProjection(Projected(s))
  }

  function PieceHashes(d: Digests, pieces: seq<Bytes>): seq<Hash> {
    seq<Hash>(|pieces|, i requires 0 <= i < |pieces| => d.chunk(pieces[i]))
  }

  ghost function ManifestFor<B>(d: Digests, codec: Codec<B>, s: State<B>, canonical: Bytes): Manifest {
    var payload := Payload(codec, s, canonical);
    Manifest(if ChunkTotal(s) == 0 then CANONICAL_STATE else BLOB_REFERENCES,
             |payload|, d.payload(payload), |canonical|, d.state(canonical),
             PieceHashes(d, Chunks(payload, STATE_CHUNK_BYTES)))
  }

  /** The state has a canonical form, and that form and its payload fit. */
  ghost predicate Stageable<B>(d: Digests, codec: Codec<B>, s: State<B>) {
    var canonical := codec.encodeState(s);
    && canonical.Success?
    && ValidManifest(ManifestFor(d, codec, s, canonical.value))
  }

  ghost function HeadOf<B>(d: Digests, codec: Codec<B>, s: State<B>): Bytes
    requires Stageable(d, codec, s)
  {
    ManifestEncoding(ManifestFor(d, codec, s, codec.encodeState(s).value))
  }

  ghost function PayloadPieces<B>(codec: Codec<B>, s: State<B>): seq<Bytes> {
    var canonical := codec.encodeState(s);
    if canonical.Failure? then [] else Chunks(Payload(codec, s, canonical.value), STATE_CHUNK_BYTES)
  }

  ghost predicate PieceHeld(d: Digests, db: Db, piece: Bytes) {
    StateChunk(d.chunk(piece)) in db && db[StateChunk(d.chunk(piece))] == piece
  }

  ghost predicate PiecesHeld(d: Digests, db: Db, pieces: seq<Bytes>) {
    forall i | 0 <= i < |pieces| :: PieceHeld(d, db, pieces[i])
  }

  ghost predicate BlobHeld(db: Db, c: R.Chunk) {
    ProofBlob(c.sha) in db && db[ProofBlob(c.sha)] == c.bytes
  }

  ghost predicate BlobsHeld<B>(db: Db, s: State<B>) {
    forall op, i | op in s.uploads && 0 <= i < |s.uploads[op]| :: BlobHeld(db, s.uploads[op][i])
  }

  /** The head is this state's, and everything it points at is in the database. */
  ghost predicate Stored<B>(d: Digests, codec: Codec<B>, db: Db, head: Bytes, s: State<B>) {
    && SoundChunks(d, s) && Stageable(d, codec, s) && head == HeadOf(d, codec, s)
    && PiecesHeld(d, db, PayloadPieces(codec, s))
    && BlobsHeld(db, s)
  }

  lemma StoredGrows<B>(d: Digests, codec: Codec<B>, before: Db, after: Db, head: Bytes, s: State<B>)
    requires Stored(d, codec, before, head, s) && Grows(before, after)
    ensures Stored(d, codec, after, head, s)
  {
    hide Stageable, PayloadPieces, HeadOf, SoundChunks;
    forall op, i | op in s.uploads && 0 <= i < |s.uploads[op]|
      ensures BlobHeld(after, s.uploads[op][i])
    {
      assert BlobHeld(before, s.uploads[op][i]);
    }
    var pieces := PayloadPieces(codec, s);
    forall i | 0 <= i < |pieces|
      ensures PieceHeld(d, after, pieces[i])
    {
      assert PieceHeld(d, before, pieces[i]);
    }
  }

  /** Whether a state has any proof chunk is visible in its chunk count. */
  lemma NoChunks<B>(s: State<B>)
    ensures ChunkTotal(s) >= 0
    ensures ChunkTotal(s) == 0 <==> forall op | op in s.uploads :: s.uploads[op] == []
  {
    TotalNonnegative(Lengths(s.uploads));
    if ChunkTotal(s) == 0 {
      forall op | op in s.uploads
        ensures s.uploads[op] == []
      {
        TotalRemove(Lengths(s.uploads), op);
        TotalNonnegative(Lengths(s.uploads) - {op});
      }
    } else if forall op | op in s.uploads :: s.uploads[op] == [] {
      TotalZero(Lengths(s.uploads));
    }
  }

  // ----- reading back ------------------------------------------------------------------------

  function Entry(db: Db, hash: Hash): Bytes {
    if StateChunk(hash) in db then db[StateChunk(hash)] else []
  }

  ghost predicate PieceReadable(d: Digests, db: Db, m: Manifest, i: nat)
    requires i < |m.chunkHashes|
  {
    && StateChunk(m.chunkHashes[i]) in db
    && |Entry(db, m.chunkHashes[i])| == ExpectedLength(m.payloadLen, STATE_CHUNK_BYTES, i)
    && d.chunk(Entry(db, m.chunkHashes[i])) == m.chunkHashes[i]
  }

  ghost predicate Readable(d: Digests, db: Db, m: Manifest) {
    forall i | 0 <= i < |m.chunkHashes| :: PieceReadable(d, db, m, i)
  }

  ghost function Found(db: Db, hashes: seq<Hash>): seq<Bytes> {
    seq(|hashes|, i requires 0 <= i < |hashes| => Entry(db, hashes[i]))
  }

  method LoadPayload(d: Digests, db: Db, m: Manifest) returns (r: Result<Bytes, StoreError>)
    ensures r.Success? ==> Readable(d, db, m) && r.value == Concat(Found(db, m.chunkHashes))
    ensures r.Success? <==>
      && Readable(d, db, m)
      && var payload := Concat(Found(db, m.chunkHashes));
         |payload| == m.payloadLen && d.payload(payload) == m.payloadHash
  {
    hide ExpectedLength;
    var payload: Bytes := [];
    for i := 0 to |m.chunkHashes|
      invariant forall j | 0 <= j < i :: PieceReadable(d, db, m, j)
      invariant payload == Concat(Found(db, m.chunkHashes[..i]))
    {
      var key := StateChunk(m.chunkHashes[i]);
      if key !in db || |db[key]| != ExpectedLength(m.payloadLen, STATE_CHUNK_BYTES, i)
         || d.chunk(db[key]) != m.chunkHashes[i] {
        assert !PieceReadable(d, db, m, i);
        return Failure(Unavailable);
      }
      assert PieceReadable(d, db, m, i);
      payload := payload + db[key];
      assert Found(db, m.chunkHashes[..i + 1]) == Found(db, m.chunkHashes[..i]) + [db[key]];
      ConcatAppend(Found(db, m.chunkHashes[..i]), db[key]);
    }
    assert m.chunkHashes[..|m.chunkHashes|] == m.chunkHashes;
    if |payload| != m.payloadLen || d.payload(payload) != m.payloadHash {
      return Failure(Corrupt);
    }
    return Success(payload);
  }

  lemma PiecesFound(d: Digests, db: Db, m: Manifest, pieces: seq<Bytes>)
    requires WellCut(pieces, m.payloadLen, STATE_CHUNK_BYTES) && PiecesHeld(d, db, pieces)
    requires m.chunkHashes == PieceHashes(d, pieces)
    ensures Readable(d, db, m) && Found(db, m.chunkHashes) == pieces
  {
    hide ExpectedLength;
    forall i | 0 <= i < |m.chunkHashes|
      ensures PieceReadable(d, db, m, i) && Entry(db, m.chunkHashes[i]) == pieces[i]
    {
      assert PieceHeld(d, db, pieces[i]);
    }
  }

  /** The pieces of a stored payload are read back whole. */
  lemma PiecesReadable(d: Digests, db: Db, m: Manifest, payload: Bytes)
    requires PiecesHeld(d, db, Chunks(payload, STATE_CHUNK_BYTES))
    requires m.payloadLen == |payload| && m.chunkHashes == PieceHashes(d, Chunks(payload, STATE_CHUNK_BYTES))
    ensures Readable(d, db, m) && Concat(Found(db, m.chunkHashes)) == payload
  {
    hide Readable, Found, WellCut, PiecesHeld, PieceHashes, Chunks, Concat;
    ChunksWellCut(payload, STATE_CHUNK_BYTES);
    ConcatChunks(payload, STATE_CHUNK_BYTES);
    PiecesFound(d, db, m, Chunks(payload, STATE_CHUNK_BYTES));
  }

  // ----- proof blobs -------------------------------------------------------------------------

  predicate Canonical(slot: Slot) {
    slot.Referenced? && slot.digest == slot.sha && 0 < slot.length <= R.PROOF_CHUNK_BYTES
  }

  ghost predicate AllCanonical<B>(p: Projection<B>) {
    forall op, i | op in p.uploads && 0 <= i < |p.uploads[op]| :: Canonical(p.uploads[op][i])
  }

  datatype Descriptor = Descriptor(operation: string, index: nat, sha: string, length: nat)

  ghost predicate Describes<B>(p: Projection<B>, b: Descriptor) {
    && b.operation in p.uploads && b.index < |p.uploads[b.operation]|
    && var slot := p.uploads[b.operation][b.index];
       slot.Referenced? && slot.sha == b.sha && slot.length == b.length
  }

  ghost predicate Described(list: seq<Descriptor>, operation: string, index: nat) {
    exists j :: 0 <= j < |list| && list[j].operation == operation && list[j].index == index
  }

  ghost function SlotTotal<B>(p: Projection<B>): int {
    Total(Lengths(p.uploads))
  }

  /** Every slot becomes one descriptor, unless a slot is not a canonical reference or there are too many. */
  method Describe<B>(p: Projection<B>) returns (r: Result<seq<Descriptor>, StoreError>)
    ensures r.Success? <==> AllCanonical(p) && SlotTotal(p) <= R.MAX_PROOF_CHUNKS
    ensures r.Success? ==>
      && |r.value| == SlotTotal(p)
      && (forall j | 0 <= j < |r.value| :: Describes(p, r.value[j]))
      && (forall op, i | op in p.uploads && 0 <= i < |p.uploads[op]| :: Described(r.value, op, i))
  {
    var list: seq<Descriptor> := [];
    var todo := p.uploads.Keys;
    ghost var rest := Lengths(p.uploads);
    while todo != {}
      invariant todo <= p.uploads.Keys && rest.Keys == todo
      invariant forall op | op in todo :: rest[op] == |p.uploads[op]|
      invariant |list| + Total(rest) == SlotTotal(p) && |list| <= R.MAX_PROOF_CHUNKS
      invariant forall op, i | op in p.uploads && op !in todo && 0 <= i < |p.uploads[op]| ::
        Canonical(p.uploads[op][i]) && Described(list, op, i)
      invariant forall j | 0 <= j < |list| :: Describes(p, list[j])
      decreases todo
    {
      var op :| op in todo;
      var more := DescribeOne(p, op, list);
      TotalRemove(rest, op);
      TotalNonnegative(rest - {op});
      if more.Failure? {
        return Failure(Corrupt);
      }
      StillDescribed(p, list, more.value);
      list := more.value;
      todo, rest := todo - {op}, rest - {op};
    }
    assert rest == map[];
    return Success(list);
  }

  lemma StillDescribed<B>(p: Projection<B>, list: seq<Descriptor>, longer: seq<Descriptor>)
    requires list <= longer
    ensures forall op, i: nat | Described(list, op, i) :: Described(longer, op, i)
  {
    forall op, i: nat | Described(list, op, i)
      ensures Described(longer, op, i)
    {
      var j :| 0 <= j < |list| && list[j].operation == op && list[j].index == i;
      assert longer[j] == list[j];
    }
  }

  method DescribeOne<B>(p: Projection<B>, op: string, list: seq<Descriptor>)
      returns (r: Result<seq<Descriptor>, StoreError>)
    requires op in p.uploads && |list| <= R.MAX_PROOF_CHUNKS
    requires forall j | 0 <= j < |list| :: Describes(p, list[j])
    ensures r.Failure? ==> |list| + |p.uploads[op]| > R.MAX_PROOF_CHUNKS || !AllCanonical(p)
    ensures r.Success? ==>
      && list <= r.value && |r.value| == |list| + |p.uploads[op]| <= R.MAX_PROOF_CHUNKS
      && (forall j | 0 <= j < |r.value| :: Describes(p, r.value[j]))
      && (forall i | 0 <= i < |p.uploads[op]| :: Canonical(p.uploads[op][i]) && Described(r.value, op, i))
  {
    var slots, out := p.uploads[op], list;
    for i := 0 to |slots|
      invariant list <= out && |out| == |list| + i <= R.MAX_PROOF_CHUNKS
      invariant forall j | 0 <= j < |out| :: Describes(p, out[j])
      invariant forall k | 0 <= k < i :: Canonical(slots[k]) && Described(out, op, k)
    {
      if !Canonical(slots[i]) {
        return Failure(Corrupt);
      }
      var longer := out + [Descriptor(op, i, slots[i].sha, slots[i].length)];
      StillDescribed(p, out, longer);
      assert longer[|out|].operation == op;
      out := longer;
      if |out| > R.MAX_PROOF_CHUNKS {
        return Failure(Corrupt);
      }
    }
    return Success(out);
  }

  function Blob(db: Db, sha: string): Bytes {
    if ProofBlob(sha) in db then db[ProofBlob(sha)] else []
  }

  /** A blob is there under its digest. */
  predicate Fetchable(d: Digests, db: Db, sha: string) {
    ProofBlob(sha) in db && d.blob(Blob(db, sha)) == sha
  }

  method FetchBlobs(d: Digests, db: Db, list: seq<Descriptor>) returns (r: Result<map<string, Bytes>, StoreError>)
    ensures r.Success? ==>
      && (forall j | 0 <= j < |list| :: list[j].sha in r.value)
      && (forall sha | sha in r.value :: Fetchable(d, db, sha) && r.value[sha] == Blob(db, sha))
    ensures r.Failure? ==> exists j | 0 <= j < |list| ::
      !Fetchable(d, db, list[j].sha) || |Blob(db, list[j].sha)| != list[j].length
  {
    var blobs: map<string, Bytes> := map[];
    for k := 0 to |list|
      invariant forall j | 0 <= j < k :: Fetchable(d, db, list[j].sha) && list[j].sha in blobs
      invariant forall sha | sha in blobs :: Fetchable(d, db, sha) && blobs[sha] == Blob(db, sha)
    {
      if list[k].sha in blobs {
        continue;
      }
      if !Fetchable(d, db, list[k].sha) || |Blob(db, list[k].sha)| != list[k].length {
        return Failure(Unavailable);
      }
      blobs := blobs[list[k].sha := Blob(db, list[k].sha)];
    }
    return Success(blobs);
  }

  ghost predicate SameShape<B>(p: Projection<B>, q: Projection<B>) {
    && p.body == q.body && p.uploads.Keys == q.uploads.Keys
    && forall op | op in p.uploads :: |q.uploads[op]| == |p.uploads[op]|
  }

  /** Put the bytes of every described slot back in place. */
  method Fill<B>(p: Projection<B>, list: seq<Descriptor>, blobs: map<string, Bytes>) returns (q: Projection<B>)
    requires forall j | 0 <= j < |list| :: Describes(p, list[j]) && list[j].sha in blobs
    requires forall op, i | op in p.uploads && 0 <= i < |p.uploads[op]| :: Described(list, op, i)
    ensures SameShape(p, q)
    ensures forall op, i | op in p.uploads && 0 <= i < |p.uploads[op]| ::
      p.uploads[op][i].sha in blobs && q.uploads[op][i] == Embedded(p.uploads[op][i].sha, blobs[p.uploads[op][i].sha])
  {
    q := p;
    for k := 0 to |list|
      invariant SameShape(p, q)
      invariant forall op, i | op in p.uploads && 0 <= i < |p.uploads[op]| ::
        q.uploads[op][i].sha == p.uploads[op][i].sha
      invariant forall j | 0 <= j < k ::
        q.uploads[list[j].operation][list[j].index] == Embedded(list[j].sha, blobs[list[j].sha])
    {
      var b := list[k];
      assert Describes(p, b);
      var slots := q.uploads[b.operation][b.index := Embedded(b.sha, blobs[b.sha])];
      q := q.(uploads := q.uploads[b.operation := slots]);
    }
    forall op, i | op in p.uploads && 0 <= i < |p.uploads[op]|
      ensures p.uploads[op][i].sha in blobs
      ensures q.uploads[op][i] == Embedded(p.uploads[op][i].sha, blobs[p.uploads[op][i].sha])
    {
      assert Described(list, op, i);
      var j :| 0 <= j < |list| && list[j].operation == op && list[j].index == i;
      assert Describes(p, list[j]);
    }
  }

  function ToChunk(slot: Slot): R.Chunk {
    R.Chunk(if slot.Embedded? then slot.bytes else [], slot.sha)
  }

  function ToChunks(slots: seq<Slot>): seq<R.Chunk> {
    seq(|slots|, i requires 0 <= i < |slots| => ToChunk(slots[i]))
  }

  /** Read a projection as a state: every slot must hold sound bytes. */
  function Typed<B>(d: Digests, q: Projection<B>): Result<State<B>, StoreError> {
    if forall op, i | op in q.uploads && 0 <= i < |q.uploads[op]| ::
         q.uploads[op][i].Embedded? && SoundChunk(d, ToChunk(q.uploads[op][i]))
    then Success(State(q.body, map op | op in q.uploads :: ToChunks(q.uploads[op])))
    else Failure(Corrupt)
  }

  function FilledChunks(db: Db, slots: seq<Slot>): seq<R.Chunk> {
    seq(|slots|, i requires 0 <= i < |slots| => R.Chunk(Blob(db, slots[i].sha), slots[i].sha))
  }

  function Filled<B>(db: Db, p: Projection<B>): State<B> {
    State(p.body, map op | op in p.uploads :: FilledChunks(db, p.uploads[op]))
  }

  ghost predicate AllFetchable<B>(d: Digests, db: Db, p: Projection<B>) {
    forall op, i | op in p.uploads && 0 <= i < |p.uploads[op]| ::
      var slot := p.uploads[op][i];
      Canonical(slot) && Fetchable(d, db, slot.sha) && |Blob(db, slot.sha)| == slot.length
  }

  ghost predicate Rehydratable<B>(d: Digests, db: Db, p: Projection<B>) {
    AllFetchable(d, db, p) && 0 < SlotTotal(p) <= R.MAX_PROOF_CHUNKS
  }

  method Rehydrate<B>(d: Digests, codec: Codec<B>, db: Db, payload: Bytes) returns (r: Result<State<B>, StoreError>)
    ensures var p := codec.decodeProjection(payload);
      && (r.Success? ==>
            p.Success? && AllCanonical(p.value) && 0 < SlotTotal(p.value) <= R.MAX_PROOF_CHUNKS
                && r.value == Filled(db, p.value))
      && (p.Success? && Rehydratable(d, db, p.value) ==> r.Success?)
  {
    hide Canonical, Blob, Lengths;
    var decoded := codec.decodeProjection(payload);
    if decoded.Failure? {
      return Failure(decoded.error);
    }
    var p := decoded.value;
    var list := Describe(p);
    if list.Failure? {
      return Failure(list.error);
    }
    if list.value == [] {
      return Failure(Corrupt);
    }
    var blobs := FetchBlobs(d, db, list.value);
    if blobs.Failure? {
      assert !AllFetchable(d, db, p);
      return Failure(blobs.error);
    }
    hide Typed, Filled, Fetchable;
    var q := Fill(p, list.value, blobs.value);
    r := Typed(d, q);
    FillTyped(d, db, p, list.value, blobs.value, q);
  }

  lemma FillTyped<B>(d: Digests, db: Db, p: Projection<B>, list: seq<Descriptor>, blobs: map<string, Bytes>,
                     q: Projection<B>)
    requires SameShape(p, q)
    requires forall sha | sha in blobs :: blobs[sha] == Blob(db, sha)
    requires forall op, i | op in p.uploads && 0 <= i < |p.uploads[op]| ::
      p.uploads[op][i].sha in blobs && q.uploads[op][i] == Embedded(p.uploads[op][i].sha, blobs[p.uploads[op][i].sha])
    ensures Typed(d, q).Success? ==> Typed(d, q).value == Filled(db, p)
    ensures AllFetchable(d, db, p) ==> Typed(d, q).Success?
  {
    forall op | op in p.uploads
      ensures ToChunks(q.uploads[op]) == FilledChunks(db, p.uploads[op])
    {
    }
  }
}
