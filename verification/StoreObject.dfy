/** The store over its lifetime: states are staged, some stagings break off, and every head ever returned is kept. */
module StoreObject {
  import opened Numbers
  import opened Results
  import opened Sums
  import opened Wire
  import opened Chunking
  import opened ManifestCodec
  import opened StateStore
  import R = ResearchBooks

  ghost function BlobBytes<B>(s: State<B>): set<Bytes> {
    set op, i | op in s.uploads && 0 <= i < |s.uploads[op]| :: s.uploads[op][i].bytes
  }

  /** Everything staging a state may write. */
  ghost function Pieces<B>(codec: Codec<B>, s: State<B>): set<Bytes> {
    BlobBytes(s) + set piece | piece in PayloadPieces(codec, s)
  }

  /** Everything these stagings may write. */
  ghost function AllPieces<B>(codec: Codec<B>, jobs: seq<(State<B>, nat)>): set<Bytes> {
    set j, piece | 0 <= j < |jobs| && piece in Pieces(codec, jobs[j].0) :: piece
  }

  lemma PiecesAmong<B>(codec: Codec<B>, jobs: seq<(State<B>, nat)>, j: nat)
    requires j < |jobs|
    ensures Pieces(codec, jobs[j].0) <= AllPieces(codec, jobs)
  {
    hide Pieces;
  }

  lemma DistinguishesFewer(d: Digests, contents: set<Bytes>, fewer: set<Bytes>)
    requires Distinguishes(d, contents) && fewer <= contents
    ensures Distinguishes(d, fewer)
  {
  }

  ghost predicate Within(db: Db, contents: set<Bytes>) {
    forall k | k in db :: db[k] in contents
  }

  // ----- what a stored state reads back as ---------------------------------------------------

  lemma ProjectionFilled<B>(d: Digests, db: Db, s: State<B>)
    requires SoundChunks(d, s) && BlobsHeld(db, s)
    ensures AllFetchable(d, db, Projected(s)) && SlotTotal(Projected(s)) == ChunkTotal(s)
    ensures Filled(db, Projected(s)) == s
  {
    var p := Projected(s);
    forall op, i | op in s.uploads && 0 <= i < |s.uploads[op]|
      ensures p.uploads[op][i] == ReferenceTo(s.uploads[op][i])
      ensures SoundChunk(d, s.uploads[op][i]) && Blob(db, s.uploads[op][i].sha) == s.uploads[op][i].bytes
      ensures Fetchable(d, db, s.uploads[op][i].sha)
    {
      assert BlobHeld(db, s.uploads[op][i]);
    }
    assert Lengths(p.uploads) == Lengths(s.uploads);
    forall op | op in s.uploads
      ensures FilledChunks(db, p.uploads[op]) == s.uploads[op]
    {
    }
    assert Filled(db, p).uploads == s.uploads;
  }

  /** Everything the loader meets on the way from a stored head back to its state. */
  lemma StoredReads<B(!new)>(d: Digests, codec: Codec<B>, db: Db, head: Bytes, s: State<B>)
    requires Lawful(codec) && Stored(d, codec, db, head, s)
    ensures MANIFEST_MAGIC <= head
    ensures var canonical := codec.encodeState(s).value;
      var payload, m := Payload(codec, s, canonical), ManifestFor(d, codec, s, canonical);
      && DecodeManifest(head) == Success(m)
      && Readable(d, db, m) && Concat(Found(db, m.chunkHashes)) == payload
      && m.payloadLen == |payload| && m.payloadHash == d.payload(payload)
      && m.stateLen == |canonical| && m.stateHash == d.state(canonical)
      && m.encoding == (if ChunkTotal(s) == 0 then CANONICAL_STATE else BLOB_REFERENCES)
      && (ChunkTotal(s) == 0 ==> codec.decodeState(payload) == Success(s))
      && (ChunkTotal(s) != 0 ==> codec.decodeProjection(payload) == Success(Projected(s)))
  {
    var canonical := codec.encodeState(s).value;
    var payload, m := Payload(codec, s, canonical), ManifestFor(d, codec, s, canonical);
    assert head == ManifestEncoding(m);
    assert MANIFEST_MAGIC <= head;
    hide ManifestEncoding, ValidManifest, ChunkTotal, SoundChunks, BlobsHeld, Chunks, Concat;
    DecodeOfManifest(m);
    PiecesReadable(d, db, m, payload);
  }

  // ----- the object --------------------------------------------------------------------------

  class Store<!B(!new)> {
    const d: Digests
    const codec: Codec<B>
    var db: Db

    /** How many more writes the database completes before it fails. */
    var writes: nat

    /** Every head ever returned, with the state it was returned for. */
    ghost var heads: set<(Bytes, State<B>)>

    ghost predicate Valid()
      reads this
    {
      && Lawful(codec)
      && Addressed(d, db)
      && forall h, s | (h, s) in heads :: Stored(d, codec, db, h, s)
    }

    constructor (d: Digests, codec: Codec<B>, writes: nat)
      requires Lawful(codec)
      ensures Valid() && heads == {} && db == map[] && this.d == d && this.codec == codec
    {
      this.d, this.codec, this.writes := d, codec, writes;
      db, heads := map[], {};
    }

    /** A fresh process over the same database. */
    method Restart(writes: nat)
      requires Valid()
      modifies this`writes
      ensures Valid() && this.writes == writes
    {
      this.writes := writes;
    }

    /** Write once: an entry that is already there is left alone. */
    method PutImmutable(key: Key, bytes: Bytes, ghost contents: set<Bytes>) returns (ok: bool)
      requires Addressed(d, db) && Distinguishes(d, contents) && Within(db, contents) && bytes in contents
      requires if key.StateChunk? then key.hash == d.chunk(bytes) else key.sha == d.blob(bytes)
      modifies this`db, this`writes
      ensures Grows(old(db), db) && Addressed(d, db) && Within(db, contents)
      ensures ok ==> key in db && db[key] == bytes
      ensures !ok ==> writes == 0 && db == old(db)
      ensures writes <= old(writes) <= writes + 1 && (!ok ==> old(writes) == 0)
    {
      if key !in db {
        if writes == 0 {
          return false;
        }
        db, writes := db[key := bytes], writes - 1;
      }
      return true;
    }

    method StageChunks(pieces: seq<Bytes>, ghost contents: set<Bytes>) returns (ok: bool)
      requires Addressed(d, db) && Distinguishes(d, contents) && Within(db, contents)
      requires forall i | 0 <= i < |pieces| :: pieces[i] in contents
      modifies this`db, this`writes
      ensures Grows(old(db), db) && Addressed(d, db) && Within(db, contents)
      ensures ok ==> PiecesHeld(d, db, pieces)
      ensures !ok ==> writes == 0 && old(writes) < |pieces|
    {
      hide Addressed, Distinguishes, Within;
      for i := 0 to |pieces|
        invariant Grows(old(db), db) && Addressed(d, db) && Within(db, contents)
        invariant forall j | 0 <= j < i :: PieceHeld(d, db, pieces[j])
        invariant old(writes) <= writes + i
      {
        ok := PutImmutable(StateChunk(d.chunk(pieces[i])), pieces[i], contents);
        if !ok {
          return;
        }
      }
      ok := true;
    }

    /** Write the proof chunks of one operation, leaving out those the previous head already holds. */
    method StageUpload(chunks: seq<R.Chunk>, inherited: set<string>, ghost contents: set<Bytes>) returns (ok: bool)
      requires Addressed(d, db) && Distinguishes(d, contents) && Within(db, contents)
      requires forall i | 0 <= i < |chunks| :: SoundChunk(d, chunks[i]) && chunks[i].bytes in contents
      requires forall sha | sha in inherited :: ProofBlob(sha) in db
      modifies this`db, this`writes
      ensures Grows(old(db), db) && Addressed(d, db) && Within(db, contents)
      ensures ok ==> forall i | 0 <= i < |chunks| :: BlobHeld(db, chunks[i])
      ensures !ok ==> writes == 0 && old(writes) < |chunks|
      ensures old(writes) <= writes + |chunks|
    {
      for i := 0 to |chunks|
        invariant Grows(old(db), db) && Addressed(d, db) && Within(db, contents)
        invariant forall j | 0 <= j < i :: BlobHeld(db, chunks[j])
        invariant old(writes) <= writes + i
      {
        if chunks[i].sha !in inherited {
          ok := PutImmutable(ProofBlob(chunks[i].sha), chunks[i].bytes, contents);
          if !ok {
            return;
          }
        } else {
          assert d.blob(db[ProofBlob(chunks[i].sha)]) == d.blob(chunks[i].bytes);
        }
      }
      ok := true;
    }

    method StageBlobs(s: State<B>, inherited: set<string>, ghost contents: set<Bytes>) returns (ok: bool)
      requires Addressed(d, db) && Distinguishes(d, contents) && Within(db, contents)
      requires SoundChunks(d, s) && BlobBytes(s) <= contents
      requires forall sha | sha in inherited :: ProofBlob(sha) in db
      modifies this`db, this`writes
      ensures Grows(old(db), db) && Addressed(d, db) && Within(db, contents)
      ensures ok ==> BlobsHeld(db, s)
      ensures !ok ==> writes == 0 && old(writes) < ChunkTotal(s)
      ensures old(writes) <= writes + ChunkTotal(s)
    {
      hide Addressed, Distinguishes, Within;
      var todo := s.uploads.Keys;
      ghost var rest := Lengths(s.uploads);
      while todo != {}
        invariant Grows(old(db), db) && Addressed(d, db) && Within(db, contents)
        invariant todo <= s.uploads.Keys && rest.Keys == todo
        invariant forall op | op in todo :: rest[op] == |s.uploads[op]|
        invariant old(writes) + Total(rest) <= writes + ChunkTotal(s)
        invariant forall op, i | op in s.uploads && op !in todo && 0 <= i < |s.uploads[op]| ::
          BlobHeld(db, s.uploads[op][i])
        decreases todo
      {
        var op :| op in todo;
        TotalRemove(rest, op);
        TotalNonnegative(rest - {op});
        ok := StageUpload(s.uploads[op], inherited, contents);
        if !ok {
          return;
        }
        todo, rest := todo - {op}, rest - {op};
      }
      assert rest == map[];
      ok := true;
    }

    /** The proof chunks that the previous head already holds. */
    method Inherited(previous: Option<(State<B>, Bytes)>) returns (r: Result<set<string>, StoreError>)
      requires Valid() && (previous.Some? ==> (previous.value.1, previous.value.0) in heads)
      ensures r.Success? && forall sha | sha in r.value :: ProofBlob(sha) in db
    {
      if previous.None? {
        return Success({});
      }
      var (before, head) := previous.value;
      assert Stored(d, codec, db, head, before);
      StoredReads(d, codec, db, head, before);
      hide Addressed, Lawful, Readable, Stageable, HeadOf, SoundChunks, DecodeManifest;
      if MANIFEST_MAGIC <= head {
        var manifest := ReadManifest(head);
        if manifest.Failure? {
          assert false;
        }
        if manifest.value.encoding == BLOB_REFERENCES {
          return Success(Shas(before));
        }
      }
      return Success({});
    }

    /**
     Stage a state: blobs first, then payload chunks, then the head. Breaking off anywhere leaves
     every earlier head as it was.
     */
    method Stage(s: State<B>, previous: Option<(State<B>, Bytes)>) returns (r: Result<Bytes, StoreError>)
      requires Valid() && SoundChunks(d, s)
      requires previous.Some? ==> (previous.value.1, previous.value.0) in heads
      requires Distinguishes(d, db.Values + Pieces(codec, s))
      modifies this`db, this`writes, this`heads
      ensures Valid() && Grows(old(db), db) && db.Values <= old(db.Values) + Pieces(codec, s)
      ensures r.Success? ==>
        Stageable(d, codec, s) && r.value == HeadOf(d, codec, s) && heads == old(heads) + {(r.value, s)}
      ensures r.Failure? ==> heads == old(heads) && (writes == 0 || !Stageable(d, codec, s))
      ensures Stageable(d, codec, s) && old(writes) >= ChunkTotal(s) + |PayloadPieces(codec, s)| ==> r.Success?
    {
      hide Lawful, Addressed, Distinguishes, SoundChunks, ValidManifest, ManifestEncoding, BlobBytes, Chunks;
      ghost var contents := db.Values + Pieces(codec, s);
      var canonical := codec.encodeState(s);
      if canonical.Failure? {
        return Failure(canonical.error);
      }
      NoChunks(s);
      var encoding, payload := CANONICAL_STATE, canonical.value;
      var ok := true;
      if HasChunks(s) {
        var inherited := Inherited(previous);
        ok := StageBlobs(s, inherited.value, contents);
        encoding, payload := BLOB_REFERENCES, codec.encodeProjection(Projected(s));
      }
      assert payload == Payload(codec, s, canonical.value);
      HeadsKept(old(db));
      if !ok {
        return Failure(Unavailable);
      }
      var pieces := Chunks(payload, STATE_CHUNK_BYTES);
      var manifest := Manifest(encoding, |payload|, d.payload(payload), |canonical.value|, d.state(canonical.value),
                               PieceHashes(d, pieces));
      assert manifest == ManifestFor(d, codec, s, canonical.value);
      if !ValidManifest(manifest) {
        return Failure(Corrupt);
      }
      ok := StageChunks(pieces, contents);
      HeadsKept(old(db));
      if !ok {
        return Failure(Unavailable);
      }
      var head := EncodeManifest(manifest);
      if head.Failure? {
        assert false;
      }
      heads := heads + {(head.value, s)};
      return Success(head.value);
    }

    /**
     Any number of stagings, each in a fresh process whose database breaks off after so many writes:
     every head there was and every head returned on the way is kept, each with its own state.
     */
    method StageAll(jobs: seq<(State<B>, nat)>) returns (staged: seq<Result<Bytes, StoreError>>)
      requires Valid() && forall j | 0 <= j < |jobs| :: SoundChunks(d, jobs[j].0)
      requires Distinguishes(d, db.Values + AllPieces(codec, jobs))
      modifies this`db, this`writes, this`heads
      ensures Valid() && old(heads) <= heads && |staged| == |jobs|
      ensures forall j | 0 <= j < |jobs| && staged[j].Success? :: (staged[j].value, jobs[j].0) in heads
      ensures forall j | 0 <= j < |jobs| && staged[j].Failure? && Stageable(d, codec, jobs[j].0) ::
        jobs[j].1 < ChunkTotal(jobs[j].0) + |PayloadPieces(codec, jobs[j].0)|
    {
      hide Lawful, Addressed, Distinguishes, SoundChunks, Pieces, Stageable, HeadOf, PayloadPieces, Stored;
      staged := [];
      var previous: Option<(State<B>, Bytes)> := None;
      ghost var contents := db.Values + AllPieces(codec, jobs);
      for i := 0 to |jobs|
        invariant Valid() && old(heads) <= heads && |staged| == i
        invariant db.Values <= contents
        invariant previous.Some? ==> (previous.value.1, previous.value.0) in heads
        invariant forall j | 0 <= j < i && staged[j].Success? :: (staged[j].value, jobs[j].0) in heads
        invariant forall j | 0 <= j < i && staged[j].Failure? && Stageable(d, codec, jobs[j].0) ::
          jobs[j].1 < ChunkTotal(jobs[j].0) + |PayloadPieces(codec, jobs[j].0)|
      {
        var (state, writes) := jobs[i];
        PiecesAmong(codec, jobs, i);
        DistinguishesFewer(d, contents, db.Values + Pieces(codec, state));
        Restart(writes);
        var r := Stage(state, previous);
        if r.Success? {
          previous := Some((state, r.value));
        }
        staged := staged + [r];
      }
    }

    twostate lemma HeadsKept(before: Db)
      requires old(Valid()) && before == old(db) && Grows(before, db) && heads == old(heads)
      ensures forall h, s | (h, s) in heads :: Stored(d, codec, db, h, s)
    {
      forall h, s | (h, s) in heads
        ensures Stored(d, codec, db, h, s)
      {
        StoredGrows(d, codec, before, db, h, s);
      }
    }

    /**
     Load a head. A head that was ever returned loads to exactly its own state, provided that
     state holds no more proof chunks than the reader accepts; beyond that it does not load.
     */
    method Load(head: Bytes) returns (r: Result<State<B>, StoreError>)
      requires Valid()
      ensures forall s | (head, s) in heads :: r.Success? <==> ChunkTotal(s) <= R.MAX_PROOF_CHUNKS
      ensures forall s | (head, s) in heads && r.Success? :: r.value == s
      ensures !(MANIFEST_MAGIC <= head) ==>
        r == if ValidLength(|head|) then codec.decodeState(head) else Failure(Corrupt)
      ensures r.Success? && MANIFEST_MAGIC <= head ==>
        && DecodeManifest(head).Success? && codec.encodeState(r.value).Success?
        && |codec.encodeState(r.value).value| == DecodeManifest(head).value.stateLen
        && d.state(codec.encodeState(r.value).value) == DecodeManifest(head).value.stateHash
    {
      ghost var expected: Option<State<B>> := None;
      if s: State<B> :| (head, s) in heads {
        expected := Some(s);
      }
      r := LoadFrom(d, codec, db, head, expected);
      forall s | (head, s) in heads
        ensures expected == Some(s)
      {
        StoredUnique(d, codec, db, head, s, expected.value);
      }
    }
  }

  /** One database holds at most one state behind a head. */
  lemma StoredUnique<B(!new)>(d: Digests, codec: Codec<B>, db: Db, head: Bytes, s: State<B>, t: State<B>)
    requires Lawful(codec) && Stored(d, codec, db, head, s) && Stored(d, codec, db, head, t)
    ensures s == t
  {
    StoredReads(d, codec, db, head, s);
    StoredReads(d, codec, db, head, t);
    ProjectionFilled(d, db, s);
    ProjectionFilled(d, db, t);
    hide Stored, Lawful, Readable, AllFetchable, Filled, Projected, DecodeManifest;
  }

  method LoadFrom<B(!new)>(d: Digests, codec: Codec<B>, db: Db, head: Bytes, ghost expected: Option<State<B>>)
      returns (r: Result<State<B>, StoreError>)
    requires Lawful(codec) && (expected.Some? ==> Stored(d, codec, db, head, expected.value))
    ensures expected.Some? ==>
      && (r.Success? <==> ChunkTotal(expected.value) <= R.MAX_PROOF_CHUNKS)
      && (r.Success? ==> r.value == expected.value)
    ensures r.Success? && MANIFEST_MAGIC <= head ==>
      && DecodeManifest(head).Success? && codec.encodeState(r.value).Success?
      && |codec.encodeState(r.value).value| == DecodeManifest(head).value.stateLen
      && d.state(codec.encodeState(r.value).value) == DecodeManifest(head).value.stateHash
    ensures !(MANIFEST_MAGIC <= head) ==>
      r == if ValidLength(|head|) then codec.decodeState(head) else Failure(Corrupt)
  {
    if expected.Some? {
      StoredReads(d, codec, db, head, expected.value);
      ProjectionFilled(d, db, expected.value);
      NoChunks(expected.value);
      assert codec.encodeState(expected.value).Success?;
    }
    hide Lawful, Stored, DecodeManifest, Readable, Found, AllFetchable, AllCanonical, SlotTotal, ChunkTotal, Filled,
      ManifestFor, Payload;
    if !(MANIFEST_MAGIC <= head) {
      return if ValidLength(|head|) then codec.decodeState(head) else Failure(Corrupt);
    }
    var manifest := ReadManifest(head);
    if manifest.Failure? {
      return Failure(Corrupt);
    }
    var payload := LoadPayload(d, db, manifest.value);
    if payload.Failure? {
      return Failure(payload.error);
    }
    var state: Result<State<B>, StoreError>;
    if manifest.value.encoding == CANONICAL_STATE {
      state := codec.decodeState(payload.value);
    } else {
      state := Rehydrate(d, codec, db, payload.value);
    }
    if state.Failure? {
      return state;
    }
    var canonical := codec.encodeState(state.value);
    if canonical.Failure? {
      return Failure(canonical.error);
    }
    if manifest.value.stateLen != |canonical.value| || d.state(canonical.value) != manifest.value.stateHash {
      return Failure(Corrupt);
    }
    return state;
  }

  predicate HasChunks<B>(s: State<B>) {
    exists op | op in s.uploads :: s.uploads[op] != []
  }

  function Shas<B>(s: State<B>): set<string> {
    set op, i | op in s.uploads && 0 <= i < |s.uploads[op]| :: s.uploads[op][i].sha
  }
}
