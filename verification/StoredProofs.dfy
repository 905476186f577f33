/** How many proof chunks the upload limits admit, against how many the store reads back. */
module StoredProofs {
  import opened Numbers
  import opened Results
  import opened Sums
  import opened Chunking
  import opened ResearchBooks
  import opened ResearchState
  import opened StateStore
  import opened Wire
  import StoreObject

  function Received(uploads: map<string, Upload>): map<string, seq<ResearchBooks.Chunk>> {
    map op | op in uploads :: uploads[op].chunks
  }

  lemma DivCeilBound(n: nat, size: nat)
    requires size > 0
    ensures size * DivCeil(n, size) <= n + size - 1
  {
  }

  /** Cutting several lengths loses less than one piece per length. */
  lemma {:induction false} CutTotal(counts: map<string, int>, lengths: map<string, int>)
    requires counts.Keys == lengths.Keys
    requires forall k | k in counts :: PROOF_CHUNK_BYTES * counts[k] <= lengths[k] + PROOF_CHUNK_BYTES - 1
    ensures PROOF_CHUNK_BYTES * Total(counts) <= Total(lengths) + |counts| * (PROOF_CHUNK_BYTES - 1)
    decreases |counts|
  {
    if counts == map[] {
      assert lengths == map[];
    } else {
      var k :| k in counts;
      var fewer, shorter := counts - {k}, lengths - {k};
      TotalRemove(counts, k);
      TotalRemove(lengths, k);
      assert fewer.Keys == counts.Keys - {k} && |fewer| == |counts| - 1;
      CutTotal(fewer, shorter);
    }
  }

  lemma CurrentCut(trial: Trial, policies: map<string, Policy>, books: map<BookKey, Book>,
                   receipts: map<string, Receipt>, op: string, u: Upload)
    requires Current(trial, policies, books, receipts, op, u)
    ensures PROOF_CHUNK_BYTES * |u.chunks| <= u.manifest.proofLen + PROOF_CHUNK_BYTES - 1
  {
    hide Authoritative;
    DivCeilBound(u.manifest.proofLen, PROOF_CHUNK_BYTES);
  }

  /** Uploads in good order hold at most 515 proof chunks between them. */
  lemma ReceivedBound(trial: Trial, policies: map<string, Policy>, books: map<BookKey, Book>,
                      uploads: map<string, Upload>, receipts: map<string, Receipt>)
    requires ValidUploads(trial, policies, books, uploads, receipts)
    ensures Total(Lengths(Received(uploads))) <= MAX_PROOF_CHUNKS + MAX_ACTIVE_UPLOADS - 1
  {
    var counts, lengths := Lengths(Received(uploads)), Reservations(uploads);
    assert |uploads| <= MAX_ACTIVE_UPLOADS && Total(lengths) <= MAX_PROOF_BYTES;
    assert counts.Keys == uploads.Keys && lengths.Keys == uploads.Keys;
    assert |counts| == |counts.Keys| == |uploads.Keys| == |uploads|;
    forall op | op in counts
      ensures PROOF_CHUNK_BYTES * counts[op] <= lengths[op] + PROOF_CHUNK_BYTES - 1
    {
      assert Current(trial, policies, books, receipts, op, uploads[op]);
      CurrentCut(trial, policies, books, receipts, op, uploads[op]);
    }
    hide *;
    CutTotal(counts, lengths);
  }

  // ----- the most chunks there can be --------------------------------------------------------

  const DEPLOYMENT := "d"
  const LEAST: U64 := 1
  const MOST: U64 := MAX_PROOF_BYTES - 3 * LEAST

  lemma Limits()
    ensures MAX_ACTIVE_UPLOADS == 4 <= MAX_BOOKS && 0 < MAX_POLICIES && MAX_PROOF_CHUNKS == 512
    ensures LEAST == 1 && 0 < MOST && MOST + 3 == MAX_PROOF_BYTES
  {
  }

  function RegisteredPolicy(): Policy {
    Policy(DEPLOYMENT, DEPLOYMENT_MODE, PROOF_PROTOCOL, None, 7, 2, MAX_PROOF_BYTES, PROOF_CHUNK_BYTES)
  }

  /** Names told apart by their length; one names a book and the operation that is uploading to it. */
  function Name(i: nat): string {
    seq(i, _ => 'a')
  }

  function HexOf(digit: char): string {
    seq(128, _ => digit)
  }

  function GenesisOf(i: nat): Genesis {
    Genesis(DEPLOYMENT, Name(i), [Handle("1", "p"), Handle("2", "p"), Handle("3", "q"), Handle("4", "q")], HexOf('0'))
  }

  function StatementOf(i: nat): Statement {
    Statement(DEPLOYMENT, Name(i), Name(i), 1, HexOf('0'), HexOf('1'), false)
  }

  function ProofOf(length: nat): Bytes {
    seq(length, _ => 0)
  }

  function ManifestOf(trial: Trial, i: nat, length: U64): Manifest
    requires 0 < length <= MAX_PROOF_BYTES
  {
    CountBounds(length);
    Manifest(DEPLOYMENT_MODE, StatementOf(i), length, trial.sha(ProofOf(length)), PROOF_CHUNK_BYTES,
             DivCeil(length, PROOF_CHUNK_BYTES))
  }

  lemma CountBounds(length: nat)
    requires 0 < length <= MAX_PROOF_BYTES
    ensures 0 < DivCeil(length, PROOF_CHUNK_BYTES) <= MAX_PROOF_CHUNKS
  {
    DivCeilPositive(length, PROOF_CHUNK_BYTES);
    DivCeilBound(length, PROOF_CHUNK_BYTES);
  }

  lemma GenesisValid(i: nat)
    requires 0 < i <= 128
    ensures ValidGenesis(GenesisOf(i)) && GenesisOf(i).deploymentId == DEPLOYMENT
  {
    assert |Name(i)| == i;
  }

  lemma ManifestFits(trial: Trial, i: nat, length: U64)
    requires Proper(trial) && trial.validStatement(StatementOf(i)) && 0 < length <= MAX_PROOF_BYTES
    ensures var m, proof := ManifestOf(trial, i, length), ProofOf(length);
      && ValidManifest(trial, m)
      && |proof| == m.proofLen == length && trial.sha(proof) == m.proofSha && m.statement == StatementOf(i)
      && m.statement.operationId == m.statement.bookId && |m.statement.bookId| == i && m.mode == DEPLOYMENT_MODE
      && m.chunkCount == DivCeil(length, PROOF_CHUNK_BYTES)
  {
    CountBounds(length);
    hide DivCeil, ValidHex;
  }

  /** One policy, and so many books with short names. */
  ghost predicate BooksFiled(policies: map<string, Policy>, books: map<BookKey, Book>, count: nat) {
    && policies == map[DEPLOYMENT := RegisteredPolicy()]
    && |books| == count && forall k | k in books :: |k.1| <= count
  }

  /**
   So many whole uploads, each to the book of its own name, with so many bytes reserved and so many
   chunks received.
   */
  ghost predicate UploadsFiled(uploads: map<string, Upload>, count: nat, reserved: nat, received: nat) {
    && |uploads| == count
    && (forall op | op in uploads :: |op| <= count && uploads[op].manifest.statement.bookId == op && Whole(uploads[op]))
    && Total(Reservations(uploads)) == reserved && Total(Lengths(Received(uploads))) == received
  }

  ghost predicate Whole(u: Upload) {
    |u.chunks| == u.manifest.chunkCount
  }

  lemma OnePolicy(policies: map<string, Policy>, books: map<BookKey, Book>, count: nat)
    requires BooksFiled(policies, books, count)
    ensures DEPLOYMENT in policies && policies[DEPLOYMENT] == RegisteredPolicy() && |books| == count
  {
  }

  lemma BooksMore(policies: map<string, Policy>, books: map<BookKey, Book>, count: nat, book: Book)
    requires BooksFiled(policies, books, count)
    ensures GenesisOf(count + 1).Key() !in books
    ensures BooksFiled(policies, books[GenesisOf(count + 1).Key() := book], count + 1)
  {
    var key := GenesisOf(count + 1).Key();
    assert |key.1| == |Name(count + 1)| == count + 1;
    hide Name, RegisteredPolicy;
    assert books[key := book].Keys == books.Keys + {key};
  }

  lemma UploadsMore(uploads: map<string, Upload>, count: nat, reserved: nat, received: nat, op: string, u: Upload)
    requires UploadsFiled(uploads, count, reserved, received)
    requires op == u.manifest.statement.bookId && |op| == count + 1 && Whole(u)
    ensures UploadsFiled(uploads[op := u], count + 1, reserved + u.manifest.proofLen, received + |u.chunks|)
  {
    hide Total, Reservations, Received, Lengths, Whole;
    assert op !in uploads;
    Joined(uploads, op, u);
  }

  /** The book just opened allows exactly its own first statement. */
  lemma FirstStatement(policies: map<string, Policy>, books: map<BookKey, Book>, i: nat, m: Manifest)
    requires DEPLOYMENT in policies && policies[DEPLOYMENT] == RegisteredPolicy()
    requires m.statement == StatementOf(i) && m.mode == DEPLOYMENT_MODE
    ensures Authoritative(policies, books[GenesisOf(i).Key() := Opening(GenesisOf(i))], m) == Success(m.statement)
  {
    hide Name, HexOf;
  }

  lemma NoClash(uploads: map<string, Upload>, count: nat, reserved: nat, received: nat, statement: Statement)
    requires UploadsFiled(uploads, count, reserved, received) && |statement.bookId| == count + 1
    ensures statement.bookId !in uploads && |uploads| == count && Total(Reservations(uploads)) == reserved
    ensures forall op | op in uploads :: uploads[op].manifest.statement.Key() != statement.Key()
  {
    hide Total, Reservations, Received, Lengths, Whole;
  }

  lemma NextAdmissible(trial: Trial, policies: map<string, Policy>, books: map<BookKey, Book>,
                       uploads: map<string, Upload>, count: nat, reserved: nat, received: nat, m: Manifest)
    requires UploadsFiled(uploads, count, reserved, received) && count < MAX_ACTIVE_UPLOADS
    requires ValidManifest(trial, m) && m.statement == StatementOf(count + 1)
    requires m.proofLen + reserved <= MAX_PROOF_BYTES
    requires Authoritative(policies, books, m) == Success(m.statement)
    ensures Admissible(trial, policies, books, uploads, map[], m)
  {
    assert m.statement.operationId == m.statement.bookId && |m.statement.bookId| == count + 1;
    hide *;
    NoClash(uploads, count, reserved, received, m.statement);
    assert Admissible(trial, policies, books, uploads, map[], m) by {
      AdmissibleParts(trial, policies, books, uploads, m);
    }
  }

  lemma AdmissibleParts(trial: Trial, policies: map<string, Policy>, books: map<BookKey, Book>,
                        uploads: map<string, Upload>, m: Manifest)
    requires ValidManifest(trial, m) && |uploads| < MAX_ACTIVE_UPLOADS && m.statement.operationId !in uploads
    requires m.proofLen + Total(Reservations(uploads)) <= MAX_PROOF_BYTES
    requires forall op | op in uploads :: uploads[op].manifest.statement.Key() != m.statement.Key()
    requires Authoritative(policies, books, m) == Success(m.statement)
    ensures Admissible(trial, policies, books, uploads, map[], m)
  {
    hide ValidManifest, Authoritative, Total, Reservations;
  }

  /** Open one more book. */
  method OpenOne(state: ResearchCoCodeState, count: nat)
    requires state.Valid() && BooksFiled(state.policies, state.books, count) && count < MAX_ACTIVE_UPLOADS
    modifies state`books, state`chains
    ensures state.Valid() && BooksFiled(state.policies, state.books, count + 1)
    ensures state.books == old(state.books)[GenesisOf(count + 1).Key() := Opening(GenesisOf(count + 1))]
  {
    hide *;
    Limits();
    var genesis := GenesisOf(count + 1);
    GenesisValid(count + 1);
    OnePolicy(state.policies, state.books, count);
    BooksMore(state.policies, state.books, count, Opening(genesis));
    var inserted := state.InsertBook(genesis);
  }

  /** Open one more book and upload one more proof to it. */
  method FileOne(state: ResearchCoCodeState, count: nat, length: U64, ghost reserved: nat, ghost received: nat)
    requires state.Valid() && state.trial.validStatement(StatementOf(count + 1)) && state.receipts == map[]
    requires BooksFiled(state.policies, state.books, count) && UploadsFiled(state.uploads, count, reserved, received)
    requires count < MAX_ACTIVE_UPLOADS && 0 < length && reserved + length <= MAX_PROOF_BYTES
    modifies state
    ensures state.Valid() && state.receipts == map[]
    ensures BooksFiled(state.policies, state.books, count + 1)
    ensures UploadsFiled(state.uploads, count + 1, reserved + length, received + DivCeil(length, PROOF_CHUNK_BYTES))
  {
    hide *;
    var m, proof := ManifestOf(state.trial, count + 1, length), ProofOf(length);
    ghost var books, uploads, op := state.books, state.uploads, m.statement.operationId;
    TrialProper(state);
    ManifestFits(state.trial, count + 1, length);
    OnePolicy(state.policies, books, count);
    OpenOne(state, count);
    FirstStatement(state.policies, books, count + 1, m);
    NextAdmissible(state.trial, state.policies, state.books, uploads, count, reserved, received, m);
    var taken := state.UploadWhole(m, proof);
    WholeUpload(uploads, state.uploads, op, state.trial, proof);
    UploadsMore(uploads, count, reserved, received, op, state.uploads[op]);
  }

  lemma TrialProper(state: ResearchCoCodeState)
    requires state.Valid()
    ensures Proper(state.trial)
  {
    hide Proper, ValidPolicies, ValidBooks, ValidUploads, ValidReceipts, Chains, AllBacked;
  }

  lemma WholeUpload(before: map<string, Upload>, after: map<string, Upload>, op: string, trial: Trial, proof: Bytes)
    requires op in after && after - {op} == before && Assembled(trial, after[op]) == Success(proof)
    ensures after == before[op := after[op]] && Whole(after[op])
    ensures |after[op].chunks| == after[op].manifest.chunkCount
  {
    assert forall k | k in after && k != op :: k in after - {op};
    hide ValidUpload;
  }

  /**
   The limits on uploads admit more chunks than the store reads back: from the empty state, by its own
   operations, four whole uploads of 1, 1, 1 and all the other bytes are cut into 515 chunks.
   */
  method BudgetOverflowsReader(trial: Trial) returns (state: ResearchCoCodeState)
    requires Proper(trial) && forall i | 1 <= i <= MAX_ACTIVE_UPLOADS :: trial.validStatement(StatementOf(i))
    ensures fresh(state) && state.Valid() && state.trial == trial
    ensures |state.uploads| == MAX_ACTIVE_UPLOADS && Total(Reservations(state.uploads)) == MAX_PROOF_BYTES
    ensures forall op | op in state.uploads :: |state.uploads[op].chunks| == state.uploads[op].manifest.chunkCount
    ensures Total(Lengths(Received(state.uploads))) == MAX_PROOF_CHUNKS + MAX_ACTIVE_UPLOADS - 1
  {
    hide *;
    Limits();
    CutCounts();
    state := new ResearchCoCodeState(trial);
    RegisteredValid();
    var registered := state.InsertPolicy(RegisteredPolicy());
    NothingFiled(state.policies, state.books, state.uploads);
    for count := 0 to 3
      invariant fresh(state) && state.Valid() && state.trial == trial && state.receipts == map[]
      invariant BooksFiled(state.policies, state.books, count) && UploadsFiled(state.uploads, count, count, count)
    {
      FileOne(state, count, LEAST, count, count);
    }
    FileOne(state, 3, MOST, 3, 3);
    FiledTotals(state.uploads, 4, MAX_PROOF_BYTES, 515);
  }

  lemma CutCounts()
    ensures DivCeil(LEAST, PROOF_CHUNK_BYTES) == 1 && DivCeil(MOST, PROOF_CHUNK_BYTES) == 512
  {
    DivCeilOne(LEAST, PROOF_CHUNK_BYTES);
    DivUnique(MOST + PROOF_CHUNK_BYTES - 1, PROOF_CHUNK_BYTES, 512, PROOF_CHUNK_BYTES - 4);
  }

  lemma RegisteredValid()
    ensures ValidPolicy(RegisteredPolicy()) && RegisteredPolicy().deploymentId == DEPLOYMENT
  {
  }

  lemma NothingFiled(policies: map<string, Policy>, books: map<BookKey, Book>, uploads: map<string, Upload>)
    requires policies == map[][DEPLOYMENT := RegisteredPolicy()] && books == map[] && uploads == map[]
    ensures BooksFiled(policies, books, 0) && UploadsFiled(uploads, 0, 0, 0)
  {
    NothingReceived(uploads);
    hide Total, Reservations, Received, Lengths, RegisteredPolicy, Whole;
  }

  lemma FiledTotals(uploads: map<string, Upload>, count: nat, reserved: nat, received: nat)
    requires UploadsFiled(uploads, count, reserved, received)
    ensures |uploads| == count && Total(Reservations(uploads)) == reserved
      && Total(Lengths(Received(uploads))) == received
    ensures forall op | op in uploads :: |uploads[op].chunks| == uploads[op].manifest.chunkCount
  {
    hide Total, Reservations, Received, Lengths;
  }

  // ----- what the store makes of them --------------------------------------------------------

  /** The proof chunks of a research state in good order are what the store keeps. */
  lemma ReceivedSound<B>(d: Digests, trial: Trial, policies: map<string, Policy>, books: map<BookKey, Book>,
                         uploads: map<string, Upload>, receipts: map<string, Receipt>, body: B)
    requires ValidUploads(trial, policies, books, uploads, receipts) && d.blob == trial.sha
    ensures SoundChunks(d, State(body, Received(uploads)))
  {
    forall op, i | op in uploads && 0 <= i < |uploads[op].chunks|
      ensures SoundChunk(d, uploads[op].chunks[i])
    {
      var u := uploads[op];
      assert ValidUpload(trial, u) by {
        assert Current(trial, policies, books, receipts, op, u);
      }
      ExpectedBounds(u.manifest.proofLen, PROOF_CHUNK_BYTES, i);
    }
  }

  lemma ExpectedBounds(n: nat, size: nat, index: nat)
    requires size > 0 && index < DivCeil(n, size)
    ensures 0 < ExpectedLength(n, size, index) <= size
  {
    var s := ProofOf(n);
    ChunkCount(s, size);
    ChunkAt(s, size, index);
  }

  /**
   A state with the proof chunks of a research state in good order is staged whenever it fits a
   manifest and the database completes its writes, and its head then loads exactly when the
   uploads hold at most 512 chunks between them.
   */
  method StageAndLoad<B(!new)>(store: StoreObject.Store<B>, research: ResearchCoCodeState, body: B)
      returns (head: Result<Bytes, StoreError>, loaded: Result<State<B>, StoreError>)
    requires store.Valid() && research.Valid() && store.d.blob == research.trial.sha
    requires var s := State(body, Received(research.uploads));
      && Stageable(store.d, store.codec, s)
      && Distinguishes(store.d, store.db.Values + StoreObject.Pieces(store.codec, s))
      && store.writes >= ChunkTotal(s) + |PayloadPieces(store.codec, s)|
    modifies store
    ensures store.Valid() && head.Success?
    ensures (head.value, State(body, Received(research.uploads))) in store.heads
    ensures loaded.Success? <==> Total(Lengths(Received(research.uploads))) <= MAX_PROOF_CHUNKS
  {
    hide Good, Lawful, Addressed, Distinguishes, Stageable, HeadOf, StoreObject.Pieces, PayloadPieces, SoundChunks;
    ResearchSound(store.d, research, body);
    var s := State(body, Received(research.uploads));
    head := store.Stage(s, None);
    loaded := store.Load(head.value);
  }

  lemma ResearchSound<B>(d: Digests, research: ResearchCoCodeState, body: B)
    requires research.Valid() && d.blob == research.trial.sha
    ensures SoundChunks(d, State(body, Received(research.uploads)))
  {
    assert ValidUploads(research.trial, research.policies, research.books, research.uploads, research.receipts) by {
      hide Proper, ValidPolicies, ValidBooks, ValidUploads, ValidReceipts, Chains, AllBacked;
    }
    hide Good, SoundChunks, ValidUploads;
    ReceivedSound(d, research.trial, research.policies, research.books, research.uploads, research.receipts, body);
  }

  lemma NothingReceived(uploads: map<string, Upload>)
    requires uploads == map[]
    ensures Total(Reservations(uploads)) == 0 && Total(Lengths(Received(uploads))) == 0
  {
    assert Reservations(uploads) == map[] && Lengths(Received(uploads)) == map[];
  }

  lemma Joined(uploads: map<string, Upload>, op: string, u: Upload)
    requires op !in uploads
    ensures |uploads[op := u]| == |uploads| + 1
    ensures Total(Reservations(uploads[op := u])) == Total(Reservations(uploads)) + u.manifest.proofLen
    ensures Total(Lengths(Received(uploads[op := u]))) == Total(Lengths(Received(uploads))) + |u.chunks|
  {
    hide Total;
    OneMoreUpload(uploads, op, u);
    ReservationsAdd(uploads, op, u);
    ReceivedAdd(uploads, op, u);
    hide *;
    TotalUpdate(Lengths(Received(uploads)), op, |u.chunks|);
  }

  lemma ReceivedAdd(uploads: map<string, Upload>, op: string, u: Upload)
    requires op !in uploads
    ensures op !in Lengths(Received(uploads))
    ensures Lengths(Received(uploads[op := u])) == Lengths(Received(uploads))[op := |u.chunks|]
  {
  }
}
