/** The research state as an object: registered policies and books, active uploads and receipts. */
module ResearchState {
  import opened Numbers
  import opened Results
  import opened Sums
  import opened Wire
  import opened Chunking
  import opened ResearchBooks

  // ----- what the stored-state check accepts -------------------------------------------------

  predicate ValidPolicies(policies: map<string, Policy>) {
    |policies| <= MAX_POLICIES && forall k | k in policies :: ValidPolicy(policies[k]) && k == policies[k].deploymentId
  }

  predicate ValidBook(policies: map<string, Policy>, key: BookKey, book: Book) {
    && ValidGenesis(book.genesis) && ValidHex(book.commitment)
    && key == (book.genesis.deploymentId, book.genesis.bookId)
    && book.genesis.deploymentId in policies
    && (book.sequence == 0 ==>
          book.commitment == book.genesis.initialCommitment && book.lastOperation.None? && book.lastProof.None?)
    && (book.sequence > 0 ==>
          && book.lastOperation.Some? && ValidId(book.lastOperation.value)
          && book.lastProof.Some? && ValidHex(book.lastProof.value))
  }

  predicate ValidBooks(policies: map<string, Policy>, books: map<BookKey, Book>) {
    |books| <= MAX_BOOKS && forall k | k in books :: ValidBook(policies, k, books[k])
  }

  /** The statement that the stored policy and book allow for this manifest. */
  function Authoritative(policies: map<string, Policy>, books: map<BookKey, Book>,
                         m: Manifest): Result<Statement, ResearchError>
  {
    var supplied := m.statement;
    :- Need(supplied.deploymentId in policies, Unknown);
    var policy := policies[supplied.deploymentId];
    :- Need(policy.mode == m.mode, Invalid);
    :- Need(supplied.Key() in books, Unknown);
    var book := books[supplied.Key()];
    :- Need(book.sequence < U64_MAX, Full);
    Success(Statement(policy.deploymentId, book.genesis.bookId, supplied.operationId, book.sequence + 1,
                      book.commitment, supplied.after, supplied.noFill))
  }

  function Reservations(uploads: map<string, Upload>): map<string, int> {
    map op | op in uploads :: uploads[op].manifest.proofLen
  }

  /** An upload in good order: canonical prefix, not yet settled, and not stale against its book. */
  predicate Current(trial: Trial, policies: map<string, Policy>, books: map<BookKey, Book>,
                    receipts: map<string, Receipt>, op: string, u: Upload)
  {
    && ValidUpload(trial, u)
    && op == u.manifest.statement.operationId && op !in receipts
    && Authoritative(policies, books, u.manifest) == Success(u.manifest.statement)
  }

  ghost predicate OnePerBook(uploads: map<string, Upload>) {
    forall a, b | a in uploads && b in uploads && a != b ::
      uploads[a].manifest.statement.Key() != uploads[b].manifest.statement.Key()
  }

  ghost predicate ValidUploads(trial: Trial, policies: map<string, Policy>, books: map<BookKey, Book>,
                               uploads: map<string, Upload>, receipts: map<string, Receipt>)
  {
    && |uploads| <= MAX_ACTIVE_UPLOADS
    && Total(Reservations(uploads)) <= MAX_PROOF_BYTES
    && OnePerBook(uploads)
    && forall op | op in uploads :: Current(trial, policies, books, receipts, op, uploads[op])
  }

  predicate ValidReceipt(trial: Trial, books: map<BookKey, Book>, op: string, r: Receipt) {
    && trial.validStatement(r.statement) && ValidHex(r.proofSha)
    && op == r.statement.operationId
    && r.statement.Key() in books && r.statement.sequence <= books[r.statement.Key()].sequence
  }

  predicate ValidReceipts(trial: Trial, books: map<BookKey, Book>, receipts: map<string, Receipt>) {
    |receipts| <= MAX_RECEIPTS && forall op | op in receipts :: ValidReceipt(trial, books, op, receipts[op])
  }

  // ----- how the pieces respond to each change -----------------------------------------------

  lemma UploadsAfterPolicy(trial: Trial, policies: map<string, Policy>, books: map<BookKey, Book>,
                           uploads: map<string, Upload>, receipts: map<string, Receipt>, policy: Policy)
    requires ValidUploads(trial, policies, books, uploads, receipts) && policy.deploymentId !in policies
    ensures ValidUploads(trial, policies[policy.deploymentId := policy], books, uploads, receipts)
  {
    hide ValidUpload;
    forall op | op in uploads
      ensures Current(trial, policies[policy.deploymentId := policy], books, receipts, op, uploads[op])
    {
      assert Current(trial, policies, books, receipts, op, uploads[op]);
    }
  }

  lemma UploadsAfterBook(trial: Trial, policies: map<string, Policy>, books: map<BookKey, Book>,
                         uploads: map<string, Upload>, receipts: map<string, Receipt>, key: BookKey, book: Book)
    requires ValidUploads(trial, policies, books, uploads, receipts) && key !in books
    ensures ValidUploads(trial, policies, books[key := book], uploads, receipts)
  {
    hide ValidUpload;
    forall op | op in uploads
      ensures Current(trial, policies, books[key := book], receipts, op, uploads[op])
    {
      assert Current(trial, policies, books, receipts, op, uploads[op]);
    }
  }

  lemma UploadsAfterBegin(trial: Trial, policies: map<string, Policy>, books: map<BookKey, Book>,
                          uploads: map<string, Upload>, receipts: map<string, Receipt>, op: string, u: Upload)
    requires ValidUploads(trial, policies, books, uploads, receipts) && op !in uploads
    requires |uploads| < MAX_ACTIVE_UPLOADS && Current(trial, policies, books, receipts, op, u)
    requires u.manifest.proofLen + Total(Reservations(uploads)) <= MAX_PROOF_BYTES
    requires forall k | k in uploads :: uploads[k].manifest.statement.Key() != u.manifest.statement.Key()
    ensures ValidUploads(trial, policies, books, uploads[op := u], receipts)
  {
    hide Current, OnePerBook, Reservations, Total;
    ReservationsAdd(uploads, op, u);
    OnePerBookAdd(uploads, op, u);
    OneMoreUpload(uploads, op, u);
  }

  lemma OneMoreUpload(uploads: map<string, Upload>, op: string, u: Upload)
    requires op !in uploads
    ensures |uploads[op := u]| == |uploads| + 1
  {
    assert uploads[op := u].Keys == uploads.Keys + {op};
  }

  lemma OnePerBookAdd(uploads: map<string, Upload>, op: string, u: Upload)
    requires OnePerBook(uploads) && op !in uploads
    requires forall k | k in uploads :: uploads[k].manifest.statement.Key() != u.manifest.statement.Key()
    ensures OnePerBook(uploads[op := u])
  {
  }

  lemma ReservationsAdd(uploads: map<string, Upload>, op: string, u: Upload)
    ensures Total(Reservations(uploads[op := u])) == Total(Reservations(uploads)) + u.manifest.proofLen
              - (if op in uploads then uploads[op].manifest.proofLen else 0)
  {
    assert Reservations(uploads[op := u]) == Reservations(uploads)[op := u.manifest.proofLen];
    TotalUpdate(Reservations(uploads), op, u.manifest.proofLen);
  }

  lemma CurrentAppended(trial: Trial, policies: map<string, Policy>, books: map<BookKey, Book>,
                        receipts: map<string, Receipt>, op: string, u: Upload, v: Upload)
    requires Current(trial, policies, books, receipts, op, u) && v.manifest == u.manifest && ValidUpload(trial, v)
    ensures Current(trial, policies, books, receipts, op, v)
  {
    hide ValidUpload;
  }

  lemma OnePerBookKept(uploads: map<string, Upload>, op: string, u: Upload)
    requires OnePerBook(uploads) && op in uploads && u.manifest == uploads[op].manifest
    ensures OnePerBook(uploads[op := u])
  {
    assert u.manifest.statement.Key() == uploads[op].manifest.statement.Key();
  }

  lemma UploadsAfterAppend(trial: Trial, policies: map<string, Policy>, books: map<BookKey, Book>,
                           uploads: map<string, Upload>, receipts: map<string, Receipt>, op: string, u: Upload)
    requires ValidUploads(trial, policies, books, uploads, receipts) && op in uploads
    requires u.manifest == uploads[op].manifest && ValidUpload(trial, u)
    ensures ValidUploads(trial, policies, books, uploads[op := u], receipts)
  {
    hide Current, OnePerBook, Reservations, Total, ValidUpload;
    CurrentAppended(trial, policies, books, receipts, op, uploads[op], u);
    OnePerBookKept(uploads, op, u);
    ReservationsAdd(uploads, op, u);
    assert uploads[op := u].Keys == uploads.Keys;
  }

  /** Settling one upload leaves every other upload current: no other is on the same book. */
  lemma UploadsAfterCommit(trial: Trial, policies: map<string, Policy>, books: map<BookKey, Book>,
                           uploads: map<string, Upload>, receipts: map<string, Receipt>, op: string,
                           next: Book, receipt: Receipt)
    requires ValidUploads(trial, policies, books, uploads, receipts) && op in uploads
    ensures ValidUploads(trial, policies, books[uploads[op].manifest.statement.Key() := next], uploads - {op},
                         receipts[op := receipt])
  {
    hide ValidUpload, Reservations, Total, Authoritative;
    ReservationsRemove(uploads, op);
    OnePerBookFewer(uploads, op);
    SubsetSize((uploads - {op}).Keys, uploads.Keys);
    var key := uploads[op].manifest.statement.Key();
    forall k | k in uploads && k != op
      ensures Current(trial, policies, books[key := next], receipts[op := receipt], k, uploads[k])
    {
      CurrentElsewhere(trial, policies, books, receipts, k, uploads[k], op, key, next, receipt);
    }
    hide Current, OnePerBook;
  }

  lemma OnePerBookFewer(uploads: map<string, Upload>, op: string)
    requires OnePerBook(uploads)
    ensures OnePerBook(uploads - {op})
  {
  }

  lemma CurrentElsewhere(trial: Trial, policies: map<string, Policy>, books: map<BookKey, Book>,
                         receipts: map<string, Receipt>, k: string, u: Upload, op: string, key: BookKey,
                         next: Book, receipt: Receipt)
    requires Current(trial, policies, books, receipts, k, u) && k != op && u.manifest.statement.Key() != key
    ensures Current(trial, policies, books[key := next], receipts[op := receipt], k, u)
  {
    hide ValidUpload;
  }

  lemma ReservationsRemove(uploads: map<string, Upload>, op: string)
    requires op in uploads
    ensures Total(Reservations(uploads - {op})) <= Total(Reservations(uploads))
  {
    TotalRemove(Reservations(uploads), op);
    assert Reservations(uploads - {op}) == Reservations(uploads) - {op};
  }

  lemma {:induction false} SubsetSize<T>(a: set<T>, b: set<T>)
    requires a <= b
    ensures |a| <= |b|
  {
    assert b == a + (b - a);
  }

  lemma BooksAfterCommit(policies: map<string, Policy>, books: map<BookKey, Book>, key: BookKey, next: Book)
    requires ValidBooks(policies, books) && key in books && ValidBook(policies, key, next)
    ensures ValidBooks(policies, books[key := next])
  {
    hide ValidBook;
    assert books[key := next].Keys == books.Keys;
  }

  lemma ReceiptsAfterCommit(trial: Trial, books: map<BookKey, Book>, receipts: map<string, Receipt>, next: Book,
                            op: string, receipt: Receipt)
    requires ValidReceipts(trial, books, receipts) && |receipts| < MAX_RECEIPTS && op !in receipts
    requires receipt.statement.Key() in books
    requires books[receipt.statement.Key()].sequence <= next.sequence
    requires ValidReceipt(trial, books[receipt.statement.Key() := next], op, receipt)
    ensures ValidReceipts(trial, books[receipt.statement.Key() := next], receipts[op := receipt])
  {
    forall k | k in receipts
      ensures ValidReceipt(trial, books[receipt.statement.Key() := next], k, receipts[k])
    {
      assert ValidReceipt(trial, books, k, receipts[k]);
    }
  }

  // ----- the whole state ---------------------------------------------------------------------

  ghost predicate Good(trial: Trial, policies: map<string, Policy>, books: map<BookKey, Book>,
                       uploads: map<string, Upload>, receipts: map<string, Receipt>,
                       chains: map<BookKey, seq<Receipt>>)
  {
    && Proper(trial)
    && ValidPolicies(policies)
    && ValidBooks(policies, books)
    && ValidUploads(trial, policies, books, uploads, receipts)
    && ValidReceipts(trial, books, receipts)
    && Chains(books, receipts, chains)
    && AllBacked(trial, policies, receipts)
  }

  /** The limits that every reachable state keeps. */
  lemma GoodLimits(trial: Trial, policies: map<string, Policy>, books: map<BookKey, Book>,
                   uploads: map<string, Upload>, receipts: map<string, Receipt>, chains: map<BookKey, seq<Receipt>>)
    requires Good(trial, policies, books, uploads, receipts, chains)
    ensures |policies| <= 8 && |books| <= 64 && |uploads| <= 4 && |receipts| <= 4_096
    ensures Total(Reservations(uploads)) <= 268_435_456
    ensures forall op | op in uploads ::
      |uploads[op].chunks| <= 512 && uploads[op].manifest.proofLen <= 268_435_456 && op !in receipts
  {
    hide Proper, ValidReceipt, ValidBook, ValidPolicy, Chains, AllBacked, OnePerBook, Authoritative;
    forall op | op in uploads
      ensures |uploads[op].chunks| <= 512 && uploads[op].manifest.proofLen <= 268_435_456 && op !in receipts
    {
      assert Current(trial, policies, books, receipts, op, uploads[op]);
    }
  }

  lemma GoodEmpty(trial: Trial)
    requires Proper(trial)
    ensures Good(trial, map[], map[], map[], map[], map[])
  {
    assert Reservations(map[]) == map[];
  }

  lemma BackedKept(trial: Trial, policies: map<string, Policy>, receipts: map<string, Receipt>, policy: Policy)
    requires AllBacked(trial, policies, receipts) && policy.deploymentId !in policies
    ensures AllBacked(trial, policies[policy.deploymentId := policy], receipts)
  {
    forall op | op in receipts
      ensures Backed(trial, policies[policy.deploymentId := policy], receipts[op])
    {
      assert Backed(trial, policies, receipts[op]);
      var proof: Bytes :| trial.sha(proof) == receipts[op].proofSha
                          && trial.accepts(policies[receipts[op].statement.deploymentId], proof,
                               receipts[op].statement);
    }
  }

  lemma GoodAfterPolicy(trial: Trial, policies: map<string, Policy>, books: map<BookKey, Book>,
                        uploads: map<string, Upload>, receipts: map<string, Receipt>,
                        chains: map<BookKey, seq<Receipt>>, policy: Policy)
    requires Good(trial, policies, books, uploads, receipts, chains)
    requires ValidPolicy(policy) && |policies| < MAX_POLICIES && policy.deploymentId !in policies
    ensures Good(trial, policies[policy.deploymentId := policy], books, uploads, receipts, chains)
  {
    hide ValidUploads, ValidReceipts, Chains, Proper, ValidPolicy, ValidGenesis, AllBacked;
    BackedKept(trial, policies, receipts, policy);
    UploadsAfterPolicy(trial, policies, books, uploads, receipts, policy);
  }

  lemma GoodAfterBook(trial: Trial, policies: map<string, Policy>, books: map<BookKey, Book>,
                      uploads: map<string, Upload>, receipts: map<string, Receipt>,
                      chains: map<BookKey, seq<Receipt>>, genesis: Genesis)
    requires Good(trial, policies, books, uploads, receipts, chains)
    requires ValidGenesis(genesis) && genesis.deploymentId in policies && |books| < MAX_BOOKS
    requires genesis.Key() !in books
    ensures Good(trial, policies, books[genesis.Key() := Opening(genesis)], uploads, receipts,
      chains[genesis.Key() := []])
  {
    var key, book := genesis.Key(), Opening(genesis);
    assert ValidBook(policies, key, book) && key !in books;
    hide ValidBook, ValidUploads, Chains, Proper, ValidPolicies, AllBacked, ValidBooks, ValidReceipts, ValidGenesis;
    UploadsAfterBook(trial, policies, books, uploads, receipts, key, book);
    ChainsOpen(books, receipts, chains, key, book);
    BooksAfterOpen(trial, policies, books, receipts, key, book);
  }

  lemma BooksAfterOpen(trial: Trial, policies: map<string, Policy>, books: map<BookKey, Book>,
                       receipts: map<string, Receipt>, key: BookKey, book: Book)
    requires ValidBooks(policies, books) && ValidReceipts(trial, books, receipts)
    requires key !in books && |books| < MAX_BOOKS && ValidBook(policies, key, book)
    ensures ValidBooks(policies, books[key := book]) && ValidReceipts(trial, books[key := book], receipts)
  {
    hide ValidBook;
    assert books[key := book].Keys == books.Keys + {key};
    forall op | op in receipts
      ensures ValidReceipt(trial, books[key := book], op, receipts[op])
    {
      assert ValidReceipt(trial, books, op, receipts[op]);
    }
  }

  lemma GoodAfterBegin(trial: Trial, policies: map<string, Policy>, books: map<BookKey, Book>,
                       uploads: map<string, Upload>, receipts: map<string, Receipt>,
                       chains: map<BookKey, seq<Receipt>>, m: Manifest)
    requires Good(trial, policies, books, uploads, receipts, chains)
    requires Admissible(trial, policies, books, uploads, receipts, m)
    ensures Good(trial, policies, books, uploads[m.statement.operationId := Upload(m, [])], receipts, chains)
  {
    var op, upload := m.statement.operationId, Upload(m, []);
    assert Current(trial, policies, books, receipts, op, upload) by {
      hide ValidManifest, Authoritative;
    }
    hide ValidManifest, Authoritative, Current, ValidPolicies, ValidBooks, ValidUploads, ValidReceipts, Chains, Proper,
      Reservations, AllBacked;
    UploadsAfterBegin(trial, policies, books, uploads, receipts, op, upload);
  }

  lemma GoodAfterAppend(trial: Trial, policies: map<string, Policy>, books: map<BookKey, Book>,
                        uploads: map<string, Upload>, receipts: map<string, Receipt>,
                        chains: map<BookKey, seq<Receipt>>, c: ChunkUpload)
    requires Good(trial, policies, books, uploads, receipts, chains)
    requires WellFormed(trial, c) && c.operationId in uploads && NextInLine(uploads[c.operationId], c)
    ensures Good(trial, policies, books, uploads[c.operationId := WithChunk(uploads[c.operationId], c)], receipts,
      chains)
  {
    var upload := uploads[c.operationId];
    hide ValidManifest, Authoritative, ValidPolicies, ValidBooks, ValidReceipts, Chains, Proper, WellFormed, NextInLine,
      ValidUpload, Reservations, OnePerBook, AllBacked;
    assert ValidUpload(trial, upload) by {
      assert Current(trial, policies, books, receipts, c.operationId, upload);
    }
    AppendValid(trial, upload, c);
    hide Current, ValidUploads;
    UploadsAfterAppend(trial, policies, books, uploads, receipts, c.operationId, WithChunk(upload, c));
  }

  lemma GoodAfterCommit(trial: Trial, policies: map<string, Policy>, books: map<BookKey, Book>,
                        uploads: map<string, Upload>, receipts: map<string, Receipt>,
                        chains: map<BookKey, seq<Receipt>>, receipt: Receipt)
    requires Good(trial, policies, books, uploads, receipts, chains)
    requires Settles(trial, policies, books, uploads, receipt) && |receipts| < MAX_RECEIPTS
    requires Backed(trial, policies, receipt)
    ensures receipt.statement.operationId !in receipts
    ensures receipt.statement.Key() in books && receipt.statement.Key() in chains
    ensures var op, key := receipt.statement.operationId, receipt.statement.Key();
      Good(trial, policies, books[key := Advanced(books[key], receipt)], uploads - {op}, receipts[op := receipt],
           chains[key := chains[key] + [receipt]])
  {
    var op, key := receipt.statement.operationId, receipt.statement.Key();
    SettleFacts(trial, policies, books, uploads, receipts, receipt);
    var next := Advanced(books[key], receipt);
    assert op in uploads;
    hide Settles, Authoritative, ValidBook, ValidPolicies, ValidBooks, ValidUploads, ValidReceipts, ValidReceipt,
      Proper, Backed;
    assert AllBacked(trial, policies, receipts[op := receipt]);
    hide AllBacked;
    assert chains.Keys == books.Keys;
    hide Chains;
    ChainsExtend(books, receipts, chains, key, next, receipt);
    UploadsAfterCommit(trial, policies, books, uploads, receipts, op, next, receipt);
    BooksAfterCommit(policies, books, key, next);
    ReceiptsAfterCommit(trial, books, receipts, next, op, receipt);
  }

  /** The stored policy and the external proof check both accept. */
  predicate Convinced(trial: Trial, policies: map<string, Policy>, statement: Statement, proof: Bytes) {
    && statement.deploymentId in policies && ValidPolicy(policies[statement.deploymentId])
    && trial.accepts(policies[statement.deploymentId], proof, statement)
  }

  /**
   Some proof with the receipt's digest convinces the verifier of the receipt's statement under the
   registered policy.
   */
  ghost predicate Backed(trial: Trial, policies: map<string, Policy>, receipt: Receipt) {
    receipt.statement.deploymentId in policies
    && exists proof: Bytes ::
         trial.sha(proof) == receipt.proofSha
         && trial.accepts(policies[receipt.statement.deploymentId], proof, receipt.statement)
  }

  ghost predicate AllBacked(trial: Trial, policies: map<string, Policy>, receipts: map<string, Receipt>) {
    forall op | op in receipts :: Backed(trial, policies, receipts[op])
  }

  /** A receipt that the stored state allows for a pending upload. */
  predicate Settles(trial: Trial, policies: map<string, Policy>, books: map<BookKey, Book>,
                    uploads: map<string, Upload>, receipt: Receipt)
  {
    && trial.validStatement(receipt.statement) && ValidHex(receipt.proofSha)
    && receipt.statement.operationId in uploads
    && uploads[receipt.statement.operationId].manifest.statement == receipt.statement
    && Authoritative(policies, books, uploads[receipt.statement.operationId].manifest) == Success(receipt.statement)
  }

  lemma SettleFacts(trial: Trial, policies: map<string, Policy>, books: map<BookKey, Book>,
                    uploads: map<string, Upload>, receipts: map<string, Receipt>, receipt: Receipt)
    requires Proper(trial) && ValidPolicies(policies) && ValidBooks(policies, books)
    requires ValidUploads(trial, policies, books, uploads, receipts)
    requires Settles(trial, policies, books, uploads, receipt)
    ensures receipt.statement.operationId !in receipts
    ensures var key := receipt.statement.Key();
      && key in books && books[key].sequence < U64_MAX
      && key == (books[key].genesis.deploymentId, books[key].genesis.bookId)
      && receipt.statement.sequence == books[key].sequence + 1
      && receipt.statement.before == books[key].commitment
      && uploads[receipt.statement.operationId].manifest.statement.Key() == key
      && ValidBook(policies, key, Advanced(books[key], receipt))
      && ValidReceipt(trial, books[key := Advanced(books[key], receipt)], receipt.statement.operationId, receipt)
  {
    var op, key := receipt.statement.operationId, receipt.statement.Key();
    hide ValidUpload, ValidManifest, ValidGenesis;
    assert Current(trial, policies, books, receipts, op, uploads[op]);
    assert op !in receipts && key in books;
    assert ValidBook(policies, key, books[key]);
    hide ValidPolicies, ValidBooks, ValidUploads, Current;
  }

  function Opening(genesis: Genesis): Book {
    Book(genesis, genesis.initialCommitment, 0, None, None)
  }

  function Advanced(book: Book, receipt: Receipt): Book {
    Book(book.genesis, receipt.statement.after, receipt.statement.sequence,
         Some(receipt.statement.operationId), Some(receipt.proofSha))
  }

  /** When a new upload is admitted. */
  ghost predicate Admissible(trial: Trial, policies: map<string, Policy>, books: map<BookKey, Book>,
                             uploads: map<string, Upload>, receipts: map<string, Receipt>, m: Manifest)
  {
    && ValidManifest(trial, m)
    && m.proofLen + Total(Reservations(uploads)) <= MAX_PROOF_BYTES
    && |uploads| < MAX_ACTIVE_UPLOADS
    && m.statement.operationId !in uploads && m.statement.operationId !in receipts
    && (forall op | op in uploads :: uploads[op].manifest.statement.Key() != m.statement.Key())
    && Authoritative(policies, books, m) == Success(m.statement)
  }

  /** What the decoder of a chunk message accepts. */
  predicate WellFormed(trial: Trial, c: ChunkUpload) {
    && ValidId(c.deploymentId) && ValidId(c.bookId) && ValidId(c.operationId)
    && ValidHex(c.proofSha) && ValidHex(c.chunkSha)
    && 0 < |c.bytes| <= PROOF_CHUNK_BYTES && trial.sha(c.bytes) == c.chunkSha
  }

  predicate NextInLine(u: Upload, c: ChunkUpload) {
    && c.deploymentId == u.manifest.statement.deploymentId && c.bookId == u.manifest.statement.bookId
    && c.proofSha == u.manifest.proofSha
    && c.index == |u.chunks| && c.index < u.manifest.chunkCount
    && |c.bytes| == ExpectedLength(u.manifest.proofLen, PROOF_CHUNK_BYTES, c.index)
  }

  function WithChunk(u: Upload, c: ChunkUpload): Upload {
    u.(chunks := u.chunks + [Chunk(c.bytes, c.chunkSha)])
  }

  /** A chunk cut for another proof, book or deployment, or out of turn, is not next in line. */
  lemma ForeignChunk(trial: Trial, u: Upload, m: Manifest, proof: Bytes, index: U32)
    requires FromProof(trial, m, proof, index).Success?
    ensures NextInLine(u, FromProof(trial, m, proof, index).value) ==>
      && m.proofSha == u.manifest.proofSha && index == |u.chunks|
      && m.statement.deploymentId == u.manifest.statement.deploymentId
      && m.statement.bookId == u.manifest.statement.bookId
  {
    hide ValidManifest, ExpectedLength;
  }

  lemma AppendValid(trial: Trial, u: Upload, c: ChunkUpload)
    requires ValidUpload(trial, u) && WellFormed(trial, c) && NextInLine(u, c)
    ensures ValidUpload(trial, WithChunk(u, c))
  {
    hide ValidManifest;
  }

  // ----- the object --------------------------------------------------------------------------

  class ResearchCoCodeState {
    const trial: Trial
    var policies: map<string, Policy>
    var books: map<BookKey, Book>
    var uploads: map<string, Upload>
    var receipts: map<string, Receipt>

    /** Every book's receipts in the order they were written. */
    ghost var chains: map<BookKey, seq<Receipt>>

    ghost predicate Valid()
      reads this
    {
      Good(trial, policies, books, uploads, receipts, chains)
    }

    constructor (trial: Trial)
      requires Proper(trial)
      ensures Valid() && this.trial == trial && policies == map[] && books == map[] && uploads == map[]
        && receipts == map[]
    {
      hide Good;
      GoodEmpty(trial);
      this.trial := trial;
      policies, books, uploads, receipts, chains := map[], map[], map[], map[], map[];
    }

    method InsertPolicy(policy: Policy) returns (r: Result<(), ResearchError>)
      requires Valid()
      modifies this`policies
      ensures Valid()
      ensures r.Success? <==> ValidPolicy(policy) && |old(policies)| < MAX_POLICIES
                              && policy.deploymentId !in old(policies)
      ensures policies == if r.Success? then old(policies)[policy.deploymentId := policy] else old(policies)
    {
      hide Good, ValidPolicy;
      if !ValidPolicy(policy) {
        return Failure(Invalid);
      }
      if |policies| >= MAX_POLICIES || policy.deploymentId in policies {
        return Failure(Full);
      }
      GoodAfterPolicy(trial, policies, books, uploads, receipts, chains, policy);
      policies := policies[policy.deploymentId := policy];
      return Success(());
    }

    method InsertBook(genesis: Genesis) returns (r: Result<(), ResearchError>)
      requires Valid()
      modifies this`books, this`chains
      ensures Valid()
      ensures r.Success? <==> ValidGenesis(genesis) && genesis.deploymentId in policies
                              && |old(books)| < MAX_BOOKS && genesis.Key() !in old(books)
      ensures books == if r.Success? then old(books)[genesis.Key() := Opening(genesis)] else old(books)
    {
      hide Good, ValidGenesis;
      if !ValidGenesis(genesis) {
        return Failure(Invalid);
      }
      if genesis.deploymentId !in policies {
        return Failure(Unknown);
      }
      if |books| >= MAX_BOOKS || genesis.Key() in books {
        return Failure(Full);
      }
      GoodAfterBook(trial, policies, books, uploads, receipts, chains, genesis);
      books := books[genesis.Key() := Opening(genesis)];
      chains := chains[genesis.Key() := []];
      return Success(());
    }

    method ReservedBytes() returns (total: nat)
      ensures total == Total(Reservations(uploads))
    {
      total := 0;
      var keys := uploads.Keys;
      ghost var all := Reservations(uploads);
      ghost var rest := all;
      while keys != {}
        invariant keys <= uploads.Keys && rest.Keys == keys
        invariant forall k | k in keys :: rest[k] == uploads[k].manifest.proofLen
        invariant Total(all) == total + Total(rest)
        decreases keys
      {
        var k :| k in keys;
        TotalRemove(rest, k);
        total := total + uploads[k].manifest.proofLen;
        keys, rest := keys - {k}, rest - {k};
      }
      assert rest == map[];
    }

    method BookIsUploading(key: BookKey) returns (found: bool)
      ensures found <==> exists op | op in uploads :: uploads[op].manifest.statement.Key() == key
    {
      var keys := uploads.Keys;
      while keys != {}
        invariant keys <= uploads.Keys
        invariant forall op | op in uploads && op !in keys :: uploads[op].manifest.statement.Key() != key
        decreases keys
      {
        var op :| op in keys;
        if uploads[op].manifest.statement.Key() == key {
          return true;
        }
        keys := keys - {op};
      }
      return false;
    }

    method Begin(m: Manifest) returns (r: Result<(), ResearchError>)
      requires Valid()
      modifies this`uploads
      ensures Valid()
      ensures r.Success? <==> Admissible(trial, policies, books, old(uploads), receipts, m)
      ensures uploads == if r.Success? then old(uploads)[m.statement.operationId := Upload(m, [])] else old(uploads)
    {
      hide Good, ValidManifest, Authoritative, Reservations;
      if !ValidManifest(trial, m) {
        return Failure(Invalid);
      }
      var reserved := ReservedBytes();
      if m.proofLen + reserved > MAX_PROOF_BYTES {
        return Failure(Full);
      }
      var op := m.statement.operationId;
      var busy := BookIsUploading(m.statement.Key());
      if |uploads| >= MAX_ACTIVE_UPLOADS || op in uploads || op in receipts || busy {
        return Failure(Full);
      }
      if Authoritative(policies, books, m) != Success(m.statement) {
        return Failure(Stale);
      }
      GoodAfterBegin(trial, policies, books, uploads, receipts, chains, m);
      uploads := uploads[op := Upload(m, [])];
      return Success(());
    }

    /** A chunk is appended exactly when it is well formed and next in line for its own manifest. */
    method Append(c: ChunkUpload) returns (r: Result<(), ResearchError>)
      requires Valid()
      modifies this`uploads
      ensures Valid()
      ensures r.Success? <==> WellFormed(trial, c) && c.operationId in old(uploads)
                              && NextInLine(old(uploads)[c.operationId], c)
      ensures uploads == if r.Success?
                         then old(uploads)[c.operationId := WithChunk(old(uploads)[c.operationId], c)] else old(uploads)
    {
      hide Good, WellFormed, NextInLine, WithChunk;
      if !WellFormed(trial, c) {
        return Failure(Invalid);
      }
      if c.operationId !in uploads {
        return Failure(Unknown);
      }
      if !NextInLine(uploads[c.operationId], c) {
        return Failure(OutOfOrder);
      }
      GoodAfterAppend(trial, policies, books, uploads, receipts, chains, c);
      uploads := uploads[c.operationId := WithChunk(uploads[c.operationId], c)];
      return Success(());
    }

    /** Cut a proof and send its chunks in order: every chunk is taken and the proof comes back whole. */
    method UploadWhole(m: Manifest, proof: Bytes) returns (r: Result<(), ResearchError>)
      requires Valid() && |proof| == m.proofLen && trial.sha(proof) == m.proofSha
      modifies this`uploads
      ensures Valid()
      ensures r.Success? <==> Admissible(trial, policies, books, old(uploads), receipts, m)
      ensures r.Failure? ==> uploads == old(uploads)
      ensures r.Success? ==>
        && m.statement.operationId in uploads && uploads - {m.statement.operationId} == old(uploads)
        && uploads[m.statement.operationId].manifest == m
        && Assembled(trial, uploads[m.statement.operationId]) == Success(proof)
    {
      hide Good, ValidManifest, Assembled, FromProof, WellFormed, NextInLine, Authoritative, Reservations;
      ghost var before := uploads;
      var op := m.statement.operationId;
      AdmittedNames(trial, policies, books, uploads, receipts, chains, m);
      r := Begin(m);
      if r.Failure? {
        return;
      }
      assert ValidManifest(trial, m) && op !in before;
      assert uploads - {op} == before;
      hide Admissible;
      var i: U32 := 0;
      while i < m.chunkCount
        invariant Valid() && i <= m.chunkCount
        invariant op in uploads && uploads - {op} == before
        invariant uploads[op].manifest == m && CutSoFar(trial, m, proof, uploads[op].chunks)
          && |uploads[op].chunks| == i
      {
        CutFits(trial, m, proof, uploads[op], i);
        var cut := FromProof(trial, m, proof, i);
        ghost var sent := uploads[op];
        ghost var prior := uploads;
        var taken := Append(cut.value);
        if taken.Failure? {
          assert false;
        }
        CutGrows(trial, m, proof, sent, cut.value);
        assert uploads - {op} == prior - {op};
        i := i + 1;
      }
      CutWhole(trial, uploads[op], proof);
    }

    /**
     Settle a complete upload: the book advances by one, the upload is gone and the receipt is the
     next link of the book's chain. Nothing else changes.
     */
    method VerifyAndCommit(statement: Statement, proofSha: string) returns (r: Result<Receipt, ResearchError>)
      requires Valid()
      modifies this`books, this`uploads, this`receipts, this`chains
      ensures Valid()
      ensures r.Failure? ==> books == old(books) && uploads == old(uploads)
                             && receipts == old(receipts) && chains == old(chains)
      ensures r.Success? <==>
        Committable(trial, policies, old(books), old(uploads), old(receipts), Receipt(statement, proofSha))
      ensures r.Success? ==>
        && var op, key := statement.operationId, statement.Key();
        && r.value == Receipt(statement, proofSha)
        && op !in old(receipts) && key in old(books) && key in old(chains)
        && uploads == old(uploads) - {op}
        && receipts == old(receipts)[op := r.value]
        && books == old(books)[key := Advanced(old(books)[key], r.value)]
        && chains == old(chains)[key := old(chains)[key] + [r.value]]
    {
      hide Good, Authoritative, ValidHex, Assembled, ValidPolicy, Advanced;
      if !trial.validStatement(statement) || !ValidHex(proofSha) {
        return Failure(Invalid);
      }
      var op := statement.operationId;
      if op in receipts {
        return Failure(Full);
      }
      if op !in uploads {
        return Failure(Unknown);
      }
      var upload := uploads[op];
      if Authoritative(policies, books, upload.manifest) != Success(statement)
         || upload.manifest.statement != statement || proofSha != upload.manifest.proofSha {
        return Failure(Stale);
      }
      var proof := Assemble(trial, upload);
      if proof.Failure? {
        return Failure(proof.error);
      }
      if !Convinced(trial, policies, statement, proof.value) {
        return Failure(Rejected);
      }
      if |receipts| >= MAX_RECEIPTS {
        return Failure(Full);
      }
      r := Success(Receipt(statement, proofSha));
      AssembledDigest(trial, upload);
      assert Backed(trial, policies, r.value);
      hide Backed;
      GoodAfterCommit(trial, policies, books, uploads, receipts, chains, r.value);
      books := books[statement.Key() := Advanced(books[statement.Key()], r.value)];
      uploads := uploads - {op};
      receipts := receipts[op := r.value];
      chains := chains[statement.Key() := chains[statement.Key()] + [r.value]];
    }
  }

  /** When a receipt may be written. */
  predicate Committable(trial: Trial, policies: map<string, Policy>, books: map<BookKey, Book>,
                        uploads: map<string, Upload>, receipts: map<string, Receipt>, receipt: Receipt)
  {
    var op := receipt.statement.operationId;
    && Settles(trial, policies, books, uploads, receipt)
    && op !in receipts && |receipts| < MAX_RECEIPTS
    && receipt.proofSha == uploads[op].manifest.proofSha
    && var proof := Assembled(trial, uploads[op]);
       proof.Success? && Convinced(trial, policies, receipt.statement, proof.value)
  }

  lemma AssembledDigest(trial: Trial, u: Upload)
    ensures Assembled(trial, u).Success? ==> trial.sha(Assembled(trial, u).value) == u.manifest.proofSha
  {
    hide ValidUpload;
  }

  /** Exactly the first chunks of the cut have arrived. */
  ghost predicate CutSoFar(trial: Trial, m: Manifest, proof: Bytes, chunks: seq<Chunk>) {
    && |chunks| <= m.chunkCount
    && forall i: U32 | i < |chunks| ::
         var cut := FromProof(trial, m, proof, i);
         cut.Success? && chunks[i] == Chunk(cut.value.bytes, cut.value.chunkSha)
  }

  lemma AdmittedNames(trial: Trial, policies: map<string, Policy>, books: map<BookKey, Book>,
                      uploads: map<string, Upload>, receipts: map<string, Receipt>,
                      chains: map<BookKey, seq<Receipt>>, m: Manifest)
    requires Good(trial, policies, books, uploads, receipts, chains)
    ensures Proper(trial)
    ensures Admissible(trial, policies, books, uploads, receipts, m) ==>
      ValidId(m.statement.deploymentId) && ValidId(m.statement.bookId)
  {
    hide ValidUploads, ValidReceipts, Chains, AllBacked, ValidManifest;
    if m.statement.Key() in books {
      assert ValidBook(policies, m.statement.Key(), books[m.statement.Key()]);
    }
  }

  lemma CutFits(trial: Trial, m: Manifest, proof: Bytes, u: Upload, i: U32)
    requires Proper(trial) && ValidManifest(trial, m) && u.manifest == m
    requires |proof| == m.proofLen && trial.sha(proof) == m.proofSha
    requires ValidId(m.statement.deploymentId) && ValidId(m.statement.bookId)
    requires i < m.chunkCount && |u.chunks| == i
    ensures var cut := FromProof(trial, m, proof, i);
      && cut.Success? && cut.value.operationId == m.statement.operationId && cut.value.index == i
      && WellFormed(trial, cut.value) && NextInLine(u, cut.value)
  {
    ChunkCount(proof, PROOF_CHUNK_BYTES);
    ChunkAt(proof, PROOF_CHUNK_BYTES, i);
    hide Chunks;
  }

  lemma CutGrows(trial: Trial, m: Manifest, proof: Bytes, u: Upload, c: ChunkUpload)
    requires CutSoFar(trial, m, proof, u.chunks) && u.manifest == m && |u.chunks| < m.chunkCount
    requires FromProof(trial, m, proof, |u.chunks|) == Success(c)
    ensures CutSoFar(trial, m, proof, WithChunk(u, c).chunks)
  {
    hide FromProof;
  }

  lemma CutWhole(trial: Trial, u: Upload, proof: Bytes)
    requires Proper(trial) && ValidManifest(trial, u.manifest)
    requires CutSoFar(trial, u.manifest, proof, u.chunks) && |u.chunks| == u.manifest.chunkCount
    ensures Assembled(trial, u) == Success(proof)
  {
    hide FromProof, Assembled;
    AssembleOfCut(trial, u, proof);
  }
}
