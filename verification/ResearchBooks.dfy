/**
 Sequenced research books and the chunked proof uploads that advance them. A book moves only by a
 verified proof, and every move leaves a receipt.
 */
module ResearchBooks {
  import opened Numbers
  import opened Results
  import opened Sums
  import opened Wire
  import opened Chunking

  const DEPLOYMENT_MODE := "pq-only-research"
  const PROOF_PROTOCOL := "cocode-defmi-private-dvp-research-v1"
  const QUERY_AGREEMENT_PROTOCOL := "cocode-defmi-private-dvp-research-v2-hybrid-query-agreement"
  const PROOF_CHUNK_BYTES := 524_288
  const MAX_PROOF_BYTES := 268_435_456
  const MAX_PROOF_CHUNKS := 512
  const MAX_POLICIES := 8
  const MAX_BOOKS := 64
  const MAX_ACTIVE_UPLOADS := 4
  const MAX_RECEIPTS := 4_096

  datatype ResearchError = Invalid | Full | Unknown | Stale | OutOfOrder | Incomplete | Rejected

  predicate ValidId(s: string) {
    0 < |s| <= 128 && forall c | c in s :: c < 128 as char
  }

  predicate ValidHex(s: string) {
    |s| == 128 && forall c | c in s :: '0' <= c <= '9' || 'a' <= c <= 'f'
  }

  datatype Policy = Policy(deploymentId: string, mode: string, protocol: string, roster: Option<string>,
                           parties: nat, maxCorrupt: nat, maxProofBytes: nat, chunkBytes: nat)

  predicate ValidPolicy(p: Policy) {
    && ValidId(p.deploymentId)
    && p.mode == DEPLOYMENT_MODE && p.parties == 7 && p.maxCorrupt == 2
    && p.maxProofBytes == MAX_PROOF_BYTES && p.chunkBytes == PROOF_CHUNK_BYTES
    && match p.roster
       case None => p.protocol == PROOF_PROTOCOL
       case Some(pin) => p.protocol == QUERY_AGREEMENT_PROTOCOL && ValidHex(pin)
  }

  datatype Handle = Handle(account: string, asset: string)

  /** Handles in the order asset seller, asset buyer, cash buyer, cash seller. */
  datatype Genesis = Genesis(deploymentId: string, bookId: string, handles: seq<Handle>, initialCommitment: string)
  {
    function Key(): BookKey {
      (deploymentId, bookId)
    }
  }

  predicate ValidGenesis(g: Genesis) {
    && ValidId(g.deploymentId) && ValidId(g.bookId) && ValidHex(g.initialCommitment)
    && |g.handles| == 4
    && (forall i | 0 <= i < 4 :: ValidId(g.handles[i].account) && ValidId(g.handles[i].asset))
    && (forall i, j | 0 <= i < j < 4 :: g.handles[i].account != g.handles[j].account)
    && g.handles[0].asset == g.handles[1].asset && g.handles[2].asset == g.handles[3].asset
    && g.handles[0].asset != g.handles[2].asset
  }

  /**
   Seven parties of which two may be corrupt, 256 MiB proofs in 512 KiB chunks, and a roster
   exactly for the agreed protocol.
   */
  lemma PolicyExact(p: Policy)
    ensures ValidPolicy(p) <==>
      && ValidId(p.deploymentId) && p.mode == "pq-only-research"
      && (p.parties, p.maxCorrupt, p.maxProofBytes, p.chunkBytes) == (7, 2, 268_435_456, 524_288)
      && (p.roster.None? ==> p.protocol == "cocode-defmi-private-dvp-research-v1")
      && (p.roster.Some? ==>
            p.protocol == "cocode-defmi-private-dvp-research-v2-hybrid-query-agreement" && ValidHex(p.roster.value))
  {
  }

  /** A book is between four different accounts, two in each of two different assets. */
  lemma GenesisExact(g: Genesis)
    ensures ValidGenesis(g) <==>
      && ValidId(g.deploymentId) && ValidId(g.bookId) && ValidHex(g.initialCommitment) && |g.handles| == 4
      && (forall h | h in g.handles :: ValidId(h.account) && ValidId(h.asset))
      && (forall i, j | 0 <= i < 4 && 0 <= j < 4 :: g.handles[i].account == g.handles[j].account ==> i == j)
      && (forall i, j | 0 <= i < 4 && 0 <= j < 4 ::
            g.handles[i].asset == g.handles[j].asset <==> (i < 2 <==> j < 2))
  {
    hide ValidId, ValidHex;
    if |g.handles| == 4 {
      assert g.handles == [g.handles[0], g.handles[1], g.handles[2], g.handles[3]];
    }
  }

  /** A book is named by its deployment and its own identifier. */
  type BookKey = (string, string)

  datatype Book = Book(genesis: Genesis, commitment: string, sequence: U64,
                       lastOperation: Option<string>, lastProof: Option<string>)

  datatype Statement = Statement(deploymentId: string, bookId: string, operationId: string, sequence: U64,
                                 before: string, after: string, noFill: bool)
  {
    function Key(): BookKey {
      (deploymentId, bookId)
    }
  }

  datatype Manifest = Manifest(mode: string, statement: Statement, proofLen: U64, proofSha: string,
                               chunkBytes: U32, chunkCount: U32)

  datatype Chunk = Chunk(bytes: Bytes, sha: string)

  datatype Upload = Upload(manifest: Manifest, chunks: seq<Chunk>)

  datatype ChunkUpload = ChunkUpload(deploymentId: string, bookId: string, operationId: string, proofSha: string,
                                     index: U32, chunkSha: string, bytes: Bytes)

  datatype Receipt = Receipt(statement: Statement, proofSha: string)

  /** The checks that live outside this component. */
  datatype Trial = Trial(
    validStatement: Statement -> bool,
    sha: Bytes -> string,
    accepts: (Policy, Bytes, Statement) -> bool)

  /** Statements name well-formed operations and commitments, and digests are well-formed text. */
  ghost predicate Proper(trial: Trial) {
    && (forall s: Statement :: trial.validStatement(s) ==> ValidId(s.operationId) && ValidHex(s.after))
    && (forall b: Bytes :: ValidHex(trial.sha(b)))
  }

  predicate ValidManifest(trial: Trial, m: Manifest) {
    && trial.validStatement(m.statement)
    && m.mode == DEPLOYMENT_MODE
    && ValidHex(m.proofSha)
    && 0 < m.proofLen <= MAX_PROOF_BYTES
    && m.chunkBytes == PROOF_CHUNK_BYTES
    && m.chunkCount == DivCeil(m.proofLen, PROOF_CHUNK_BYTES)
    && 0 < m.chunkCount <= MAX_PROOF_CHUNKS
  }

  /** Chunks received so far are a prefix of a canonical cut. */
  predicate ValidUpload(trial: Trial, u: Upload) {
    && ValidManifest(trial, u.manifest)
    && |u.chunks| <= u.manifest.chunkCount
    && forall i | 0 <= i < |u.chunks| ::
         && |u.chunks[i].bytes| == ExpectedLength(u.manifest.proofLen, PROOF_CHUNK_BYTES, i)
         && u.chunks[i].sha == trial.sha(u.chunks[i].bytes)
  }

  function Payload(chunks: seq<Chunk>): seq<Bytes> {
    seq(|chunks|, i requires 0 <= i < |chunks| => chunks[i].bytes)
  }

  // ----- cutting and assembling --------------------------------------------------------------

  /** Cut one chunk of a proof for upload. */
  function FromProof(trial: Trial, m: Manifest, proof: Bytes, index: U32): Result<ChunkUpload, ResearchError> {
    if !ValidManifest(trial, m) then Failure(Invalid) else
    if |proof| != m.proofLen || trial.sha(proof) != m.proofSha then Failure(Invalid) else
    if index >= m.chunkCount then Failure(Invalid) else
    ChunkCount(proof, PROOF_CHUNK_BYTES);
    ChunkAt(proof, PROOF_CHUNK_BYTES, index);
    var offset := index * PROOF_CHUNK_BYTES;
    var bytes := proof[offset..offset + ExpectedLength(m.proofLen, PROOF_CHUNK_BYTES, index)];
    Success(ChunkUpload(m.statement.deploymentId, m.statement.bookId, m.statement.operationId, m.proofSha,
                        index, trial.sha(bytes), bytes))
  }

  function Assembled(trial: Trial, u: Upload): Result<Bytes, ResearchError> {
    if !ValidUpload(trial, u) then Failure(Invalid) else
    if |u.chunks| != u.manifest.chunkCount then Failure(Incomplete) else
    var proof := Concat(Payload(u.chunks));
    if |proof| != u.manifest.proofLen || trial.sha(proof) != u.manifest.proofSha then Failure(Invalid) else
    Success(proof)
  }

  method Assemble(trial: Trial, u: Upload) returns (r: Result<Bytes, ResearchError>)
    ensures r == Assembled(trial, u)
  {
    if !ValidUpload(trial, u) {
      return Failure(Invalid);
    }
    if |u.chunks| != u.manifest.chunkCount {
      return Failure(Incomplete);
    }
    var proof: Bytes := [];
    for i := 0 to |u.chunks|
      invariant proof + Concat(Payload(u.chunks)[i..]) == Concat(Payload(u.chunks))
    {
      proof := proof + u.chunks[i].bytes;
    }
    assert proof + [] == proof;
    if |proof| != u.manifest.proofLen || trial.sha(proof) != u.manifest.proofSha {
      return Failure(Invalid);
    }
    return Success(proof);
  }

  /** The chunks cut from a proof, all of them in order, assemble to exactly that proof. */
  lemma AssembleOfCut(trial: Trial, u: Upload, proof: Bytes)
    requires Proper(trial) && ValidManifest(trial, u.manifest)
    requires |u.chunks| == u.manifest.chunkCount
    requires forall i: U32 | i < u.manifest.chunkCount ::
      var cut := FromProof(trial, u.manifest, proof, i);
      cut.Success? && u.chunks[i] == Chunk(cut.value.bytes, cut.value.chunkSha)
    ensures Assembled(trial, u) == Success(proof)
  {
    assert FromProof(trial, u.manifest, proof, 0).Success?;
    ChunkCount(proof, PROOF_CHUNK_BYTES);
    forall i | 0 <= i < |u.chunks|
      ensures |u.chunks[i].bytes| == ExpectedLength(|proof|, PROOF_CHUNK_BYTES, i)
      ensures u.chunks[i].sha == trial.sha(u.chunks[i].bytes)
      ensures Payload(u.chunks)[i] == Chunks(proof, PROOF_CHUNK_BYTES)[i]
    {
      var k: U32 := i;
      assert FromProof(trial, u.manifest, proof, k).Success?;
      ChunkAt(proof, PROOF_CHUNK_BYTES, i);
    }
    assert Payload(u.chunks) == Chunks(proof, PROOF_CHUNK_BYTES);
    ConcatChunks(proof, PROOF_CHUNK_BYTES);
  }

  // ----- receipt chains ----------------------------------------------------------------------

  /** The commitment after the first `i` receipts. */
  function CommitmentAt(genesis: Genesis, chain: seq<Receipt>, i: nat): string
    requires i <= |chain|
  {
    if i == 0 then genesis.initialCommitment else chain[i - 1].statement.after
  }

  /** Receipts 1..n of one book, each starting where the one before ended, from genesis to the current commitment. */
  ghost predicate ChainOf(book: Book, chain: seq<Receipt>) {
    && |chain| == book.sequence
    && (forall i | 0 <= i < |chain| ::
          && chain[i].statement.sequence == i + 1
          && chain[i].statement.Key() == (book.genesis.deploymentId, book.genesis.bookId)
          && chain[i].statement.before == CommitmentAt(book.genesis, chain, i))
    && book.commitment == CommitmentAt(book.genesis, chain, |chain|)
    && LastOf(book, chain)
  }

  /** The book names the operation and the proof of its last receipt, if it has any. */
  ghost predicate LastOf(book: Book, chain: seq<Receipt>) {
    if chain == [] then book.lastOperation.None? && book.lastProof.None?
    else
      && book.lastOperation == Some(chain[|chain| - 1].statement.operationId)
      && book.lastProof == Some(chain[|chain| - 1].proofSha)
  }

  /** Every link of a chain is a stored receipt. */
  ghost predicate Filed(receipts: map<string, Receipt>, chain: seq<Receipt>) {
    forall i | 0 <= i < |chain| ::
      chain[i].statement.operationId in receipts && receipts[chain[i].statement.operationId] == chain[i]
  }

  /** A stored receipt sits in its book's chain at its own number. */
  ghost predicate Placed(chains: map<BookKey, seq<Receipt>>, op: string, r: Receipt) {
    && r.statement.operationId == op && r.statement.Key() in chains
    && 0 < r.statement.sequence <= |chains[r.statement.Key()]|
    && chains[r.statement.Key()][r.statement.sequence - 1] == r
  }

  /** The chains hold exactly the stored receipts. */
  ghost predicate Chains(books: map<BookKey, Book>, receipts: map<string, Receipt>,
                         chains: map<BookKey, seq<Receipt>>)
  {
    && chains.Keys == books.Keys
    && (forall k | k in books :: ChainOf(books[k], chains[k]) && Filed(receipts, chains[k]))
    && (forall op | op in receipts :: Placed(chains, op, receipts[op]))
  }

  lemma FiledGrows(receipts: map<string, Receipt>, chain: seq<Receipt>, receipt: Receipt)
    requires Filed(receipts, chain) && receipt.statement.operationId !in receipts
    ensures Filed(receipts[receipt.statement.operationId := receipt], chain)
    ensures Filed(receipts[receipt.statement.operationId := receipt], chain + [receipt])
  {
  }

  lemma ChainExtends(book: Book, chain: seq<Receipt>, next: Book, receipt: Receipt)
    requires ChainOf(book, chain)
    requires receipt.statement.Key() == (book.genesis.deploymentId, book.genesis.bookId)
    requires receipt.statement.sequence == book.sequence + 1 && receipt.statement.before == book.commitment
    requires next.genesis == book.genesis && next.sequence == book.sequence + 1
    requires next.commitment == receipt.statement.after
    requires next.lastOperation == Some(receipt.statement.operationId) && next.lastProof == Some(receipt.proofSha)
    ensures ChainOf(next, chain + [receipt])
  {
    var longer := chain + [receipt];
    assert next.genesis.deploymentId == book.genesis.deploymentId && next.genesis.bookId == book.genesis.bookId;
    forall i | 0 <= i <= |chain|
      ensures CommitmentAt(next.genesis, longer, i) == CommitmentAt(book.genesis, chain, i)
    {
    }
  }

  lemma PlacedGrows(chains: map<BookKey, seq<Receipt>>, key: BookKey, op: string, r: Receipt, more: seq<Receipt>)
    requires Placed(chains, op, r)
    ensures Placed(chains[key := (if key in chains then chains[key] else []) + more], op, r)
  {
  }

  /** The receipt that moves a book to its next commitment extends the book's chain and no other. */
  lemma ChainsExtend(books: map<BookKey, Book>, receipts: map<string, Receipt>, chains: map<BookKey, seq<Receipt>>,
                     key: BookKey, next: Book, receipt: Receipt)
    requires Chains(books, receipts, chains) && key in books
    requires key == (books[key].genesis.deploymentId, books[key].genesis.bookId)
    requires receipt.statement.operationId !in receipts
    requires receipt.statement.Key() == key && books[key].sequence < U64_MAX
    requires receipt.statement.sequence == books[key].sequence + 1
    requires receipt.statement.before == books[key].commitment
    requires next.genesis == books[key].genesis && next.sequence == books[key].sequence + 1
    requires next.commitment == receipt.statement.after
    requires next.lastOperation == Some(receipt.statement.operationId) && next.lastProof == Some(receipt.proofSha)
    ensures Chains(books[key := next], receipts[receipt.statement.operationId := receipt],
                   chains[key := chains[key] + [receipt]])
  {
    ChainExtends(books[key], chains[key], next, receipt);
    NewestPlaced(books[key], chains, key, receipt);
    hide ChainOf, Filed, Placed;
    AllFiled(books, receipts, chains, key, receipt);
    AllPlaced(receipts, chains, key, [receipt]);
  }

  lemma NewestPlaced(book: Book, chains: map<BookKey, seq<Receipt>>, key: BookKey, receipt: Receipt)
    requires key in chains && ChainOf(book, chains[key])
    requires receipt.statement.Key() == key && receipt.statement.sequence == book.sequence + 1
    ensures Placed(chains[key := chains[key] + [receipt]], receipt.statement.operationId, receipt)
  {
  }

  lemma AllFiled(books: map<BookKey, Book>, receipts: map<string, Receipt>, chains: map<BookKey, seq<Receipt>>,
                 key: BookKey, receipt: Receipt)
    requires key in books && chains.Keys == books.Keys && receipt.statement.operationId !in receipts
    requires forall k | k in books :: Filed(receipts, chains[k])
    ensures forall k | k in books ::
      Filed(receipts[receipt.statement.operationId := receipt], chains[key := chains[key] + [receipt]][k])
  {
    hide Filed;
    forall k | k in books
      ensures Filed(receipts[receipt.statement.operationId := receipt], chains[key := chains[key] + [receipt]][k])
    {
      FiledGrows(receipts, chains[k], receipt);
    }
  }

  lemma AllPlaced(receipts: map<string, Receipt>, chains: map<BookKey, seq<Receipt>>, key: BookKey, more: seq<Receipt>)
    requires forall op | op in receipts :: Placed(chains, op, receipts[op])
    ensures forall op | op in receipts ::
      Placed(chains[key := (if key in chains then chains[key] else []) + more], op, receipts[op])
  {
    hide Placed;
    forall op | op in receipts
      ensures Placed(chains[key := (if key in chains then chains[key] else []) + more], op, receipts[op])
    {
      PlacedGrows(chains, key, op, receipts[op], more);
    }
  }

  lemma ChainsOpen(books: map<BookKey, Book>, receipts: map<string, Receipt>, chains: map<BookKey, seq<Receipt>>,
                   key: BookKey, book: Book)
    requires Chains(books, receipts, chains) && key !in books
    requires book.sequence == 0 && book.commitment == book.genesis.initialCommitment
    requires book.lastOperation.None? && book.lastProof.None?
    ensures Chains(books[key := book], receipts, chains[key := []])
  {
    assert ChainOf(book, []) && Filed(receipts, []);
    hide ChainOf, Filed, Placed;
    AllPlaced(receipts, chains, key, []);
    var none: seq<Receipt> := [];
    assert none + none == none;
  }

  /** A book at sequence n has exactly one receipt for each number from 1 to n, and none beyond. */
  lemma HistoryExact(books: map<BookKey, Book>, receipts: map<string, Receipt>, chains: map<BookKey, seq<Receipt>>,
                     key: BookKey, number: nat) returns (op: string)
    requires Chains(books, receipts, chains)
    requires key in books && books[key].genesis.Key() == key && 0 < number <= books[key].sequence
    ensures op in receipts && receipts[op].statement.Key() == key && receipts[op].statement.sequence == number
    ensures forall other | other in receipts && receipts[other].statement.Key() == key ::
      && receipts[other].statement.sequence <= books[key].sequence
      && (receipts[other].statement.sequence == number ==> other == op)
  {
    assert ChainOf(books[key], chains[key]) && Filed(receipts, chains[key]);
    op := LinkAt(books[key], receipts, chains[key], number);
    assert |chains[key]| == books[key].sequence;
    hide ChainOf, Filed, Placed;
    forall other | other in receipts && receipts[other].statement.Key() == key
      ensures receipts[other].statement.sequence <= books[key].sequence
      ensures receipts[other].statement.sequence == number ==> other == op
    {
      PlacedOnce(chains, op, receipts[op], other, receipts[other]);
    }
  }

  lemma LinkAt(book: Book, receipts: map<string, Receipt>, chain: seq<Receipt>, number: nat) returns (op: string)
    requires ChainOf(book, chain) && Filed(receipts, chain) && 0 < number <= book.sequence
    ensures op in receipts && receipts[op].statement.Key() == book.genesis.Key()
    ensures receipts[op].statement.sequence == number
  {
    op := chain[number - 1].statement.operationId;
    assert receipts[op] == chain[number - 1];
  }

  lemma PlacedOnce(chains: map<BookKey, seq<Receipt>>, a: string, r: Receipt, b: string, q: Receipt)
    requires Placed(chains, a, r) && Placed(chains, b, q) && r.statement.Key() == q.statement.Key()
    ensures q.statement.sequence <= |chains[r.statement.Key()]|
    ensures r.statement.sequence == q.statement.sequence ==> a == b
  {
  }
}
