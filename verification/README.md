# Settlement infrastructure, verified

A Dafny model of the parts of a financial market infrastructure where a single branch does not
show whether the whole is right, with the properties that hold over whole runs.

- **Liquidity book** (`Liquidity*.dfy`). One pool of pledged bond lots per participant backs other
  exposure, intraday overdraft and timed reservations. Eleven requests change a shared book, one of
  them a settlement that moves cash, overdraft, a lot and a reservation at once. A request runs on a
  copy that is checked and then installed. Proved: solvency, conservation of money, no replay and
  the business-day boundary over every run, exactly which requests are accepted, what a reservation
  and a lot go through, and that the check of the copy never refuses.
- **State synchronisation** (`Merkle`, `StateSync`, `SyncAttempts`, `SyncSession`, and the codecs). A
  joining validator assembles a snapshot from chunks proved against a Merkle root that duplicates the
  last odd node. Proved: completeness and soundness for every chunk count, exact codecs, exactly when
  the assembly is the committed snapshot, and what stored answers do to later attempts.
- **Consensus host** (`Ledger`, `ConsensusHost`). Pool, proposed and verified blocks, accepted
  chain. Proved: over every interleaving of requests the tip is the replay of the accepted blocks from
  genesis, each transaction once; after a synchronisation it is a trusted state with everything since
  replayed over it.
- **State store** (`ManifestCodec`, `StateStore`, `StoreObject`, `StoredProofs`). States as
  immutable, content-addressed pieces. Proved: after any stagings, some broken off, every head ever
  returned still loads to its own state, and exactly when it does not.
- **Research books** (`ResearchBooks`, `ResearchState`). Chunked proof uploads that advance
  sequenced books. Proved: the receipt chain, one upload per book, and that every receipt is backed
  by an accepted proof.
- **Asset proof** (`Algebra`, `AssetProof`). An OR over the cohort with a split challenge, over an
  abstract field acting on an abelian group. Proved: completeness, special soundness at one
  position, and that a proof does not tell the position.
- **Settlement contract** (`ChainSpec`, `ChainLegs`, `ChainRoot`, `ChainContract`). Proved: exactly when
  a parked leg can be claimed or unwound and whom that pays, exactly when pruning is
  invisible, that no instruction then settles twice, when settlements commute, and that the root
  bytes fix the state.
- **Clearing house** (`Clearing`, `Attestation`). Proved: the checker accepts exactly the novation,
  what the net positions are, conservation, and that the signed bytes fix the trades.

Where the program changes an object step by step the model is a class with the same fields, and each
method is proved against a step function; the properties are then proved about those functions.

## Results that are not what the documentation says

- The assembly loop of state synchronisation (`vm.rs`, lines 519-584) verifies each answer but never
  compares the index it answers for with the slot it fills. `StateSync.SlotGuardExact` shows that this
  comparison is exactly what is missing, and `MisplacedResponse` gives the failing family. Accepted
  answers are stored and reused. If the first wrong slot holds bytes that its chunk does not start with,
  every later attempt at that summary fails, until another summary is accepted and the stored chunks are
  deleted (`SyncSession.StuckUntilSwitch`, `OnePeerSticks`, `SwitchRecovers`). A wrong slot whose bytes
  its chunk does start with may still complete (`LengthsMatter`); where lengths fit and no two chunks are
  the same, completion is exact (`SyncAttempts.HonestExact`). The digest of the whole snapshot still keeps
  anything else from being installed (`InstallsOnlyCommitted`).
- The upload limits admit states with up to 515 proof chunks, while the store reads back at most 512
  (`StoreObject.Store.Load`). `StoredProofs.BudgetOverflowsReader` reaches 515 by the state's own
  operations, and `StageAndLoad` shows that such a state is staged and its head does not load.
- Heights count with saturation, so "one block per height" holds exactly below the largest 64-bit
  height (`Ledger.HeightsDistinct`, `ConsensusHost.OnePerHeight`).
- The comment on the contract's root (`chain.rs`, lines 326-327) says that nodes applying the same
  settlements in different orders agree; the text at the head of that file takes it back. The exact
  condition is `ChainSpec.SettlementsCommute`.
- Pruning shows, in some runs: it is invisible exactly when no settlement inside its deadline names a
  nullifier recorded before with a deadline that a prune since has passed (`ChainSpec.PruningExact`).
  Nullifiers that fix their deadline are such (`PruningInvisible`); `PruningForgets` is a run that
  settles one instruction twice.
- Net positions are wrong for a house that is itself a payer (`Clearing.PositionsExact`,
  `HouseAsPayer`).
- The novation checker also accepts an empty novation, which the house refuses to build
  (`Clearing.CheckNovation`).

## Assumptions

- Hash functions are arbitrary functions. Soundness is stated for the finite set of inputs actually
  hashed, on which they are assumed not to collide. Block and transaction identifiers in the
  consensus host are symbolic digests.
- Ledger states, JSON encodings, transaction execution, signatures, proof verifiers, the elliptic
  curve and the random numbers are parameters, with the laws used written as predicates (`Canonical`,
  `Lawful`, `Proper`, `Module`, `Abelian`, `Faithful`). Executing a transaction is deterministic.
- Time is a parameter of each request. Where it matters, it does not go back.
- `u16`, `u32`, `u64`, `u128` and `i64` are bounded numbers with checked, saturating or wrapping
  operations as in the program; 32-byte identifiers of the liquidity book are numbers compared for
  equality. The build with the research feature is modelled (snapshots up to 512 MiB).
- An installed synchronised state is trusted, like the genesis state; it need not be what execution
  gives. Where a statement needs that no block has two states, it says so (`Ledger.Coherent`).
- Whether a state can be staged and whether it loads again are parameters of the consensus host; the
  state store says when they hold.

## Model

| member | source | states |
|---|---|---|
| LiquidityRuns.RunSolvent | rust/defmi/src/central_bank_liquidity.rs:340-1053 | Once a participant's pledged lots cover its other exposure, overdraft and live reservations, they cover them after any later requests in any order, accepted or refused, at any later time, until an accepted request puts a new price on one of its own lots. |
| LiquidityRuns.StepSolvent | rust/defmi/src/central_bank_liquidity.rs:340-1053 | Each of the eleven requests keeps every covered participant covered, with the one exception of a revaluation of that participant's own lots. |
| LiquidityRuns.RunConserves | rust/defmi/src/central_bank_liquidity.rs:340-1006 | From the empty book, after any run, the sum over participants of cash minus overdraft is the opening balances plus the amount of each accepted funds receipt, each participant and each receipt identifier counted once. |
| LiquidityRuns.EnteredOnce | rust/defmi/src/central_bank_liquidity.rs:340-700 | Money enters under a key that was not used before: a registration under a new participant, a funds receipt under a new receipt identifier. |
| LiquidityRuns.NoReplay | rust/defmi/src/central_bank_liquidity.rs:662-700 | No operation identifier, funds receipt identifier or settlement identifier takes effect twice in a run. |
| LiquidityRuns.RunValid | rust/defmi/src/central_bank_liquidity.rs:272-330 | Every book reachable from a well-formed one passes the stored-state check, and every open reservation in it expires no later than its owner's current deadline. |
| LiquidityRuns.StepValid | rust/defmi/src/central_bank_liquidity.rs:1142-1151 | A request that its own operation accepts leaves a book that the stored-state check accepts, so the check inside `atomic` never refuses anything. |
| LiquidityRuns.StepKeeps | rust/defmi/src/central_bank_liquidity.rs:340-1053 | One accepted request: stored-state check, reservation deadlines, money in, business-day rules for every participant, and the marks that make it unrepeatable, all at once. |
| LiquidityRuns.RunAfterDeadline | rust/defmi/src/central_bank_liquidity.rs:759-802 | From a participant's repayment deadline until its next day opens, its overdraft never grows and none of its reservations is live. |
| LiquidityRuns.DayBoundary | rust/defmi/src/central_bank_liquidity.rs:759-802 | A participant reaches a later business day only through a request that finds it closed, past its deadline and with no overdraft. |
| LiquidityRuns.DayNeverBack | rust/defmi/src/central_bank_liquidity.rs:759-802 | Business day numbers never go back. |
| LiquidityAcceptance.StepExact | rust/defmi/src/central_bank_liquidity.rs:340-1053 | Each of the eleven requests is accepted exactly when one condition on the stored records, the request and the time holds, written over the book as it stands and without the intermediate checks. |
| LiquidityAcceptance.SettleDvpExact | rust/defmi/src/central_bank_liquidity.rs:812-1006 | A settlement is accepted exactly when parties, lot, business day and the three sequence numbers are as named, neither party is closed, suspended, overdue or past its deadline, a named reservation is the buyer's for this very instruction, live and large enough, and every sum fits and is covered on both sides afterwards. |
| LiquidityAcceptance.ReserveExact | rust/defmi/src/central_bank_liquidity.rs:482-540 | A reservation is accepted exactly when it fits the day and the headroom of a usable participant named with its current sequence number. |
| LiquidityAcceptance.ReturnLotExact | rust/defmi/src/central_bank_liquidity.rs:589-652 | A lot is returned exactly when the rest of its owner's pool covers everything the pool backs. |
| LiquidityAcceptance.UpdateExposureExact | rust/defmi/src/central_bank_liquidity.rs:710-749 | An exposure is changed exactly when the total fits and, if raised, is covered. |
| LiquidityAcceptance.RefreshExact | rust/defmi/src/central_bank_liquidity.rs:1096-1130 | A status is recomputed exactly when the pool and what it backs both fit their width. |
| LiquidityRecords.ReservationLife | rust/defmi/src/central_bank_liquidity.rs:482-579 | Over any run a reservation keeps owner, instruction, amount and expiry; once consumed or released it never changes again. |
| LiquidityRecords.ReservationStep | rust/defmi/src/central_bank_liquidity.rs:875-891 | An open reservation is consumed only by a settlement of its owner for its own instruction before it expires, by the amount drawn, and released only by its owner's release or day change. |
| LiquidityRecords.LotLife | rust/defmi/src/central_bank_liquidity.rs:431-472 | Over any run a lot stays the same bond of the same face value, and its valuation epoch never goes back. |
| LiquidityRecords.LotStep | rust/defmi/src/central_bank_liquidity.rs:431-472 | The owner of a lot changes only by a settlement from that owner, its price only by a newer valuation, its pledge only by a settlement or a return. |
| LiquidityRecords.ValidRecords | rust/defmi/src/central_bank_liquidity.rs:272-330 | What the stored-state check guarantees of every participant, lot and reservation. |
| LiquiditySteps.ReservePrediction | rust/defmi/src/central_bank_liquidity.rs:514-539 | The headroom returned by a reservation is the headroom recomputed on the resulting book. |
| LiquiditySteps.ReturnLotPrediction | rust/defmi/src/central_bank_liquidity.rs:618-651 | The headroom returned by a collateral return is the headroom recomputed on the resulting book. |
| LiquidityDvp.DvpPrediction | rust/defmi/src/central_bank_liquidity.rs:895-936 | The collateral and live-reservation totals that the settlement predicts before it changes anything are the folds over the changed maps, for buyer, seller and everybody else. |
| LiquidityDvp.DvpDoes | rust/defmi/src/central_bank_liquidity.rs:812-1006 | An accepted settlement moves payment, overdraft draw and repayment, the bond lot and the reservation exactly as agreed, and leaves buyer and seller Active and covered; when it is accepted is `SettleDvpExact`. |
| LiquidityDvp.DvpConserves | rust/defmi/src/central_bank_liquidity.rs:938-974 | A settlement creates and destroys no money. |
| LiquidityDvp.DvpKeeps | rust/defmi/src/central_bank_liquidity.rs:812-1006 | A settlement keeps the stored-state check, reservation deadlines, money and business-day rules. |
| LiquidityDvp.DvpSolvent | rust/defmi/src/central_bank_liquidity.rs:895-974 | A settlement keeps every covered participant covered. |
| LiquidityValuation.LotValueExact | rust/defmi/src/central_bank_liquidity.rs:75-96 | A lot has a value exactly when its factors are present and the 128-bit product fits, and the value is the scaled product rounded down. |
| LiquidityValuation.CheckedProductExact | rust/defmi/src/central_bank_liquidity.rs:75-96 | The step-by-step checked product fails exactly when the whole product does not fit. |
| LiquidityBook.BojLiquidityBook.Atomic | rust/defmi/src/central_bank_liquidity.rs:1142-1151 | A request changes the book to what its step gives or, refused, not at all; the book stays well formed. |
| LiquidityBook.BojLiquidityBook.Validate | rust/defmi/src/central_bank_liquidity.rs:272-330 | The stored-state check accepts exactly the well-formed books; a refusal names the first kind of record, in the order participants, lots, reservations, that has a bad one; for a lot it is the error of its valuation exactly when nothing else about the lot is wrong. |
| LiquidityBook.BojLiquidityBook.CollateralValueOf | rust/defmi/src/central_bank_liquidity.rs:1055-1064 | The loop over lots returns the value of the participant's pledged lots, or the overflow error. |
| LiquidityBook.BojLiquidityBook.LiveReserved | rust/defmi/src/central_bank_liquidity.rs:1066-1077 | The loop over reservations returns the participant's live total, or the overflow error. |
| LiquidityBook.BojLiquidityBook.AvailableHeadroom | rust/defmi/src/central_bank_liquidity.rs:1079-1094 | Headroom is collateral minus everything it backs, with the error cases of the program. |
| LiquidityBook.BojLiquidityBook.RefreshStatus | rust/defmi/src/central_bank_liquidity.rs:1096-1130 | Status follows coverage, except that Suspended and Overdue stay. |
| LiquidityBook.BojLiquidityBook.RegisterInner | rust/defmi/src/central_bank_liquidity.rs:340-372 | Registration agrees with its step, errors included. |
| LiquidityBook.BojLiquidityBook.PledgeInner | rust/defmi/src/central_bank_liquidity.rs:382-421 | Pledging agrees with its step, errors included. |
| LiquidityBook.BojLiquidityBook.RevalueInner | rust/defmi/src/central_bank_liquidity.rs:431-472 | Revaluation agrees with its step, errors included. |
| LiquidityBook.BojLiquidityBook.ReserveInner | rust/defmi/src/central_bank_liquidity.rs:482-540 | Reserving agrees with its step, errors included. |
| LiquidityBook.BojLiquidityBook.ReleaseInner | rust/defmi/src/central_bank_liquidity.rs:550-579 | Releasing agrees with its step, errors included. |
| LiquidityBook.BojLiquidityBook.ReturnLotInner | rust/defmi/src/central_bank_liquidity.rs:589-652 | Returning a lot agrees with its step, errors included. |
| LiquidityBook.BojLiquidityBook.ApplyFundsInner | rust/defmi/src/central_bank_liquidity.rs:662-700 | Applying funds agrees with its step, errors included. |
| LiquidityBook.BojLiquidityBook.UpdateExposureInner | rust/defmi/src/central_bank_liquidity.rs:710-749 | Changing exposure agrees with its step, errors included. |
| LiquidityBook.BojLiquidityBook.OpenDayInner | rust/defmi/src/central_bank_liquidity.rs:759-802 | Opening a day agrees with its step, errors included. |
| LiquidityBook.BojLiquidityBook.EndDayInner | rust/defmi/src/central_bank_liquidity.rs:1016-1053 | Ending a day agrees with its step, errors included. |
| LiquidityBook.BojLiquidityBook.AdmitDvp | rust/defmi/src/central_bank_liquidity.rs:817-871 | Admission of a settlement agrees with its step, errors included. |
| LiquidityBook.BojLiquidityBook.PlanDvp | rust/defmi/src/central_bank_liquidity.rs:873-946 | The settlement plan, made before anything changes, agrees with its step. |
| LiquidityBook.BojLiquidityBook.FinishDvp | rust/defmi/src/central_bank_liquidity.rs:948-1005 | Carrying out the plan agrees with its step. |
| LiquidityBook.BojLiquidityBook.SettleDvpInner | rust/defmi/src/central_bank_liquidity.rs:812-1006 | The whole settlement agrees with its step, errors included. |
| Merkle.Complete | rust/defmi-avalanche-vm/src/state_sync.rs:461-485 | For every chunk count and index, the generated path is accepted against the root, odd levels with their duplicated last node included. |
| Merkle.OddDuplicates | rust/defmi-avalanche-vm/src/state_sync.rs:450-459 | A level of an odd number of nodes, more than one, has the same next level and the same top as with its last node twice. |
| Merkle.EvenPairs | rust/defmi-avalanche-vm/src/state_sync.rs:430-459 | In an even level each pair of neighbours is hashed once, left to right, behind the node domain. |
| Merkle.PathStarts | rust/defmi-avalanche-vm/src/state_sync.rs:461-484 | A path starts with the other node of the pair, for the last node of an odd level with that node itself, and goes on as the path one level up. |
| Merkle.LeavesAt | rust/defmi-avalanche-vm/src/state_sync.rs:420-448 | A leaf hashes its index, its length and its bytes behind the leaf domain. |
| Merkle.Sound | rust/defmi-avalanche-vm/src/state_sync.rs:487-514 | An accepted path carries exactly the committed chunk, and is the very path the tree generates, unless the hash collides on the inputs actually hashed. |
| Merkle.ClimbSound | rust/defmi-avalanche-vm/src/state_sync.rs:487-514 | A path of the right length that reaches the top is the tree's own path from the tree's own node, at every level. |
| Merkle.DepthIsCeilLog | rust/defmi-avalanche-vm/src/state_sync.rs:497-500 | The path length is the least k with 2^k at least the chunk count. |
| Merkle.DepthIsBitLength | rust/defmi-avalanche-vm/src/state_sync.rs:497-500 | The length the verifier computes from leading zeros is the number of levels. |
| Merkle.DepthSupported | rust/defmi-avalanche-vm/src/state_sync.rs:350-353 | Every chunk count that fits 32 bits needs a path within the wire limit. |
| Merkle.PathLength | rust/defmi-avalanche-vm/src/state_sync.rs:461-485 | A generated path has exactly as many nodes as the tree has levels. |
| Merkle.MerkleRoot | rust/defmi-avalanche-vm/src/state_sync.rs:450-459 | The loop over levels computes the root of the tree. |
| Merkle.MerkleProof | rust/defmi-avalanche-vm/src/state_sync.rs:461-485 | The loop over levels computes the path of the index. |
| Merkle.VerifyMerkleProof | rust/defmi-avalanche-vm/src/state_sync.rs:487-514 | The loop over the path accepts exactly the paths that climb to the root. |
| StateSync.SnapshotRoundTrip | rust/defmi-avalanche-vm/src/state_sync.rs:161-250 | A snapshot decodes, against its own summary, to the block and state it was built from. |
| StateSync.DecodeExact | rust/defmi-avalanche-vm/src/state_sync.rs:211-250 | A snapshot decodes exactly when length, digest and chunk root are the summary's and the block and state it holds have the summary's identifier, parent, height, time and root. |
| StateSync.HonestResponseAccepted | rust/defmi-avalanche-vm/src/state_sync.rs:298-311 | Every answer built from a snapshot is accepted by its summary. |
| StateSync.ResponseSound | rust/defmi-avalanche-vm/src/state_sync.rs:377-408 | An accepted answer carries the committed chunk of the index it claims. |
| StateSync.ForeignAnswer | rust/defmi-avalanche-vm/src/state_sync.rs:377-408 | An accepted answer names this very summary, its count, an index it has, and carries the length of that index. |
| StateSync.AssemblyExact | rust/defmi-avalanche-vm/src/vm.rs:519-584 | A full set of accepted answers is, slot for slot, the committed chunks exactly when each slot holds the bytes of its own index; the assembly loop does not compare the two. |
| StateSync.SlotGuardExact | rust/defmi-avalanche-vm/src/vm.rs:550-574 | Where no two chunks are the same and every answer has the length of its slot, the assembly is the committed snapshot exactly when every answer is for the slot it fills: the comparison the loop leaves out. |
| StateSync.LengthsMatter | rust/defmi-avalanche-vm/src/vm.rs:550-574 | The lengths cannot be left out: a snapshot of one repeated byte joins from its two chunks in either order. |
| StateSync.MisplacedResponse | rust/defmi-avalanche-vm/src/vm.rs:534-574 | The honest answer for one index, given for another slot, is accepted there, and the assembly is then not the snapshot. |
| StateSync.InstallsOnlyCommitted | rust/defmi-avalanche-vm/src/state_sync.rs:211-250 | Whatever was assembled, only the committed snapshot decodes, so nothing else is installed. |
| StateSync.SyncRecovers | rust/defmi-avalanche-vm/src/vm.rs:519-584 | Accepted answers for their own slots rebuild the snapshot and so the original block and state. |
| StateSync.VerifyResponse | rust/defmi-avalanche-vm/src/state_sync.rs:377-408 | Accepts exactly the answers to a valid summary with the right identifier, index, length and path. |
| StateSync.FetchChunk | rust/defmi-avalanche-vm/src/vm.rs:534-570 | Asks the peers in rotation and returns the first acceptable answer; which slots that fills is `SlotFilled`, and `FillSlot` is the store first and then this. |
| StateSync.FillSlot | rust/defmi-avalanche-vm/src/vm.rs:524-574 | A stored answer that is acceptable is used and left in place; otherwise the first acceptable answer of the peers is used and written under the key of the slot. |
| StateSync.SlotFilled | rust/defmi-avalanche-vm/src/vm.rs:524-570 | A slot is filled exactly when the store or some peer, wherever the rotation starts, has an acceptable answer, and then with an accepted one. |
| StateSync.FillingAccepted | rust/defmi-avalanche-vm/src/vm.rs:521-574 | All slots can be filled exactly when each can; what fills them is one accepted answer per slot. |
| StateSync.Rotation | rust/defmi-avalanche-vm/src/vm.rs:536-539 | One turn of the rotation reaches every peer from any starting index. |
| StateSync.TurnMoves | rust/defmi-avalanche-vm/src/vm.rs:536-539 | The peer asked first moves on with the index, and each further attempt asks the next one. |
| StateSync.FirstIsFirst | rust/defmi-avalanche-vm/src/vm.rs:534-570 | The answer taken is the first acceptable one: every peer asked before had none. |
| StateSync.AssembleSnapshot | rust/defmi-avalanche-vm/src/vm.rs:515-583 | Assembly succeeds exactly when there is a peer, the summary is valid, every slot is filled and the length is right; it returns the concatenation, and every slot filled on the way, also in a failing attempt, stays filled in the store. |
| SyncAttempts.HeldStays | rust/defmi-avalanche-vm/src/vm.rs:524-533 | An acceptable answer in the store fills its slot and is not replaced by an attempt, whatever the peers offer. |
| SyncAttempts.MisplacedSticks | rust/defmi-avalanche-vm/src/vm.rs:521-574 | If every slot before one is filled with its own chunk, and that one with bytes its chunk does not start with, the attempt does not give the snapshot and leaves these answers in the store: it is stuck. |
| SyncAttempts.MisplacerSticks | rust/defmi-avalanche-vm/src/vm.rs:534-574 | An empty store gets there by one peer that answers one index with the encoded honest answer for another. |
| SyncAttempts.StuckFails | rust/defmi-avalanche-vm/src/vm.rs:519-580 | From a stuck store no peers assemble the snapshot. |
| SyncAttempts.AttemptExact | rust/defmi-avalanche-vm/src/vm.rs:519-580 | Where no two chunks are the same, what the store holds has the length of its slots and the other slots are filled in place, the attempt gives the snapshot exactly when every held answer is for its own slot. |
| SyncAttempts.HonestExact | rust/defmi-avalanche-vm/src/vm.rs:519-580 | In particular with one peer that is honest for every index. |
| SyncAttempts.HonestCompletes | rust/defmi-avalanche-vm/src/vm.rs:519-580 | If every held answer carries its own slot's chunk, one honest peer is enough, with no assumption on the hash. |
| SyncSession.AlwaysTidy | rust/defmi-avalanche-vm/src/vm.rs:3217-3237 | After any offers, attempts and restarts, every stored chunk belongs to the ongoing synchronisation: none outlives it. |
| SyncSession.TipNeverBack | rust/defmi-avalanche-vm/src/vm.rs:3203-3208 | While the tip moves only by synchronisation it never goes back; `TipGoesBack` is the other case, an attempt that completes after the tip has passed its summary. |
| SyncSession.RunExact | rust/defmi-avalanche-vm/src/vm.rs:505-676 | An attempt is installed, and moves the tip to the height of its summary, exactly when what it assembled decodes to a state that is admitted and can be staged. |
| SyncSession.ReplyExact | rust/defmi-avalanche-vm/src/vm.rs:3203-3216 | A summary of this chain is taken up exactly when it is ahead of the tip and no other synchronisation runs. |
| SyncSession.SwitchEmpties | rust/defmi-avalanche-vm/src/vm.rs:3217-3229 | Accepting another summary leaves no chunk stored. |
| SyncSession.StuckUntilSwitch | rust/defmi-avalanche-vm/src/vm.rs:519-676 | A stuck synchronisation stays stuck and is not installed over any offers, attempts with any peers and restarts, until another summary is accepted. |
| SyncSession.OnePeerSticks | rust/defmi-avalanche-vm/src/vm.rs:534-574 | From any reachable state, accepting a summary and one attempt with one such peer leaves the node stuck. |
| SyncSession.HonestInstalls | rust/defmi-avalanche-vm/src/vm.rs:519-658 | Accepting a summary with nothing of it stored, and one attempt with one honest peer, brings the node to the height of the summary. |
| SyncSession.SwitchRecovers | rust/defmi-avalanche-vm/src/vm.rs:3195-3250 | A stuck node that accepts another summary, restarts and accepts the first one again is brought to its height by one honest peer. |
| SyncSession.HonestRunExact | rust/defmi-avalanche-vm/src/vm.rs:519-658 | With one honest peer, no two chunks the same and everything stored of its slot's length, the attempt is installed exactly when everything stored is for its own slot. |
| SyncSession.Joiner.AcceptSummary | rust/defmi-avalanche-vm/src/vm.rs:3191-3252 | A summary is refused if invalid or of another chain, skipped if not ahead or if another synchronisation runs, and otherwise becomes the target; the chunks of another target are deleted. |
| SyncSession.Joiner.FinishSync | rust/defmi-avalanche-vm/src/vm.rs:505-676 | An attempt keeps what it accepted; it is installed, and its chunks deleted, exactly when what it assembled decodes to a state the node admits and can stage. |
| BlockCodec.DecodeOfEncoding | rust/defmi-avalanche-vm/src/block.rs:37-104 | Decoding the encoding of a block returns the block. |
| BlockCodec.EncodingOfDecode | rust/defmi-avalanche-vm/src/block.rs:58-104 | Bytes that decode are the encoding of what they decode to. |
| BlockCodec.EncodingInjective | rust/defmi-avalanche-vm/src/block.rs:106-108 | Blocks with the same bytes, hence the same identifier input, are the same block. |
| BlockCodec.Encode | rust/defmi-avalanche-vm/src/block.rs:37-56 | The loop writes the canonical bytes, or refuses exactly the blocks outside the limits. |
| BlockCodec.DecodeBlock | rust/defmi-avalanche-vm/src/block.rs:58-104 | The cursor loop computes the decoder, errors included. |
| SyncCodec.DecodeOfSummary | rust/defmi-avalanche-vm/src/state_sync.rs:55-118 | Decoding the encoding of a summary returns it. |
| SyncCodec.SummaryOfDecode | rust/defmi-avalanche-vm/src/state_sync.rs:81-118 | Bytes that decode to a summary are its encoding. |
| SyncCodec.EncodeSummary | rust/defmi-avalanche-vm/src/state_sync.rs:55-79 | Writes the canonical bytes of exactly the valid summaries. |
| SyncCodec.ReadSummary | rust/defmi-avalanche-vm/src/state_sync.rs:81-118 | The cursor computes the decoder; its final canonical check never refuses. |
| SyncCodec.DecodeOfRequest | rust/defmi-avalanche-vm/src/state_sync.rs:259-286 | Decoding the encoding of a request returns it. |
| SyncCodec.RequestOfDecode | rust/defmi-avalanche-vm/src/state_sync.rs:271-286 | Bytes that decode to a request are its encoding. |
| SyncCodec.DecodeOfResponse | rust/defmi-avalanche-vm/src/state_sync.rs:313-375 | Decoding the encoding of an answer returns it. |
| SyncCodec.ResponseOfDecode | rust/defmi-avalanche-vm/src/state_sync.rs:342-375 | Bytes that decode to an answer are its encoding. |
| SyncCodec.EncodeResponse | rust/defmi-avalanche-vm/src/state_sync.rs:313-340 | Writes the canonical bytes of exactly the valid answers. |
| SyncCodec.ReadResponse | rust/defmi-avalanche-vm/src/state_sync.rs:342-375 | The cursor computes the decoder, errors included. |
| ManifestCodec.DecodeOfManifest | rust/defmi-avalanche-vm/src/state_store.rs:129-217 | Decoding the encoding of a manifest returns it. |
| ManifestCodec.ManifestOfDecode | rust/defmi-avalanche-vm/src/state_store.rs:160-217 | Bytes that decode to a manifest are its encoding. |
| ManifestCodec.EncodeManifest | rust/defmi-avalanche-vm/src/state_store.rs:129-158 | Writes the canonical bytes of exactly the valid manifests. |
| ManifestCodec.ReadManifest | rust/defmi-avalanche-vm/src/state_store.rs:160-217 | The cursor computes the decoder; its final canonical check never refuses. |
| Chunking.ConcatChunks | rust/defmi-avalanche-vm/src/state_store.rs:288-294 | The pieces of a byte string join to it. |
| Chunking.ChunkAt | rust/defmi-avalanche-vm/src/state_store.rs:636-652 | Each piece is the slice at its index times the size, with the expected length. |
| Chunking.ChunksConcat | rust/defmi-avalanche-vm/src/state_store.rs:334-366 | Pieces of the expected lengths are the pieces of what they join to. |
| ByteLayouts.BigEndian | rust/defmi-avalanche-vm/src/block.rs:37-56 | Numbers are written most significant byte first. |
| ByteLayouts.BlockLayout | rust/defmi-avalanche-vm/src/block.rs:37-56 | Where magic, parent, time, height, count and transactions sit in a block's bytes. |
| ByteLayouts.BlockLimits | rust/defmi-avalanche-vm/src/block.rs:17-100 | What the block decoder lets through: 32 transactions of 1 byte to 1 MiB, 1.5 MiB in all, no time before zero. |
| ByteLayouts.SummaryLayout | rust/defmi-avalanche-vm/src/state_sync.rs:55-79 | Where every field of a summary sits in its 270 bytes. |
| ByteLayouts.SummaryLimits | rust/defmi-avalanche-vm/src/state_sync.rs:81-146 | What the summary decoder lets through: one count of 512 KiB chunks for the length, and no identifier left blank. |
| ByteLayouts.ResponseLayout | rust/defmi-avalanche-vm/src/state_sync.rs:313-340 | Where every field of an answer sits. |
| ByteLayouts.ResponseLimits | rust/defmi-avalanche-vm/src/state_sync.rs:313-375 | What the answer decoder lets through. |
| ByteLayouts.ManifestLayout | rust/defmi-avalanche-vm/src/state_store.rs:129-158 | Where every field of a manifest sits. |
| ByteLayouts.ManifestLimits | rust/defmi-avalanche-vm/src/state_store.rs:160-200 | What the manifest decoder lets through: at most 512 MiB in at most 64 pieces of 8 MiB. |
| ByteLayouts.SnapshotLayout | rust/defmi-avalanche-vm/src/state_sync.rs:161-210 | A snapshot is magic, two lengths, block and state. |
| ByteLayouts.ObligationLayout | rust/defmi/src/ccp.rs:72-86 | The parties of an obligation sign payer, payee and asset behind their lengths and then the amount. |
| ByteLayouts.NovationLayout | rust/defmi/src/ccp.rs:212-229 | The house signs cycle, house and asset behind their lengths and then the trades. |
| ByteLayouts.AccountRowBytes | rust/defmi/src/chain.rs:330-345 | An account row under the root is length, handle and commitment; a nullifier row is nullifier and deadline. |
| ByteLayouts.EscrowRowBytes | rust/defmi/src/chain.rs:345-355 | An escrow row is leg, payer and payee behind their lengths, then the held commitment and the deadline. |
| ConsensusHost.TipIsReplay | rust/defmi-avalanche-vm/src/vm.rs:678-730 | The state of any block the host vouches for is a trusted state, genesis or a synchronised one, with every transaction since folded over it, each taking effect once. |
| ConsensusHost.Runtime.TipFromGenesis | rust/defmi-avalanche-vm/src/vm.rs:678-730 | While nothing but genesis is trusted, the tip's state is the genesis state with exactly the accepted blocks folded over it, each transaction taking effect once. |
| ConsensusHost.Runtime.ServeAll | rust/defmi-avalanche-vm/src/vm.rs:2413-3190 | That holds after any requests in any order and at any times: transactions submitted, blocks built, verified, preferred, accepted and rejected. |
| ConsensusHost.ChainReplays | rust/defmi-avalanche-vm/src/vm.rs:3081-3087 | While no block has two states, every accepted state is the oldest one with exactly the accepted blocks folded over it, and every receipt is the one this gives. |
| ConsensusHost.ProposalRuns | rust/defmi-avalanche-vm/src/vm.rs:2546-2607 | The block a proposer makes follows its parent, is dated now or, if later, like its parent, and replays on the parent's state to the state and receipts the proposer computed. |
| ConsensusHost.OnePerHeight | rust/defmi-avalanche-vm/src/vm.rs:691-693 | Two accepted blocks share a height exactly at the largest 64-bit height, where the saturating count stops moving. |
| ConsensusHost.TimesRise | rust/defmi-avalanche-vm/src/vm.rs:691-697 | Along the accepted chain time never goes back and every block names the one before it. |
| ConsensusHost.JournalExact | rust/defmi-avalanche-vm/src/vm.rs:3117-3131 | Every receipt of a block is filed under its own transaction with the block, and all other entries stay. |
| ConsensusHost.WithoutJoins | rust/defmi-avalanche-vm/src/vm.rs:3139-3148 | Dropping transactions from a pool works piece by piece and keeps the order. |
| ConsensusHost.PoolRetain | rust/defmi-avalanche-vm/src/vm.rs:3139-3148 | Dropping transactions from the pool keeps pool, pending set and processing set consistent. |
| Ledger.DerivedIsReplay | rust/defmi-avalanche-vm/src/state.rs:1136-1171 | A state that a block has through its parents is a trusted state with the whole path since replayed over it. |
| Ledger.GenesisCoherent | rust/defmi-avalanche-vm/src/vm.rs:678-730 | Nodes that only execute blocks from one genesis give every block the same state. |
| Ledger.ChainOnce | rust/defmi-avalanche-vm/src/state.rs:1136-1171 | Over a whole chain every transaction takes effect once and the transition count counts exactly them. |
| Ledger.ReplayOnce | rust/defmi-avalanche-vm/src/state.rs:1136-1171 | Within a block no transaction repeats one applied before, and the receipts name the transactions in order. |
| Ledger.HeightsDistinct | rust/defmi-avalanche-vm/src/vm.rs:691-693 | Heights along a path are distinct exactly below the largest 64-bit number. |
| Ledger.DrainReplays | rust/defmi-avalanche-vm/src/vm.rs:2571-2607 | What a proposer drains from its pool replays, on the same parent state, to the state and receipts it computed. |
| Ledger.DrainExact | rust/defmi-avalanche-vm/src/vm.rs:2571-2607 | A drain takes, in order, exactly those transactions of the front of the pool that apply to the state reached by the ones taken before, drops the others, and stops only for want of room or at the end of the pool. |
| Ledger.DrainEmpty | rust/defmi-avalanche-vm/src/vm.rs:2571-2607 | Nothing is drained exactly when no transaction of the pool applies. |
| Ledger.ReceiptsChain | rust/defmi-avalanche-vm/src/state.rs:1160-1171 | Every receipt names its own transaction and carries the roots of the states just before and just after it, so consecutive receipts chain. |
| ConsensusHost.Runtime.VerifyCandidate | rust/defmi-avalanche-vm/src/vm.rs:678-730 | A block is verified exactly when it was already, or follows a loadable parent in height and time, is at most ten seconds ahead and executes on it; it then has the state and receipts that execution gives. |
| ConsensusHost.Runtime.Enqueue | rust/defmi-avalanche-vm/src/vm.rs:732-790 | A well-formed transaction joins the back of the pool exactly when it is not known, there is room and, if it is gossiped and of a kind admitted optimistically, it applies to the tip; a known one is answered without change. |
| ConsensusHost.Runtime.Select | rust/defmi-avalanche-vm/src/vm.rs:2571-2607 | Draining the pool gives exactly the transactions that apply one after another, the state and receipts they lead to, and the rest of the pool. |
| ConsensusHost.Runtime.BuildBlock | rust/defmi-avalanche-vm/src/vm.rs:2546-2632 | A block is built exactly when the preferred parent loads, the node is in normal operation and the drain is non-empty and encodable; any node verifying it agrees. |
| ConsensusHost.Runtime.Accept | rust/defmi-avalanche-vm/src/vm.rs:3062-3157 | Accept extends chain, database, height index and receipt journal by exactly the verified block, if and only if it extends the tip and its state can be staged, files each receipt under its own transaction, and clears its transactions from the pool; what is trusted and the operation mode stay, and otherwise nothing changes. |
| ConsensusHost.Runtime.Reject | rust/defmi-avalanche-vm/src/vm.rs:3159-3190 | Reject drops the block and puts back, ahead of the pool and in order, every transaction neither applied nor pending. |
| ConsensusHost.Runtime.Install | rust/defmi-avalanche-vm/src/vm.rs:585-658 | Installing a synchronised block makes it the tip and empties pool, pending, processing and verified, if and only if the host admits its state and the state can be staged; chain and receipts stay consistent whatever state it has. |
| ConsensusHost.Runtime.LoadBlock | rust/defmi-avalanche-vm/src/vm.rs:363-396 | A block loads exactly if it is the tip, verified, or stored with a state that the store reads back and the host admits, and is one the host vouches for. |
| ConsensusHost.Runtime.SetPreference | rust/defmi-avalanche-vm/src/vm.rs:2670-2682 | Preference moves exactly to blocks that load. |
| ConsensusHost.Execute | rust/defmi-avalanche-vm/src/vm.rs:709-721 | The block loop computes the replay; the first refusal refuses the block. |
| StoreObject.Store.Stage | rust/defmi-avalanche-vm/src/state_store.rs:270-299 | Staging returns the state's head, or leaves every head ever returned readable if it breaks off after any write; it succeeds whenever the state fits a manifest and the database completes as many writes as the state has pieces. |
| StoreObject.Store.StageAll | rust/defmi-avalanche-vm/src/state_store.rs:270-299 | Over any number of stagings, each in a fresh process whose database breaks off after any number of writes, every head there was and every head returned is kept with its own state; a staging that fits fails only for lack of writes. |
| StoreObject.Store.Load | rust/defmi-avalanche-vm/src/state_store.rs:301-332 | A head ever returned loads to exactly its own state, if and only if that state holds at most 512 proof chunks; a loaded state always has its manifest's length and digest; a head of the older form, without a manifest, loads as the state it encodes. |
| StoreObject.StoredUnique | rust/defmi-avalanche-vm/src/state_store.rs:301-332 | One database holds at most one state behind a head. |
| StoreObject.Store.PutImmutable | rust/defmi-avalanche-vm/src/state_store.rs:369-378 | An entry that is there is left alone; with no colliding digests it already holds the bytes. |
| StoreObject.Store.StageUpload | rust/defmi-avalanche-vm/src/state_store.rs:420-451 | Leaving out the blobs that the previous head holds still leaves every blob of the state in the database. |
| StoreObject.Store.Inherited | rust/defmi-avalanche-vm/src/state_store.rs:406-418 | Every digest taken over from the previous head names a blob that is in the database. |
| StoreObject.ProjectionFilled | rust/defmi-avalanche-vm/src/state_store.rs:433-445 | Putting the stored blobs back into a projected state gives the state. |
| StateStore.StoredGrows | rust/defmi-avalanche-vm/src/state_store.rs:369-378 | What is stored behind a head stays stored as the database grows. |
| StateStore.LoadPayload | rust/defmi-avalanche-vm/src/state_store.rs:334-366 | The loop reads the payload back exactly when every chunk is there with its length and digest and the whole has its digest. |
| StateStore.Describe | rust/defmi-avalanche-vm/src/state_store.rs:519-575 | One descriptor per proof chunk, refused exactly when a reference is not canonical or there are more than 512. |
| StateStore.FetchBlobs | rust/defmi-avalanche-vm/src/state_store.rs:480-498 | Every blob is read once, under its own digest, or one is missing or has the wrong length. |
| StateStore.Fill | rust/defmi-avalanche-vm/src/state_store.rs:499-514 | Every described slot gets its own bytes back and nothing else changes. |
| StateStore.Rehydrate | rust/defmi-avalanche-vm/src/state_store.rs:468-516 | A projection is read back as its state when every blob is there and there are 1 to 512 of them, and never outside those numbers. |
| StoredProofs.ReceivedBound | rust/defmi-avalanche-vm/src/research_cocode.rs:618-646 | Uploads that the state check accepts hold at most 515 proof chunks between them. |
| StoredProofs.BudgetOverflowsReader | rust/defmi-avalanche-vm/src/research_cocode.rs:772-878 | From the empty state, by the state's own operations, four books each receive one whole upload; the limits admit all four, and together they hold 515 proof chunks. |
| StoredProofs.StageAndLoad | rust/defmi-avalanche-vm/src/state_store.rs:270-332 | A state with the proof chunks of any research state in good order is staged, and its head then loads exactly when the uploads hold at most 512 chunks between them. |
| ResearchBooks.AssembleOfCut | rust/defmi-avalanche-vm/src/research_cocode.rs:292-309 | The chunks cut from a proof, in order, assemble to that proof. |
| ResearchBooks.Assemble | rust/defmi-avalanche-vm/src/research_cocode.rs:509-524 | The loop assembles a complete upload or gives the program's error. |
| ResearchBooks.ChainsExtend | rust/defmi-avalanche-vm/src/research_cocode.rs:907-927 | The receipt that moves a book to its next commitment extends that book's chain and no other. |
| ResearchBooks.HistoryExact | rust/defmi-avalanche-vm/src/research_cocode.rs:743-804 | A book at sequence n has exactly one receipt for each number from 1 to n, and none beyond. |
| ResearchBooks.ChainExtends | rust/defmi-avalanche-vm/src/research_cocode.rs:915-929 | A receipt that follows a book's last one extends its chain; the book then names that receipt's commitment, number, operation and proof. |
| ResearchBooks.GenesisExact | rust/defmi-avalanche-vm/src/research_cocode.rs:177-205 | A book is between four different accounts, two in each of two different assets. |
| ResearchBooks.PolicyExact | rust/defmi-avalanche-vm/src/research_cocode.rs:94-116 | A policy is valid exactly with seven parties, two corrupt, 256 MiB proofs in 512 KiB chunks, and a roster pin exactly for the agreed protocol. |
| ResearchState.ResearchCoCodeState.InsertPolicy | rust/defmi-avalanche-vm/src/research_cocode.rs:772-782 | A policy is added exactly when valid, new and within the limit. |
| ResearchState.ResearchCoCodeState.InsertBook | rust/defmi-avalanche-vm/src/research_cocode.rs:784-804 | A book opens at its genesis commitment exactly when valid, new, within the limit and under a known policy. |
| ResearchState.ResearchCoCodeState.Begin | rust/defmi-avalanche-vm/src/research_cocode.rs:806-855 | An upload begins exactly when it is not stale, its book is idle, its identifier is new and the byte budget allows; the state stays well formed. |
| ResearchState.ResearchCoCodeState.Append | rust/defmi-avalanche-vm/src/research_cocode.rs:857-878 | A chunk is taken exactly when it is well formed and next in line for its manifest. |
| ResearchState.ResearchCoCodeState.VerifyAndCommit | rust/defmi-avalanche-vm/src/research_cocode.rs:880-929 | A book moves exactly when its complete upload is current and its proof convinces; the receipt becomes the next link of the book's chain and nothing else changes. |
| ResearchState.ResearchCoCodeState.UploadWhole | rust/defmi-avalanche-vm/src/research_cocode.rs:969-977 | Begin and then every chunk cut from a proof: all are taken and the upload assembles to the proof. |
| ResearchState.ResearchCoCodeState.ReservedBytes | rust/defmi-avalanche-vm/src/research_cocode.rs:806-826 | The loop adds the declared lengths of all active uploads. |
| ResearchState.UploadsAfterCommit | rust/defmi-avalanche-vm/src/research_cocode.rs:618-646 | Settling one upload leaves every other upload current, because no two are on one book. |
| ResearchState.GoodAfterCommit | rust/defmi-avalanche-vm/src/research_cocode.rs:584-658 | A commit keeps every part of the state check, the receipt chains and the rule that each receipt is backed by an accepted proof of its digest. |
| ResearchState.GoodAfterBegin | rust/defmi-avalanche-vm/src/research_cocode.rs:584-658 | A begun upload keeps every part of the state check and the receipt chains. |
| ResearchState.GoodAfterAppend | rust/defmi-avalanche-vm/src/research_cocode.rs:485-507 | An appended chunk keeps the upload a canonical prefix and the state well formed. |
| ResearchState.ForeignChunk | rust/defmi-avalanche-vm/src/research_cocode.rs:857-878 | A chunk cut for another proof, book or deployment, or out of turn, is not taken. |
| ResearchState.GoodLimits | rust/defmi-avalanche-vm/src/research_cocode.rs:584-658 | The limits on policies, books, uploads, bytes, chunks and receipts that every reachable state keeps. |
| AssetProof.Complete | rust/defmi/src/confidential_assets.rs:137-201 | Every proof built from a witness is accepted, for every cohort, position and randomness. |
| AssetProof.Extract | rust/defmi/src/confidential_assets.rs:203-241 | Two answers to the same announcements with different challenge sums give a witness at one position for both the tag and the instruction. |
| AssetProof.Forked | rust/defmi/src/confidential_assets.rs:203-241 | The same for two accepted proofs under challenge hashes that answer the announcements differently. |
| AssetProof.Reproduced | rust/defmi/src/confidential_assets.rs:137-201 | Every accepted proof is what the honest prover writes from any witness at any position, so a proof does not tell which asset it is for. |
| AssetProof.ChallengeExact | rust/defmi/src/confidential_assets.rs:203-241 | A proof verifies exactly when the cohort is valid, the tag is not the identity, the lengths fit and the challenges it carries add up to the hash of cohort, tag, instruction, context and the reconstructed announcements. |
| AssetProof.StatementBound | rust/defmi/src/confidential_assets.rs:106-130 | A proof that verifies for two statements makes the challenge hash agree on two different inputs. |
| AssetProof.ContextBound | rust/defmi/src/confidential_assets.rs:106-130 | If the statements differ only in the context, so do the two inputs. |
| AssetProof.CohortExact | rust/defmi/src/confidential_assets.rs:52-63 | A cohort is valid exactly with 2 to 64 assets in strictly rising byte order, none of them blank. |
| AssetProof.CoinsFixed | rust/defmi/src/confidential_assets.rs:168-195 | By exactly one choice of the randomness. |
| AssetProof.Prove | rust/defmi/src/confidential_assets.rs:137-201 | A proof comes out exactly when the statement is well formed and the witness fits, and it then verifies; it is the honest proof of the asset's own position. |
| AssetProof.Verify | rust/defmi/src/confidential_assets.rs:203-241 | The loop accepts exactly the proofs whose scalars are canonical and whose challenges add up to the hash of the reconstructed announcements. |
| AssetProof.Simulate | rust/defmi/src/confidential_assets.rs:170-183 | The loop simulates every position but the selected one. |
| AssetProof.Find | rust/defmi/src/confidential_assets.rs:149-152 | The search finds a registered asset at its only position, and nothing else. |
| ChainSpec.PruningInvisible | rust/defmi/src/chain.rs:318-322 | With a clock that does not go back and one deadline per nullifier, a contract that prunes at any times gives every call the reply of one that never prunes, and has the same accounts and escrows. |
| ChainSpec.PruningExact | rust/defmi/src/chain.rs:167-198 | Over any run, every call that is not a prune gets the reply of a contract that never prunes exactly when no settlement inside its deadline names a nullifier recorded before with a deadline that a prune since has passed. |
| ChainSpec.SettlesOnce | rust/defmi/src/chain.rs:167-198 | No instruction settles twice in a run where no in-time settlement names a recorded nullifier that was pruned since. |
| ChainSpec.SettleAgrees | rust/defmi/src/chain.rs:174-179 | A pruned contract answers a settlement differently exactly when it has forgotten a nullifier that is named with a deadline not yet passed. |
| ChainSpec.PruningForgets | rust/defmi/src/chain.rs:318-322 | If a nullifier comes back with a later deadline after a prune, the instruction settles a second time. |
| ChainSpec.SettlementsCommute | rust/defmi/src/chain.rs:187-191 | Two enabled settlements of different instructions reach the same state in either order exactly when they agree on every account both move. |
| ChainSpec.LegsBalance | rust/defmi/src/chain.rs:212-312 | The legs parked at the end are those parked at the start, plus every accepted preparation, less every claim and unwinding: a leg is released at most once per parking. |
| ChainLegs.EscrowExact | rust/defmi/src/chain.rs:212-312 | Over any run a leg is parked with some terms exactly when a preparation set them, or it was so parked at the start, and nothing released it since. |
| ChainLegs.ClaimExact | rust/defmi/src/chain.rs:254-284 | A claim succeeds exactly while the leg is still parked and the deadline of the preparation that parked it has not passed; it credits that preparation's payee, ends the parking and changes nothing else. |
| ChainLegs.UnwindExact | rust/defmi/src/chain.rs:286-312 | An unwinding succeeds exactly once that deadline has passed; it returns the leg to that preparation's payer, ends the parking and changes nothing else. |
| ChainLegs.ClaimOrUnwind | rust/defmi/src/chain.rs:254-312 | At any time exactly one of the two succeeds for a parked leg, and neither for one that is not. |
| ChainLegs.PrepareExact | rust/defmi/src/chain.rs:212-252 | A preparation succeeds exactly for two known accounts and a leg not parked; of the accounts it replaces the payer's commitment only. |
| ChainLegs.SettleExact | rust/defmi/src/chain.rs:167-210 | A settlement succeeds exactly in time, with a nullifier not on record and known accounts only; it records the nullifier with its deadline and gives every moved account its last commitment. |
| ChainRoot.PreimageInjective | rust/defmi/src/chain.rs:330-356 | Two states give the root the same bytes exactly when they are the same state. |
| ChainRoot.InOrderAscending | rust/defmi/src/chain.rs:334-345 | Keys are written in ascending byte order. |
| ChainRoot.BeforeAt | rust/defmi/src/chain.rs:334-334 | Keys are ordered by their first difference, the smaller byte first, and a prefix before what extends it. |
| ChainRoot.AscendingUnique | rust/defmi/src/chain.rs:334-345 | There is only one such order, so the bytes depend on the state alone. |
| ChainContract.ChainState.SettleInstruction | rust/defmi/src/chain.rs:167-198 | Settling checks everything before it writes anything; a refusal leaves the state as it was. |
| ChainContract.ChainState.PrepareLeg | rust/defmi/src/chain.rs:212-244 | Parking a leg replaces the payer's commitment and records the escrow, or changes nothing. |
| ChainContract.ChainState.ClaimLeg | rust/defmi/src/chain.rs:254-280 | A leg goes to its payee up to its deadline, or nothing changes. |
| ChainContract.ChainState.UnwindLeg | rust/defmi/src/chain.rs:286-312 | A leg goes back to its payer after its deadline, or nothing changes. |
| ChainContract.ChainState.PruneExpired | rust/defmi/src/chain.rs:318-322 | Exactly the nullifiers whose deadline has passed are dropped, and counted. |
| ChainContract.ChainState.ServeAll | rust/defmi/src/chain.rs:143-322 | Over any calls the object gives exactly the states and replies that the properties of runs are about. |
| ChainContract.ChainState.RootBytes | rust/defmi/src/chain.rs:330-356 | The loops write exactly the bytes of the canonical form. |
| Clearing.CheckNovation | rust/defmi/src/ccp.rs:282-338 | The checker accepts exactly the house's own rewrite of the obligations. |
| Clearing.Novate | rust/defmi/src/ccp.rs:146-182 | The loop gives the rewrite, or refuses an empty or mixed graph. |
| Clearing.PositionsExact | rust/defmi/src/ccp.rs:362-378 | Every party other than the house has its original owed and claimed sums; the house has its own exactly when it owes nothing as a party. |
| Clearing.HouseAsPayer | rust/defmi/src/ccp.rs:365-370 | A house that pays another party as a principal finds the payment among its claims. |
| Clearing.PositionsBalance | rust/defmi/src/ccp.rs:362-378 | Owed positions add up to the obligations less what the house owes as a party, claimed positions to the obligations plus it. |
| Clearing.SidesEqual | rust/defmi/src/ccp.rs:362-378 | Total owed equals total claimed exactly when twice what the house owes is nothing, and both equal the total of the obligations when the house pays in none of them. |
| Clearing.NetParties | rust/defmi/src/ccp.rs:362-378 | The parties with a position are the parties of the original obligations. |
| Clearing.NetPositions | rust/defmi/src/ccp.rs:362-378 | The loop computes the positions. |
| Attestation.DigestInputInjective | rust/defmi/src/ccp.rs:212-228 | The signed bytes are the same exactly for the same cycle, house, asset and list of trades. |
| Attestation.PeelBody | rust/defmi/src/ccp.rs:72-86 | The bytes both parties sign belong to one obligation only. |

## Left out

- gRPC, HTTP, JSON-RPC, gossip, peer timeouts and logging of the host.
- The table of rejection reasons, which decides only what is reported. Which methods are admitted optimistically is a parameter.
- That no transaction is ever lost from the pool: a block that turns out too large to encode after its transactions were taken leaves them in the processing set.
- The refusal to start when a persisted synchronisation target is not ahead of the accepted block, and of an unspecified engine state.
- Interleaving of `install_state_summary` with `block_accept`: each is one step of the model.
- Database failures during `block_accept`: the batch is one step. Failures while a state is staged are modelled in the state store.
- `State::validate`, `State::root` and the execution of transactions: opaque.
- Serialised forms with JSON, base64 and hexadecimal: opaque encoders with an inverse; digests in the store are their text.
- The order in which rehydration meets two references to one blob with different declared lengths: the second length is not compared, as in the program, and no staged state has such a pair.
- Order of error reports where several checks fail and the program visits a map: the model visits it in any order.
- `Registry::root`, `Registry::blind`, point compression and the challenge hash of the asset proof: the challenge is an arbitrary function of what it hashes.
- `ChainState::balance`, `stored_bytes` and the other readers of the settlement contract, and `Observable`.
- Signing and checking agreements and attestations, default waterfalls and provider admission of the clearing house.
- Governance, genesis, recovery, notes, claim redemption, application settlement, command-line tools, benches and scripts.
- StateStore.Rehydrate: says when rehydration must succeed and what it then returns, not which error it gives.
