/**
 The node's consensus host: transaction pool, blocks under verification and the accepted chain.
 The database is a set of maps; that a stored state loads back unchanged is the business of the
 state store. Every operation keeps `Valid`, whatever the engine schedules.
 */
module ConsensusHost {
  import opened Numbers
  import opened Results
  import opened Wire
  import opened Ledger

  import BlockCodec

  const MAX_MEMPOOL_TRANSACTIONS := 4_096
  const MAX_FUTURE_SKEW_SECONDS := 10

  datatype HostError = NotFound | Invalid | Failed

  /** The block has a byte form; which parent it names does not matter for that. */
  predicate Encodable(block: Block) {
    && block.timestamp <= I64_MAX
    && BlockCodec.Encodable(BlockCodec.Block(ZERO_HASH, block.timestamp, block.height, block.transactions))
  }

  /** A block whose links and state are those of its ancestry. */
  ghost predicate Sound<B(!new)>(engine: Engine<B>, origins: Origins<B>, v: Verified<B>) {
    Derives(engine, origins, v.block, v.state)
  }

  /** The state and receipts of the block are those of its transactions on this state. */
  ghost predicate Runs<B>(engine: Engine<B>, before: State<B>, v: Verified<B>) {
    Replay(engine, before, v.block.transactions, v.block.timestamp) == Success((v.state, v.receipts))
  }

  /** A block together with the receipts its own transactions produce on its parent. */
  ghost predicate Executed<B(!new)>(engine: Engine<B>, origins: Origins<B>, v: Verified<B>) {
    && v.block.parent.Of? && Follows(v.block.parent.block, v.block)
    && exists before :: Derives(engine, origins, v.block.parent.block, before) && Runs(engine, before, v)
  }

  /** Executing a block on a sound parent gives a sound block. */
  lemma ChildSound<B(!new)>(engine: Engine<B>, origins: Origins<B>, parent: Verified<B>, v: Verified<B>)
    requires Sound(engine, origins, parent) && Follows(parent.block, v.block) && Runs(engine, parent.state, v)
    ensures Executed(engine, origins, v)
  {
    hide Derives;
  }

  lemma ExecutedSound<B(!new)>(engine: Engine<B>, origins: Origins<B>, v: Verified<B>)
    requires Executed(engine, origins, v)
    ensures Sound(engine, origins, v)
  {
    var before :| Derives(engine, origins, v.block.parent.block, before) && Runs(engine, before, v);
    assert LeadsTo(engine, before, v.block, v.state);
  }

  /** `pending` mirrors the pool, the pool repeats nothing, and nothing pending is also being processed. */
  ghost predicate PoolConsistent<B>(engine: Engine<B>, mempool: seq<Bytes>, pending: set<TxId>,
                                    processing: map<TxId, Bytes>)
  {
    && pending == TxIds(mempool)
    && NoRepeats(mempool)
    && pending !! processing.Keys
    && forall i | 0 <= i < |mempool| :: engine.decodes(mempool[i])
  }

  lemma PoolPop<B>(engine: Engine<B>, mempool: seq<Bytes>, pending: set<TxId>, processing: map<TxId, Bytes>)
    requires PoolConsistent(engine, mempool, pending, processing) && mempool != []
    ensures PoolConsistent(engine, mempool[1..], pending - {Digest(mempool[0])}, processing)
  {
    var rest := mempool[1..];
    forall id ensures id in pending - {Digest(mempool[0])} <==> id in TxIds(rest) {
      if id in pending && id != Digest(mempool[0]) {
        var i :| 0 <= i < |mempool| && id == Digest(mempool[i]);
        assert rest[i - 1] == mempool[i];
      }
      if id in TxIds(rest) {
        var i :| 0 <= i < |rest| && id == Digest(rest[i]);
        assert mempool[i + 1] == rest[i];
      }
    }
    forall i, j | 0 <= i < j < |rest| ensures rest[i] != rest[j] {
      assert mempool[i + 1] != mempool[j + 1];
    }
  }

  lemma PoolPush<B>(engine: Engine<B>, mempool: seq<Bytes>, pending: set<TxId>, processing: map<TxId, Bytes>, tx: Bytes)
    requires PoolConsistent(engine, mempool, pending, processing)
    requires engine.decodes(tx) && Digest(tx) !in pending && Digest(tx) !in processing
    ensures PoolConsistent(engine, mempool + [tx], pending + {Digest(tx)}, processing)
    ensures PoolConsistent(engine, [tx] + mempool, pending + {Digest(tx)}, processing)
  {
    assert forall i | 0 <= i < |mempool| :: Digest(mempool[i]) in TxIds(mempool);
    JoinOnce(mempool, [tx]);
    JoinOnce([tx], mempool);
    assert TxIds([tx]) == {Digest(tx)} by {
      assert [tx][0] == tx;
    }
  }

  function Without(pool: seq<Bytes>, ids: set<TxId>): seq<Bytes> {
    if pool == [] then []
    else (if Digest(pool[0]) in ids then [] else [pool[0]]) + Without(pool[1..], ids)
  }

  /** Dropping works one transaction at a time and keeps the order. */
  lemma {:induction false} WithoutJoins(a: seq<Bytes>, b: seq<Bytes>, ids: set<TxId>)
    ensures Without(a + b, ids) == Without(a, ids) + Without(b, ids)
    decreases |a|
  {
    if a == [] {
      assert a + b == b;
    } else {
      WithoutJoins(a[1..], b, ids);
      assert (a + b)[1..] == a[1..] + b && (a + b)[0] == a[0];
      var head := if Digest(a[0]) in ids then [] else [a[0]];
      assert Without(a + b, ids) == head + Without(a[1..] + b, ids);
      assert Without(a, ids) == head + Without(a[1..], ids);
      hide Without;
      assert head + (Without(a[1..], ids) + Without(b, ids)) == head + Without(a[1..], ids) + Without(b, ids);
    }
  }

  lemma WithoutOne(tx: Bytes, ids: set<TxId>)
    ensures Without([tx], ids) == if Digest(tx) in ids then [] else [tx]
  {
    assert [tx][1..] == [];
  }

  lemma {:induction false} PoolRetain<B>(engine: Engine<B>, mempool: seq<Bytes>, ids: set<TxId>)
    requires NoRepeats(mempool) && forall i | 0 <= i < |mempool| :: engine.decodes(mempool[i])
    ensures PoolConsistent(engine, Without(mempool, ids), TxIds(mempool) - ids, map[])
    decreases |mempool|
  {
    if mempool != [] {
      var first, rest := mempool[0], mempool[1..];
      PoolPop(engine, mempool, TxIds(mempool), map[]);
      PoolRetain(engine, rest, ids);
      var all, less, d := TxIds(mempool), TxIds(rest), Digest(first);
      assert mempool[0] == first && d in all && all - {d} == less;
      assert NoRepeats(rest) && engine.decodes(first);
      hide PoolConsistent, TxIds, NoRepeats;
      if d in ids {
        assert all - ids == less - ids;
        assert Without(mempool, ids) == Without(rest, ids);
      } else {
        assert d !in less - ids && all - ids == (less - ids) + {d};
        PoolPush(engine, Without(rest, ids), less - ids, map[], first);
      }
    }
  }

  lemma NothingReturned(txs: seq<Bytes>, skip: set<TxId>, pool: seq<Bytes>)
    ensures Without(txs[|txs|..], skip) + pool == pool && TxIds(txs[|txs|..]) == {}
  {
    assert txs[|txs|..] == [] && Without([], skip) == [];
  }

  /** One more transaction from the back of a block. */
  lemma ReturnOne(txs: seq<Bytes>, i: nat, skip: set<TxId>)
    requires NoRepeats(txs) && i < |txs|
    ensures TxIds(txs[i..]) == {Digest(txs[i])} + TxIds(txs[i + 1..]) && Digest(txs[i]) !in TxIds(txs[i + 1..])
    ensures Without(txs[i..], skip) == (if Digest(txs[i]) in skip then [] else [txs[i]]) + Without(txs[i + 1..], skip)
  {
    var tail, rest := txs[i..], txs[i + 1..];
    assert tail == [txs[i]] + rest && tail[1..] == rest;
    forall k | 0 <= k < |rest|
      ensures tail[k + 1] == rest[k] && rest[k] != txs[i]
    {
      assert rest[k] == txs[i + 1 + k];
    }
    assert tail[0] == txs[i];
  }

  // ----- the accepted chain ------------------------------------------------------------------

  /** Everything in the database is a block of the ancestry with its own state. */
  ghost predicate Stored<B(!new)>(engine: Engine<B>, origins: Origins<B>, blocks: map<Id, Block>,
                                  states: map<Id, State<B>>)
  {
    && blocks.Keys == states.Keys
    && forall id | id in blocks ::
         id == Of(blocks[id]) && Sound(engine, origins, Verified(blocks[id], states[id], []))
  }

  /** The accepted blocks form one chain: each sound, each following the one before, each in the database. */
  ghost predicate Chained<B(!new)>(engine: Engine<B>, origins: Origins<B>, accepted: seq<Verified<B>>,
                                   blocks: map<Id, Block>)
  {
    && accepted != []
    && (forall i | 0 <= i < |accepted| ::
          Sound(engine, origins, accepted[i]) && Of(accepted[i].block) in blocks)
    && (forall i | 0 < i < |accepted| :: Follows(accepted[i - 1].block, accepted[i].block))
    && (forall i | 0 < i < |accepted| :: Executed(engine, origins, accepted[i]))
  }

  /** The height index names the accepted block of every height that is not the largest, and the tip. */
  ghost predicate Indexed<B>(accepted: seq<Verified<B>>, heights: map<U64, Id>) {
    forall i | 0 <= i < |accepted| ::
      accepted[i].block.height < U64_MAX || i == |accepted| - 1 ==>
        accepted[i].block.height in heights && heights[accepted[i].block.height] == Of(accepted[i].block)
  }

  lemma {:induction false} HeightsRise<B>(accepted: seq<Verified<B>>, i: nat, j: nat)
    requires i <= j < |accepted|
    requires forall k | 0 < k < |accepted| :: Follows(accepted[k - 1].block, accepted[k].block)
    ensures accepted[i].block.height <= accepted[j].block.height
  {
    if i < j {
      HeightsRise(accepted, i, j - 1);
    }
  }

  lemma IndexExtends<B>(accepted: seq<Verified<B>>, heights: map<U64, Id>, v: Verified<B>)
    requires accepted != [] && Indexed(accepted, heights)
    requires forall k | 0 < k < |accepted| :: Follows(accepted[k - 1].block, accepted[k].block)
    requires v.block.height == Successor(accepted[|accepted| - 1].block.height)
    ensures Indexed(accepted + [v], heights[v.block.height := Of(v.block)])
  {
    forall i | 0 <= i < |accepted| ensures accepted[i].block.height <= accepted[|accepted| - 1].block.height {
      HeightsRise(accepted, i, |accepted| - 1);
    }
  }

  /** Database and history agree on one indexed chain. */
  ghost predicate Recorded<B(!new)>(engine: Engine<B>, origins: Origins<B>, accepted: seq<Verified<B>>,
                              blocks: map<Id, Block>, states: map<Id, State<B>>, heights: map<U64, Id>)
  {
    Stored(engine, origins, blocks, states) && Chained(engine, origins, accepted, blocks) && Indexed(accepted, heights)
  }

  lemma ChainedNext<B(!new)>(engine: Engine<B>, origins: Origins<B>, accepted: seq<Verified<B>>,
                             blocks: map<Id, Block>, v: Verified<B>)
    requires Chained(engine, origins, accepted, blocks)
    requires Executed(engine, origins, v) && Sound(engine, origins, v)
    requires Follows(accepted[|accepted| - 1].block, v.block)
    ensures Chained(engine, origins, accepted + [v], blocks[Of(v.block) := v.block])
  {
    hide Executed, Sound, Follows;
    var longer := accepted + [v];
    forall i | 0 < i < |longer|
      ensures Follows(longer[i - 1].block, longer[i].block) && Executed(engine, origins, longer[i])
    {
    }
  }

  lemma StoredNext<B(!new)>(engine: Engine<B>, origins: Origins<B>, blocks: map<Id, Block>, states: map<Id, State<B>>,
                            v: Verified<B>)
    requires Stored(engine, origins, blocks, states) && Sound(engine, origins, v)
    ensures Stored(engine, origins, blocks[Of(v.block) := v.block], states[Of(v.block) := v.state])
  {
    assert Sound(engine, origins, Verified(v.block, v.state, []));
    hide Sound;
  }

  lemma RecordNext<B(!new)>(engine: Engine<B>, origins: Origins<B>, accepted: seq<Verified<B>>,
                            blocks: map<Id, Block>, states: map<Id, State<B>>, heights: map<U64, Id>, v: Verified<B>)
    requires Recorded(engine, origins, accepted, blocks, states, heights)
    requires Executed(engine, origins, v) && v.block.parent == Of(accepted[|accepted| - 1].block)
    ensures Recorded(engine, origins, accepted + [v], blocks[Of(v.block) := v.block],
                     states[Of(v.block) := v.state], heights[v.block.height := Of(v.block)])
  {
    assert Follows(accepted[|accepted| - 1].block, v.block);
    ExecutedSound(engine, origins, v);
    hide Executed, Sound;
    ChainedNext(engine, origins, accepted, blocks, v);
    StoredNext(engine, origins, blocks, states, v);
    IndexExtends(accepted, heights, v);
    hide Chained, Stored, Indexed;
  }

  /** Trusting one more state keeps everything vouched for so far. */
  lemma SoundMore<B(!new)>(engine: Engine<B>, origins: Origins<B>, more: Origins<B>, v: Verified<B>)
    requires Sound(engine, origins, v) && origins <= more
    ensures Sound(engine, more, v)
  {
    DerivesMore(engine, origins, more, v.block, v.state);
  }

  lemma RecordInstalled<B(!new)>(engine: Engine<B>, origins: Origins<B>, accepted: seq<Verified<B>>,
                                 blocks: map<Id, Block>, states: map<Id, State<B>>, heights: map<U64, Id>,
                                 v: Verified<B>)
    requires Recorded(engine, origins, accepted, blocks, states, heights) && v.receipts == []
    ensures Recorded(engine, origins + {(v.block, v.state)}, [v], blocks[Of(v.block) := v.block],
                     states[Of(v.block) := v.state], heights[v.block.height := Of(v.block)])
  {
    var more := origins + {(v.block, v.state)};
    assert Sound(engine, more, v) && v == Verified(v.block, v.state, []);
    hide Sound, Derives;
    forall id | id in blocks
      ensures Sound(engine, more, Verified(blocks[id], states[id], []))
    {
      SoundMore(engine, origins, more, Verified(blocks[id], states[id], []));
    }
  }

  lemma VerifiedsRemove<B(!new)>(engine: Engine<B>, origins: Origins<B>, verified: map<Id, Verified<B>>, id: Id)
    requires Verifieds(engine, origins, verified)
    ensures Verifieds(engine, origins, verified - {id})
  {
  }

  lemma PoolForget<B>(engine: Engine<B>, mempool: seq<Bytes>, pending: set<TxId>, processing: map<TxId, Bytes>,
                      ids: set<TxId>)
    requires PoolConsistent(engine, mempool, pending, processing)
    ensures PoolConsistent(engine, mempool, pending, processing - ids)
  {
  }

  ghost predicate Verifieds<B(!new)>(engine: Engine<B>, origins: Origins<B>, verified: map<Id, Verified<B>>) {
    forall id | id in verified :: id == Of(verified[id].block) && Executed(engine, origins, verified[id])
  }

  function BlocksOf<B>(chain: seq<Verified<B>>): seq<Block> {
    seq(|chain|, i requires 0 <= i < |chain| => chain[i].block)
  }

  /** No two accepted blocks share a height, except at the largest 64-bit height, where all do. */
  lemma OnePerHeight<B(!new)>(engine: Engine<B>, origins: Origins<B>, accepted: seq<Verified<B>>,
                              blocks: map<Id, Block>, i: nat, j: nat)
    requires Chained(engine, origins, accepted, blocks) && i < j < |accepted|
    ensures accepted[i].block.height == accepted[j].block.height <==> accepted[i].block.height == U64_MAX
  {
    hide Executed, Sound;
    HeightsDistinct(BlocksOf(accepted), i, j);
  }

  /** Along the accepted chain time never goes back, and every block names the one before it. */
  lemma {:induction false} TimesRise<B(!new)>(engine: Engine<B>, origins: Origins<B>, accepted: seq<Verified<B>>,
                                             blocks: map<Id, Block>, i: nat, j: nat)
    requires Chained(engine, origins, accepted, blocks) && i <= j < |accepted|
    ensures accepted[i].block.timestamp <= accepted[j].block.timestamp
    ensures j > 0 ==> accepted[j].block.parent == Of(accepted[j - 1].block)
    decreases j
  {
    hide Executed, Sound;
    if j > 0 {
      assert Follows(accepted[j - 1].block, accepted[j].block);
      if i < j {
        TimesRise(engine, origins, accepted, blocks, i, j - 1);
      }
    }
  }

  /**
   The tip's state is a trusted state, the genesis state or that of a synchronised block, with every
   transaction since folded over it, each exactly once.
   */
  lemma TipIsReplay<B(!new)>(engine: Engine<B>, origins: Origins<B>, tip: Verified<B>)
      returns (path: seq<Block>, first: State<B>)
    requires Sound(engine, origins, tip)
    ensures Linked(path) && path[|path| - 1] == tip.block && (path[0], first) in origins
    ensures ReplayPath(engine, first, path) == Success(tip.state)
    ensures tip.state.applied == first.applied + TxIds(PathTransactions(path))
    ensures tip.state.transitions == first.transitions + |PathTransactions(path)|
    ensures NoRepeats(PathTransactions(path)) && TxIds(PathTransactions(path)) !! first.applied
  {
    path, first := DerivedIsReplay(engine, origins, tip.block, tip.state);
    ChainOnce(engine, first, path);
  }

  /**
   While no block has two states, the tip's state is the oldest accepted state with exactly the
   accepted blocks' transactions folded over it, and every receipt is the one this gives.
   */
  lemma {:induction false} ChainReplays<B(!new)>(engine: Engine<B>, origins: Origins<B>, accepted: seq<Verified<B>>,
                                                blocks: map<Id, Block>, n: nat)
    requires Chained(engine, origins, accepted, blocks) && Coherent(engine, origins) && 0 < n <= |accepted|
    ensures ReplayPath(engine, accepted[0].state, BlocksOf(accepted[..n])) == Success(accepted[n - 1].state)
    ensures n > 1 ==> Runs(engine, accepted[n - 2].state, accepted[n - 1])
    decreases n
  {
    if n > 1 {
      ChainReplays(engine, origins, accepted, blocks, n - 1);
      var v := accepted[n - 1];
      assert Executed(engine, origins, v) && Follows(accepted[n - 2].block, v.block);
      var before :| Derives(engine, origins, v.block.parent.block, before) && Runs(engine, before, v);
      assert Sound(engine, origins, accepted[n - 2]);
      assert before == accepted[n - 2].state;
      var path := BlocksOf(accepted[..n]);
      assert path[..|path| - 1] == BlocksOf(accepted[..n - 1]);
    }
  }

  function Later(a: nat, b: nat): nat {
    if a < b then b else a
  }

  /** The block a proposer makes: what it drains from its pool, on its parent, not before the parent's time. */
  function Proposal<B>(engine: Engine<B>, parent: Verified<B>, pool: seq<Bytes>, now: nat): Block {
    var timestamp := Later(now, parent.block.timestamp);
    Block(Of(parent.block), timestamp, Successor(parent.block.height),
          Drain(engine, parent.state, pool, timestamp, BlockCodec.MAX_TRANSACTIONS).txs)
  }

  /** The proposal replays to the drained state and receipts. */
  lemma ProposalRuns<B>(engine: Engine<B>, parent: Verified<B>, pool: seq<Bytes>, now: nat)
    ensures var block := Proposal(engine, parent, pool, now);
      var d := Drain(engine, parent.state, pool, block.timestamp, BlockCodec.MAX_TRANSACTIONS);
      && Follows(parent.block, block) && |block.transactions| <= BlockCodec.MAX_TRANSACTIONS
      && now <= block.timestamp && (block.timestamp == now || block.timestamp == parent.block.timestamp)
      && Runs(engine, parent.state, Verified(block, d.state, d.receipts))
  {
    var timestamp := Later(now, parent.block.timestamp);
    var d := Drain(engine, parent.state, pool, timestamp, BlockCodec.MAX_TRANSACTIONS);
    DrainReplays(engine, parent.state, [], parent.state, [], pool, timestamp, BlockCodec.MAX_TRANSACTIONS);
    assert [] + d.txs == d.txs && [] + d.receipts == d.receipts;
  }

  /** What the engine and the clients ask of a node between two synchronisations. */
  datatype Request =
    | Submit(tx: Bytes, gossip: bool)
    | Build
    | Verify(block: Block)
    | Prefer(id: Id)
    | AcceptBlock(id: Id)
    | RejectBlock(id: Id)
    | Operate(normal: bool)

  class Runtime<B(==, !new)> {
    const engine: Engine<B>

    // database
    var blocks: map<Id, Block>
    var states: map<Id, State<B>>
    var heights: map<U64, Id>
    var transactions: map<TxId, (Receipt, Id)>

    // runtime
    var normalOperation: bool
    var lastAccepted: Verified<B>
    var preferred: Id
    var verified: map<Id, Verified<B>>
    var mempool: seq<Bytes>
    var pending: set<TxId>
    var processing: map<TxId, Bytes>

    /** Every block accepted since start or since the last state sync, oldest first. */
    ghost var accepted: seq<Verified<B>>

    /** The genesis state and every synchronised one. */
    ghost var origins: Origins<B>

    ghost predicate Valid()
      reads this
    {
      && Recorded(engine, origins, accepted, blocks, states, heights)
      && accepted != [] && lastAccepted == accepted[|accepted| - 1]
      && Verifieds(engine, origins, verified)
      && PoolConsistent(engine, mempool, pending, processing)
    }

    constructor (engine: Engine<B>, genesis: Verified<B>)
      requires genesis.receipts == [] && engine.stages(genesis.state)
      ensures Valid() && accepted == [genesis] && origins == {(genesis.block, genesis.state)}
      ensures this.engine == engine && lastAccepted == genesis && preferred == Of(genesis.block)
      ensures mempool == [] && !normalOperation
    {
      this.engine := engine;
      var id := Of(genesis.block);
      blocks, states, heights := map[id := genesis.block], map[id := genesis.state], map[genesis.block.height := id];
      transactions, normalOperation := map[], false;
      lastAccepted, preferred, verified := genesis, id, map[];
      mempool, pending, processing := [], {}, map[];
      accepted, origins := [genesis], {(genesis.block, genesis.state)};
    }

    /** The engine says whether the node is in normal operation. */
    method SetState(normal: bool)
      requires Valid()
      modifies this`normalOperation
      ensures Valid() && normalOperation == normal
    {
      normalOperation := normal;
    }

    /** The tip, a verified block, or a stored block whose state the store reads back and the host admits. */
    function Loaded(id: Id): Option<Verified<B>>
      reads this
    {
      if id == Of(lastAccepted.block) then Some(lastAccepted) else
      if id in verified then Some(verified[id]) else
      if id in blocks && id in states && engine.loads(states[id]) && engine.admits(states[id])
      then Some(Verified(blocks[id], states[id], [])) else None
    }

    lemma LoadedSound(id: Id)
      requires Valid() && Loaded(id).Some?
      ensures Of(Loaded(id).value.block) == id && Sound(engine, origins, Loaded(id).value)
    {
      if id in verified {
        ExecutedSound(engine, origins, verified[id]);
      }
      hide Sound, Executed;
    }

    method LoadBlock(id: Id) returns (r: Result<Verified<B>, HostError>)
      requires Valid()
      ensures r.Success? <==> Loaded(id).Some?
      ensures r.Success? <==>
        || id == Of(lastAccepted.block) || id in verified
        || (id in blocks && id in states && engine.loads(states[id]) && engine.admits(states[id]))
      ensures id == Of(lastAccepted.block) ==> r == Success(lastAccepted)
      ensures r.Success? ==> Loaded(id) == Some(r.value) && Of(r.value.block) == id && Sound(engine, origins, r.value)
    {
      if Loaded(id).Some? {
        LoadedSound(id);
      }
      hide Recorded, Verifieds, PoolConsistent, Sound;
      if Of(lastAccepted.block) == id {
        return Success(lastAccepted);
      }
      if id in verified {
        return Success(verified[id]);
      }
      if id !in blocks || id !in states {
        return Failure(NotFound);
      }
      if !engine.loads(states[id]) || !engine.admits(states[id]) {
        return Failure(Failed);
      }
      return Success(Verified(blocks[id], states[id], []));
    }

    method SetPreference(id: Id) returns (r: Result<(), HostError>)
      requires Valid()
      modifies this`preferred
      ensures Valid()
      ensures r.Success? <==> Loaded(id).Some?
      ensures preferred == if r.Success? then id else old(preferred)
    {
      var block := LoadBlock(id);
      if block.Failure? {
        return Failure(block.error);
      }
      preferred := id;
      return Success(());
    }

    /** Already verified, or a block that follows a loadable parent in time and executes on it. */
    ghost predicate Verifiable(block: Block, now: nat)
      reads this
    {
      && Encodable(block)
      && (Of(block) in verified
          || (&& var parent := Loaded(block.parent);
              && parent.Some? && Follows(parent.value.block, block)
              && block.timestamp <= now + MAX_FUTURE_SKEW_SECONDS
              && Replay(engine, parent.value.state, block.transactions, block.timestamp).Success?))
    }

    /** Execute a proposed block on its parent; an already verified one is returned as it is. */
    method VerifyCandidate(block: Block, now: nat) returns (r: Result<Verified<B>, HostError>)
      requires Valid()
      modifies this`verified
      ensures Valid()
      ensures r.Success? <==> old(Verifiable(block, now))
      ensures r.Success? ==>
        && r.value.block == block && Executed(engine, origins, r.value)
        && verified == old(verified)[Of(block) := r.value]
      ensures r.Success? && Of(block) !in old(verified) ==>
        && block.timestamp <= now + 10 && old(Loaded(block.parent)).Some?
        && Runs(engine, old(Loaded(block.parent)).value.state, r.value)
      ensures r.Failure? ==> verified == old(verified)
    {
      hide Recorded, PoolConsistent, Replay, Encodable;
      if !Encodable(block) {
        return Failure(Invalid);
      }
      if Of(block) in verified {
        r := Success(verified[Of(block)]);
        assert verified[Of(block) := r.value] == verified;
        return;
      }
      var parent := LoadBlock(block.parent);
      if parent.Failure? {
        return Failure(parent.error);
      }
      if block.height != Successor(parent.value.block.height) || block.timestamp < parent.value.block.timestamp
         || block.timestamp > now + MAX_FUTURE_SKEW_SECONDS {
        return Failure(Invalid);
      }
      var outcome := Execute(engine, parent.value.state, block.transactions, block.timestamp);
      if outcome.Failure? {
        return Failure(Invalid);
      }
      var candidate := Verified(block, outcome.value.0, outcome.value.1);
      AddVerified(parent.value, candidate);
      return Success(candidate);
    }

    method AddVerified(parent: Verified<B>, v: Verified<B>)
      requires Valid() && Sound(engine, origins, parent) && Follows(parent.block, v.block)
      requires Runs(engine, parent.state, v)
      modifies this`verified
      ensures Valid() && Executed(engine, origins, v)
      ensures verified == old(verified)[Of(v.block) := v]
    {
      ChildSound(engine, origins, parent, v);
      hide Recorded, PoolConsistent, Executed;
      verified := verified[Of(v.block) := v];
    }

    /** A gossiped transaction of the kinds admitted optimistically has to apply to the tip as it stands. */
    predicate Premature(tx: Bytes, gossip: bool, now: nat)
      reads this
    {
      && gossip && engine.optimistic(tx)
      && Apply(engine, lastAccepted.state, tx, Later(now, lastAccepted.block.timestamp)).Failure?
    }

    method Enqueue(tx: Bytes, gossip: bool, now: nat) returns (r: Result<TxId, HostError>)
      requires Valid()
      modifies this`mempool, this`pending
      ensures Valid()
      ensures var known := Digest(tx) in old(pending) || Digest(tx) in processing;
        && (r.Success? <==> BlockCodec.ValidTransaction(tx) && engine.decodes(tx)
                            && (Digest(tx) in transactions
                                || (!Premature(tx, gossip, now)
                                    && (known || |old(mempool)| < MAX_MEMPOOL_TRANSACTIONS))))
        && (r.Success? ==> r.value == Digest(tx))
        && (r.Success? && Digest(tx) !in transactions && gossip && engine.optimistic(tx) ==>
              exists time | time == now || time == lastAccepted.block.timestamp ::
                time >= now && time >= lastAccepted.block.timestamp
                && Apply(engine, lastAccepted.state, tx, time).Success?)
        && (r.Failure? && BlockCodec.ValidTransaction(tx) && engine.decodes(tx)
              && !(gossip && engine.optimistic(tx)) ==>
              |old(mempool)| >= MAX_MEMPOOL_TRANSACTIONS)
        && mempool == (if r.Success? && Digest(tx) !in transactions && !known
                       then old(mempool) + [tx] else old(mempool))
    {
      hide Recorded, Verifieds, PoolConsistent, Apply;
      if !BlockCodec.ValidTransaction(tx) || !engine.decodes(tx) {
        return Failure(Invalid);
      }
      var id := Digest(tx);
      if id in transactions {
        return Success(id);
      }
      if Premature(tx, gossip, now) {
        return Failure(Invalid);
      }
      if id in pending || id in processing {
        return Success(id);
      }
      if |mempool| >= MAX_MEMPOOL_TRANSACTIONS {
        return Failure(Failed);
      }
      PoolPush(engine, mempool, pending, processing, tx);
      pending := pending + {id};
      mempool := mempool + [tx];
      return Success(id);
    }

    method PopFront() returns (tx: Bytes)
      requires Valid() && mempool != []
      modifies this`mempool, this`pending
      ensures Valid() && tx == old(mempool[0]) && mempool == old(mempool[1..])
      ensures pending == old(pending) - {Digest(tx)}
    {
      hide Recorded, Verifieds, PoolConsistent;
      tx := mempool[0];
      PoolPop(engine, mempool, pending, processing);
      mempool, pending := mempool[1..], pending - {Digest(tx)};
    }

    method MarkProcessing(tx: Bytes)
      requires Valid() && Digest(tx) !in pending
      modifies this`processing
      ensures Valid() && processing == old(processing)[Digest(tx) := tx]
    {
      assert PoolConsistent(engine, mempool, pending, processing[Digest(tx) := tx]);
      hide Recorded, Verifieds, PoolConsistent;
      processing := processing[Digest(tx) := tx];
    }

    /** Drain the pool onto a parent; refused transactions leave no trace in the block or its state. */
    method Select(parent: Verified<B>, timestamp: nat)
        returns (txs: seq<Bytes>, state: State<B>, receipts: seq<Receipt>)
      requires Valid()
      modifies this`mempool, this`pending, this`processing
      ensures Valid()
      ensures Drained(txs, state, receipts, mempool)
           == Drain(engine, parent.state, old(mempool), timestamp, BlockCodec.MAX_TRANSACTIONS)
      ensures processing.Keys == old(processing).Keys + TxIds(txs)
    {
      hide Apply, Recorded, Verifieds, PoolConsistent;
      txs, state, receipts := [], parent.state, [];
      while |txs| < BlockCodec.MAX_TRANSACTIONS && mempool != []
        invariant |txs| <= BlockCodec.MAX_TRANSACTIONS && Valid()
        invariant Drain(engine, parent.state, old(mempool), timestamp, BlockCodec.MAX_TRANSACTIONS)
               == Following(txs, receipts,
                   Drain(engine, state, mempool, timestamp, BlockCodec.MAX_TRANSACTIONS - |txs|))
        invariant processing.Keys == old(processing).Keys + TxIds(txs)
        decreases |mempool|
      {
        ghost var pool := mempool;
        var tx := PopFront();
        var outcome := Apply(engine, state, tx, timestamp);
        if outcome.Success? {
          MarkProcessing(tx);
          FollowingMore(txs, receipts, tx, outcome.value.1,
                        Drain(engine, outcome.value.0, mempool, timestamp, BlockCodec.MAX_TRANSACTIONS - |txs| - 1));
          IdsMore(txs, tx);
          txs := txs + [tx];
          state, receipts := outcome.value.0, receipts + [outcome.value.1];
        }
      }
      assert txs + [] == txs && receipts + [] == receipts;
    }

    /** A built block is one that any node verifying it on the same parent gives the same state and receipts. */
    method BuildBlock(now: nat) returns (r: Result<Verified<B>, HostError>)
      requires Valid()
      modifies this`mempool, this`pending, this`processing, this`verified
      ensures Valid()
      ensures old(Loaded(preferred)).None? ==> r.Failure?
      ensures old(Loaded(preferred)).Some? ==>
        var parent := old(Loaded(preferred)).value;
        var block := Proposal(engine, parent, old(mempool), now);
        && (r.Success? <==> normalOperation && block.transactions != [] && Encodable(block))
        && (r.Success? ==>
              && r.value.block == block && Runs(engine, parent.state, r.value) && Executed(engine, origins, r.value)
              && verified == old(verified)[Of(block) := r.value]
              && TxIds(block.transactions) <= processing.Keys)
      ensures r.Failure? ==> verified == old(verified)
    {
      hide Drain, Replay, Recorded, Verifieds, PoolConsistent, Encodable;
      var parent := LoadBlock(preferred);
      if parent.Failure? {
        return Failure(parent.error);
      }
      if !normalOperation {
        return Failure(Failed);
      }
      var timestamp := Later(now, parent.value.block.timestamp);
      ProposalRuns(engine, parent.value, mempool, now);
      var txs, state, receipts := Select(parent.value, timestamp);
      if txs == [] {
        return Failure(Failed);
      }
      var block := Block(Of(parent.value.block), timestamp, Successor(parent.value.block.height), txs);
      if !Encodable(block) {
        return Failure(Failed);
      }
      var built := Verified(block, state, receipts);
      AddVerified(parent.value, built);
      return Success(built);
    }

    /** Accept extends the chain by exactly the verified block, if and only if it extends the tip. */
    method Accept(id: Id) returns (r: Result<(), HostError>)
      requires Valid()
      modifies this
      ensures Valid()
      ensures r.Success? <==> id in old(verified) && old(verified)[id].block.parent == Of(old(lastAccepted).block)
                              && old(verified)[id].block.height == Successor(old(lastAccepted).block.height)
                              && engine.stages(old(verified)[id].state)
      ensures r.Success? ==> verified == old(verified) - {id}
      ensures r.Success? ==> old(Committed(verified[id])) == (accepted, blocks, states, heights, transactions)
      ensures r.Success? ==> preferred == id && lastAccepted == old(verified)[id]
      ensures r.Success? ==> forall i | 0 <= i < |lastAccepted.receipts| ::
        lastAccepted.receipts[i].txId in transactions
        && transactions[lastAccepted.receipts[i].txId] == (lastAccepted.receipts[i], id)
      ensures r.Success? ==> forall t | t in old(transactions) && t !in ReceiptIds(lastAccepted.receipts) ::
        t in transactions && transactions[t] == old(transactions)[t]
      ensures origins == old(origins) && normalOperation == old(normalOperation)
      ensures r.Success? ==> var ids := ReceiptIds(lastAccepted.receipts);
        && mempool == Without(old(mempool), ids) && pending == old(pending) - ids && processing == old(processing) - ids
      ensures r.Failure? ==> unchanged(this)
    {
      if id !in verified {
        return Failure(Failed);
      }
      var block := verified[id];
      if block.block.parent != Of(lastAccepted.block)
         || block.block.height != Successor(lastAccepted.block.height) {
        return Failure(Failed);
      }
      if !engine.stages(block.state) {
        return Failure(Failed);
      }
      ReceiptsDistinct(engine, origins, block);
      JournalExact(transactions, block.receipts, id);
      VerifiedsRemove(engine, origins, verified, id);
      verified := verified - {id};
      hide Recorded, Executed, Verifieds, PoolConsistent, ReceiptIds, Journal, Without;
      Commit(block);
      return Success(());
    }

    /** History and database with one more block. */
    ghost function Committed(v: Verified<B>):
      (seq<Verified<B>>, map<Id, Block>, map<Id, State<B>>, map<U64, Id>, map<TxId, (Receipt, Id)>)
      reads this
    {
      var id := Of(v.block);
      (accepted + [v], blocks[id := v.block], states[id := v.state], heights[v.block.height := id],
       Journal(transactions, v.receipts, id))
    }

    /** The database batch of an accepted block and the updates of the pool that go with it. */
    method Commit(block: Verified<B>)
      requires Valid() && Executed(engine, origins, block) && block.block.parent == Of(lastAccepted.block)
      modifies this
      ensures Valid() && verified == old(verified)
      ensures origins == old(origins) && normalOperation == old(normalOperation)
      ensures old(Committed(block)) == (accepted, blocks, states, heights, transactions)
      ensures preferred == Of(block.block) && lastAccepted == block
      ensures var ids := ReceiptIds(block.receipts);
        && mempool == Without(old(mempool), ids) && pending == old(pending) - ids && processing == old(processing) - ids
    {
      hide Recorded, Executed, Verifieds, PoolConsistent, ReceiptIds, Journal, Without;
      RemoveFromPool(ReceiptIds(block.receipts));
      Extend(block);
    }

    /** The database batch. */
    method Extend(block: Verified<B>)
      requires Recorded(engine, origins, accepted, blocks, states, heights)
      requires accepted != [] && lastAccepted == accepted[|accepted| - 1]
      requires Executed(engine, origins, block) && block.block.parent == Of(lastAccepted.block)
      modifies this`blocks, this`states, this`heights, this`transactions, this`lastAccepted, this`preferred,
               this`accepted
      ensures Recorded(engine, origins, accepted, blocks, states, heights)
      ensures accepted != [] && lastAccepted == accepted[|accepted| - 1]
      ensures old(Committed(block)) == (accepted, blocks, states, heights, transactions)
      ensures preferred == Of(block.block) && lastAccepted == block
    {
      hide Recorded, Executed, Journal;
      var id := Of(block.block);
      RecordNext(engine, origins, accepted, blocks, states, heights, block);
      blocks, states := blocks[id := block.block], states[id := block.state];
      heights := heights[block.block.height := id];
      transactions := Journal(transactions, block.receipts, id);
      lastAccepted, preferred := block, id;
      accepted := accepted + [block];
    }

    method RemoveFromPool(ids: set<TxId>)
      requires PoolConsistent(engine, mempool, pending, processing)
      modifies this`mempool, this`pending, this`processing
      ensures PoolConsistent(engine, mempool, pending, processing)
      ensures mempool == Without(old(mempool), ids)
      ensures pending == old(pending) - ids && processing == old(processing) - ids
    {
      PoolRetain(engine, mempool, ids);
      mempool, pending, processing := Without(mempool, ids), pending - ids, processing - ids;
    }

    /** Reject drops the block and puts back every transaction the tip has not applied. */
    method Reject(id: Id) returns (r: Result<(), HostError>)
      requires Valid()
      modifies this`verified, this`mempool, this`pending, this`processing
      ensures Valid()
      ensures r.Success? <==> id in old(verified)
      ensures r.Success? ==> verified == old(verified) - {id}
      ensures r.Success? ==> var txs := old(verified)[id].block.transactions;
        && mempool == Without(txs, lastAccepted.state.applied + old(pending)) + old(mempool)
        && processing == old(processing) - TxIds(txs)
      ensures r.Failure? ==> unchanged(this)
    {
      hide Recorded, PoolConsistent, Executed, Without, TxIds, NoRepeats;
      if id !in verified {
        return Failure(Failed);
      }
      var block := verified[id];
      ExecutedDecodes(engine, origins, block);
      VerifiedsRemove(engine, origins, verified, id);
      verified := verified - {id};
      Requeue(block.block.transactions);
      return Success(());
    }

    /** Back to front, so that the transactions come back ahead of the pool in their own order. */
    method Requeue(txs: seq<Bytes>)
      requires PoolConsistent(engine, mempool, pending, processing)
      requires NoRepeats(txs) && forall i | 0 <= i < |txs| :: engine.decodes(txs[i])
      modifies this`mempool, this`pending, this`processing
      ensures PoolConsistent(engine, mempool, pending, processing)
      ensures mempool == Without(txs, lastAccepted.state.applied + old(pending)) + old(mempool)
      ensures processing == old(processing) - TxIds(txs)
    {
      hide PoolConsistent, Without, TxIds;
      var applied := lastAccepted.state.applied;
      ghost var skip := applied + pending;
      NothingReturned(txs, skip, mempool);
      var i := |txs|;
      while i > 0
        invariant 0 <= i <= |txs| && PoolConsistent(engine, mempool, pending, processing)
        invariant mempool == Without(txs[i..], skip) + old(mempool)
        invariant pending == old(pending) + (TxIds(txs[i..]) - applied)
        invariant processing == old(processing) - TxIds(txs[i..])
      {
        i := i - 1;
        var tx := txs[i];
        var txId := Digest(tx);
        PoolForget(engine, mempool, pending, processing, {txId});
        ReturnOne(txs, i, skip);
        processing := processing - {txId};
        if txId !in applied && txId !in pending {
          PoolPush(engine, mempool, pending, processing, tx);
          pending := pending + {txId};
          mempool := [tx] + mempool;
        }
      }
      assert txs[0..] == txs;
    }

    /**
     Install a synchronised block and state, if the host admits the state and it can be staged, and
     forget everything that was under way. What is vouched for from then on may rest on the
     installed state.
     */
    method Install(block: Block, state: State<B>) returns (r: Result<(), HostError>)
      requires Valid()
      modifies this
      ensures Valid()
      ensures r.Success? <==> engine.admits(state) && engine.stages(state)
      ensures r.Success? ==>
        && accepted == [Verified(block, state, [])] && origins == old(origins) + {(block, state)}
        && lastAccepted == Verified(block, state, []) && preferred == Of(block)
        && mempool == [] && pending == {} && verified == map[] && processing == map[]
        && blocks == old(blocks)[Of(block) := block] && states == old(states)[Of(block) := state]
        && heights == old(heights)[block.height := Of(block)]
        && transactions == old(transactions) && normalOperation == old(normalOperation)
      ensures r.Failure? ==> unchanged(this)
    {
      hide Recorded, Verifieds, PoolConsistent;
      if !engine.admits(state) || !engine.stages(state) {
        return Failure(Failed);
      }
      ClearPool();
      Rebase(Verified(block, state, []));
      return Success(());
    }

    /** Make a trusted block the tip and the start of a new chain. */
    method Rebase(v: Verified<B>)
      requires Valid() && v.receipts == [] && verified == map[]
      modifies this`blocks, this`states, this`heights, this`lastAccepted, this`preferred, this`accepted, this`origins
      ensures Valid() && accepted == [v] && origins == old(origins) + {(v.block, v.state)}
      ensures lastAccepted == v && preferred == Of(v.block)
      ensures blocks == old(blocks)[Of(v.block) := v.block] && states == old(states)[Of(v.block) := v.state]
      ensures heights == old(heights)[v.block.height := Of(v.block)]
    {
      hide Recorded, Verifieds, PoolConsistent;
      var id := Of(v.block);
      RecordInstalled(engine, origins, accepted, blocks, states, heights, v);
      NoneVerified(engine, origins + {(v.block, v.state)});
      blocks, states, heights := blocks[id := v.block], states[id := v.state], heights[v.block.height := id];
      lastAccepted, preferred := v, id;
      accepted, origins := [v], origins + {(v.block, v.state)};
    }

    method ClearPool()
      requires Valid()
      modifies this`verified, this`mempool, this`pending, this`processing
      ensures Valid() && verified == map[] && mempool == [] && pending == {} && processing == map[]
    {
      hide Recorded, Verifieds, PoolConsistent;
      verified, mempool, pending, processing := map[], [], {}, map[];
      NoneVerified(engine, origins);
      EmptyPool(engine);
    }

    // ----- runs from genesis -----------------------------------------------------------------

    /** Nothing but genesis is trusted, and the accepted chain starts with it. */
    ghost predicate FromGenesis(genesis: Verified<B>)
      reads this
    {
      && origins == {(genesis.block, genesis.state)} && genesis.block.parent.Origin?
      && accepted != [] && accepted[0] == genesis
    }

    /**
     The tip's state is the genesis state with exactly the accepted blocks folded over it, in order,
     and each of their transactions takes effect once.
     */
    lemma TipFromGenesis(genesis: Verified<B>)
      requires Valid() && FromGenesis(genesis)
      ensures ReplayPath(engine, genesis.state, BlocksOf(accepted)) == Success(lastAccepted.state)
      ensures var txs := PathTransactions(BlocksOf(accepted));
        && lastAccepted.state.applied == genesis.state.applied + TxIds(txs)
        && lastAccepted.state.transitions == genesis.state.transitions + |txs|
        && TxIds(txs) !! genesis.state.applied && NoRepeats(txs)
    {
      assert Chained(engine, origins, accepted, blocks);
      assert lastAccepted == accepted[|accepted| - 1] && accepted[..|accepted|] == accepted;
      hide Recorded, Verifieds, PoolConsistent, Chained, ReplayPath;
      GenesisCoherent(engine, genesis.block, genesis.state);
      ChainReplays(engine, origins, accepted, blocks, |accepted|);
      ChainOnce(engine, genesis.state, BlocksOf(accepted));
    }

    method Serve(request: Request, now: nat, ghost genesis: Verified<B>)
      requires Valid() && FromGenesis(genesis)
      modifies this
      ensures Valid() && FromGenesis(genesis)
    {
      hide Recorded, Verifieds, PoolConsistent;
      match request
      case Submit(tx, gossip) => var _ := Enqueue(tx, gossip, now);
      case Build => var _ := BuildBlock(now);
      case Verify(block) => var _ := VerifyCandidate(block, now);
      case Prefer(id) => var _ := SetPreference(id);
      case AcceptBlock(id) => var _ := Accept(id);
      case RejectBlock(id) => var _ := Reject(id);
      case Operate(normal) => SetState(normal);
    }

    /** Whatever the engine asks for, in whatever order and at whatever times, that stays so. */
    method ServeAll(requests: seq<(Request, nat)>, ghost genesis: Verified<B>)
      requires Valid() && FromGenesis(genesis)
      modifies this
      ensures Valid() && FromGenesis(genesis)
      ensures ReplayPath(engine, genesis.state, BlocksOf(accepted)) == Success(lastAccepted.state)
      ensures NoRepeats(PathTransactions(BlocksOf(accepted)))
    {
      hide Recorded, Verifieds, PoolConsistent, FromGenesis;
      for i := 0 to |requests|
        invariant Valid() && FromGenesis(genesis)
      {
        Serve(requests[i].0, requests[i].1, genesis);
      }
      TipFromGenesis(genesis);
    }
  }

  lemma NoneVerified<B(!new)>(engine: Engine<B>, origins: Origins<B>)
    ensures Verifieds(engine, origins, map[])
  {
  }

  lemma EmptyPool<B>(engine: Engine<B>)
    ensures PoolConsistent(engine, [], {}, map[])
  {
  }

  /** The block loop of verification. */
  method Execute<B>(engine: Engine<B>, state: State<B>, txs: seq<Bytes>, timestamp: nat) returns (r: Replayed<B>)
    ensures r == Replay(engine, state, txs, timestamp)
  {
    var current, receipts := state, [];
    for i := 0 to |txs|
      invariant Replay(engine, state, txs[..i], timestamp) == Success((current, receipts))
    {
      ReplayAppend(engine, state, txs[..i], txs[i], timestamp);
      assert txs[..i + 1] == txs[..i] + [txs[i]];
      var outcome := Apply(engine, current, txs[i], timestamp);
      if outcome.Failure? {
        ReplayFails(engine, state, txs, i + 1, timestamp);
        return Failure(outcome.error);
      }
      current, receipts := outcome.value.0, receipts + [outcome.value.1];
    }
    assert txs[..|txs|] == txs;
    return Success((current, receipts));
  }

  lemma {:induction false} ReplayFails<B>(engine: Engine<B>, state: State<B>, txs: seq<Bytes>, k: nat, timestamp: nat)
    requires k <= |txs| && Replay(engine, state, txs[..k], timestamp).Failure?
    ensures Replay(engine, state, txs, timestamp) == Failure(Replay(engine, state, txs[..k], timestamp).error)
    decreases |txs|
  {
    if k < |txs| {
      var shorter := txs[..|txs| - 1];
      assert shorter[..k] == txs[..k];
      ReplayFails(engine, state, shorter, k, timestamp);
    } else {
      assert txs[..k] == txs;
    }
  }

  function ReceiptIds(receipts: seq<Receipt>): set<TxId> {
    set i | 0 <= i < |receipts| :: receipts[i].txId
  }

  function Find(receipts: seq<Receipt>, id: TxId): (r: Receipt)
    requires id in ReceiptIds(receipts)
    ensures r in receipts && r.txId == id
  {
    if receipts[0].txId == id then receipts[0] else Find(receipts[1..], id)
  }

  /** The stored receipt of every transaction, by transaction. */
  function Journal(transactions: map<TxId, (Receipt, Id)>, receipts: seq<Receipt>, block: Id)
      : (r: map<TxId, (Receipt, Id)>)
    ensures r.Keys == transactions.Keys + ReceiptIds(receipts)
  {
    transactions + map k | k in ReceiptIds(receipts) :: (Find(receipts, k), block)
  }

  /** Every receipt of the block is filed under its own transaction, and all others stay as they were. */
  lemma JournalExact(transactions: map<TxId, (Receipt, Id)>, receipts: seq<Receipt>, block: Id)
    requires forall i, j | 0 <= i < j < |receipts| :: receipts[i].txId != receipts[j].txId
    ensures forall i | 0 <= i < |receipts| ::
      receipts[i].txId in Journal(transactions, receipts, block)
      && Journal(transactions, receipts, block)[receipts[i].txId] == (receipts[i], block)
    ensures forall t | t in transactions && t !in ReceiptIds(receipts) ::
      t in Journal(transactions, receipts, block) && Journal(transactions, receipts, block)[t] == transactions[t]
  {
    forall i | 0 <= i < |receipts|
      ensures receipts[i].txId in ReceiptIds(receipts) && Find(receipts, receipts[i].txId) == receipts[i]
    {
    }
  }

  lemma ReceiptsDistinct<B(!new)>(engine: Engine<B>, origins: Origins<B>, v: Verified<B>)
    requires Executed(engine, origins, v)
    ensures forall i, j | 0 <= i < j < |v.receipts| :: v.receipts[i].txId != v.receipts[j].txId
  {
    var before :| Derives(engine, origins, v.block.parent.block, before) && Runs(engine, before, v);
    ReplayOnce(engine, before, v.block.transactions, v.block.timestamp);
  }

  lemma ExecutedDecodes<B(!new)>(engine: Engine<B>, origins: Origins<B>, v: Verified<B>)
    requires Executed(engine, origins, v)
    ensures NoRepeats(v.block.transactions)
    ensures forall i | 0 <= i < |v.block.transactions| :: engine.decodes(v.block.transactions[i])
  {
    var before :| Derives(engine, origins, v.block.parent.block, before) && Runs(engine, before, v);
    ReplayOnce(engine, before, v.block.transactions, v.block.timestamp);
  }
}
