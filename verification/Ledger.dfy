/**
 Blocks, transactions and the states they lead to. Identifiers are symbolic digests, so a block
 identifier determines its block and, through the parent link, all its ancestors. Executing one
 transaction is an opaque deterministic function.
 */
module Ledger {
  import opened Numbers
  import opened Results
  import opened Wire

  datatype TxId = Digest(bytes: Bytes)

  datatype Id = Origin(hash: Hash) | Of(block: Block)

  datatype Block = Block(parent: Id, timestamp: nat, height: U64, transactions: seq<Bytes>)

  datatype State<B> = State(body: B, applied: set<TxId>, transitions: U64)

  datatype Receipt = Receipt(txId: TxId, statement: Hash, beforeRoot: Hash, afterRoot: Hash)

  datatype ApplyError = Malformed | AlreadyApplied | Refused

  /** The parts of the host that the consensus logic only calls. */
  datatype Engine<!B> = Engine(
    decodes: Bytes -> bool,
    optimistic: Bytes -> bool,
    admits: State<B> -> bool,
    execute: (B, Bytes, nat) -> Result<(B, Hash), ApplyError>,
    valid: State<B> -> bool,
    root: State<B> -> Hash,
    stages: State<B> -> bool,
    loads: State<B> -> bool)

  /** One transaction: all of its effect or none. */
  function Apply<B>(engine: Engine<B>, state: State<B>, tx: Bytes, timestamp: nat)
      : Result<(State<B>, Receipt), ApplyError>
  {
    if !engine.admits(state) then Failure(Refused) else
    if !engine.decodes(tx) then Failure(Malformed) else
    var id := Digest(tx);
    if id in state.applied then Failure(AlreadyApplied) else
    var (body, statement) :- engine.execute(state.body, tx, timestamp);
    if state.transitions == U64_MAX then Failure(Refused) else
    var next := State(body, state.applied + {id}, state.transitions + 1);
    if !engine.valid(next) || !engine.admits(next) then Failure(Refused) else
    Success((next, Receipt(id, statement, engine.root(state), engine.root(next))))
  }

  type Replayed<B> = Result<(State<B>, seq<Receipt>), ApplyError>

  /** All transactions of a block, in order; the first refusal refuses the block. */
  function Replay<B>(engine: Engine<B>, state: State<B>, txs: seq<Bytes>, timestamp: nat): Replayed<B>
  {
    if txs == [] then Success((state, [])) else
      var (before, receipts) :- Replay(engine, state, txs[..|txs| - 1], timestamp);
      var (after, receipt) :- Apply(engine, before, txs[|txs| - 1], timestamp);
      Success((after, receipts + [receipt]))
  }

  lemma ReplayAppend<B>(engine: Engine<B>, state: State<B>, txs: seq<Bytes>, tx: Bytes, timestamp: nat)
    ensures Replay(engine, state, txs + [tx], timestamp) ==
      var before := Replay(engine, state, txs, timestamp);
      if before.Failure? then Failure(before.error) else
      var after := Apply(engine, before.value.0, tx, timestamp);
      if after.Failure? then Failure(after.error) else
      Success((after.value.0, before.value.1 + [after.value.1]))
  {
    assert (txs + [tx])[..|txs|] == txs;
  }

  /** What a proposer takes from the front of its pool, what it leads to, and what stays in the pool. */
  datatype Drained<B> = Drained(txs: seq<Bytes>, state: State<B>, receipts: seq<Receipt>, left: seq<Bytes>)

  /** Up to `room` transactions that apply one after another; refused ones on the way are dropped. */
  function Drain<B>(engine: Engine<B>, state: State<B>, pool: seq<Bytes>, timestamp: nat, room: nat): Drained<B>
    decreases |pool|
  {
    if room == 0 || pool == [] then Drained([], state, [], pool) else
    var outcome := Apply(engine, state, pool[0], timestamp);
    if outcome.Failure? then Drain(engine, state, pool[1..], timestamp, room) else
    After(pool[0], outcome.value.1, Drain(engine, outcome.value.0, pool[1..], timestamp, room - 1))
  }

  function After<B>(tx: Bytes, receipt: Receipt, d: Drained<B>): Drained<B> {
    Drained([tx] + d.txs, d.state, [receipt] + d.receipts, d.left)
  }

  /** Some transactions already taken in front of what a drain takes. */
  function Following<B>(txs: seq<Bytes>, receipts: seq<Receipt>, d: Drained<B>): Drained<B> {
    Drained(txs + d.txs, d.state, receipts + d.receipts, d.left)
  }

  lemma FollowingMore<B>(txs: seq<Bytes>, receipts: seq<Receipt>, tx: Bytes, receipt: Receipt, d: Drained<B>)
    ensures Following(txs, receipts, After(tx, receipt, d)) == Following(txs + [tx], receipts + [receipt], d)
  {
    assert txs + ([tx] + d.txs) == (txs + [tx]) + d.txs;
    assert receipts + ([receipt] + d.receipts) == (receipts + [receipt]) + d.receipts;
  }

  /** A drained block replays: any node executing it on the same state gets the same state and receipts. */
  lemma {:induction false} DrainReplays<B>(engine: Engine<B>, first: State<B>, txs: seq<Bytes>, state: State<B>,
                                          receipts: seq<Receipt>, pool: seq<Bytes>, timestamp: nat, room: nat)
    requires Replay(engine, first, txs, timestamp) == Success((state, receipts))
    ensures var d := Following(txs, receipts, Drain(engine, state, pool, timestamp, room));
      Replay(engine, first, d.txs, timestamp) == Success((d.state, d.receipts)) && |d.txs| <= |txs| + room
    decreases |pool|
  {
    if room == 0 || pool == [] {
      assert txs + [] == txs && receipts + [] == receipts;
    } else {
      var outcome := Apply(engine, state, pool[0], timestamp);
      if outcome.Failure? {
        DrainReplays(engine, first, txs, state, receipts, pool[1..], timestamp, room);
      } else {
        var (next, receipt) := outcome.value;
        ReplayAppend(engine, first, txs, pool[0], timestamp);
        hide Apply, Replay;
        DrainReplays(engine, first, txs + [pool[0]], next, receipts + [receipt], pool[1..], timestamp, room - 1);
        FollowingMore(txs, receipts, pool[0], receipt, Drain(engine, next, pool[1..], timestamp, room - 1));
      }
    }
  }

  /** Replaying a longer list is replaying the rest on what the first transaction leads to. */
  lemma {:induction false} ReplayFirst<B>(engine: Engine<B>, state: State<B>, tx: Bytes, txs: seq<Bytes>,
                                         timestamp: nat)
    requires Apply(engine, state, tx, timestamp).Success?
    ensures var (next, receipt) := Apply(engine, state, tx, timestamp).value;
      var rest := Replay(engine, next, txs, timestamp);
      Replay(engine, state, [tx] + txs, timestamp) ==
        if rest.Failure? then Failure(rest.error) else Success((rest.value.0, [receipt] + rest.value.1))
    decreases |txs|
  {
    hide Apply;
    var (next, receipt) := Apply(engine, state, tx, timestamp).value;
    if txs == [] {
      assert [tx] + txs == [tx] && [tx][..0] == [];
      NothingReplayed(engine, state, timestamp);
      NothingReplayed(engine, next, timestamp);
      assert [] + [receipt] == [receipt] + [];
    } else {
      var init, last := txs[..|txs| - 1], txs[|txs| - 1];
      ReplayFirst(engine, state, tx, init, timestamp);
      assert ([tx] + txs)[..|txs|] == [tx] + init;
      var before := Replay(engine, next, init, timestamp);
      if before.Success? && Apply(engine, before.value.0, last, timestamp).Success? {
        var r := Apply(engine, before.value.0, last, timestamp).value.1;
        assert ([receipt] + before.value.1) + [r] == [receipt] + (before.value.1 + [r]);
      }
    }
  }

  lemma NothingReplayed<B>(engine: Engine<B>, state: State<B>, timestamp: nat)
    ensures Replay(engine, state, [], timestamp) == Success((state, []))
  {
  }

  /**
   With so many taken before it and room for more, the transaction was taken exactly if it applies
   to where those lead.
   */
  ghost predicate Considered<B>(engine: Engine<B>, state: State<B>, tx: Bytes, timestamp: nat, room: nat,
                                txs: seq<Bytes>, before: nat, after: nat)
  {
    && before < room && before <= after <= |txs|
    && var reached := Replay(engine, state, txs[..before], timestamp);
    && reached.Success?
    && if Apply(engine, reached.value.0, tx, timestamp).Success?
       then after == before + 1 && txs[before] == tx
       else after == before
  }

  /** How a drain went over the front of the pool: how many were taken before each transaction of it. */
  ghost predicate Course<B>(engine: Engine<B>, state: State<B>, front: seq<Bytes>, timestamp: nat, room: nat,
                            txs: seq<Bytes>, taken: seq<nat>)
  {
    && |taken| == |front| + 1 && taken[0] == 0 && taken[|front|] == |txs|
    && forall i | 0 <= i < |front| ::
         Considered(engine, state, front[i], timestamp, room, txs, taken[i], taken[i + 1])
  }

  /**
   A drain takes, in order, exactly those transactions of the front of the pool that apply to the state
   reached by the ones taken before, drops the others, and stops only for want of room or at the end.
   */
  lemma {:induction false} DrainExact<B>(engine: Engine<B>, state: State<B>, pool: seq<Bytes>, timestamp: nat,
                                        room: nat)
      returns (taken: seq<nat>)
    ensures var d := Drain(engine, state, pool, timestamp, room);
      && |d.left| <= |pool| && d.left == pool[|pool| - |d.left|..]
      && (d.left != [] ==> |d.txs| == room)
      && Course(engine, state, pool[..|pool| - |d.left|], timestamp, room, d.txs, taken)
    decreases |pool|
  {
    hide Apply, Replay, Considered;
    if room == 0 || pool == [] {
      taken := [0];
      assert pool[..0] == [];
    } else {
      var first, rest := pool[0], pool[1..];
      var outcome := Apply(engine, state, first, timestamp);
      if outcome.Failure? {
        taken := DrainExact(engine, state, rest, timestamp, room);
        var d := Drain(engine, state, rest, timestamp, room);
        FrontMore(pool, |d.left|);
        hide Course, Drain;
        CourseDropped(engine, state, first, rest[..|rest| - |d.left|], timestamp, room, d.txs, taken);
        taken := [0] + taken;
      } else {
        taken := DrainExact(engine, outcome.value.0, rest, timestamp, room - 1);
        var d := Drain(engine, outcome.value.0, rest, timestamp, room - 1);
        FrontMore(pool, |d.left|);
        assert Drain(engine, state, pool, timestamp, room) == After(first, outcome.value.1, d);
        hide Course, Drain;
        taken := CourseTaken(engine, state, first, rest[..|rest| - |d.left|], timestamp, room, d.txs, taken);
      }
    }
  }

  lemma FrontMore(pool: seq<Bytes>, left: nat)
    requires pool != [] && left < |pool|
    ensures pool[..|pool| - left] == [pool[0]] + pool[1..][..|pool| - 1 - left]
    ensures pool[1..][|pool| - 1 - left..] == pool[|pool| - left..]
  {
  }

  lemma CourseDropped<B>(engine: Engine<B>, state: State<B>, tx: Bytes, front: seq<Bytes>, timestamp: nat, room: nat,
                         txs: seq<Bytes>, taken: seq<nat>)
    requires Apply(engine, state, tx, timestamp).Failure? && room > 0
    requires Course(engine, state, front, timestamp, room, txs, taken)
    ensures Course(engine, state, [tx] + front, timestamp, room, txs, [0] + taken)
  {
    var longer, all := [0] + taken, [tx] + front;
    assert Considered(engine, state, tx, timestamp, room, txs, 0, 0) by {
      assert txs[..0] == [];
      NothingReplayed(engine, state, timestamp);
    }
    hide Considered;
    forall i | 0 <= i < |all|
      ensures Considered(engine, state, all[i], timestamp, room, txs, longer[i], longer[i + 1])
    {
      if i > 0 {
        assert all[i] == front[i - 1] && longer[i] == taken[i - 1] && longer[i + 1] == taken[i];
      }
    }
  }

  lemma CourseTaken<B>(engine: Engine<B>, state: State<B>, tx: Bytes, front: seq<Bytes>, timestamp: nat, room: nat,
                       txs: seq<Bytes>, taken: seq<nat>)
      returns (longer: seq<nat>)
    requires Apply(engine, state, tx, timestamp).Success? && room > 0
    requires Course(engine, Apply(engine, state, tx, timestamp).value.0, front, timestamp, room - 1, txs, taken)
    ensures Course(engine, state, [tx] + front, timestamp, room, [tx] + txs, longer)
  {
    longer := [0] + seq(|taken|, i requires 0 <= i < |taken| => taken[i] + 1);
    var all := [tx] + front;
    assert Considered(engine, state, tx, timestamp, room, [tx] + txs, 0, 1) by {
      assert ([tx] + txs)[..0] == [];
      NothingReplayed(engine, state, timestamp);
    }
    hide Considered, Apply;
    forall i | 0 <= i < |all|
      ensures Considered(engine, state, all[i], timestamp, room, [tx] + txs, longer[i], longer[i + 1])
    {
      if i > 0 {
        assert all[i] == front[i - 1] && longer[i] == taken[i - 1] + 1 && longer[i + 1] == taken[i] + 1;
        ConsideredLater(engine, state, tx, front[i - 1], timestamp, room, txs, taken[i - 1], taken[i]);
      }
    }
  }

  lemma ConsideredLater<B>(engine: Engine<B>, state: State<B>, first: Bytes, tx: Bytes, timestamp: nat, room: nat,
                           txs: seq<Bytes>, before: nat, after: nat)
    requires Apply(engine, state, first, timestamp).Success? && room > 0
    requires Considered(engine, Apply(engine, state, first, timestamp).value.0, tx, timestamp, room - 1, txs, before,
      after)
    ensures Considered(engine, state, tx, timestamp, room, [first] + txs, before + 1, after + 1)
  {
    hide Apply, Replay;
    assert ([first] + txs)[..before + 1] == [first] + txs[..before];
    ReplayFirst(engine, state, first, txs[..before], timestamp);
  }

  /** So nothing is drained exactly when no transaction of the pool applies. */
  lemma DrainEmpty<B>(engine: Engine<B>, state: State<B>, pool: seq<Bytes>, timestamp: nat, room: nat)
    requires room > 0
    ensures Drain(engine, state, pool, timestamp, room).txs == [] <==>
      forall i | 0 <= i < |pool| :: Apply(engine, state, pool[i], timestamp).Failure?
  {
    hide Apply;
    if pool != [] && Apply(engine, state, pool[0], timestamp).Failure? {
      DrainEmpty(engine, state, pool[1..], timestamp, room);
      assert forall i | 0 < i < |pool| :: pool[i] == pool[1..][i - 1];
    }
  }

  /** Every receipt carries the roots of the states before and after its own transaction, so receipts chain. */
  lemma {:induction false} ReceiptsChain<B>(engine: Engine<B>, state: State<B>, txs: seq<Bytes>, timestamp: nat, i: nat)
    requires Replay(engine, state, txs, timestamp).Success? && i < |txs|
    ensures Replay(engine, state, txs[..i], timestamp).Success?
      && Replay(engine, state, txs[..i + 1], timestamp).Success?
    ensures |Replay(engine, state, txs, timestamp).value.1| == |txs|
    ensures var receipt := Replay(engine, state, txs, timestamp).value.1[i];
      && receipt.txId == Digest(txs[i])
      && receipt.beforeRoot == engine.root(Replay(engine, state, txs[..i], timestamp).value.0)
      && receipt.afterRoot == engine.root(Replay(engine, state, txs[..i + 1], timestamp).value.0)
    decreases |txs|
  {
    var init := txs[..|txs| - 1];
    if i < |init| {
      ReceiptsChain(engine, state, init, timestamp, i);
      assert init[..i] == txs[..i] && init[..i + 1] == txs[..i + 1];
    } else {
      assert txs[..i] == init && txs[..i + 1] == txs;
      ReplayLength(engine, state, init, timestamp);
    }
  }

  lemma {:induction false} ReplayLength<B>(engine: Engine<B>, state: State<B>, txs: seq<Bytes>, timestamp: nat)
    requires Replay(engine, state, txs, timestamp).Success?
    ensures |Replay(engine, state, txs, timestamp).value.1| == |txs|
    decreases |txs|
  {
    hide Apply;
    if txs != [] {
      ReplayLength(engine, state, txs[..|txs| - 1], timestamp);
    }
  }

  datatype Verified<B> = Verified(block: Block, state: State<B>, receipts: seq<Receipt>)

  function Successor(height: U64): U64 {
    if height == U64_MAX then U64_MAX else height + 1
  }

  predicate Follows(parent: Block, child: Block) {
    && child.parent == Of(parent)
    && child.height == Successor(parent.height)
    && parent.timestamp <= child.timestamp
  }

  /** Executing the block's transactions on a state gives this state. */
  ghost predicate LeadsTo<B>(engine: Engine<B>, before: State<B>, block: Block, state: State<B>) {
    var after := Replay(engine, before, block.transactions, block.timestamp);
    after.Success? && after.value.0 == state
  }

  /** States taken on trust: the genesis state, and the state of every block installed by synchronisation. */
  type Origins<B(==)> = set<(Block, State<B>)>

  /** The state of a block by executing its ancestors from a trusted one. */
  ghost predicate Derives<B(!new)>(engine: Engine<B>, origins: Origins<B>, block: Block, state: State<B>) {
    (block, state) in origins ||
    match block.parent
    case Origin(_) => false
    case Of(parent) =>
      && Follows(parent, block)
      && exists before :: Derives(engine, origins, parent, before) && LeadsTo(engine, before, block, state)
  }

  lemma {:induction false} DerivesMore<B(!new)>(engine: Engine<B>, origins: Origins<B>, more: Origins<B>,
                                               block: Block, state: State<B>)
    requires Derives(engine, origins, block, state) && origins <= more
    ensures Derives(engine, more, block, state)
    decreases block
  {
    if (block, state) !in origins {
      var before :| Derives(engine, origins, block.parent.block, before) && LeadsTo(engine, before, block, state);
      DerivesMore(engine, origins, more, block.parent.block, before);
    }
  }

  /** No block has two states. */
  ghost predicate Coherent<B(!new)>(engine: Engine<B>, origins: Origins<B>) {
    forall block, s, t | Derives(engine, origins, block, s) && Derives(engine, origins, block, t) :: s == t
  }

  /** A node that has only ever executed blocks from genesis has one state for each, as has any other such node. */
  lemma GenesisCoherent<B(!new)>(engine: Engine<B>, genesis: Block, state: State<B>)
    requires genesis.parent.Origin?
    ensures Coherent(engine, {(genesis, state)})
  {
    forall block, s, t | Derives(engine, {(genesis, state)}, block, s) && Derives(engine, {(genesis, state)}, block, t)
      ensures s == t
    {
      DerivesOnce(engine, genesis, state, block, s, t);
    }
  }

  lemma {:induction false} DerivesOnce<B(!new)>(engine: Engine<B>, genesis: Block, state: State<B>, block: Block,
                                               s: State<B>, t: State<B>)
    requires genesis.parent.Origin?
    requires Derives(engine, {(genesis, state)}, block, s) && Derives(engine, {(genesis, state)}, block, t)
    ensures s == t
    decreases block
  {
    var origins := {(genesis, state)};
    if block != genesis {
      var a :| Derives(engine, origins, block.parent.block, a) && LeadsTo(engine, a, block, s);
      var b :| Derives(engine, origins, block.parent.block, b) && LeadsTo(engine, b, block, t);
      DerivesOnce(engine, genesis, state, block.parent.block, a, b);
    }
  }

  // ----- paths -------------------------------------------------------------------------------

  /** Every block of the path follows the one before it. */
  ghost predicate Linked(path: seq<Block>) {
    path != [] && forall i | 0 < i < |path| :: Follows(path[i - 1], path[i])
  }

  function ReplayPath<B>(engine: Engine<B>, first: State<B>, path: seq<Block>): Result<State<B>, ApplyError>
    requires path != []
  {
    if |path| == 1 then Success(first) else
      var before :- ReplayPath(engine, first, path[..|path| - 1]);
      var last := path[|path| - 1];
      var (after, _) :- Replay(engine, before, last.transactions, last.timestamp);
      Success(after)
  }

  /** A derived state is a trusted one with every transaction of every block since folded over it. */
  lemma {:induction false} DerivedIsReplay<B(!new)>(engine: Engine<B>, origins: Origins<B>, block: Block,
                                                    state: State<B>)
      returns (path: seq<Block>, first: State<B>)
    requires Derives(engine, origins, block, state)
    ensures Linked(path) && path[|path| - 1] == block && (path[0], first) in origins
    ensures ReplayPath(engine, first, path) == Success(state)
    decreases block
  {
    if (block, state) in origins {
      path, first := [block], state;
    } else {
      var before :| Derives(engine, origins, block.parent.block, before) && LeadsTo(engine, before, block, state);
      var below;
      below, first := DerivedIsReplay(engine, origins, block.parent.block, before);
      path := below + [block];
      assert path[..|path| - 1] == below;
    }
  }

  /** Heights along a path count up and stop at the largest 64-bit number. */
  lemma {:induction false} PathHeight(path: seq<Block>, i: nat)
    requires Linked(path) && i < |path|
    ensures path[i].height == if path[0].height + i <= U64_MAX then path[0].height + i else U64_MAX
  {
    if i > 0 {
      PathHeight(path, i - 1);
      assert Follows(path[i - 1], path[i]);
    }
  }

  /**
   At most one block of a path has any given height below the largest 64-bit number. At that number
   the height no longer moves: two positions share a height exactly when both have reached it.
   */
  lemma HeightsDistinct(path: seq<Block>, i: nat, j: nat)
    requires Linked(path) && i < j < |path|
    ensures path[i].height == path[j].height <==> path[i].height == U64_MAX
  {
    PathHeight(path, i);
    PathHeight(path, j);
  }

  // ----- no transaction takes effect twice ---------------------------------------------------

  function TxIds(txs: seq<Bytes>): set<TxId> {
    set i | 0 <= i < |txs| :: Digest(txs[i])
  }

  ghost predicate NoRepeats(txs: seq<Bytes>) {
    forall i, j | 0 <= i < j < |txs| :: txs[i] != txs[j]
  }

  /** A replayed block applies each of its transactions once, none of them applied before. */
  lemma {:induction false} ReplayOnce<B>(engine: Engine<B>, state: State<B>, txs: seq<Bytes>, timestamp: nat)
    requires Replay(engine, state, txs, timestamp).Success?
    ensures var (after, receipts) := Replay(engine, state, txs, timestamp).value;
      && after.applied == state.applied + TxIds(txs)
      && after.transitions == state.transitions + |txs|
      && TxIds(txs) !! state.applied && NoRepeats(txs)
      && |receipts| == |txs| && (forall i | 0 <= i < |txs| :: receipts[i].txId == Digest(txs[i]))
      && (forall i | 0 <= i < |txs| :: engine.decodes(txs[i]))
  {
    if txs != [] {
      var before, last := txs[..|txs| - 1], txs[|txs| - 1];
      ReplayOnce(engine, state, before, timestamp);
      assert txs == before + [last];
      IdsMore(before, last);
      hide TxIds, NoRepeats;
    }
  }

  lemma IdsMore(before: seq<Bytes>, last: Bytes)
    ensures TxIds(before + [last]) == TxIds(before) + {Digest(last)}
    ensures NoRepeats(before) && Digest(last) !in TxIds(before) ==> NoRepeats(before + [last])
  {
    var txs := before + [last];
    assert txs[|before|] == last;
    forall id | id in TxIds(before) ensures id in TxIds(txs) {
      var i :| 0 <= i < |before| && id == Digest(before[i]);
      assert txs[i] == before[i];
    }
    if NoRepeats(before) && Digest(last) !in TxIds(before) {
      forall i, j | 0 <= i < j < |txs| ensures txs[i] != txs[j] {
        if j == |before| {
          assert Digest(before[i]) in TxIds(before);
        }
      }
    }
  }

  function PathTransactions(path: seq<Block>): seq<Bytes> {
    if |path| <= 1 then [] else PathTransactions(path[..|path| - 1]) + path[|path| - 1].transactions
  }

  /** Over a whole chain, every transaction takes effect once and the state counts exactly them. */
  lemma {:induction false} ChainOnce<B>(engine: Engine<B>, genesis: State<B>, path: seq<Block>)
    requires path != [] && ReplayPath(engine, genesis, path).Success?
    ensures var after, txs := ReplayPath(engine, genesis, path).value, PathTransactions(path);
      && after.applied == genesis.applied + TxIds(txs)
      && after.transitions == genesis.transitions + |txs|
      && TxIds(txs) !! genesis.applied && NoRepeats(txs)
  {
    if |path| > 1 {
      var below, last := path[..|path| - 1], path[|path| - 1];
      ChainOnce(engine, genesis, below);
      var before := ReplayPath(engine, genesis, below).value;
      ReplayOnce(engine, before, last.transactions, last.timestamp);
      JoinOnce(PathTransactions(below), last.transactions);
    }
  }

  lemma JoinOnce(a: seq<Bytes>, b: seq<Bytes>)
    requires NoRepeats(a) && NoRepeats(b) && TxIds(a) !! TxIds(b)
    ensures NoRepeats(a + b)
    ensures TxIds(a + b) == TxIds(a) + TxIds(b)
  {
    var c := a + b;
    forall i, j | 0 <= i < j < |c| ensures c[i] != c[j] {
      if i < |a| <= j {
        assert Digest(a[i]) in TxIds(a) && Digest(b[j - |a|]) in TxIds(b);
      }
    }
    forall id | id in TxIds(a) + TxIds(b) ensures id in TxIds(c) {
      if id in TxIds(a) {
        var i :| 0 <= i < |a| && id == Digest(a[i]);
        assert c[i] == a[i];
      } else {
        var i :| 0 <= i < |b| && id == Digest(b[i]);
        assert c[|a| + i] == b[i];
      }
    }
  }
}
