/**
 The life of a state synchronisation: summaries are offered, attempts run, the node restarts, and
 received chunks stay in the database in between. Accepting another summary deletes the chunks of
 the one before.
 */
module SyncSession {
  import opened Numbers
  import opened Results
  import opened Wire
  import opened Chunking
  import opened Merkle
  import opened SyncCodec
  import opened StateSync
  import opened SyncAttempts

  /** The chain the node is on, and which states it installs. */
  datatype Node<!S> = Node(
    host: Host<S>, networkId: U32, chainId: Hash, genesisHash: Hash,
    admits: S -> bool, stages: S -> bool)

  /** Stored chunks are filed by summary identifier and slot. */
  datatype Session = Session(
    ongoing: Option<StateSummary>, running: bool, chunks: map<Hash, map<U32, Bytes>>, height: U64)

  datatype Event =
    | Offer(summary: StateSummary)
    | Run(peers: seq<Peer>)
    | Restart
    | Advance(height: U64)

  datatype Mode = Static | Skipped

  function Under(chunks: map<Hash, map<U32, Bytes>>, id: Hash): map<U32, Bytes> {
    if id in chunks then chunks[id] else map[]
  }

  function From(stored: map<U32, Bytes>, count: U32): map<U32, Bytes> {
    map i | i in stored && count <= i :: stored[i]
  }

  function Cleared(chunks: map<Hash, map<U32, Bytes>>, id: Hash, count: U32): map<Hash, map<U32, Bytes>> {
    chunks[id := From(Under(chunks, id), count)]
  }

  predicate OnChain<S>(node: Node<S>, summary: StateSummary) {
    summary.networkId == node.networkId && summary.chainId == node.chainId && summary.genesisHash == node.genesisHash
  }

  /** A synchronisation to this summary starts. */
  predicate Takes<S>(node: Node<S>, s: Session, summary: StateSummary) {
    ValidSummary(summary) && OnChain(node, summary) && summary.height > s.height && !s.running
  }

  function OfferReply<S>(node: Node<S>, s: Session, summary: StateSummary): Result<Mode, WireError> {
    if !ValidSummary(summary) || !OnChain(node, summary) then Failure(OutOfBounds) else
    if summary.height <= s.height then Success(Skipped) else
    Success(if !s.running || s.ongoing == Some(summary) then Static else Skipped)
  }

  /**
   A summary of this chain that is ahead is taken up, or already is; it is skipped only for another
   that is running.
   */
  lemma ReplyExact<S>(node: Node<S>, s: Session, summary: StateSummary)
    requires ValidSummary(summary) && summary.networkId == node.networkId && summary.chainId == node.chainId
    requires summary.genesisHash == node.genesisHash
    ensures OfferReply(node, s, summary) == Success(Static) <==>
      s.height < summary.height && (s.running ==> s.ongoing == Some(summary))
    ensures OfferReply(node, s, summary) == Success(Static) || OfferReply(node, s, summary) == Success(Skipped)
  {
    hide ValidSummary;
  }

  /** What decides whether an attempt is installed. */
  predicate Installs<S(!new)>(node: Node<S>, summary: StateSummary, assembled: Option<Bytes>) {
    assembled.Some? &&
    var decoded := DecodeSnapshot(node.host, summary, assembled.value);
    decoded.Success? && node.admits(decoded.value.state) && node.stages(decoded.value.state)
  }

  function Ran<S(!new)>(node: Node<S>, s: Session, summary: StateSummary, peers: seq<Peer>): Session {
    var h, id := node.host.h, SummaryId(node.host.h, summary);
    var stored := Under(s.chunks, id);
    var kept := s.chunks[id := Attempt(h, summary, stored, peers)];
    if Installs(node, summary, Assembly(h, summary, stored, peers))
    then Session(None, false, Cleared(kept, id, summary.chunkCount), summary.height)
    else Session(s.ongoing, false, kept, s.height)
  }

  function Step<S(!new)>(node: Node<S>, s: Session, e: Event): Session {
    match e
    case Offer(summary) =>
      if !Takes(node, s, summary) then s else
      var chunks :=
        if s.ongoing.Some? && s.ongoing.value != summary
        then Cleared(s.chunks, SummaryId(node.host.h, s.ongoing.value), s.ongoing.value.chunkCount) else s.chunks;
      Session(Some(summary), true, chunks, s.height)
    case Run(peers) => if s.running && s.ongoing.Some? then Ran(node, s, s.ongoing.value, peers) else s
    case Restart => s.(running := false)
    case Advance(height) => s.(height := height)
  }

  function After<S(!new)>(node: Node<S>, s: Session, events: seq<Event>): Session
    decreases |events|
  {
    if events == [] then s else After(node, Step(node, s, events[0]), events[1..])
  }

  /** An attempt is installed exactly when what it assembled decodes to a state that is admitted and can be staged. */
  lemma RunExact<S(!new)>(node: Node<S>, s: Session, summary: StateSummary, peers: seq<Peer>)
    requires s.running && s.ongoing == Some(summary)
    ensures var after := Step(node, s, Run(peers));
      var r := Assembly(node.host.h, summary, Under(s.chunks, SummaryId(node.host.h, summary)), peers);
      var decoded := if r.Some? then DecodeSnapshot(node.host, summary, r.value) else Failure(OutOfBounds);
      && !after.running
      && (after.ongoing.None? <==>
            decoded.Success? && node.admits(decoded.value.state) && node.stages(decoded.value.state))
      && (if after.ongoing.None? then after.height == summary.height
          else after.ongoing == Some(summary) && after.height == s.height)
  {
    hide SummaryId, Attempt, Assembly, DecodeSnapshot, Cleared;
  }

  // ----- no chunk outlives its synchronisation -----------------------------------------------

  /** Every stored chunk belongs to the ongoing synchronisation, which is to a valid summary of the node's chain. */
  ghost predicate Tidy<S>(node: Node<S>, s: Session) {
    && (s.ongoing.Some? ==>
          && ValidSummary(s.ongoing.value) && s.ongoing.value.networkId == node.networkId
          && s.ongoing.value.chainId == node.chainId && s.ongoing.value.genesisHash == node.genesisHash)
    && forall id, i: U32 | i in Under(s.chunks, id) ::
         s.ongoing.Some? && id == SummaryId(node.host.h, s.ongoing.value) && i < s.ongoing.value.chunkCount
  }

  lemma {:induction false} StoreKeys(h: Hasher, summary: StateSummary, stored: map<U32, Bytes>, peers: seq<Peer>,
                                     count: U32, i: U32)
    requires i in StoreAfter(h, summary, stored, peers, count)
    ensures i in stored || i < count
    decreases count
  {
    hide Slot, Filling, ResponseEncoding;
    if count > 0 && i in StoreAfter(h, summary, stored, peers, count - 1) {
      StoreKeys(h, summary, stored, peers, count - 1, i);
    }
  }

  lemma AttemptKeys(h: Hasher, summary: StateSummary, stored: map<U32, Bytes>, peers: seq<Peer>, i: U32)
    requires i in Attempt(h, summary, stored, peers)
    ensures i in stored || i < summary.chunkCount
  {
    hide StoreAfter, ValidSummary;
    if i !in stored {
      StoreKeys(h, summary, stored, peers, summary.chunkCount, i);
    }
  }

  lemma StepTidy<S(!new)>(node: Node<S>, s: Session, e: Event)
    requires Tidy(node, s)
    ensures Tidy(node, Step(node, s, e))
  {
    hide SummaryId, ValidSummary, Attempt, Installs, Assembly;
    if e.Run? && s.running && s.ongoing.Some? {
      RunTidy(node, s, s.ongoing.value, e.peers);
    } else {
      var after := Step(node, s, e);
      forall k, i: U32 | i in Under(after.chunks, k)
        ensures after.ongoing.Some? && k == SummaryId(node.host.h, after.ongoing.value)
        ensures i < after.ongoing.value.chunkCount
      {
        assert i in Under(s.chunks, k);
      }
    }
  }

  lemma RunTidy<S(!new)>(node: Node<S>, s: Session, summary: StateSummary, peers: seq<Peer>)
    requires Tidy(node, s) && s.ongoing == Some(summary)
    ensures Tidy(node, Ran(node, s, summary, peers))
  {
    hide SummaryId, ValidSummary, Attempt, Installs, Assembly;
    var id := SummaryId(node.host.h, summary);
    var stored := Under(s.chunks, id);
    forall i: U32 | i in Attempt(node.host.h, summary, stored, peers)
      ensures i < summary.chunkCount
    {
      AttemptKeys(node.host.h, summary, stored, peers, i);
      assert i in stored ==> i in Under(s.chunks, id);
    }
    var after := Ran(node, s, summary, peers);
    forall k, i: U32 | i in Under(after.chunks, k)
      ensures after.ongoing == Some(summary) && k == id && i < summary.chunkCount
    {
      assert k != id ==> i in Under(s.chunks, k);
    }
  }

  /** So it is, whatever happens, from a node that has nothing stored. */
  lemma {:induction false} AlwaysTidy<S(!new)>(node: Node<S>, s: Session, events: seq<Event>)
    requires Tidy(node, s)
    ensures Tidy(node, After(node, s, events))
    decreases |events|
  {
    hide Tidy, Step;
    if events != [] {
      StepTidy(node, s, events[0]);
      AlwaysTidy(node, Step(node, s, events[0]), events[1..]);
    }
  }

  /** A running synchronisation is to a summary ahead of the tip. */
  ghost predicate Ahead(s: Session) {
    s.running && s.ongoing.Some? ==> s.height < s.ongoing.value.height
  }

  /** While the tip moves only by synchronisation, it never goes back. */
  lemma {:induction false} TipNeverBack<S(!new)>(node: Node<S>, s: Session, events: seq<Event>)
    requires Ahead(s) && forall i | 0 <= i < |events| :: !events[i].Advance?
    ensures s.height <= After(node, s, events).height && Ahead(After(node, s, events))
    decreases |events|
  {
    if events != [] {
      hide ValidSummary, SummaryId, Attempt, Assembly, Installs, Cleared;
      TipNeverBack(node, Step(node, s, events[0]), events[1..]);
    }
  }

  /** Otherwise it can: an attempt that completes after the tip has passed its summary takes the tip back. */
  lemma TipGoesBack<S(!new)>(node: Node<S>, s: Session, height: U64, peers: seq<Peer>)
    requires s.running && s.ongoing.Some? && s.ongoing.value.height < height
    requires Installs(node, s.ongoing.value,
      Assembly(node.host.h, s.ongoing.value, Under(s.chunks, SummaryId(node.host.h, s.ongoing.value)), peers))
    ensures Step(node, Step(node, s, Advance(height)), Run(peers)).height == s.ongoing.value.height < height
  {
    hide ValidSummary, SummaryId, Attempt, Assembly, Installs, Cleared;
  }

  /** The event starts a synchronisation to another summary. */
  ghost predicate Switches<S>(node: Node<S>, s: Session, e: Event) {
    e.Offer? && Takes(node, s, e.summary) && s.ongoing != Some(e.summary)
  }

  /** After which nothing is stored. */
  lemma SwitchEmpties<S(!new)>(node: Node<S>, s: Session, e: Event, id: Hash)
    requires Tidy(node, s) && Switches(node, s, e)
    ensures Under(Step(node, s, e).chunks, id) == map[]
  {
    hide SummaryId, ValidSummary;
    var after := Under(Step(node, s, e).chunks, id);
    forall i: U32
      ensures i !in after
    {
      assert i in after ==> i in Under(s.chunks, id);
    }
  }

  // ----- stuck until another summary is accepted ---------------------------------------------

  /** The node synchronises to this summary and holds something wrong in this slot. */
  ghost predicate StuckAt<S>(node: Node<S>, s: Session, summary: StateSummary, snapshot: Bytes, slot: U32) {
    && s.ongoing == Some(summary)
    && Stuck(node.host.h, summary, snapshot, Under(s.chunks, SummaryId(node.host.h, summary)), slot)
  }

  /** What the event assembles, in the form that is hashed. */
  ghost function HashedIn<S(!new)>(node: Node<S>, s: Session, e: Event): set<Bytes> {
    if e.Run? && s.ongoing.Some? then
      var summary := s.ongoing.value;
      var r := Assembly(node.host.h, summary, Under(s.chunks, SummaryId(node.host.h, summary)), e.peers);
      if r.Some? then {SnapshotInput(r.value)} else {}
    else {}
  }

  ghost function Hashed<S(!new)>(node: Node<S>, s: Session, events: seq<Event>): set<Bytes>
    decreases |events|
  {
    if events == [] then {} else HashedIn(node, s, events[0]) + Hashed(node, Step(node, s, events[0]), events[1..])
  }

  lemma StuckStep<S(!new)>(node: Node<S>, s: Session, e: Event, summary: StateSummary, snapshot: Bytes, slot: U32)
    requires Commits(node.host, summary, snapshot) && StuckAt(node, s, summary, snapshot, slot)
    requires !Switches(node, s, e)
    requires CollisionFree(node.host.h, {SnapshotInput(snapshot)} + HashedIn(node, s, e))
    ensures StuckAt(node, Step(node, s, e), summary, snapshot, slot)
  {
    if e.Run? && s.running {
      var stored := Under(s.chunks, SummaryId(node.host.h, summary));
      hide Commits, Stuck, SummaryId, ValidSummary, Attempt, Assembly, CollisionFree, SnapshotInput, DecodeSnapshot;
      StuckStays(node.host.h, summary, snapshot, stored, e.peers, slot);
      StuckFails(node.host.h, summary, snapshot, stored, e.peers, slot);
      var r := Assembly(node.host.h, summary, stored, e.peers);
      if r.Some? {
        CollisionFreeFewer(node.host.h, {SnapshotInput(snapshot)} + HashedIn(node, s, e),
                           {SnapshotInput(snapshot), SnapshotInput(r.value)});
        OthersUndecodable(node.host, summary, snapshot, r.value);
      }
    } else {
      hide Stuck, SummaryId, ValidSummary, Attempt, Assembly;
    }
  }

  lemma CollisionFreeFewer(h: Hasher, inputs: set<Bytes>, fewer: set<Bytes>)
    requires CollisionFree(h, inputs) && fewer <= inputs
    ensures CollisionFree(h, fewer)
  {
  }

  /**
   Whatever is offered, however often attempts run with whatever peers, and however often the node
   restarts: a stuck synchronisation stays stuck, and is not installed, until another summary is
   accepted.
   */
  lemma {:induction false} StuckUntilSwitch<S(!new)>(node: Node<S>, s: Session, events: seq<Event>,
                                                     summary: StateSummary, snapshot: Bytes, slot: U32)
    requires Commits(node.host, summary, snapshot) && StuckAt(node, s, summary, snapshot, slot)
    requires CollisionFree(node.host.h, {SnapshotInput(snapshot)} + Hashed(node, s, events))
    ensures (exists i | 0 <= i < |events| :: Switches(node, After(node, s, events[..i]), events[i]))
            || StuckAt(node, After(node, s, events), summary, snapshot, slot)
    decreases |events|
  {
    hide Commits, StuckAt, Switches, HashedIn, Step, CollisionFree, SnapshotInput;
    if events != [] {
      var next, rest := Step(node, s, events[0]), events[1..];
      if Switches(node, s, events[0]) {
        assert After(node, s, events[..0]) == s;
      } else {
        var all := {SnapshotInput(snapshot)} + Hashed(node, s, events);
        CollisionFreeFewer(node.host.h, all, {SnapshotInput(snapshot)} + HashedIn(node, s, events[0]));
        CollisionFreeFewer(node.host.h, all, {SnapshotInput(snapshot)} + Hashed(node, next, rest));
        StuckStep(node, s, events[0], summary, snapshot, slot);
        StuckUntilSwitch(node, next, rest, summary, snapshot, slot);
        if i :| 0 <= i < |rest| && Switches(node, After(node, next, rest[..i]), rest[i]) {
          assert events[..i + 1][1..] == rest[..i];
          assert After(node, s, events[..i + 1]) == After(node, next, rest[..i]);
          assert events[i + 1] == rest[i];
        }
      }
    }
  }

  // ----- how it gets stuck, and how it recovers ----------------------------------------------

  /** The node can install what the summary commits to. */
  ghost predicate Installable<S(!new)>(node: Node<S>, summary: StateSummary, snapshot: Bytes) {
    && SummaryId(node.host.h, summary) != ZERO_HASH
    && Installs(node, summary, Some(snapshot))
  }

  lemma OfferTaken<S(!new)>(node: Node<S>, s: Session, summary: StateSummary)
    requires Tidy(node, s) && Takes(node, s, summary) && s.ongoing != Some(summary)
    ensures var after := Step(node, s, Offer(summary));
      && after.ongoing == Some(summary) && after.running && after.height == s.height
      && Under(after.chunks, SummaryId(node.host.h, summary)) == map[]
      && Tidy(node, after)
  {
    StepTidy(node, s, Offer(summary));
    SwitchEmpties(node, s, Offer(summary), SummaryId(node.host.h, summary));
    hide Tidy, SummaryId;
  }

  /** One peer that answers one index with the honest answer for another leaves the node stuck. */
  lemma OnePeerSticks<S(!new)>(node: Node<S>, s: Session, summary: StateSummary, snapshot: Bytes, pick: U32 -> U32,
                               slot: U32)
    requires Tidy(node, s) && Takes(node, s, summary) && s.ongoing != Some(summary)
    requires DecodeSnapshot(node.host, summary, snapshot).Success? && SummaryId(node.host.h, summary) != ZERO_HASH
    requires slot < summary.chunkCount && pick(slot) < summary.chunkCount
    requires forall i: U32 | i < slot :: pick(i) == i
    requires var chunks := Chunks(snapshot, CHUNK_BYTES);
      |chunks| == summary.chunkCount && !(chunks[pick(slot)] <= chunks[slot])
    requires var r := Assembly(node.host.h, summary, map[], [Serving(node.host, summary, snapshot, pick)]);
      r.Some? ==> CollisionFree(node.host.h, {SnapshotInput(snapshot), SnapshotInput(r.value)})
    ensures var run := Run([Serving(node.host, summary, snapshot, pick)]);
      StuckAt(node, Step(node, Step(node, s, Offer(summary)), run), summary, snapshot, slot)
  {
    var peers := [Serving(node.host, summary, snapshot, pick)];
    assert Commits(node.host, summary, snapshot);
    OfferTaken(node, s, summary);
    MisplacerSticks(node.host, summary, snapshot, pick, slot);
    hide Commits, Stuck, SummaryId, ValidSummary, Attempt, Assembly, CollisionFree, SnapshotInput, DecodeSnapshot,
      Serving, Chunks, Tidy, Takes;
    var r := Assembly(node.host.h, summary, map[], peers);
    if r.Some? {
      OthersUndecodable(node.host, summary, snapshot, r.value);
    }
    RanFrom(node, Step(node, s, Offer(summary)), summary, peers);
  }

  lemma RanFrom<S(!new)>(node: Node<S>, s: Session, summary: StateSummary, peers: seq<Peer>)
    requires s.running && s.ongoing == Some(summary) && Under(s.chunks, SummaryId(node.host.h, summary)) == map[]
    ensures var after := Step(node, s, Run(peers));
      if Installs(node, summary, Assembly(node.host.h, summary, map[], peers))
      then after.ongoing.None? && after.height == summary.height
      else after.ongoing == Some(summary)
           && Under(after.chunks, SummaryId(node.host.h, summary)) == Attempt(node.host.h, summary, map[], peers)
  {
    hide SummaryId, Attempt, Assembly, Installs;
  }

  /** With nothing stored, one honest peer brings the node to the summary's height. */
  lemma HonestInstalls<S(!new)>(node: Node<S>, s: Session, summary: StateSummary, snapshot: Bytes)
    requires Tidy(node, s) && Takes(node, s, summary) && s.ongoing != Some(summary)
    requires Installable(node, summary, snapshot)
    ensures var run := Run([Serving(node.host, summary, snapshot, Same)]);
      var after := Step(node, Step(node, s, Offer(summary)), run);
      after.ongoing.None? && after.height == summary.height
  {
    var peers := [Serving(node.host, summary, snapshot, Same)];
    OfferTaken(node, s, summary);
    hide SummaryId, DecodeSnapshot, Serving, Tidy, Takes, Assembly, Attempt;
    HonestCompletes(node.host, summary, snapshot, map[]);
    RanFrom(node, Step(node, s, Offer(summary)), summary, peers);
  }

  /**
   With one honest peer, no two chunks the same and everything stored of the length of its slot, the
   attempt is installed exactly when everything stored is for the slot it is stored for.
   */
  lemma HonestRunExact<S(!new)>(node: Node<S>, s: Session, summary: StateSummary, snapshot: Bytes)
    requires s.running && s.ongoing == Some(summary) && Installable(node, summary, snapshot) && Distinct(snapshot)
    requires var h, peers := node.host.h, [Serving(node.host, summary, snapshot, Same)];
      var stored := Under(s.chunks, SummaryId(h, summary));
      && HeldFit(h, summary, stored)
      && CollisionFree(h, SyncInputs(h, snapshot, Taken(h, summary, stored, peers)))
      && CollisionFree(h, {SnapshotInput(snapshot)} + HashedIn(node, s, Run(peers)))
    ensures Step(node, s, Run([Serving(node.host, summary, snapshot, Same)])).ongoing.None?
       <==> HeldInPlace(node.host.h, summary, Under(s.chunks, SummaryId(node.host.h, summary)))
  {
    var h, peers := node.host.h, [Serving(node.host, summary, snapshot, Same)];
    var stored := Under(s.chunks, SummaryId(h, summary));
    assert Commits(node.host, summary, snapshot);
    var r := Assembly(h, summary, stored, peers);
    hide SummaryId, DecodeSnapshot, Serving, Assembly, Attempt, Commits, HeldInPlace, HeldFit, Distinct, CollisionFree,
      SyncInputs, Taken, SnapshotInput, Cleared;
    HonestExact(node.host, summary, snapshot, stored);
    if r.Some? && r.value != snapshot {
      CollisionFreeFewer(h, {SnapshotInput(snapshot)} + HashedIn(node, s, Run(peers)),
                         {SnapshotInput(snapshot), SnapshotInput(r.value)});
      OthersUndecodable(node.host, summary, snapshot, r.value);
    }
  }

  /** A stuck node that accepts another summary, restarts and comes back can still be brought there. */
  lemma SwitchRecovers<S(!new)>(node: Node<S>, s: Session, summary: StateSummary, other: StateSummary, snapshot: Bytes)
    requires Tidy(node, s) && s.ongoing == Some(summary) && Installable(node, summary, snapshot)
    requires Takes(node, s, summary) && Takes(node, s, other) && other != summary
    ensures var events :=
        [Offer(other), Restart, Offer(summary), Run([Serving(node.host, summary, snapshot, Same)])];
      var after := After(node, s, events);
      after.ongoing.None? && after.height == summary.height
  {
    var peers := [Serving(node.host, summary, snapshot, Same)];
    OfferTaken(node, s, other);
    var away := Step(node, s, Offer(other));
    StepTidy(node, away, Restart);
    var idle := Step(node, away, Restart);
    HonestInstalls(node, idle, summary, snapshot);
    var e0, e1, e2, e3 := Offer(other), Restart, Offer(summary), Run(peers);
    hide Step, Installable, Tidy, Serving;
    FourEvents(node, s, e0, e1, e2, e3);
  }

  lemma FourEvents<S(!new)>(node: Node<S>, s: Session, a: Event, b: Event, c: Event, d: Event)
    ensures After(node, s, [a, b, c, d]) == Step(node, Step(node, Step(node, Step(node, s, a), b), c), d)
  {
    hide Step;
    assert [a, b, c, d][1..] == [b, c, d] && [b, c, d][1..] == [c, d] && [c, d][1..] == [d] && [d][1..] == [];
    assert After(node, Step(node, s, a), [b, c, d]) == After(node, s, [a, b, c, d]);
    assert After(node, Step(node, Step(node, s, a), b), [c, d]) == After(node, Step(node, s, a), [b, c, d]);
    var last := Step(node, Step(node, Step(node, s, a), b), c);
    assert After(node, last, [d]) == After(node, Step(node, last, d), []);
  }

  // ----- the object --------------------------------------------------------------------------

  class Joiner<S(!new)> {
    const node: Node<S>
    var ongoing: Option<StateSummary>
    var running: bool
    var chunks: map<Hash, map<U32, Bytes>>
    var height: U64

    function Value(): Session
      reads this
    {
      Session(ongoing, running, chunks, height)
    }

    constructor (node: Node<S>, height: U64)
      ensures this.node == node && Value() == Session(None, false, map[], height) && Tidy(node, Value())
    {
      this.node, this.height := node, height;
      ongoing, running, chunks := None, false, map[];
    }

    /** Delete the stored chunks of a summary, one key after another. */
    method DeleteChunks(id: Hash, count: U32)
      modifies this`chunks
      ensures chunks == Cleared(old(chunks), id, count)
    {
      var stored := Under(chunks, id);
      ghost var all := stored;
      for index := 0 to count
        invariant stored == From(all, index)
      {
        stored := stored - {index};
      }
      chunks := chunks[id := stored];
    }

    method AcceptSummary(summary: StateSummary) returns (r: Result<Mode, WireError>)
      modifies this
      ensures Value() == Step(node, old(Value()), Offer(summary))
      ensures r == OfferReply(node, old(Value()), summary)
    {
      hide ValidSummary, SummaryId, Cleared;
      if !ValidSummary(summary) || !OnChain(node, summary) {
        return Failure(OutOfBounds);
      }
      if summary.height <= height {
        return Success(Skipped);
      }
      if running {
        return Success(if ongoing == Some(summary) then Static else Skipped);
      }
      if ongoing.Some? && ongoing.value != summary {
        DeleteChunks(SummaryId(node.host.h, ongoing.value), ongoing.value.chunkCount);
      }
      ongoing, running := Some(summary), true;
      return Success(Static);
    }

    /** The attempt that an accepted summary starts, up to its end. */
    method FinishSync(peers: seq<Peer>)
      requires running && ongoing.Some?
      modifies this
      ensures Value() == Step(node, old(Value()), Run(peers))
    {
      hide SummaryId, Attempt, Assembly, DecodeSnapshot, Cleared;
      var summary := ongoing.value;
      var id := SummaryId(node.host.h, summary);
      var assembled, kept := AssembleSnapshot(node.host.h, summary, Under(chunks, id), peers);
      chunks := chunks[id := kept];
      running := false;
      if assembled.None? {
        return;
      }
      var decoded := DecodeSnapshot(node.host, summary, assembled.value);
      if decoded.Failure? || !node.admits(decoded.value.state) || !node.stages(decoded.value.state) {
        return;
      }
      DeleteChunks(id, summary.chunkCount);
      ongoing, height := None, summary.height;
    }

    /** A fresh process over the same database. */
    method Reopen()
      modifies this
      ensures Value() == Step(node, old(Value()), Restart)
    {
      running := false;
    }
  }
}
