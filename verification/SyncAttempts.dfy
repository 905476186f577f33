/**
 Repeated attempts at one summary. Accepted answers are kept from one attempt to the next, also
 those that are for another slot than the one they fill.
 */
module SyncAttempts {
  import opened Numbers
  import opened Results
  import opened Wire
  import opened Chunking
  import opened Merkle
  import opened SyncCodec
  import opened StateSync

  // ----- what the store keeps ----------------------------------------------------------------

  lemma OfferedDecodes(h: Hasher, summary: StateSummary, message: Option<Bytes>)
    ensures var r := Offered(h, summary, message);
      r.Some? ==>
        && message == Some(ResponseEncoding(r.value)) && Decodable(h, summary, ResponseEncoding(r.value)) == r
        && |r.value.bytes| <= CHUNK_BYTES
  {
    if Offered(h, summary, message).Some? {
      ResponseOfDecode(message.value);
    }
  }

  lemma {:induction false} FirstAnswerDecodes(h: Hasher, summary: StateSummary, peers: seq<Peer>, index: U32,
                                              offset: nat)
    requires offset <= |peers|
    ensures var r := FirstAnswer(h, summary, peers, index, offset);
      r.Some? ==> Decodable(h, summary, ResponseEncoding(r.value)) == r && |r.value.bytes| <= CHUNK_BYTES
    decreases |peers| - offset
  {
    hide Decodable, Offered, Turn, ResponseEncoding;
    if offset < |peers| {
      FirstAnswerDecodes(h, summary, peers, index, offset + 1);
      OfferedDecodes(h, summary, peers[Turn(index, offset, |peers|)](index));
    }
  }

  /** What fills a slot is accepted again when it is read back from the store. */
  lemma SlotDecodes(h: Hasher, summary: StateSummary, stored: map<U32, Bytes>, peers: seq<Peer>, index: U32)
    ensures var r := Slot(h, summary, stored, peers, index);
      r.Some? ==> Decodable(h, summary, ResponseEncoding(r.value)) == r && |r.value.bytes| <= CHUNK_BYTES
  {
    FirstAnswerDecodes(h, summary, peers, index, 0);
    OfferedDecodes(h, summary, if index in stored then Some(stored[index]) else None);
    hide Decodable, Offered, FirstAnswer, ResponseEncoding;
  }

  /** A slot filled in an attempt holds, after it, what filled it. */
  lemma {:induction false} FilledIsHeld(h: Hasher, summary: StateSummary, stored: map<U32, Bytes>, peers: seq<Peer>,
                                        count: U32, index: U32)
    requires index < count && Filling(h, summary, stored, peers, index + 1).Some?
    ensures Slot(h, summary, stored, peers, index).Some?
    ensures Held(h, summary, StoreAfter(h, summary, stored, peers, count), index)
         == Slot(h, summary, stored, peers, index)
    decreases count
  {
    hide Slot, Decodable, ResponseEncoding;
    if index == count - 1 {
      SlotDecodes(h, summary, stored, peers, index);
    } else {
      FilledIsHeld(h, summary, stored, peers, count - 1, index);
    }
  }

  /** An acceptable answer in the store fills its slot and is never replaced. */
  lemma {:induction false} HeldStays(h: Hasher, summary: StateSummary, stored: map<U32, Bytes>, peers: seq<Peer>,
                                     count: U32, index: U32)
    requires Held(h, summary, stored, index).Some?
    ensures Held(h, summary, StoreAfter(h, summary, stored, peers, count), index) == Held(h, summary, stored, index)
    ensures Slot(h, summary, stored, peers, index) == Held(h, summary, stored, index)
    decreases count
  {
    hide Decodable, FirstAnswer, ResponseEncoding, Filling;
    if count > 0 {
      HeldStays(h, summary, stored, peers, count - 1, index);
      OfferedDecodes(h, summary, if index in stored then Some(stored[index]) else None);
    }
  }

  /** What is filled is what the slots give, slot by slot. */
  lemma {:induction false} FillingAt(h: Hasher, summary: StateSummary, stored: map<U32, Bytes>, peers: seq<Peer>,
                                     count: U32, index: U32)
    requires Filling(h, summary, stored, peers, count).Some? && index < count
    ensures |Filling(h, summary, stored, peers, count).value| == count
    ensures Slot(h, summary, stored, peers, index).Some?
    ensures Filling(h, summary, stored, peers, count).value[index]
         == Slot(h, summary, stored, peers, index).value.bytes
    decreases count
  {
    hide Slot;
    if index < count - 1 {
      FillingAt(h, summary, stored, peers, count - 1, index);
    } else if count > 1 {
      FillingAt(h, summary, stored, peers, count - 1, 0);
    }
  }

  // ----- stuck -------------------------------------------------------------------------------

  /** The answer carries the chunk of this slot. */
  ghost predicate Own(answer: Option<ChunkResponse>, snapshot: Bytes, slot: U32) {
    var chunks := Chunks(snapshot, CHUNK_BYTES);
    answer.Some? && slot < |chunks| && answer.value.bytes == chunks[slot]
  }

  /** The answer carries bytes that the chunk of this slot does not start with. */
  ghost predicate Wrong(answer: Option<ChunkResponse>, snapshot: Bytes, slot: U32) {
    var chunks := Chunks(snapshot, CHUNK_BYTES);
    answer.Some? && slot < |chunks| && !(answer.value.bytes <= chunks[slot])
  }

  /** Every slot before this one holds its own chunk, and this one something wrong. */
  ghost predicate Stuck(h: Hasher, summary: StateSummary, snapshot: Bytes, stored: map<U32, Bytes>, slot: U32) {
    && |Chunks(snapshot, CHUNK_BYTES)| == summary.chunkCount && slot < summary.chunkCount
    && (forall i: U32 | i < slot :: Own(Held(h, summary, stored, i), snapshot, i))
    && Wrong(Held(h, summary, stored, slot), snapshot, slot)
  }

  /** No peers change that. */
  lemma StuckStays(h: Hasher, summary: StateSummary, snapshot: Bytes, stored: map<U32, Bytes>, peers: seq<Peer>,
                   slot: U32)
    requires Stuck(h, summary, snapshot, stored, slot)
    ensures Stuck(h, summary, snapshot, Attempt(h, summary, stored, peers), slot)
  {
    hide Chunks, Held, StoreAfter, ValidSummary, Own, Wrong;
    forall i: U32 | i <= slot
      ensures Held(h, summary, Attempt(h, summary, stored, peers), i) == Held(h, summary, stored, i)
    {
      SomethingHeld(h, summary, snapshot, stored, slot, i);
      HeldStays(h, summary, stored, peers, summary.chunkCount, i);
    }
  }

  lemma SomethingHeld(h: Hasher, summary: StateSummary, snapshot: Bytes, stored: map<U32, Bytes>, slot: U32, i: U32)
    requires Stuck(h, summary, snapshot, stored, slot) && i <= slot
    ensures Held(h, summary, stored, i).Some?
  {
    hide Chunks, Held;
    if i < slot {
      assert Own(Held(h, summary, stored, i), snapshot, i);
    }
  }

  /** Slots that are right up to one that is wrong do not give the snapshot. */
  lemma WrongFails(h: Hasher, summary: StateSummary, snapshot: Bytes, stored: map<U32, Bytes>, peers: seq<Peer>,
                   slot: U32)
    requires |Chunks(snapshot, CHUNK_BYTES)| == summary.chunkCount && slot < summary.chunkCount
    requires forall i: U32 | i < slot :: Own(Slot(h, summary, stored, peers, i), snapshot, i)
    requires Wrong(Slot(h, summary, stored, peers, slot), snapshot, slot)
    ensures Assembly(h, summary, stored, peers) != Some(snapshot)
  {
    var filled := Filling(h, summary, stored, peers, summary.chunkCount);
    hide Chunks, Concat, Filling, Slot, ValidSummary;
    if filled.Some? {
      FillingAt(h, summary, stored, peers, summary.chunkCount, slot);
      SlotDecodes(h, summary, stored, peers, slot);
      OwnPrefix(h, summary, snapshot, stored, peers, slot, filled.value);
      FirstWrong(filled.value, snapshot, CHUNK_BYTES, slot);
    }
  }

  lemma OwnPrefix(h: Hasher, summary: StateSummary, snapshot: Bytes, stored: map<U32, Bytes>, peers: seq<Peer>,
                  slot: U32, parts: seq<Bytes>)
    requires Filling(h, summary, stored, peers, summary.chunkCount) == Some(parts)
    requires slot <= |Chunks(snapshot, CHUNK_BYTES)| == summary.chunkCount == |parts|
    requires forall i: U32 | i < slot :: Own(Slot(h, summary, stored, peers, i), snapshot, i)
    ensures parts[..slot] == Chunks(snapshot, CHUNK_BYTES)[..slot]
  {
    var chunks := Chunks(snapshot, CHUNK_BYTES);
    hide Chunks, Filling, Slot;
    forall k | 0 <= k < slot
      ensures parts[k] == chunks[k]
    {
      var i: U32 := k;
      assert Own(Slot(h, summary, stored, peers, i), snapshot, i);
      FillingAt(h, summary, stored, peers, summary.chunkCount, i);
    }
  }

  /** No peers give the snapshot. */
  lemma StuckFails(h: Hasher, summary: StateSummary, snapshot: Bytes, stored: map<U32, Bytes>, peers: seq<Peer>,
                   slot: U32)
    requires Stuck(h, summary, snapshot, stored, slot)
    ensures Assembly(h, summary, stored, peers) != Some(snapshot)
  {
    hide Chunks, Held, Slot, Own, Wrong, Assembly;
    forall i: U32 | i <= slot
      ensures Slot(h, summary, stored, peers, i) == Held(h, summary, stored, i)
    {
      SomethingHeld(h, summary, snapshot, stored, slot, i);
      HeldStays(h, summary, stored, peers, 0, i);
    }
    WrongFails(h, summary, snapshot, stored, peers, slot);
  }

  /** Anything but the snapshot does not decode. */
  lemma OthersUndecodable<S(!new)>(host: Host<S>, summary: StateSummary, snapshot: Bytes, other: Bytes)
    requires Commits(host, summary, snapshot) && other != snapshot
    requires CollisionFree(host.h, {SnapshotInput(snapshot), SnapshotInput(other)})
    ensures DecodeSnapshot(host, summary, other).Failure?
  {
    SnapshotInputInjective(other, snapshot);
  }

  /** One attempt is enough to get there. */
  lemma MisplacedSticks(h: Hasher, summary: StateSummary, snapshot: Bytes, stored: map<U32, Bytes>, peers: seq<Peer>,
                        slot: U32)
    requires ValidSummary(summary) && |Chunks(snapshot, CHUNK_BYTES)| == summary.chunkCount
    requires slot < summary.chunkCount && peers != []
    requires forall i: U32 | i < slot :: Own(Slot(h, summary, stored, peers, i), snapshot, i)
    requires Wrong(Slot(h, summary, stored, peers, slot), snapshot, slot)
    ensures Stuck(h, summary, snapshot, Attempt(h, summary, stored, peers), slot)
    ensures Assembly(h, summary, stored, peers) != Some(snapshot)
  {
    hide Chunks, Slot, Held, Attempt, ValidSummary, Assembly, Own, Wrong;
    WrongFails(h, summary, snapshot, stored, peers, slot);
    forall i: U32 | i <= slot
      ensures Slot(h, summary, stored, peers, i).Some?
    {
      SomethingFills(Slot(h, summary, stored, peers, i), snapshot, i);
    }
    forall i: U32 | i <= slot
      ensures Held(h, summary, Attempt(h, summary, stored, peers), i) == Slot(h, summary, stored, peers, i)
    {
      HeldAfter(h, summary, stored, peers, i);
    }
  }

  lemma SomethingFills(answer: Option<ChunkResponse>, snapshot: Bytes, slot: U32)
    ensures Own(answer, snapshot, slot) || Wrong(answer, snapshot, slot) ==> answer.Some?
  {
    hide Chunks;
  }

  /** After an attempt, a slot holds what filled it if it and every slot before it was filled. */
  lemma HeldAfter(h: Hasher, summary: StateSummary, stored: map<U32, Bytes>, peers: seq<Peer>, slot: U32)
    requires ValidSummary(summary) && slot < summary.chunkCount && peers != []
    requires forall i: U32 | i <= slot :: Slot(h, summary, stored, peers, i).Some?
    ensures Held(h, summary, Attempt(h, summary, stored, peers), slot) == Slot(h, summary, stored, peers, slot)
  {
    hide Slot, Held, StoreAfter, Filling, ValidSummary;
    var _ := FillingAccepted(h, summary, stored, peers, slot + 1);
    FilledIsHeld(h, summary, stored, peers, summary.chunkCount, slot);
  }

  // ----- peers that serve the snapshot -------------------------------------------------------

  /** A peer that answers each index with the honest answer for the index it picks. */
  function Serving<S(!new)>(host: Host<S>, summary: StateSummary, snapshot: Bytes, pick: U32 -> U32): Peer {
    (i: U32) =>
      var r := Respond(host, summary, snapshot, pick(i));
      if r.Success? then Some(ResponseEncoding(r.value)) else None
  }

  function Same(i: U32): U32 {
    i
  }

  /** An honest answer passes the wire, unless the summary's identifier is all zeros. */
  lemma HonestOffered<S(!new)>(host: Host<S>, summary: StateSummary, snapshot: Bytes, index: U32)
    requires DecodeSnapshot(host, summary, snapshot).Success? && index < summary.chunkCount
    requires SummaryId(host.h, summary) != ZERO_HASH
    ensures Respond(host, summary, snapshot, index).Success?
    ensures Respond(host, summary, snapshot, index).value.index == index
    ensures |Chunks(snapshot, CHUNK_BYTES)| == summary.chunkCount
    ensures Respond(host, summary, snapshot, index).value.bytes == Chunks(snapshot, CHUNK_BYTES)[index]
    ensures var r := Respond(host, summary, snapshot, index).value;
      Offered(host.h, summary, Some(ResponseEncoding(r))) == Some(r)
  {
    HonestResponseAccepted(host, summary, snapshot, index);
    var r := Respond(host, summary, snapshot, index).value;
    ChunkCount(snapshot, CHUNK_BYTES);
    ChunkAt(snapshot, CHUNK_BYTES, index);
    HonestDepth(host, snapshot, index);
    hide DecodeSnapshot, AcceptsResponse, Chunks, Path, Leaves, ExpectedLength, ResponseEncoding, SummaryId;
    DecodeOfResponse(r);
  }

  lemma HonestDepth<S(!new)>(host: Host<S>, snapshot: Bytes, index: nat)
    requires index < |Chunks(snapshot, CHUNK_BYTES)| <= U32_MAX
    ensures |Path(host.h, Leaves(host.h, Chunks(snapshot, CHUNK_BYTES)), index)| <= MAX_MERKLE_DEPTH
  {
    PathLength(host.h, Leaves(host.h, Chunks(snapshot, CHUNK_BYTES)), index);
    DepthSupported(|Chunks(snapshot, CHUNK_BYTES)|);
  }

  /** A slot the store has nothing for gets what such a peer picks for it. */
  lemma ServedSlot<S(!new)>(host: Host<S>, summary: StateSummary, snapshot: Bytes, stored: map<U32, Bytes>,
                            pick: U32 -> U32, i: U32)
    requires DecodeSnapshot(host, summary, snapshot).Success? && SummaryId(host.h, summary) != ZERO_HASH
    requires pick(i) < summary.chunkCount && Held(host.h, summary, stored, i).None?
    ensures var peer := Serving(host, summary, snapshot, pick);
      && Respond(host, summary, snapshot, pick(i)).Success?
      && Slot(host.h, summary, stored, [peer], i) == Some(Respond(host, summary, snapshot, pick(i)).value)
  {
    HonestOffered(host, summary, snapshot, pick(i));
    var peer := Serving(host, summary, snapshot, pick);
    hide DecodeSnapshot, Respond, Offered, Held, SummaryId, ResponseEncoding;
    assert Turn(i, 0, 1) == 0;
    assert FirstAnswer(host.h, summary, [peer], i, 0) == Offered(host.h, summary, peer(i));
  }

  lemma PickedSlot<S(!new)>(host: Host<S>, summary: StateSummary, snapshot: Bytes, pick: U32 -> U32, i: U32)
    requires DecodeSnapshot(host, summary, snapshot).Success? && SummaryId(host.h, summary) != ZERO_HASH
    requires i < summary.chunkCount == |Chunks(snapshot, CHUNK_BYTES)| && pick(i) < summary.chunkCount
    ensures var answer, chunks :=
        Slot(host.h, summary, map[], [Serving(host, summary, snapshot, pick)], i), Chunks(snapshot, CHUNK_BYTES);
      && (pick(i) == i ==> Own(answer, snapshot, i))
      && (!(chunks[pick(i)] <= chunks[i]) ==> Wrong(answer, snapshot, i))
  {
    hide DecodeSnapshot, Chunks, Slot, Serving, Respond, SummaryId;
    ServedSlot(host, summary, snapshot, map[], pick, i);
    HonestOffered(host, summary, snapshot, pick(i));
  }

  /** One peer that gives the honest answer for another index, once, leaves an empty store stuck. */
  lemma MisplacerSticks<S(!new)>(host: Host<S>, summary: StateSummary, snapshot: Bytes, pick: U32 -> U32, slot: U32)
    requires DecodeSnapshot(host, summary, snapshot).Success? && SummaryId(host.h, summary) != ZERO_HASH
    requires slot < summary.chunkCount && pick(slot) < summary.chunkCount
    requires forall i: U32 | i < slot :: pick(i) == i
    requires var chunks := Chunks(snapshot, CHUNK_BYTES);
      |chunks| == summary.chunkCount && !(chunks[pick(slot)] <= chunks[slot])
    ensures var peers := [Serving(host, summary, snapshot, pick)];
      && Stuck(host.h, summary, snapshot, Attempt(host.h, summary, map[], peers), slot)
      && Assembly(host.h, summary, map[], peers) != Some(snapshot)
  {
    var peer := Serving(host, summary, snapshot, pick);
    CommitsDimensions(host, summary, snapshot);
    hide *;
    forall i: U32 | i <= slot
      ensures i < slot ==> Own(Slot(host.h, summary, map[], [peer], i), snapshot, i)
      ensures i == slot ==> Wrong(Slot(host.h, summary, map[], [peer], i), snapshot, i)
    {
      PickedSlot(host, summary, snapshot, pick, i);
    }
    MisplacedSticks(host.h, summary, snapshot, map[], [peer], slot);
  }

  // ----- when an attempt completes -----------------------------------------------------------

  ghost predicate AllFilled(h: Hasher, summary: StateSummary, stored: map<U32, Bytes>, peers: seq<Peer>) {
    forall i: U32 | i < summary.chunkCount :: Slot(h, summary, stored, peers, i).Some?
  }

  ghost const NO_ANSWER := ChunkResponse(ZERO_HASH, 0, 0, [], [])

  /** What an attempt takes, slot by slot. */
  ghost function Taken(h: Hasher, summary: StateSummary, stored: map<U32, Bytes>, peers: seq<Peer>):
    seq<ChunkResponse>
  {
    seq(summary.chunkCount, (i: nat) requires i < summary.chunkCount =>
      var answer := Slot(h, summary, stored, peers, i);
      if answer.Some? then answer.value else NO_ANSWER)
  }

  lemma TakenAssembles(h: Hasher, summary: StateSummary, stored: map<U32, Bytes>, peers: seq<Peer>)
    requires AllFilled(h, summary, stored, peers)
    ensures AllAccepted(h, summary, Taken(h, summary, stored, peers))
    ensures Filling(h, summary, stored, peers, summary.chunkCount) == Some(Payloads(Taken(h, summary, stored, peers)))
  {
    var taken := Taken(h, summary, stored, peers);
    var _ := FillingAccepted(h, summary, stored, peers, summary.chunkCount);
    var parts := Filling(h, summary, stored, peers, summary.chunkCount).value;
    hide Slot, Filling, AcceptsResponse;
    if summary.chunkCount > 0 {
      FillingAt(h, summary, stored, peers, summary.chunkCount, 0);
    }
    forall k | 0 <= k < summary.chunkCount
      ensures parts[k] == taken[k].bytes && AcceptsResponse(h, summary, taken[k])
    {
      FillingAt(h, summary, stored, peers, summary.chunkCount, k);
      SlotFilled(h, summary, stored, peers, k);
    }
    assert parts == Payloads(taken);
  }

  ghost predicate Distinct(snapshot: Bytes) {
    var chunks := Chunks(snapshot, CHUNK_BYTES);
    forall i, j | 0 <= i < j < |chunks| :: chunks[i] != chunks[j]
  }

  /** What the store holds has the length of its slot. */
  ghost predicate HeldFit(h: Hasher, summary: StateSummary, stored: map<U32, Bytes>) {
    forall i: U32 | i < summary.chunkCount && Held(h, summary, stored, i).Some? ::
      |Held(h, summary, stored, i).value.bytes| == ExpectedLength(summary.snapshotLen, CHUNK_BYTES, i)
  }

  /** What the store holds is for the slot it is held for. */
  ghost predicate HeldInPlace(h: Hasher, summary: StateSummary, stored: map<U32, Bytes>) {
    forall i: U32 | i < summary.chunkCount && Held(h, summary, stored, i).Some? ::
      Held(h, summary, stored, i).value.index == i
  }

  /** Every slot that the store has nothing for is filled with an answer for it. */
  ghost predicate RestInPlace(h: Hasher, summary: StateSummary, stored: map<U32, Bytes>, peers: seq<Peer>) {
    forall i: U32 | i < summary.chunkCount && Held(h, summary, stored, i).None? ::
      var answer := Slot(h, summary, stored, peers, i);
      answer.Some? && answer.value.index == i
  }

  lemma InPlaceFilled(h: Hasher, summary: StateSummary, stored: map<U32, Bytes>, peers: seq<Peer>)
    requires RestInPlace(h, summary, stored, peers)
    ensures AllFilled(h, summary, stored, peers)
  {
    hide Held, Slot;
    forall i: U32 | i < summary.chunkCount
      ensures Slot(h, summary, stored, peers, i).Some?
    {
      if Held(h, summary, stored, i).Some? {
        HeldStays(h, summary, stored, peers, 0, i);
      }
    }
  }

  lemma OwnLength(h: Hasher, summary: StateSummary, response: ChunkResponse, i: nat)
    requires AcceptsResponse(h, summary, response) && response.index == i
    ensures |response.bytes| == ExpectedLength(summary.snapshotLen, CHUNK_BYTES, i)
  {
    hide Accepts, SummaryId, DivCeil;
  }

  /** One slot of the attempt: its length fits, and it is in place unless the store holds it out of place. */
  lemma TakenAt(h: Hasher, summary: StateSummary, stored: map<U32, Bytes>, peers: seq<Peer>, i: U32)
    requires HeldFit(h, summary, stored) && RestInPlace(h, summary, stored, peers) && i < summary.chunkCount
    ensures Slot(h, summary, stored, peers, i).Some?
    ensures var answer := Slot(h, summary, stored, peers, i).value;
      && |answer.bytes| == ExpectedLength(summary.snapshotLen, CHUNK_BYTES, i)
      && (answer.index == i <==>
            (Held(h, summary, stored, i).Some? ==> Held(h, summary, stored, i).value.index == i))
  {
    hide Held, Slot, ExpectedLength, AcceptsResponse;
    SlotFilled(h, summary, stored, peers, i);
    if Held(h, summary, stored, i).Some? {
      HeldStays(h, summary, stored, peers, 0, i);
    } else {
      OwnLength(h, summary, Slot(h, summary, stored, peers, i).value, i);
    }
  }

  /**
   Where no two chunks are the same, what the store holds fits its slots and everything else is filled
   in place, the attempt gives the committed snapshot exactly when what the store holds is in place.
   */
  lemma AttemptExact<S>(host: Host<S>, summary: StateSummary, snapshot: Bytes, stored: map<U32, Bytes>,
                        peers: seq<Peer>)
    requires Commits(host, summary, snapshot) && Distinct(snapshot) && peers != []
    requires HeldFit(host.h, summary, stored) && RestInPlace(host.h, summary, stored, peers)
    requires CollisionFree(host.h, SyncInputs(host.h, snapshot, Taken(host.h, summary, stored, peers)))
    ensures Assembly(host.h, summary, stored, peers) == Some(snapshot) <==> HeldInPlace(host.h, summary, stored)
  {
    var h, taken := host.h, Taken(host.h, summary, stored, peers);
    assert |snapshot| == summary.snapshotLen && ValidSummary(summary);
    InPlaceFilled(h, summary, stored, peers);
    TakenAssembles(h, summary, stored, peers);
    hide Commits, CollisionFree, SyncInputs, AllAccepted, HeldFit, RestInPlace, Filling, Concat, Chunks, ExpectedLength,
      Held, Slot, ValidSummary, AllFilled;
    forall k | 0 <= k < |taken|
      ensures |taken[k].bytes| == ExpectedLength(|snapshot|, CHUNK_BYTES, k)
      ensures taken[k].index == k <==>
        (Held(h, summary, stored, k).Some? ==> Held(h, summary, stored, k).value.index == k)
    {
      TakenAt(h, summary, stored, peers, k);
    }
    SlotGuardExact(host, summary, snapshot, taken);
    InPlaceIff(h, summary, stored, taken);
  }

  lemma InPlaceIff(h: Hasher, summary: StateSummary, stored: map<U32, Bytes>, taken: seq<ChunkResponse>)
    requires |taken| == summary.chunkCount
    requires forall k | 0 <= k < |taken| ::
      taken[k].index == k <==> (Held(h, summary, stored, k).Some? ==> Held(h, summary, stored, k).value.index == k)
    ensures (forall k | 0 <= k < |taken| :: taken[k].index == k) <==> HeldInPlace(h, summary, stored)
  {
    hide Held;
  }

  /** An honest peer fills in place whatever is not held. */
  lemma HonestInPlace<S(!new)>(host: Host<S>, summary: StateSummary, snapshot: Bytes, stored: map<U32, Bytes>)
    requires DecodeSnapshot(host, summary, snapshot).Success? && SummaryId(host.h, summary) != ZERO_HASH
    ensures var peers := [Serving(host, summary, snapshot, Same)];
      RestInPlace(host.h, summary, stored, peers)
  {
    var peers := [Serving(host, summary, snapshot, Same)];
    hide DecodeSnapshot, Held, Slot, Serving, SummaryId;
    forall i: U32 | i < summary.chunkCount && Held(host.h, summary, stored, i).None?
      ensures Slot(host.h, summary, stored, peers, i).Some?
      ensures Slot(host.h, summary, stored, peers, i).value.index == i
    {
      ServedSlot(host, summary, snapshot, stored, Same, i);
      HonestOffered(host, summary, snapshot, i);
    }
  }

  /** So with one honest peer the attempt gives the snapshot exactly when nothing is held out of place. */
  lemma HonestExact<S(!new)>(host: Host<S>, summary: StateSummary, snapshot: Bytes, stored: map<U32, Bytes>)
    requires DecodeSnapshot(host, summary, snapshot).Success? && SummaryId(host.h, summary) != ZERO_HASH
    requires Distinct(snapshot) && HeldFit(host.h, summary, stored)
    requires CollisionFree(host.h, SyncInputs(host.h, snapshot,
                           Taken(host.h, summary, stored, [Serving(host, summary, snapshot, Same)])))
    ensures Assembly(host.h, summary, stored, [Serving(host, summary, snapshot, Same)]) == Some(snapshot)
       <==> HeldInPlace(host.h, summary, stored)
  {
    assert Commits(host, summary, snapshot);
    hide *;
    HonestInPlace(host, summary, snapshot, stored);
    AttemptExact(host, summary, snapshot, stored, [Serving(host, summary, snapshot, Same)]);
  }

  /** Slots that are all right give the snapshot. */
  lemma OwnCompletes(h: Hasher, summary: StateSummary, snapshot: Bytes, stored: map<U32, Bytes>, peers: seq<Peer>)
    requires ValidSummary(summary) && |snapshot| == summary.snapshotLen && peers != []
    requires 0 < |Chunks(snapshot, CHUNK_BYTES)| == summary.chunkCount
    requires forall i: U32 | i < summary.chunkCount :: Own(Slot(h, summary, stored, peers, i), snapshot, i)
    ensures Assembly(h, summary, stored, peers) == Some(snapshot)
  {
    hide Slot, Chunks, Filling, Concat, ValidSummary;
    assert forall i: U32 | i < summary.chunkCount :: Slot(h, summary, stored, peers, i).Some?;
    hide Own;
    var _ := FillingAccepted(h, summary, stored, peers, summary.chunkCount);
    var parts := Filling(h, summary, stored, peers, summary.chunkCount).value;
    FillingAt(h, summary, stored, peers, summary.chunkCount, 0);
    OwnPrefix(h, summary, snapshot, stored, peers, summary.chunkCount, parts);
    assert parts[..summary.chunkCount] == parts;
    assert Chunks(snapshot, CHUNK_BYTES)[..summary.chunkCount] == Chunks(snapshot, CHUNK_BYTES);
    ConcatChunks(snapshot, CHUNK_BYTES);
  }

  lemma HonestOwn<S(!new)>(host: Host<S>, summary: StateSummary, snapshot: Bytes, stored: map<U32, Bytes>, i: U32)
    requires DecodeSnapshot(host, summary, snapshot).Success? && SummaryId(host.h, summary) != ZERO_HASH
    requires i < summary.chunkCount
    requires Held(host.h, summary, stored, i).Some? ==> Own(Held(host.h, summary, stored, i), snapshot, i)
    ensures Own(Slot(host.h, summary, stored, [Serving(host, summary, snapshot, Same)], i), snapshot, i)
  {
    hide DecodeSnapshot, Held, Slot, Serving, SummaryId, Chunks, Respond;
    if Held(host.h, summary, stored, i).Some? {
      HeldStays(host.h, summary, stored, [Serving(host, summary, snapshot, Same)], 0, i);
    } else {
      HonestOffered(host, summary, snapshot, i);
      ServedSlot(host, summary, snapshot, stored, Same, i);
    }
  }

  /** Where every answer the store holds carries its own slot's chunk, one honest peer is enough. */
  lemma HonestCompletes<S(!new)>(host: Host<S>, summary: StateSummary, snapshot: Bytes, stored: map<U32, Bytes>)
    requires DecodeSnapshot(host, summary, snapshot).Success? && SummaryId(host.h, summary) != ZERO_HASH
    requires forall i: U32 | i < summary.chunkCount && Held(host.h, summary, stored, i).Some? ::
      Own(Held(host.h, summary, stored, i), snapshot, i)
    ensures Assembly(host.h, summary, stored, [Serving(host, summary, snapshot, Same)]) == Some(snapshot)
  {
    CommitsDimensions(host, summary, snapshot);
    hide *;
    forall i: U32 | i < summary.chunkCount
      ensures Own(Slot(host.h, summary, stored, [Serving(host, summary, snapshot, Same)], i), snapshot, i)
    {
      HonestOwn(host, summary, snapshot, stored, i);
    }
    OwnCompletes(host.h, summary, snapshot, stored, [Serving(host, summary, snapshot, Same)]);
  }

  lemma CommitsDimensions<S>(host: Host<S>, summary: StateSummary, snapshot: Bytes)
    requires Commits(host, summary, snapshot)
    ensures ValidSummary(summary) && |snapshot| == summary.snapshotLen
    ensures 0 < |Chunks(snapshot, CHUNK_BYTES)| == summary.chunkCount
  {
    ChunkCount(snapshot, CHUNK_BYTES);
    DivCeilPositive(summary.snapshotLen, CHUNK_BYTES);
  }
}
