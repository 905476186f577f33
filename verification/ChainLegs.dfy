/** What each accepted call of the settlement contract writes, and what a parked leg owes to the call that parked it. */
module ChainLegs {
  import opened Numbers
  import opened Results
  import opened Wire
  import opened ChainSpec

  // ----- where a parked leg comes from -------------------------------------------------------

  /** The leg is parked with these terms at this position: from the start, or by a preparation just before. */
  ghost predicate Parks(s: State, calls: seq<Call>, from: nat, leg: Bytes, e: Escrow) {
    if from == 0 then leg in s.escrows && s.escrows[leg] == e
    else
      && from <= |calls| && calls[from - 1].Prepare? && calls[from - 1].leg == leg
      && ReplyAt(s, calls, from - 1).Success?
      && e.payer == calls[from - 1].payer && e.payee == calls[from - 1].payee
      && e.held == calls[from - 1].held && e.deadline == calls[from - 1].deadline
  }

  ghost predicate ReleasedSince(s: State, calls: seq<Call>, from: nat, leg: Bytes) {
    exists k :: from <= k < |calls| && ReleasesLeg(calls[k], ReplyAt(s, calls, k), leg)
  }

  /** Parked there and not released since. */
  ghost predicate StillParked(s: State, calls: seq<Call>, from: nat, leg: Bytes, e: Escrow) {
    Parks(s, calls, from, leg, e) && !ReleasedSince(s, calls, from, leg)
  }

  lemma ReplyMore(s: State, calls: seq<Call>, call: Call, k: nat)
    requires k <= |calls|
    ensures ReplyAt(s, calls + [call], k) == if k < |calls| then ReplyAt(s, calls, k) else Step(After(s, calls), call).1
  {
    hide Step, After;
    assert (calls + [call])[..k] == calls[..k];
    assert calls[..|calls|] == calls;
  }

  lemma ParksMore(s: State, calls: seq<Call>, call: Call, from: nat, leg: Bytes, e: Escrow)
    ensures from <= |calls| ==> (Parks(s, calls + [call], from, leg, e) <==> Parks(s, calls, from, leg, e))
    ensures Parks(s, calls + [call], |calls| + 1, leg, e) <==>
      && ParksLeg(call, Step(After(s, calls), call).1, leg)
      && e == Escrow(call.payer, call.payee, call.held, call.deadline)
    ensures Parks(s, calls + [call], from, leg, e) ==> from <= |calls| + 1
  {
    hide Step, After;
    ReplyMore(s, calls, call, |calls|);
    if 0 < from <= |calls| {
      ReplyMore(s, calls, call, from - 1);
    }
    hide ReplyAt;
  }

  lemma ReleasedMore(s: State, calls: seq<Call>, call: Call, from: nat, leg: Bytes)
    requires from <= |calls|
    ensures ReleasedSince(s, calls + [call], from, leg) <==>
      ReleasedSince(s, calls, from, leg) || ReleasesLeg(call, Step(After(s, calls), call).1, leg)
  {
    hide Step, After, ReleasesLeg;
    var longer := calls + [call];
    ReplyMore(s, calls, call, |calls|);
    if ReleasedSince(s, calls, from, leg) {
      var k :| from <= k < |calls| && ReleasesLeg(calls[k], ReplyAt(s, calls, k), leg);
      ReplyMore(s, calls, call, k);
      assert ReleasesLeg(longer[k], ReplyAt(s, longer, k), leg);
    }
    if ReleasesLeg(call, Step(After(s, calls), call).1, leg) {
      assert ReleasesLeg(longer[|calls|], ReplyAt(s, longer, |calls|), leg);
    }
    if ReleasedSince(s, longer, from, leg) {
      var k :| from <= k < |longer| && ReleasesLeg(longer[k], ReplyAt(s, longer, k), leg);
      ReplyMore(s, calls, call, k);
    }
    hide ReplyAt;
  }

  /** One call: a leg is parked afterwards if this call parked it, or if it was and this call did not release it. */
  lemma StepEscrow(p: State, call: Call, leg: Bytes, e: Escrow)
    ensures var (q, reply) := Step(p, call);
      leg in q.escrows && q.escrows[leg] == e <==>
        || (ParksLeg(call, reply, leg) && e == Escrow(call.payer, call.payee, call.held, call.deadline))
        || (leg in p.escrows && p.escrows[leg] == e && !ReleasesLeg(call, reply, leg))
    ensures ParksLeg(call, Step(p, call).1, leg) ==> leg !in p.escrows
  {
    hide Moved, AllKnown;
  }

  /**
   Over any run, a leg is parked with some terms exactly when a preparation set them and nothing
   released it since.
   */
  lemma {:induction false} EscrowExact(s: State, calls: seq<Call>, leg: Bytes, e: Escrow)
    ensures leg in After(s, calls).escrows && After(s, calls).escrows[leg] == e <==>
      exists from: nat :: StillParked(s, calls, from, leg, e)
    decreases |calls|
  {
    if calls == [] {
      if leg in s.escrows && s.escrows[leg] == e {
        assert StillParked(s, calls, 0, leg, e);
      }
    } else {
      var init, call := calls[..|calls| - 1], calls[|calls| - 1];
      assert init + [call] == calls;
      EscrowExact(s, init, leg, e);
      AfterMore(s, init, call);
      StepEscrow(After(s, init), call, leg, e);
      hide Step, After, ParksLeg, ReleasesLeg, Parks, ReleasedSince;
      EscrowLater(s, init, call, leg, e);
    }
  }

  lemma EscrowLater(s: State, calls: seq<Call>, call: Call, leg: Bytes, e: Escrow)
    ensures (exists from: nat :: StillParked(s, calls + [call], from, leg, e)) <==>
      var reply := Step(After(s, calls), call).1;
      || (ParksLeg(call, reply, leg) && e == Escrow(call.payer, call.payee, call.held, call.deadline))
      || ((exists from: nat :: StillParked(s, calls, from, leg, e)) && !ReleasesLeg(call, reply, leg))
  {
    var longer, reply := calls + [call], Step(After(s, calls), call).1;
    assert !ReleasedSince(s, longer, |longer|, leg);
    hide Step, After, Parks, ReleasedSince;
    ParksMore(s, calls, call, |calls| + 1, leg, e);
    if ParksLeg(call, reply, leg) && e == Escrow(call.payer, call.payee, call.held, call.deadline) {
      assert StillParked(s, longer, |calls| + 1, leg, e);
    }
    if from: nat :| StillParked(s, longer, from, leg, e) {
      ParksMore(s, calls, call, from, leg, e);
      if from <= |calls| {
        ReleasedMore(s, calls, call, from, leg);
        assert StillParked(s, calls, from, leg, e);
      }
    }
    if from: nat :| StillParked(s, calls, from, leg, e) {
      ParksMore(s, calls, call, from, leg, e);
      if from <= |calls| {
        ReleasedMore(s, calls, call, from, leg);
        assert !ReleasesLeg(call, reply, leg) ==> StillParked(s, longer, from, leg, e);
      } else {
        FromBounds(s, calls, from, leg, e);
      }
    }
  }

  lemma FromBounds(s: State, calls: seq<Call>, from: nat, leg: Bytes, e: Escrow)
    requires Parks(s, calls, from, leg, e)
    ensures from <= |calls|
  {
  }

  // ----- claims and unwindings ---------------------------------------------------------------

  /**
   A claim succeeds exactly while the leg is still parked and the deadline of the preparation that parked
   it has not passed. It then credits that preparation's payee, ends the parking and changes nothing else.
   */
  lemma ClaimExact(s: State, calls: seq<Call>, call: Call)
    requires call.Claim?
    ensures var before := After(s, calls);
      var (after, reply) := Step(before, call);
      && (reply.Success? <==>
            exists from: nat, e: Escrow :: StillParked(s, calls, from, call.leg, e) && call.now <= e.deadline)
      && (forall from: nat, e: Escrow | reply.Success? && StillParked(s, calls, from, call.leg, e) ::
            after == State(before.accounts[e.payee := call.credited], before.nullifiers, before.escrows - {call.leg}))
      && (reply.Failure? ==> after == before) && (reply.Success? ==> reply.value == Delta(2, 2, 32, 0))
  {
    hide StillParked;
    AllParked(s, calls, call.leg);
  }

  /** The terms a leg is parked with are the only ones that are still parked. */
  lemma AllParked(s: State, calls: seq<Call>, leg: Bytes)
    ensures leg in After(s, calls).escrows ==>
      exists from: nat :: StillParked(s, calls, from, leg, After(s, calls).escrows[leg])
    ensures forall from: nat, e: Escrow | StillParked(s, calls, from, leg, e) ::
      leg in After(s, calls).escrows && After(s, calls).escrows[leg] == e
  {
    hide StillParked, After;
    if leg in After(s, calls).escrows {
      EscrowExact(s, calls, leg, After(s, calls).escrows[leg]);
    }
    forall from: nat, e: Escrow | StillParked(s, calls, from, leg, e)
      ensures leg in After(s, calls).escrows && After(s, calls).escrows[leg] == e
    {
      EscrowExact(s, calls, leg, e);
    }
  }

  /** An unwinding succeeds exactly once that deadline has passed, and returns the leg to the preparation's payer. */
  lemma UnwindExact(s: State, calls: seq<Call>, call: Call)
    requires call.Unwind?
    ensures var before := After(s, calls);
      var (after, reply) := Step(before, call);
      && (reply.Success? <==>
            exists from: nat, e: Escrow :: StillParked(s, calls, from, call.leg, e) && call.now > e.deadline)
      && (forall from: nat, e: Escrow | reply.Success? && StillParked(s, calls, from, call.leg, e) ::
            after == State(before.accounts[e.payer := call.returned], before.nullifiers, before.escrows - {call.leg}))
      && (reply.Failure? ==> after == before) && (reply.Success? ==> reply.value == Delta(2, 2, 32, 0))
  {
    hide StillParked;
    AllParked(s, calls, call.leg);
  }

  /** At any time exactly one of the two succeeds for a leg that is parked, and neither for one that is not. */
  lemma ClaimOrUnwind(s: State, leg: Bytes, credited: Hash, returned: Hash, now: U64)
    ensures var claim, unwind := Step(s, Claim(leg, credited, now)).1, Step(s, Unwind(leg, returned, now)).1;
      if leg in s.escrows then claim.Success? <==> unwind.Failure? else claim.Failure? && unwind.Failure?
  {
  }

  /** A preparation succeeds exactly for two known accounts and a leg not parked; it replaces the payer's commitment. */
  lemma PrepareExact(s: State, call: Call)
    requires call.Prepare?
    ensures var (after, reply) := Step(s, call);
      && (reply.Success? <==> {call.payer, call.payee} <= s.accounts.Keys && call.leg !in s.escrows.Keys)
      && (reply.Failure? ==> after == s)
      && (reply.Success? ==>
            && after.nullifiers == s.nullifiers && after.escrows - {call.leg} == s.escrows
            && after.accounts - {call.payer} == s.accounts - {call.payer}
            && call.payer in after.accounts && after.accounts[call.payer] == call.remainder
            && reply.value == Delta(2, 2, 96, 0))
  {
  }

  // ----- settlements -------------------------------------------------------------------------

  lemma {:induction false} Unmoved(accounts: map<Bytes, Hash>, moves: seq<Move>, handle: Bytes)
    requires handle in accounts && forall i | 0 <= i < |moves| :: moves[i].0 != handle
    ensures handle in Moved(accounts, moves) && Moved(accounts, moves)[handle] == accounts[handle]
    decreases |moves|
  {
    if moves != [] {
      var init := moves[..|moves| - 1];
      assert forall i | 0 <= i < |init| :: init[i] == moves[i];
      Unmoved(accounts, init, handle);
      assert moves[|moves| - 1].0 != handle;
    }
  }

  /** Of several moves of one account the last one counts. */
  lemma {:induction false} LastMove(accounts: map<Bytes, Hash>, moves: seq<Move>, i: nat)
    requires i < |moves| && forall j | i < j < |moves| :: moves[j].0 != moves[i].0
    ensures moves[i].0 in Moved(accounts, moves) && Moved(accounts, moves)[moves[i].0] == moves[i].1
    decreases |moves|
  {
    if i < |moves| - 1 {
      var init := moves[..|moves| - 1];
      assert forall j | 0 <= j < |init| :: init[j] == moves[j];
      LastMove(accounts, init, i);
      assert moves[|moves| - 1].0 != moves[i].0;
    }
  }

  /**
   A settlement succeeds exactly in time, with a nullifier not on record and known accounts only. It then
   records the nullifier with its deadline and gives every moved account its last commitment.
   */
  lemma SettleExact(s: State, call: Call)
    requires call.Settle?
    ensures var (after, reply) := Step(s, call);
      && (reply.Success? <==>
            && call.now <= call.deadline && call.nullifier !in s.nullifiers
            && forall i | 0 <= i < |call.moves| :: call.moves[i].0 in s.accounts)
      && (reply.Failure? ==> after == s)
      && (reply.Success? ==>
            && after.escrows == s.escrows && after.nullifiers == s.nullifiers[call.nullifier := call.deadline]
            && after.accounts.Keys == s.accounts.Keys
            && reply.value.nullifiersAdded == 1 && reply.value.bytesWritten == 32 * |call.moves| + 40
            && reply.value.slotsRead == reply.value.slotsWritten == |call.moves| + 1
            && (forall h | h in s.accounts && (forall i | 0 <= i < |call.moves| :: call.moves[i].0 != h) ::
                  after.accounts[h] == s.accounts[h])
            && (forall i | 0 <= i < |call.moves|
                           && (forall j | i < j < |call.moves| :: call.moves[j].0 != call.moves[i].0) ::
                  after.accounts[call.moves[i].0] == call.moves[i].1))
  {
    var moves := call.moves;
    if Step(s, call).1.Success? {
      MovedKeys(s.accounts, moves);
      forall h | h in s.accounts && forall i | 0 <= i < |moves| :: moves[i].0 != h
        ensures h in Moved(s.accounts, moves) && Moved(s.accounts, moves)[h] == s.accounts[h]
      {
        Unmoved(s.accounts, moves, h);
      }
      forall i | 0 <= i < |moves| && (forall j | i < j < |moves| :: moves[j].0 != moves[i].0)
        ensures moves[i].0 in Moved(s.accounts, moves) && Moved(s.accounts, moves)[moves[i].0] == moves[i].1
      {
        LastMove(s.accounts, moves, i);
      }
    }
    hide Moved;
  }

  lemma {:induction false} MovedKeys(accounts: map<Bytes, Hash>, moves: seq<Move>)
    requires forall i | 0 <= i < |moves| :: moves[i].0 in accounts
    ensures Moved(accounts, moves).Keys == accounts.Keys
    decreases |moves|
  {
    if moves != [] {
      MovedKeys(accounts, moves[..|moves| - 1]);
    }
  }
}
