/** The state a settlement contract keeps, and what each call does to it. */
module ChainSpec {
  import opened Numbers
  import opened Results
  import opened Wire

  datatype Escrow = Escrow(payer: Bytes, payee: Bytes, held: Hash, deadline: U64)

  /** Account commitments, seen nullifiers with their deadlines, and parked legs. */
  datatype State = State(accounts: map<Bytes, Hash>, nullifiers: map<Hash, U64>, escrows: map<Bytes, Escrow>)

  datatype Rejected = NullifierSeen | Expired(deadline: U64, now: U64) | UnknownAccount

  datatype Delta = Delta(slotsRead: nat, slotsWritten: nat, bytesWritten: nat, nullifiersAdded: nat)

  type Move = (Bytes, Hash)

  datatype Call =
    | Open(handle: Bytes, commitment: Hash)
    | Settle(nullifier: Hash, deadline: U64, now: U64, moves: seq<Move>)
    | Prepare(leg: Bytes, payer: Bytes, payee: Bytes, remainder: Hash, held: Hash, deadline: U64)
    | Claim(leg: Bytes, credited: Hash, now: U64)
    | Unwind(leg: Bytes, returned: Hash, now: U64)
    | Prune(now: U64)

  type Reply = Result<Delta, Rejected>

  // ----- one call ----------------------------------------------------------------------------

  predicate AllKnown(accounts: map<Bytes, Hash>, moves: seq<Move>) {
    forall i | 0 <= i < |moves| :: moves[i].0 in accounts
  }

  /** Write the moves in order; a later move of the same handle overwrites an earlier one. */
  function Moved(accounts: map<Bytes, Hash>, moves: seq<Move>): map<Bytes, Hash> {
    if moves == [] then accounts
    else
      var last := moves[|moves| - 1];
      Moved(accounts, moves[..|moves| - 1])[last.0 := last.1]
  }

  function SettleStep(s: State, nullifier: Hash, deadline: U64, now: U64, moves: seq<Move>): (State, Reply) {
    if now > deadline then (s, Failure(Expired(deadline, now))) else
    if nullifier in s.nullifiers then (s, Failure(NullifierSeen)) else
    if !AllKnown(s.accounts, moves) then (s, Failure(UnknownAccount)) else
    (State(Moved(s.accounts, moves), s.nullifiers[nullifier := deadline], s.escrows),
     Success(Delta(|moves| + 1, |moves| + 1, |moves| * 32 + 32 + 8, 1)))
  }

  function PrepareStep(s: State, leg: Bytes, payer: Bytes, payee: Bytes, remainder: Hash, held: Hash, deadline: U64):
    (State, Reply)
  {
    if payer !in s.accounts || payee !in s.accounts then (s, Failure(UnknownAccount)) else
    if leg in s.escrows then (s, Failure(NullifierSeen)) else
    (State(s.accounts[payer := remainder], s.nullifiers, s.escrows[leg := Escrow(payer, payee, held, deadline)]),
     Success(Delta(2, 2, 96, 0)))
  }

  function ClaimStep(s: State, leg: Bytes, credited: Hash, now: U64): (State, Reply) {
    if leg !in s.escrows then (s, Failure(UnknownAccount)) else
    var escrow := s.escrows[leg];
    if now > escrow.deadline then (s, Failure(Expired(escrow.deadline, now))) else
    (State(s.accounts[escrow.payee := credited], s.nullifiers, s.escrows - {leg}), Success(Delta(2, 2, 32, 0)))
  }

  function UnwindStep(s: State, leg: Bytes, returned: Hash, now: U64): (State, Reply) {
    if leg !in s.escrows then (s, Failure(UnknownAccount)) else
    var escrow := s.escrows[leg];
    if now <= escrow.deadline then (s, Failure(Expired(escrow.deadline, now))) else
    (State(s.accounts[escrow.payer := returned], s.nullifiers, s.escrows - {leg}), Success(Delta(2, 2, 32, 0)))
  }

  function Kept(nullifiers: map<Hash, U64>, now: U64): map<Hash, U64> {
    map n | n in nullifiers && nullifiers[n] >= now :: nullifiers[n]
  }

  function Step(s: State, call: Call): (State, Reply) {
    match call
    case Open(handle, commitment) => (s.(accounts := s.accounts[handle := commitment]), Success(Delta(0, 1, 32, 0)))
    case Settle(nullifier, deadline, now, moves) => SettleStep(s, nullifier, deadline, now, moves)
    case Prepare(leg, payer, payee, remainder, held, deadline) =>
      PrepareStep(s, leg, payer, payee, remainder, held, deadline)
    case Claim(leg, credited, now) => ClaimStep(s, leg, credited, now)
    case Unwind(leg, returned, now) => UnwindStep(s, leg, returned, now)
    case Prune(now) => (s.(nullifiers := Kept(s.nullifiers, now)), Success(Delta(0, 0, 0, 0)))
  }

  // ----- runs --------------------------------------------------------------------------------

  function After(s: State, calls: seq<Call>): State {
    if calls == [] then s else Step(After(s, calls[..|calls| - 1]), calls[|calls| - 1]).0
  }

  function ReplyAt(s: State, calls: seq<Call>, i: nat): Reply
    requires i < |calls|
  {
    Step(After(s, calls[..i]), calls[i]).1
  }

  /** The same calls with every prune left out. */
  function Unpruned(calls: seq<Call>): seq<Call> {
    if calls == [] then []
    else
      var init, last := Unpruned(calls[..|calls| - 1]), calls[|calls| - 1];
      if last.Prune? then init else init + [last]
  }

  lemma AfterMore(s: State, calls: seq<Call>, call: Call)
    ensures After(s, calls + [call]) == Step(After(s, calls), call).0
    ensures Unpruned(calls + [call]) == if call.Prune? then Unpruned(calls) else Unpruned(calls) + [call]
  {
    assert (calls + [call])[..|calls|] == calls;
    hide Step;
  }

  // ----- when pruning shows ------------------------------------------------------------------

  /**
   The nullifier is on record with this deadline from this position on: at the start, or by a
   settlement just before.
   */
  ghost predicate Records(s: State, calls: seq<Call>, from: nat, n: Hash, deadline: U64) {
    if from == 0 then n in s.nullifiers && s.nullifiers[n] == deadline
    else
      && from <= |calls| && calls[from - 1].Settle?
      && calls[from - 1].nullifier == n && calls[from - 1].deadline == deadline
      && ReplyAt(s, calls, from - 1).Success?
  }

  /** A prune at or after this position comes later than the deadline. */
  ghost predicate Drops(calls: seq<Call>, from: nat, deadline: U64) {
    exists k :: from <= k < |calls| && calls[k].Prune? && deadline < calls[k].now
  }

  ghost predicate Forgotten(s: State, calls: seq<Call>, n: Hash) {
    exists from: nat, deadline: U64 :: Records(s, calls, from, n, deadline) && Drops(calls, from, deadline)
  }

  /** A settlement still in time names a nullifier that was recorded and has been pruned since. */
  ghost predicate Reuses(s: State, calls: seq<Call>, j: nat)
    requires j < |calls|
  {
    calls[j].Settle? && calls[j].now <= calls[j].deadline && Forgotten(s, calls[..j], calls[j].nullifier)
  }

  /** The call gets the reply it would get had nothing ever been pruned. */
  ghost predicate SameReply(s: State, calls: seq<Call>, j: nat)
    requires j < |calls|
  {
    ReplyAt(s, calls, j) == Step(After(s, Unpruned(calls[..j])), calls[j]).1
  }

  ghost predicate Hidden(s: State, calls: seq<Call>) {
    forall j | 0 <= j < |calls| && !calls[j].Prune? :: SameReply(s, calls, j)
  }

  /** `p` is `u` without the nullifiers that were pruned after their deadline, and `u` holds all that were recorded. */
  ghost predicate Tracks(s: State, calls: seq<Call>, p: State, u: State) {
    && p.accounts == u.accounts && p.escrows == u.escrows
    && (forall n | n in p.nullifiers :: n in u.nullifiers && p.nullifiers[n] == u.nullifiers[n])
    && (forall n | n in u.nullifiers :: exists from: nat :: Records(s, calls, from, n, u.nullifiers[n]))
    && (forall n, from: nat, d: U64 | Records(s, calls, from, n, d) ::
          && n in u.nullifiers && u.nullifiers[n] == d
          && (n in p.nullifiers <==> !Drops(calls, from, d)))
  }

  /** A trimmed state answers a settlement differently exactly when it has forgotten the nullifier too early. */
  lemma SettleAgrees(p: State, u: State, nullifier: Hash, deadline: U64, now: U64, moves: seq<Move>)
    requires p.accounts == u.accounts && p.nullifiers.Keys <= u.nullifiers.Keys
    ensures SettleStep(p, nullifier, deadline, now, moves).1 == SettleStep(u, nullifier, deadline, now, moves).1
       <==> !(now <= deadline && nullifier in u.nullifiers && nullifier !in p.nullifiers)
  {
  }

  /** So a call is answered differently exactly when it reuses a forgotten nullifier. */
  lemma ReplyDiffers(s: State, calls: seq<Call>, p: State, u: State, call: Call)
    requires Tracks(s, calls, p, u) && !call.Prune?
    ensures Step(p, call).1 == Step(u, call).1
       <==> !(call.Settle? && call.now <= call.deadline && Forgotten(s, calls, call.nullifier))
  {
    hide Moved, AllKnown, Records, Drops;
    if call.Settle? {
      SettleAgrees(p, u, call.nullifier, call.deadline, call.now, call.moves);
      var n := call.nullifier;
      if n in u.nullifiers && n !in p.nullifiers {
        var from: nat :| Records(s, calls, from, n, u.nullifiers[n]);
        assert Forgotten(s, calls, n);
      }
    }
  }

  lemma RecordsMore(s: State, calls: seq<Call>, call: Call, from: nat, n: Hash, d: U64)
    ensures from <= |calls| ==> (Records(s, calls + [call], from, n, d) <==> Records(s, calls, from, n, d))
    ensures Records(s, calls + [call], |calls| + 1, n, d) <==>
      call.Settle? && call.nullifier == n && call.deadline == d && Step(After(s, calls), call).1.Success?
    ensures Records(s, calls + [call], from, n, d) ==> from <= |calls| + 1
    ensures Records(s, calls, from, n, d) ==> from <= |calls|
  {
    hide Step;
    var longer := calls + [call];
    assert longer[..|calls|] == calls;
    if 0 < from <= |calls| {
      assert longer[..from - 1] == calls[..from - 1];
    }
  }

  lemma DropsMore(calls: seq<Call>, call: Call, from: nat, d: U64)
    requires from <= |calls|
    ensures Drops(calls + [call], from, d) <==> Drops(calls, from, d) || (call.Prune? && d < call.now)
    ensures !Drops(calls, |calls|, d)
  {
    var longer := calls + [call];
    if Drops(calls, from, d) {
      var k :| from <= k < |calls| && calls[k].Prune? && d < calls[k].now;
      assert longer[k] == calls[k];
    }
    if call.Prune? && d < call.now {
      assert longer[|calls|] == call;
    }
  }

  lemma TracksCall(s: State, calls: seq<Call>, u: State, call: Call)
    requires Tracks(s, calls, After(s, calls), u) && !call.Prune?
    requires Step(After(s, calls), call).1 == Step(u, call).1
    ensures Tracks(s, calls + [call], Step(After(s, calls), call).0, Step(u, call).0)
  {
    hide Moved, AllKnown, Records, Drops, After;
    var p, longer := After(s, calls), calls + [call];
    var q, v := Step(p, call).0, Step(u, call).0;
    forall n | n in v.nullifiers
      ensures exists from: nat :: Records(s, longer, from, n, v.nullifiers[n])
    {
      if n in u.nullifiers {
        var from: nat :| Records(s, calls, from, n, u.nullifiers[n]);
        RecordsMore(s, calls, call, from, n, u.nullifiers[n]);
      } else {
        RecordsMore(s, calls, call, |calls| + 1, n, v.nullifiers[n]);
      }
    }
    forall n, from: nat, d: U64 | Records(s, longer, from, n, d)
      ensures n in v.nullifiers && v.nullifiers[n] == d && (n in q.nullifiers <==> !Drops(longer, from, d))
    {
      RecordsMore(s, calls, call, from, n, d);
      if from <= |calls| {
        DropsMore(calls, call, from, d);
      } else {
        DropsMore(longer, call, |longer|, d);
      }
    }
  }

  lemma TracksPrune(s: State, calls: seq<Call>, u: State, call: Call)
    requires Tracks(s, calls, After(s, calls), u) && call.Prune?
    ensures Tracks(s, calls + [call], Step(After(s, calls), call).0, u)
  {
    hide Records, Drops, After;
    var p, longer := After(s, calls), calls + [call];
    var q := Step(p, call).0;
    forall n | n in u.nullifiers
      ensures exists from: nat :: Records(s, longer, from, n, u.nullifiers[n])
    {
      var from: nat :| Records(s, calls, from, n, u.nullifiers[n]);
      RecordsMore(s, calls, call, from, n, u.nullifiers[n]);
    }
    forall n, from: nat, d: U64 | Records(s, longer, from, n, d)
      ensures n in u.nullifiers && u.nullifiers[n] == d && (n in q.nullifiers <==> !Drops(longer, from, d))
    {
      RecordsMore(s, calls, call, from, n, d);
      DropsMore(calls, call, from, d);
    }
  }

  lemma TracksStart(s: State)
    ensures Tracks(s, [], s, s)
  {
    forall n | n in s.nullifiers
      ensures exists from: nat :: Records(s, [], from, n, s.nullifiers[n])
    {
      assert Records(s, [], 0, n, s.nullifiers[n]);
    }
  }

  lemma HiddenPrefix(s: State, calls: seq<Call>, n: nat)
    requires Hidden(s, calls) && n <= |calls|
    ensures Hidden(s, calls[..n])
  {
    hide Step;
    forall j | 0 <= j < n && !calls[j].Prune?
      ensures SameReply(s, calls[..n], j)
    {
      assert calls[..n][..j] == calls[..j] && SameReply(s, calls, j);
    }
  }

  /** As long as nothing has shown, the pruning contract is the other one without what was pruned. */
  lemma {:induction false} HiddenTracks(s: State, calls: seq<Call>)
    requires Hidden(s, calls)
    ensures Tracks(s, calls, After(s, calls), After(s, Unpruned(calls)))
    decreases |calls|
  {
    if calls == [] {
      TracksStart(s);
    } else {
      var init, last := calls[..|calls| - 1], calls[|calls| - 1];
      HiddenPrefix(s, calls, |calls| - 1);
      HiddenTracks(s, init);
      assert calls == init + [last];
      AfterMore(s, init, last);
      AfterMore(s, Unpruned(init), last);
      if last.Prune? {
        TracksPrune(s, init, After(s, Unpruned(init)), last);
      } else {
        assert SameReply(s, calls, |calls| - 1);
        TracksCall(s, init, After(s, Unpruned(init)), last);
      }
      hide Tracks, Step, After, Unpruned;
    }
  }

  /**
   Pruning is invisible, in every reply, exactly when no settlement still in time names a nullifier
   that an earlier settlement, or the start, put on record with a deadline that a prune since then
   has passed.
   */
  lemma PruningExact(s: State, calls: seq<Call>)
    ensures Hidden(s, calls) <==> forall j | 0 <= j < |calls| :: !Reuses(s, calls, j)
  {
    hide Reuses, SameReply;
    if Hidden(s, calls) {
      forall j | 0 <= j < |calls|
        ensures !Reuses(s, calls, j)
      {
        HiddenPrefix(s, calls, j);
        HiddenStep(s, calls, j);
      }
    }
    if forall j | 0 <= j < |calls| :: !Reuses(s, calls, j) {
      FirstDifference(s, calls, |calls|);
      assert calls[..|calls|] == calls;
    }
  }

  lemma HiddenStep(s: State, calls: seq<Call>, j: nat)
    requires j < |calls| && Hidden(s, calls[..j])
    ensures !calls[j].Prune? ==> (SameReply(s, calls, j) <==> !Reuses(s, calls, j))
    ensures Hidden(s, calls) ==> !Reuses(s, calls, j)
  {
    HiddenTracks(s, calls[..j]);
    hide Step, Tracks, Forgotten;
    if !calls[j].Prune? {
      ReplyDiffers(s, calls[..j], After(s, calls[..j]), After(s, Unpruned(calls[..j])), calls[j]);
    }
  }

  lemma {:induction false} FirstDifference(s: State, calls: seq<Call>, n: nat)
    requires n <= |calls| && forall j | 0 <= j < |calls| :: !Reuses(s, calls, j)
    ensures Hidden(s, calls[..n])
    decreases n
  {
    if n > 0 {
      FirstDifference(s, calls, n - 1);
      HiddenStep(s, calls, n - 1);
    }
    hide Step;
    forall j | 0 <= j < n && !calls[j].Prune?
      ensures SameReply(s, calls[..n], j)
    {
      assert calls[..n][..j] == calls[..j];
      if j < n - 1 {
        assert calls[..n - 1][..j] == calls[..j] && SameReply(s, calls[..n - 1], j);
      }
    }
  }

  /**
   If a nullifier could come back with a later deadline, pruning would show: the instruction
   settles a second time.
   */
  lemma PruningForgets(s: State, nullifier: Hash, first: U64, second: U64, now: U64)
    requires nullifier !in s.nullifiers && first < now <= second
    ensures var calls := [Settle(nullifier, first, first, []), Prune(now), Settle(nullifier, second, now, [])];
      && ReplyAt(s, calls, 0).Success? && ReplyAt(s, calls, 2).Success?
      && Step(After(s, Unpruned(calls[..2])), calls[2]).1 == Failure(NullifierSeen)
  {
    var calls := [Settle(nullifier, first, first, []), Prune(now), Settle(nullifier, second, now, [])];
    assert calls[..0] == [] && calls[..1] == [] + [calls[0]] && calls[..2] == calls[..1] + [calls[1]];
    AfterMore(s, [], calls[0]);
    AfterMore(s, calls[..1], calls[1]);
    var seen := Step(s, calls[0]).0;
    assert nullifier in seen.nullifiers && seen.nullifiers[nullifier] == first;
    assert nullifier !in Step(seen, calls[1]).0.nullifiers;
    assert After(s, Unpruned(calls[..2])) == seen;
  }

  lemma SeenGrows(s: State, call: Call)
    requires !call.Prune?
    ensures s.nullifiers.Keys <= Step(s, call).0.nullifiers.Keys
  {
    hide Moved, AllKnown;
  }

  /** Without pruning a nullifier once seen stays seen. */
  lemma {:induction false} SeenStays(s: State, calls: seq<Call>, i: nat, n: Hash)
    requires i <= |calls| && n in After(s, Unpruned(calls[..i])).nullifiers
    ensures n in After(s, Unpruned(calls)).nullifiers
    decreases |calls|
  {
    if i < |calls| {
      var init, last := calls[..|calls| - 1], calls[|calls| - 1];
      assert init[..i] == calls[..i] && init + [last] == calls;
      SeenStays(s, init, i, n);
      AfterMore(s, init, last);
      AfterMore(s, Unpruned(init), last);
      if !last.Prune? {
        SeenGrows(After(s, Unpruned(init)), last);
      }
      hide After, Unpruned, Step;
    } else {
      assert calls[..i] == calls;
    }
  }

  lemma SettledSeen(s: State, call: Call)
    requires call.Settle? && Step(s, call).1.Success?
    ensures call.nullifier !in s.nullifiers && call.nullifier in Step(s, call).0.nullifiers
  {
  }

  /** No instruction settles twice, however often and whenever the contract prunes, while pruning does not show. */
  lemma SettlesOnce(s: State, calls: seq<Call>, i: nat, j: nat)
    requires forall k | 0 <= k < |calls| :: !Reuses(s, calls, k)
    requires i < j < |calls| && calls[i].Settle? && calls[j].Settle?
    requires ReplyAt(s, calls, i).Success? && ReplyAt(s, calls, j).Success?
    ensures calls[i].nullifier != calls[j].nullifier
  {
    hide Step, After, Unpruned, Reuses;
    PruningExact(s, calls);
    assert SameReply(s, calls, i) && SameReply(s, calls, j);
    SettledSeen(After(s, Unpruned(calls[..i])), calls[i]);
    SettledSeen(After(s, Unpruned(calls[..j])), calls[j]);
    assert calls[..i + 1] == calls[..i] + [calls[i]] && calls[..j][..i + 1] == calls[..i + 1];
    AfterMore(s, calls[..i], calls[i]);
    AfterMore(s, Unpruned(calls[..i]), calls[i]);
    SeenStays(s, calls[..j], i + 1, calls[i].nullifier);
  }

  // ----- one deadline per nullifier ----------------------------------------------------------

  ghost predicate Timed(call: Call) {
    !call.Open? && !call.Prepare?
  }

  /** No call carries a time earlier than one before it. */
  ghost predicate Ordered(calls: seq<Call>) {
    forall i, j | 0 <= i < j < |calls| && Timed(calls[i]) && Timed(calls[j]) :: calls[i].now <= calls[j].now
  }

  /** Every nullifier, from the start on, is only ever named with the deadline that belongs to it. */
  ghost predicate Fixed(s: State, calls: seq<Call>, deadlines: Hash -> U64) {
    && (forall n | n in s.nullifiers :: s.nullifiers[n] == deadlines(n))
    && (forall i | 0 <= i < |calls| && calls[i].Settle? :: calls[i].deadline == deadlines(calls[i].nullifier))
  }

  /** With a clock that does not go back and one deadline per nullifier, pruning never shows. */
  lemma PruningInvisible(s: State, calls: seq<Call>, deadlines: Hash -> U64)
    requires Ordered(calls) && Fixed(s, calls, deadlines)
    ensures forall j | 0 <= j < |calls| :: !Reuses(s, calls, j)
    ensures Hidden(s, calls)
    ensures After(s, calls).accounts == After(s, Unpruned(calls)).accounts
    ensures After(s, calls).escrows == After(s, Unpruned(calls)).escrows
  {
    forall j | 0 <= j < |calls|
      ensures !Reuses(s, calls, j)
    {
      NeverReuses(s, calls, deadlines, j);
    }
    PruningExact(s, calls);
    HiddenTracks(s, calls);
    hide Records, Drops;
  }

  lemma NeverReuses(s: State, calls: seq<Call>, deadlines: Hash -> U64, j: nat)
    requires Ordered(calls) && Fixed(s, calls, deadlines) && j < |calls|
    ensures !Reuses(s, calls, j)
  {
    var prior := calls[..j];
    if calls[j].Settle? && calls[j].now <= calls[j].deadline {
      forall from: nat, d: U64 | Records(s, prior, from, calls[j].nullifier, d)
        ensures !Drops(prior, from, d)
      {
        assert from > 0 ==> prior[from - 1] == calls[from - 1];
        assert d == deadlines(calls[j].nullifier) == calls[j].deadline;
        forall k | from <= k < j && prior[k].Prune?
          ensures prior[k].now <= d
        {
          assert prior[k] == calls[k] && Timed(calls[k]) && Timed(calls[j]);
        }
      }
    }
  }

  // ----- parked legs -------------------------------------------------------------------------

  predicate ParksLeg(call: Call, reply: Reply, leg: Bytes) {
    call.Prepare? && call.leg == leg && reply.Success?
  }

  predicate ReleasesLeg(call: Call, reply: Reply, leg: Bytes) {
    (call.Claim? || call.Unwind?) && call.leg == leg && reply.Success?
  }

  function Parked(s: State, calls: seq<Call>, leg: Bytes): int {
    if calls == [] then 0
    else
      var n := |calls| - 1;
      Parked(s, calls[..n], leg) + if ParksLeg(calls[n], ReplyAt(s, calls, n), leg) then 1 else 0
  }

  function Released(s: State, calls: seq<Call>, leg: Bytes): int {
    if calls == [] then 0
    else
      var n := |calls| - 1;
      Released(s, calls[..n], leg) + if ReleasesLeg(calls[n], ReplyAt(s, calls, n), leg) then 1 else 0
  }

  function Held(s: State, leg: Bytes): int {
    if leg in s.escrows then 1 else 0
  }

  lemma LegMoves(s: State, call: Call, leg: Bytes)
    ensures var (after, reply) := Step(s, call);
      Held(after, leg) == Held(s, leg) + (if ParksLeg(call, reply, leg) then 1 else 0)
                                       - (if ReleasesLeg(call, reply, leg) then 1 else 0)
  {
    hide Moved, AllKnown;
  }

  /** A leg is released at most once per parking, by a claim or by an unwinding, and is parked until then. */
  lemma {:induction false} LegsBalance(s: State, calls: seq<Call>, leg: Bytes)
    ensures Held(After(s, calls), leg) == Held(s, leg) + Parked(s, calls, leg) - Released(s, calls, leg)
    decreases |calls|
  {
    if calls != [] {
      LegsBalance(s, calls[..|calls| - 1], leg);
      LegMoves(After(s, calls[..|calls| - 1]), calls[|calls| - 1], leg);
      hide Step, Held, ParksLeg, ReleasesLeg;
    }
  }

  // ----- settlements that touch different accounts commute -----------------------------------

  function Handles(moves: seq<Move>): set<Bytes> {
    set i | 0 <= i < |moves| :: moves[i].0
  }

  /** The last commitment written to a handle. */
  function Final(moves: seq<Move>, handle: Bytes): Hash
    requires handle in Handles(moves)
  {
    var n := |moves| - 1;
    if moves[n].0 == handle then moves[n].1
    else
      var i :| 0 <= i < |moves| && moves[i].0 == handle;
      assert moves[..n][i].0 == handle;
      Final(moves[..n], handle)
  }

  lemma {:induction false} MovedIs(accounts: map<Bytes, Hash>, moves: seq<Move>)
    ensures var after := Moved(accounts, moves);
      && after.Keys == accounts.Keys + Handles(moves)
      && forall h | h in after :: after[h] == if h in Handles(moves) then Final(moves, h) else accounts[h]
    decreases |moves|
  {
    if moves != [] {
      var n := |moves| - 1;
      var init := moves[..n];
      MovedIs(accounts, init);
      assert moves == init + [moves[n]];
      HandlesMore(init, moves[n]);
    }
  }

  lemma HandlesMore(init: seq<Move>, last: Move)
    ensures Handles(init + [last]) == Handles(init) + {last.0}
    ensures forall h | h in Handles(init) && h != last.0 :: Final(init + [last], h) == Final(init, h)
  {
    var moves := init + [last];
    assert moves[..|init|] == init;
    forall h | h in Handles(init)
      ensures h in Handles(moves)
    {
      var i :| 0 <= i < |init| && init[i].0 == h;
      assert moves[i].0 == h;
    }
    assert moves[|init|].0 == last.0;
  }

  ghost predicate Enabled(s: State, call: Call) {
    call.Settle? && Step(s, call).1.Success?
  }

  /** The two settlements leave the same commitment on every account that both move. */
  ghost predicate Compatible(a: seq<Move>, b: seq<Move>) {
    forall h | h in Handles(a) && h in Handles(b) :: Final(a, h) == Final(b, h)
  }

  lemma MovesCommute(accounts: map<Bytes, Hash>, a: seq<Move>, b: seq<Move>)
    ensures Moved(Moved(accounts, a), b) == Moved(Moved(accounts, b), a) <==> Compatible(a, b)
  {
    hide Handles, Final;
    MovedIs(accounts, a);
    MovedIs(accounts, b);
    MovedIs(Moved(accounts, a), b);
    MovedIs(Moved(accounts, b), a);
    var ab, ba := Moved(Moved(accounts, a), b), Moved(Moved(accounts, b), a);
    hide Moved;
    if ab == ba {
      forall h | h in Handles(a) && h in Handles(b)
        ensures Final(a, h) == Final(b, h)
      {
        assert h in ab && ab[h] == ba[h];
      }
    }
  }

  /** An enabled settlement stays enabled after another with a different nullifier. */
  lemma StaysEnabled(s: State, a: Call, b: Call)
    requires Enabled(s, a) && Enabled(s, b) && a.nullifier != b.nullifier
    ensures Enabled(Step(s, a).0, b)
  {
    MovedIs(s.accounts, a.moves);
    hide Moved, Handles, Final;
  }

  lemma EnabledStep(s: State, a: Call)
    requires Enabled(s, a)
    ensures Step(s, a).0 == State(Moved(s.accounts, a.moves), s.nullifiers[a.nullifier := a.deadline], s.escrows)
  {
  }

  lemma DisjointCompatible(a: seq<Move>, b: seq<Move>)
    ensures Handles(a) !! Handles(b) ==> Compatible(a, b)
  {
    hide Handles;
  }

  /**
   Two enabled settlements of different instructions can be applied in either order; they reach the
   same state exactly when they agree on every account they both move, in particular when they
   move different accounts.
   */
  lemma SettlementsCommute(s: State, a: Call, b: Call)
    requires Enabled(s, a) && Enabled(s, b) && a.nullifier != b.nullifier
    ensures Enabled(Step(s, a).0, b) && Enabled(Step(s, b).0, a)
    ensures Step(Step(s, a).0, b).0 == Step(Step(s, b).0, a).0 <==> Compatible(a.moves, b.moves)
    ensures Handles(a.moves) !! Handles(b.moves) ==> Compatible(a.moves, b.moves)
  {
    hide Step, Compatible, Moved;
    StaysEnabled(s, a, b);
    StaysEnabled(s, b, a);
    EnabledStep(s, a);
    EnabledStep(s, b);
    EnabledStep(Step(s, a).0, b);
    EnabledStep(Step(s, b).0, a);
    MovesCommute(s.accounts, a.moves, b.moves);
    DisjointCompatible(a.moves, b.moves);
    hide Enabled, Handles;
    assert s.nullifiers[a.nullifier := a.deadline][b.nullifier := b.deadline]
        == s.nullifiers[b.nullifier := b.deadline][a.nullifier := a.deadline];
  }
}
