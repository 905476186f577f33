/** What every single request keeps, whatever the book before it. */
module LiquiditySteps {
  import opened Numbers
  import opened Results
  import opened LiquidityTypes
  import opened LiquiditySpec
  import opened LiquidityFolds
  import opened LiquidityEffects

  /** The participant's pledged pool covers other exposure, overdraft and live reservations. */
  ghost predicate Covered(book: Book, entity: Id, now: U64) {
    entity in book.participants
    && Obligations(book, book.participants[entity], now) <= Collateral(book.lots, entity)
  }

  /** Every open reservation expires no later than its owner's current repayment deadline. */
  ghost predicate Timely(book: Book) {
    forall k | k in book.reservations && book.reservations[k].status == Open ::
      book.reservations[k].entity in book.participants
      && book.reservations[k].expiresAt <= book.participants[book.reservations[k].entity].deadline
  }

  /** Money that enters the book from outside. */
  function Injected(op: Operation): nat {
    match op
    case Register(_, p) => p.cash
    case ApplyFunds(_, _, _, _, amount) => amount
    case _ => 0
  }

  /** What may happen to one participant's day and overdraft in one step. */
  predicate DayKept(p: Participant, q: Participant, now: U64) {
    && p.businessDay <= q.businessDay
    && (p.businessDay == q.businessDay ==> p.deadline == q.deadline)
    && (p.businessDay < q.businessDay ==>
          p.overdraft == 0 && q.overdraft == 0 && p.closed && !q.closed && p.deadline <= now < q.deadline)
    && (p.deadline <= now ==> q.overdraft <= p.overdraft)
  }

  ghost predicate Kept(book: Book, next: Book, op: Operation, now: U64) {
    && Valid(next)
    && (Timely(book) ==> Timely(next))
    && NetCash(next.participants) == NetCash(book.participants) + Injected(op)
    && (forall e | e in book.participants ::
          e in next.participants && DayKept(book.participants[e], next.participants[e], now))
    && op.operationId !in book.operations
    && next.operations == book.operations + {op.operationId}
    && (if op.ApplyFunds?
        then op.receiptId !in book.receipts && next.receipts == book.receipts + {op.receiptId}
        else next.receipts == book.receipts)
    && (if op.SettleDvp?
        then op.settlementId !in book.settlements && next.settlements == book.settlements + {op.settlementId}
        else next.settlements == book.settlements)
  }

  /** The request puts a new price on a lot of this participant. */
  predicate Revalues(book: Book, op: Operation, entity: Id) {
    op.Revalue? && op.lotId in book.lots && book.lots[op.lotId].owner == entity
  }

  /** Whoever was covered stays covered at the later time, unless the request revalues their collateral. */
  ghost predicate SolvencyKept(book: Book, next: Book, op: Operation, now: U64) {
    forall e, earlier: U64 | earlier <= now && Covered(book, e, earlier) && !Revalues(book, op, e) ::
      Covered(next, e, now)
  }

  /** Coverage survives a step that either re-establishes it or neither adds obligations nor removes collateral. */
  lemma SolvencyFromParts(book: Book, next: Book, op: Operation, now: U64)
    requires forall e | e in book.participants && !Revalues(book, op, e) ::
      e in next.participants
      && (Covered(next, e, now)
          || (Obligations(next, next.participants[e], now) <= Obligations(book, book.participants[e], now)
              && Collateral(book.lots, e) <= Collateral(next.lots, e)))
    ensures SolvencyKept(book, next, op, now)
  {
    forall e, earlier: U64 | earlier <= now && Covered(book, e, earlier) && !Revalues(book, op, e)
      ensures Covered(next, e, now)
    {
      LiveAntitone(book.reservations, book.participants[e].entity, earlier, now);
    }
  }

  /** Collect the parts of `Kept` for a request that changes a single existing participant. */
  lemma KeptFromTouched(book: Book, next: Book, op: Operation, entity: Id, now: U64)
    requires Valid(book) && Touched(book, next, op, entity)
    requires ValidParticipant(entity, next.participants[entity])
    requires DayKept(book.participants[entity], next.participants[entity], now)
    requires forall k | k in next.lots :: ValidLot(book.participants, k, next.lots[k])
    requires forall k | k in next.reservations :: ValidReservation(book.participants, k, next.reservations[k])
    requires Timely(book) ==> Timely(next)
    requires next.participants[entity].cash - next.participants[entity].overdraft
          == book.participants[entity].cash - book.participants[entity].overdraft + Injected(op)
    requires if op.ApplyFunds?
             then op.receiptId !in book.receipts && next.receipts == book.receipts + {op.receiptId}
             else next.receipts == book.receipts
    requires !op.SettleDvp? && next.settlements == book.settlements
    ensures Kept(book, next, op, now)
  {
    OneParticipant(book, next, entity, next.participants[entity]);
  }

  lemma RegisterKeeps(book: Book, op: Operation, now: U64, next: Book)
    requires Valid(book) && op.Register? && RegisterEffect(book, op, now, next)
    ensures Kept(book, next, op, now)
  {
    NetCashUpdate(book.participants, op.participant.entity, op.participant);
  }

  lemma RegisterSolvent(book: Book, op: Operation, now: U64, next: Book)
    requires op.Register? && RegisterEffect(book, op, now, next)
    ensures SolvencyKept(book, next, op, now)
  {
    SolvencyFromParts(book, next, op, now);
  }

  lemma PledgeKeeps(book: Book, op: Operation, now: U64, next: Book, reply: Reply)
    requires Valid(book) && op.Pledge? && PledgeEffect(book, op, now, next, reply)
    ensures Kept(book, next, op, now)
  {
    KeptFromTouched(book, next, op, op.lot.owner, now);
  }

  lemma PledgeSolvent(book: Book, op: Operation, now: U64, next: Book, reply: Reply)
    requires Keyed(book) && op.Pledge? && PledgeEffect(book, op, now, next, reply)
    ensures SolvencyKept(book, next, op, now)
  {
    forall e | e in book.participants
      ensures Collateral(book.lots, e) <= Collateral(next.lots, e)
    {
      CollateralUpdate(book.lots, op.lot.lotId, op.lot.(sequence := 1), e);
    }
    SolvencyFromParts(book, next, op, now);
  }

  lemma RevalueKeeps(book: Book, op: Operation, now: U64, next: Book, reply: Reply)
    requires Valid(book) && op.Revalue? && RevalueEffect(book, op, now, next, reply)
    ensures Kept(book, next, op, now)
  {
    KeptFromTouched(book, next, op, book.lots[op.lotId].owner, now);
  }

  lemma RevalueSolvent(book: Book, op: Operation, now: U64, next: Book, reply: Reply)
    requires Keyed(book) && op.Revalue? && RevalueEffect(book, op, now, next, reply)
    ensures SolvencyKept(book, next, op, now)
  {
    forall e | e in book.participants && !Revalues(book, op, e)
      ensures Collateral(next.lots, e) == Collateral(book.lots, e)
    {
      CollateralUpdate(book.lots, op.lotId, next.lots[op.lotId], e);
    }
    SolvencyFromParts(book, next, op, now);
  }

  lemma ReserveKeeps(book: Book, op: Operation, now: U64, next: Book, reply: Reply)
    requires Valid(book) && op.Reserve? && ReserveEffect(book, op, now, next, reply)
    ensures Kept(book, next, op, now)
  {
    KeptFromTouched(book, next, op, op.entity, now);
  }

  lemma ReserveSolvent(book: Book, op: Operation, now: U64, next: Book, reply: Reply)
    requires Keyed(book) && op.Reserve? && ReserveEffect(book, op, now, next, reply)
    ensures SolvencyKept(book, next, op, now)
  {
    var r := next.reservations[op.reservationId];
    LiveUpdate(book.reservations, op.reservationId, r, op.entity, now);
    assert Covered(next, op.entity, now);
    forall e | e in book.participants && e != op.entity
      ensures Obligations(next, next.participants[e], now) == Obligations(book, book.participants[e], now)
    {
      LiveUpdate(book.reservations, op.reservationId, r, e, now);
    }
    SolvencyFromParts(book, next, op, now);
  }

  /** The headroom that a reservation reports is what the resulting book has left. */
  lemma ReservePrediction(book: Book, op: Operation, now: U64, next: Book, reply: Reply)
    requires Keyed(book) && op.Reserve? && ReserveEffect(book, op, now, next, reply)
    ensures Headroom(next, op.entity, now) == Success(reply.yen)
  {
    LiveUpdate(book.reservations, op.reservationId, next.reservations[op.reservationId], op.entity, now);
    LiveBounds(book.reservations, op.entity, now);
    CollateralBounds(book.lots, op.entity);
    assert Obligations(next, next.participants[op.entity], now)
        == Obligations(book, book.participants[op.entity], now) + op.amount;
  }

  lemma ReleaseKeeps(book: Book, op: Operation, now: U64, next: Book, reply: Reply)
    requires Valid(book) && op.Release? && ReleaseEffect(book, op, now, next, reply)
    ensures Kept(book, next, op, now)
  {
    KeptFromTouched(book, next, op, op.entity, now);
  }

  lemma ReleaseSolvent(book: Book, op: Operation, now: U64, next: Book, reply: Reply)
    requires Keyed(book) && op.Release? && ReleaseEffect(book, op, now, next, reply)
    ensures SolvencyKept(book, next, op, now)
  {
    forall e | e in book.participants
      ensures Live(next.reservations, e, now) <= Live(book.reservations, e, now)
    {
      LiveUpdate(book.reservations, op.reservationId, next.reservations[op.reservationId], e, now);
    }
    SolvencyFromParts(book, next, op, now);
  }

  lemma ReturnLotKeeps(book: Book, op: Operation, now: U64, next: Book, reply: Reply)
    requires Valid(book) && op.ReturnLot? && ReturnLotEffect(book, op, now, next, reply)
    ensures Kept(book, next, op, now)
  {
    KeptFromTouched(book, next, op, book.lots[op.lotId].owner, now);
  }

  lemma ReturnLotSolvent(book: Book, op: Operation, now: U64, next: Book, reply: Reply)
    requires Keyed(book) && op.ReturnLot? && ReturnLotEffect(book, op, now, next, reply)
    ensures SolvencyKept(book, next, op, now)
  {
    var lot := book.lots[op.lotId];
    forall e | e in book.participants
      ensures Collateral(next.lots, e) == Collateral(book.lots, e) - (if e == lot.owner then LotWorth(lot) else 0)
    {
      CollateralUpdate(book.lots, op.lotId, next.lots[op.lotId], e);
    }
    SolvencyFromParts(book, next, op, now);
  }

  /** The headroom that a collateral return reports is what the resulting book has left. */
  lemma ReturnLotPrediction(book: Book, op: Operation, now: U64, next: Book, reply: Reply)
    requires Keyed(book) && op.ReturnLot? && ReturnLotEffect(book, op, now, next, reply)
    ensures Headroom(next, book.lots[op.lotId].owner, now) == Success(reply.yen)
  {
    var lot := book.lots[op.lotId];
    CollateralUpdate(book.lots, op.lotId, next.lots[op.lotId], lot.owner);
    CollateralBounds(next.lots, lot.owner);
    LiveBounds(book.reservations, lot.owner, now);
    assert Obligations(next, next.participants[lot.owner], now)
        == Obligations(book, book.participants[lot.owner], now);
  }

  lemma ApplyFundsKeeps(book: Book, op: Operation, now: U64, next: Book, reply: Reply)
    requires Valid(book) && op.ApplyFunds? && ApplyFundsEffect(book, op, now, next, reply)
    ensures Kept(book, next, op, now)
  {
    KeptFromTouched(book, next, op, op.entity, now);
  }

  lemma ApplyFundsSolvent(book: Book, op: Operation, now: U64, next: Book, reply: Reply)
    requires Keyed(book) && op.ApplyFunds? && ApplyFundsEffect(book, op, now, next, reply)
    ensures SolvencyKept(book, next, op, now)
  {
    SolvencyFromParts(book, next, op, now);
  }

  lemma UpdateExposureKeeps(book: Book, op: Operation, now: U64, next: Book, reply: Reply)
    requires Valid(book) && op.UpdateExposure? && UpdateExposureEffect(book, op, now, next, reply)
    ensures Kept(book, next, op, now)
  {
    KeptFromTouched(book, next, op, op.entity, now);
  }

  lemma UpdateExposureSolvent(book: Book, op: Operation, now: U64, next: Book, reply: Reply)
    requires Keyed(book) && op.UpdateExposure? && UpdateExposureEffect(book, op, now, next, reply)
    ensures SolvencyKept(book, next, op, now)
  {
    SolvencyFromParts(book, next, op, now);
  }

  lemma OpenDayKeeps(book: Book, op: Operation, now: U64, next: Book, reply: Reply)
    requires Valid(book) && op.OpenDay? && OpenDayEffect(book, op, now, next, reply)
    ensures Kept(book, next, op, now)
  {
    KeptFromTouched(book, next, op, op.entity, now);
  }

  lemma EndDayKeeps(book: Book, op: Operation, now: U64, next: Book, reply: Reply)
    requires Valid(book) && op.EndDay? && EndDayEffect(book, op, now, next, reply)
    ensures Kept(book, next, op, now)
  {
    KeptFromTouched(book, next, op, op.entity, now);
  }

  /** Opening and closing a day release the participant's reservations and touch no collateral. */
  lemma DaySolvent(book: Book, next: Book, op: Operation, entity: Id, now: U64)
    requires Keyed(book)
    requires next.lots == book.lots && next.reservations == ReleaseAll(book.reservations, entity)
    requires forall e | e in book.participants ::
      e in next.participants
      && next.participants[e].entity == e
      && next.participants[e].otherExposure == book.participants[e].otherExposure
      && next.participants[e].overdraft == book.participants[e].overdraft
    ensures SolvencyKept(book, next, op, now)
  {
    forall e | e in book.participants
      ensures Live(next.reservations, e, now) <= Live(book.reservations, e, now)
    {
      LiveReleaseAll(book.reservations, entity, e, now);
      LiveBounds(book.reservations, e, now);
    }
    SolvencyFromParts(book, next, op, now);
  }
}
