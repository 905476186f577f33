/** What a stored reservation and a stored lot go through over a whole run. */
module LiquidityRecords {
  import opened Numbers
  import opened Results
  import opened LiquidityTypes
  import opened LiquiditySpec
  import opened LiquidityFolds
  import opened LiquidityEffects
  import opened LiquiditySteps
  import opened LiquidityDvp
  import opened LiquidityRuns
  import opened LiquidityAcceptance

  // ----- what the stored-state check guarantees ----------------------------------------------

  /** Of every participant, lot and reservation of a book that the stored-state check accepts. */
  lemma ValidRecords(book: Book, k: Id)
    requires Valid(book)
    ensures k in book.participants ==>
      var p := book.participants[k];
      && p.entity == k && 0 !in [p.entity, p.fundsAccount, p.jgbAccount, p.businessDay, p.deadline]
      && (p.overdraft > 0 ==> p.cash == 0) && (!p.closed ==> p.status != Overdue)
    ensures k in book.lots ==>
      var lot := book.lots[k];
      && lot.lotId == k && 0 !in [lot.lotId, lot.asset, lot.owner] && lot.owner in book.participants
      && LotValue(lot).Success?
    ensures k in book.reservations ==>
      var r := book.reservations[k];
      && r.reservationId == k && 0 !in [r.reservationId, r.entity, r.instruction, r.amount, r.expiresAt]
      && r.entity in book.participants && r.consumed <= r.amount && (r.consumed > 0 ==> r.status == Consumed)
  {
    hide LotValue;
  }

  // ----- reservations ------------------------------------------------------------------------

  /** What was reserved, for whom and for what never changes. */
  ghost predicate SameTerms(r: Reservation, q: Reservation) {
    && q.reservationId == r.reservationId && q.entity == r.entity && q.instruction == r.instruction
    && q.amount == r.amount && q.expiresAt == r.expiresAt
  }

  /** One accepted request: an open reservation ends in a settlement of its own instruction, or is released. */
  ghost predicate ReservationMoves(op: Operation, now: U64, reply: Reply, k: Id, r: Reservation, q: Reservation) {
    && SameTerms(r, q)
    && (r.status != Open || q.status == Open ==> q == r)
    && (r.status == Open && q.status == Consumed ==>
          && op.SettleDvp? && op.reservationId == k && op.buyer == r.entity && op.instruction == r.instruction
          && now < r.expiresAt && reply.Dvp? && q.consumed == reply.draw <= r.amount)
    && (r.status == Open && q.status == Released ==>
          && q.consumed == r.consumed
          && ((op.Release? && op.reservationId == k && op.entity == r.entity)
              || ((op.OpenDay? || op.EndDay?) && op.entity == r.entity)))
  }

  lemma ReleasedAt(rs: map<Id, Reservation>, entity: Id, k: Id)
    requires k in rs
    ensures k in ReleaseAll(rs, entity)
    ensures var r, q := rs[k], ReleaseAll(rs, entity)[k];
      q == r || (r.entity == entity && r.status == Open && q == r.(status := Released))
  {
  }

  lemma ReservationStep(book: Book, op: Operation, now: U64, next: Book, reply: Reply, k: Id)
    requires Keyed(book) && Step(book, op, now) == Success((next, reply)) && k in book.reservations
    ensures k in next.reservations
    ensures ReservationMoves(op, now, reply, k, book.reservations[k], next.reservations[k])
  {
    if op.SettleDvp? {
      DvpDoes(book, op, now, next, reply);
      SettleDvpExact(book, op, now);
      SettleReservation(book, op, now, next, reply, k);
    } else if op.OpenDay? {
      OpenDayDoes(book, op, now, next, reply);
      ReleasedAt(book.reservations, op.entity, k);
      hide Step, OpenDayStep, ReleaseAll, Refreshed;
    } else if op.EndDay? {
      EndDayDoes(book, op, now, next, reply);
      ReleasedAt(book.reservations, op.entity, k);
      hide Step, EndDayStep, ReleaseAll;
    } else {
      OthersReserve(book, op, now, next, reply, k);
    }
  }

  lemma SettleReservation(book: Book, op: Operation, now: U64, next: Book, reply: Reply, k: Id)
    requires op.SettleDvp? && DvpEffect(book, op, now, next, reply) && SettleDvpTerms(book, op, now)
    requires k in book.reservations
    ensures k in next.reservations
    ensures ReservationMoves(op, now, reply, k, book.reservations[k], next.reservations[k])
  {
    hide BuyerAfter, SellerAfter, LotsAfter, Covered, DvpSums, LotValue;
  }

  lemma OthersReserve(book: Book, op: Operation, now: U64, next: Book, reply: Reply, k: Id)
    requires Keyed(book) && Step(book, op, now) == Success((next, reply)) && k in book.reservations
    requires !op.SettleDvp? && !op.OpenDay? && !op.EndDay?
    ensures k in next.reservations
    ensures ReservationMoves(op, now, reply, k, book.reservations[k], next.reservations[k])
  {
    match op
    case Register(_, _) => RegisterDoes(book, op, now, next, reply); hide Step, RegisterStep;
    case Pledge(_, _, _) => PledgeDoes(book, op, now, next, reply); hide Step, PledgeStep, Refreshed;
    case Revalue(_, _, _, _, _, _, _, _) => RevalueDoes(book, op, now, next, reply); hide Step, RevalueStep, Refreshed;
    case Reserve(_, _, _, _, _, _, _) => ReserveDoes(book, op, now, next, reply); hide Step, ReserveStep;
    case Release(_, _, _, _) => ReleaseDoes(book, op, now, next, reply); hide Step, ReleaseStep, Refreshed;
    case ReturnLot(_, _, _, _) => ReturnLotDoes(book, op, now, next, reply); hide Step, ReturnLotStep;
    case ApplyFunds(_, _, _, _, _) => ApplyFundsDoes(book, op, now, next, reply); hide Step, ApplyFundsStep, Refreshed;
    case UpdateExposure(_, _, _, _) =>
      UpdateExposureDoes(book, op, now, next, reply);
      hide Step, UpdateExposureStep, Refreshed;
  }

  /** Over any run a reservation keeps its terms, and once consumed or released it never changes again. */
  lemma {:induction false} ReservationLife(book: Book, run: seq<Event>, k: Id)
    requires Valid(book) && k in book.reservations
    ensures k in After(book, run).reservations
    ensures SameTerms(book.reservations[k], After(book, run).reservations[k])
    ensures book.reservations[k].status != Open || After(book, run).reservations[k].status == Open ==>
      After(book, run).reservations[k] == book.reservations[k]
    decreases |run|
  {
    if run != [] {
      var init, event := run[..|run| - 1], run[|run| - 1];
      ReservationLife(book, init, k);
      StaysValid(book, init);
      var before := After(book, init);
      assert Keyed(before);
      hide Valid, Step, Keyed;
      if Step(before, event.op, event.now).Success? {
        var (next, reply) := Step(before, event.op, event.now).value;
        ReservationStep(before, event.op, event.now, next, reply, k);
      }
    }
  }

  lemma {:induction false} StaysValid(book: Book, run: seq<Event>)
    requires Valid(book)
    ensures Valid(After(book, run))
    decreases |run|
  {
    hide Valid, Step;
    if run != [] {
      var init, event := run[..|run| - 1], run[|run| - 1];
      StaysValid(book, init);
      var before := After(book, init);
      if Step(before, event.op, event.now).Success? {
        var (next, reply) := Step(before, event.op, event.now).value;
        StepValid(before, event.op, event.now, next, reply);
      }
    }
  }

  // ----- lots --------------------------------------------------------------------------------

  /**
   One accepted request: what the lot is stays; its owner changes only by a settlement, its price
   only by a newer one.
   */
  ghost predicate LotMoves(op: Operation, k: Id, lot: Lot, q: Lot) {
    && q.lotId == lot.lotId && q.asset == lot.asset && q.face == lot.face
    && (q.owner != lot.owner ==> op.SettleDvp? && op.lotId == k && op.seller == lot.owner && op.buyer == q.owner)
    && (q.price != lot.price || q.index != lot.index || q.rate != lot.rate || q.epoch != lot.epoch ==>
          && op.Revalue? && op.lotId == k && lot.epoch < q.epoch == op.epoch
          && q.price == op.price && q.index == op.index && q.rate == op.rate)
    && (q.pledged != lot.pledged ==> (op.SettleDvp? || op.ReturnLot?) && op.lotId == k)
    && (q == lot || q.sequence == lot.sequence + 1)
  }

  lemma LotStep(book: Book, op: Operation, now: U64, next: Book, reply: Reply, k: Id)
    requires Keyed(book) && Step(book, op, now) == Success((next, reply)) && k in book.lots
    ensures k in next.lots && LotMoves(op, k, book.lots[k], next.lots[k])
  {
    match op
    case Register(_, _) => RegisterDoes(book, op, now, next, reply); hide Step, RegisterStep;
    case Pledge(_, _, _) => PledgeDoes(book, op, now, next, reply); hide Step, PledgeStep, Refreshed, LotValue;
    case Revalue(_, _, _, _, _, _, _, _) =>
      RevalueDoes(book, op, now, next, reply);
      hide Step, RevalueStep, Refreshed, LotValue;
    case Reserve(_, _, _, _, _, _, _) => ReserveDoes(book, op, now, next, reply); hide Step, ReserveStep;
    case Release(_, _, _, _) => ReleaseDoes(book, op, now, next, reply); hide Step, ReleaseStep, Refreshed;
    case ReturnLot(_, _, _, _) => ReturnLotDoes(book, op, now, next, reply); hide Step, ReturnLotStep, LotValue;
    case ApplyFunds(_, _, _, _, _) => ApplyFundsDoes(book, op, now, next, reply); hide Step, ApplyFundsStep, Refreshed;
    case UpdateExposure(_, _, _, _) =>
      UpdateExposureDoes(book, op, now, next, reply);
      hide Step, UpdateExposureStep, Refreshed;
    case OpenDay(_, _, _, _, _) => OpenDayDoes(book, op, now, next, reply); hide Step, OpenDayStep, Refreshed;
    case SettleDvp(_, _, _, _, _, _, _, _, _, _, _, _) =>
      DvpDoes(book, op, now, next, reply);
      hide Step, SettleDvpStep, BuyerAfter, SellerAfter, ReservationsAfter, Covered, LotValue;
    case EndDay(_, _, _) => EndDayDoes(book, op, now, next, reply); hide Step, EndDayStep;
  }

  /** Over any run a lot stays the same bond of the same face value, and its valuation epoch never goes back. */
  lemma {:induction false} LotLife(book: Book, run: seq<Event>, k: Id)
    requires Valid(book) && k in book.lots
    ensures k in After(book, run).lots
    ensures var lot, q := book.lots[k], After(book, run).lots[k];
      && q.lotId == lot.lotId && q.asset == lot.asset && q.face == lot.face
      && lot.epoch <= q.epoch && lot.sequence <= q.sequence
    decreases |run|
  {
    if run != [] {
      var init, event := run[..|run| - 1], run[|run| - 1];
      LotLife(book, init, k);
      StaysValid(book, init);
      var before := After(book, init);
      assert Keyed(before);
      hide Valid, Step, Keyed;
      if Step(before, event.op, event.now).Success? {
        var (next, reply) := Step(before, event.op, event.now).value;
        LotStep(before, event.op, event.now, next, reply, k);
      }
    }
  }
}
