/**
 What each request does to the book, as a function from the book before to the book after and
 the reply, or to the error. No function here re-checks the stored state: that the check is
 never needed is a theorem.
 */
module LiquiditySpec {
  import opened Numbers
  import opened Results
  import opened LiquidityTypes

  type Applied = Result<(Book, Reply), Error>

  function NewOperation(book: Book, operationId: Id): Guard<Error> {
    if operationId == ZERO then Fail(InvalidOperation)
    else if operationId in book.operations then Fail(DuplicateOperation)
    else Pass
  }

  function Next(sequence: U64): Result<U64, Error> {
    if sequence == U64_MAX then Failure(ArithmeticOverflow) else Success(sequence + 1)
  }

  function Checked(n: int): Result<U64, Error> {
    if 0 <= n <= U64_MAX then Success(n) else Failure(ArithmeticOverflow)
  }

  ghost function CollateralValue(book: Book, entity: Id): Result<U64, Error> {
    Checked(Collateral(book.lots, entity))
  }

  ghost function Required(book: Book, p: Participant, now: U64): Result<U64, Error> {
    Checked(Obligations(book, p, now))
  }

  /** Collateral left over for new credit; zero when the pool is already short. */
  ghost function Headroom(book: Book, entity: Id, now: U64): Result<U64, Error> {
    if entity !in book.participants then Failure(UnknownParticipant) else
    var required :- Required(book, book.participants[entity], now);
    var collateral :- CollateralValue(book, entity);
    Success(if required < collateral then collateral - required else 0)
  }

  /** Recompute whether the participant's pool covers what it backs. */
  ghost function Refresh(book: Book, entity: Id, now: U64): Result<Book, Error> {
    if entity !in book.participants then Failure(UnknownParticipant) else
    var p := book.participants[entity];
    var collateral :- CollateralValue(book, p.entity);
    var required :- Required(book, p, now);
    Success(
      if p.status == Suspended || p.status == Overdue then book
      else book.(participants := book.participants[entity :=
        p.(status := if collateral < required then CollateralShortfall else Active)]))
  }

  function MarkApplied(book: Book, operationId: Id): Book {
    book.(operations := book.operations + {operationId})
  }

  /** Close every open reservation of one entity. */
  function ReleaseAll(reservations: map<Id, Reservation>, entity: Id): map<Id, Reservation> {
    map k | k in reservations ::
      if reservations[k].entity == entity && reservations[k].status == Open
      then reservations[k].(status := Released) else reservations[k]
  }

  ghost function RegisterStep(book: Book, op: Operation, now: U64): Applied
    requires op.Register?
  {
    var isNew := NewOperation(book, op.operationId);
    :- isNew;
    var p := op.participant;
    :- Need(p.entity != ZERO && p.fundsAccount != ZERO && p.jgbAccount != ZERO
            && p.businessDay != 0 && now < p.deadline && p.sequence == 0 && p.overdraft == 0
            && !p.closed && p.status == Active, InvalidParticipant);
    :- Need(p.entity !in book.participants
            && forall k | k in book.participants ::
                 book.participants[k].fundsAccount != p.fundsAccount
                 && book.participants[k].jgbAccount != p.jgbAccount, DuplicateParticipant);
    Success((MarkApplied(book.(participants := book.participants[p.entity := p]), op.operationId), Done))
  }

  ghost function PledgeStep(book: Book, op: Operation, now: U64): Applied
    requires op.Pledge?
  {
    var isNew := NewOperation(book, op.operationId);
    :- isNew;
    var lot := op.lot;
    :- Need(lot.lotId != ZERO && lot.asset != ZERO && lot.owner != ZERO && lot.pledged
            && lot.sequence == 0 && lot.lotId !in book.lots, InvalidCollateral);
    var value :- LotValue(lot);
    :- Need(lot.owner in book.participants, UnknownParticipant);
    var p := book.participants[lot.owner];
    :- Need(p.sequence == op.expectedSequence, StaleSequence);
    :- Need(p.status != Suspended && p.status != Overdue && !p.closed && now < p.deadline,
            ParticipantUnavailable);
    var sequence :- Next(p.sequence);
    var next :- Refresh(book.(participants := book.participants[lot.owner := p.(sequence := sequence)],
                              lots := book.lots[lot.lotId := lot.(sequence := 1)]), lot.owner, now);
    Success((MarkApplied(next, op.operationId), Amount(value)))
  }

  ghost function RevalueStep(book: Book, op: Operation, now: U64): Applied
    requires op.Revalue?
  {
    var isNew := NewOperation(book, op.operationId);
    :- isNew;
    :- Need(op.lotId in book.lots, UnknownCollateral);
    var lot := book.lots[op.lotId];
    :- Need(lot.sequence == op.expectedLotSequence, StaleSequence);
    :- Need(lot.epoch < op.epoch, StaleValuation);
    var lotSequence :- Next(lot.sequence);
    var revalued := lot.(price := op.price, index := op.index, rate := op.rate, epoch := op.epoch,
                         sequence := lotSequence);
    var _ :- LotValue(revalued);
    :- Need(lot.owner in book.participants, UnknownParticipant);
    var p := book.participants[lot.owner];
    :- Need(p.sequence == op.expectedSequence, StaleSequence);
    var sequence :- Next(p.sequence);
    var changed := book.(lots := book.lots[op.lotId := revalued],
                         participants := book.participants[lot.owner := p.(sequence := sequence)]);
    var total :- CollateralValue(changed, lot.owner);
    var next :- Refresh(changed, lot.owner, now);
    Success((MarkApplied(next, op.operationId), Amount(total)))
  }

  ghost function ReserveStep(book: Book, op: Operation, now: U64): Applied
    requires op.Reserve?
  {
    var isNew := NewOperation(book, op.operationId);
    :- isNew;
    :- Need(op.reservationId != ZERO && op.entity != ZERO && op.instruction != ZERO
            && op.amount != 0 && now < op.expiresAt && op.reservationId !in book.reservations,
            InvalidReservation);
    var current :- Refresh(book, op.entity, now);
    ReserveGrant(current, op, now)
  }

  /** Grant a reservation against the headroom of a book whose status is up to date. */
  ghost function ReserveGrant(current: Book, op: Operation, now: U64): Applied
    requires op.Reserve?
  {
    if op.entity !in current.participants then Failure(UnknownParticipant) else
    var p := current.participants[op.entity];
    :- Need(p.sequence == op.expectedSequence, StaleSequence);
    :- Need(p.status == Active && !p.closed && op.expiresAt <= p.deadline && now < p.deadline,
            ParticipantUnavailable);
    var headroom :- Headroom(current, op.entity, now);
    :- Need(op.amount <= headroom, InsufficientCollateral);
    var sequence :- Next(p.sequence);
    var next := current.(
      reservations := current.reservations[op.reservationId :=
        Reservation(op.reservationId, op.entity, op.instruction, op.amount, op.expiresAt, Open, 0)],
      participants := current.participants[op.entity := p.(sequence := sequence)]);
    Success((MarkApplied(next, op.operationId), Amount(headroom - op.amount)))
  }

  ghost function ReleaseStep(book: Book, op: Operation, now: U64): Applied
    requires op.Release?
  {
    var isNew := NewOperation(book, op.operationId);
    :- isNew;
    :- Need(op.entity in book.participants, UnknownParticipant);
    var p := book.participants[op.entity];
    :- Need(p.sequence == op.expectedSequence, StaleSequence);
    :- Need(op.reservationId in book.reservations, UnknownReservation);
    var r := book.reservations[op.reservationId];
    :- Need(r.entity == op.entity && r.status == Open, InvalidReservation);
    var sequence :- Next(p.sequence);
    var next :- Refresh(book.(
      reservations := book.reservations[op.reservationId := r.(status := Released)],
      participants := book.participants[op.entity := p.(sequence := sequence)]), op.entity, now);
    var headroom :- Headroom(next, op.entity, now);
    Success((MarkApplied(next, op.operationId), Amount(headroom)))
  }

  ghost function ReturnLotStep(book: Book, op: Operation, now: U64): Applied
    requires op.ReturnLot?
  {
    var isNew := NewOperation(book, op.operationId);
    :- isNew;
    :- Need(op.lotId in book.lots, UnknownCollateral);
    var lot := book.lots[op.lotId];
    :- Need(lot.sequence == op.expectedLotSequence, StaleSequence);
    :- Need(lot.pledged, InvalidCollateral);
    var current :- Refresh(book, lot.owner, now);
    ReturnGrant(current, lot, op, now)
  }

  /** Return a pledged lot from a book whose status is up to date, if the rest of the pool suffices. */
  ghost function ReturnGrant(current: Book, lot: Lot, op: Operation, now: U64): Applied
    requires op.ReturnLot?
  {
    if lot.owner !in current.participants then Failure(UnknownParticipant) else
    var p := current.participants[lot.owner];
    :- Need(p.sequence == op.expectedSequence, StaleSequence);
    :- Need(p.status == Active && !p.closed && now < p.deadline, ParticipantUnavailable);
    var value :- LotValue(lot);
    var collateral :- CollateralValue(current, lot.owner);
    :- Need(value <= collateral, InvalidStoredState);
    var required :- Required(current, p, now);
    :- Need(required <= collateral - value, InsufficientCollateral);
    var lotSequence :- Next(lot.sequence);
    var sequence :- Next(p.sequence);
    var next := current.(
      lots := current.lots[op.lotId := lot.(pledged := false, sequence := lotSequence)],
      participants := current.participants[lot.owner := p.(sequence := sequence)]);
    Success((MarkApplied(next, op.operationId), Amount(collateral - value - required)))
  }

  ghost function ApplyFundsStep(book: Book, op: Operation, now: U64): Applied
    requires op.ApplyFunds?
  {
    var isNew := NewOperation(book, op.operationId);
    :- isNew;
    :- Need(op.receiptId != ZERO && op.entity != ZERO && op.amount != 0, InvalidFundsReceipt);
    :- Need(op.receiptId !in book.receipts, DuplicateFundsReceipt);
    :- Need(op.entity in book.participants, UnknownParticipant);
    var p := book.participants[op.entity];
    :- Need(p.sequence == op.expectedSequence, StaleSequence);
    var repayment := Min(p.overdraft, op.amount);
    var cash :- Checked(p.cash + (op.amount - repayment));
    var sequence :- Next(p.sequence);
    var credited := p.(overdraft := p.overdraft - repayment, cash := cash, sequence := sequence);
    var next :- Refresh(book.(participants := book.participants[op.entity := credited]), op.entity, now);
    Success((MarkApplied(next.(receipts := next.receipts + {op.receiptId}), op.operationId),
             Funds(repayment, cash, p.overdraft - repayment)))
  }

  ghost function UpdateExposureStep(book: Book, op: Operation, now: U64): Applied
    requires op.UpdateExposure?
  {
    var isNew := NewOperation(book, op.operationId);
    :- isNew;
    :- Need(op.entity != ZERO, InvalidParticipant);
    :- Need(op.entity in book.participants, UnknownParticipant);
    var p := book.participants[op.entity];
    :- Need(p.sequence == op.expectedSequence, StaleSequence);
    var changed := p.(otherExposure := op.newExposure);
    var required :- Required(book, changed, now);
    var _ :- if op.newExposure > p.otherExposure
             then (var collateral :- CollateralValue(book, op.entity);
                   if collateral < required then Failure(InsufficientCollateral) else Success(collateral))
             else Success(0);
    SetExposure(book, changed, op, now)
  }

  /** Store the new exposure and report the headroom it leaves. */
  ghost function SetExposure(book: Book, changed: Participant, op: Operation, now: U64): Applied
    requires op.UpdateExposure?
  {
    var sequence :- Next(changed.sequence);
    var next :- Refresh(book.(participants := book.participants[op.entity := changed.(sequence := sequence)]),
                        op.entity, now);
    var headroom :- Headroom(next, op.entity, now);
    Success((MarkApplied(next, op.operationId), Amount(headroom)))
  }

  ghost function OpenDayStep(book: Book, op: Operation, now: U64): Applied
    requires op.OpenDay?
  {
    var isNew := NewOperation(book, op.operationId);
    :- isNew;
    :- Need(op.entity in book.participants, UnknownParticipant);
    var p := book.participants[op.entity];
    :- Need(p.sequence == op.expectedSequence, StaleSequence);
    :- Need(p.status != Suspended && p.overdraft == 0 && p.closed && p.businessDay < op.businessDay
            && p.deadline <= now && now < op.deadline, InvalidBusinessDay);
    var sequence :- Next(p.sequence);
    var reopened := p.(businessDay := op.businessDay, deadline := op.deadline, closed := false,
                     status := Active, sequence := sequence);
    var next :- Refresh(book.(reservations := ReleaseAll(book.reservations, op.entity),
                              participants := book.participants[op.entity := reopened]), op.entity, now);
    Success((MarkApplied(next, op.operationId), Status(next.participants[op.entity].status)))
  }

  ghost function EndDayStep(book: Book, op: Operation, now: U64): Applied
    requires op.EndDay?
  {
    var isNew := NewOperation(book, op.operationId);
    :- isNew;
    :- Need(op.entity in book.participants, UnknownParticipant);
    var p := book.participants[op.entity];
    :- Need(p.sequence == op.expectedSequence, StaleSequence);
    :- Need(p.deadline <= now, TooEarlyForEndOfDay);
    :- Need(!p.closed, BusinessDayAlreadyClosed);
    var sequence :- Next(p.sequence);
    var status := if p.overdraft == 0 then Active else Overdue;
    var next := book.(reservations := ReleaseAll(book.reservations, op.entity),
                      participants := book.participants[op.entity :=
                        p.(status := status, closed := true, sequence := sequence)]);
    Success((MarkApplied(next, op.operationId), Status(status)))
  }

  /** Parties, lot and book of a DvP once every check that needs no arithmetic has passed. */
  datatype DvpParties = DvpParties(book: Book, buyer: Participant, seller: Participant, lot: Lot)

  ghost function DvpAdmission(book: Book, op: Operation, now: U64): Result<DvpParties, Error>
    requires op.SettleDvp?
  {
    var isNew := NewOperation(book, op.operationId);
    :- isNew;
    :- Need(op.settlementId != ZERO && op.instruction != ZERO && op.buyer != ZERO && op.seller != ZERO
            && op.lotId != ZERO && op.payment != 0 && op.buyer != op.seller
            && op.settlementId !in book.settlements, InvalidSettlement);
    var buyerFresh :- Refresh(book, op.buyer, now);
    var current :- Refresh(buyerFresh, op.seller, now);
    var buyer := current.participants[op.buyer];
    var seller := current.participants[op.seller];
    :- Need(op.lotId in current.lots, UnknownCollateral);
    var lot := current.lots[op.lotId];
    :- Need(buyer.sequence == op.expectedBuyerSequence && seller.sequence == op.expectedSellerSequence
            && lot.sequence == op.expectedLotSequence, StaleSequence);
    :- Need(lot.owner == op.seller && buyer.businessDay == seller.businessDay
            && now < buyer.deadline && now < seller.deadline && !buyer.closed && !seller.closed
            && buyer.status != Suspended && buyer.status != Overdue
            && seller.status != Suspended && seller.status != Overdue, ParticipantUnavailable);
    Success(DvpParties(current, buyer, seller, lot))
  }

  /** The amount reserved for this instruction, or zero when no reservation is named. */
  function DvpReserved(book: Book, op: Operation, draw: U64, now: U64): Result<U64, Error>
    requires op.SettleDvp?
  {
    if op.reservationId == ZERO then Success(0) else
      :- Need(op.reservationId in book.reservations, UnknownReservation);
      var r := book.reservations[op.reservationId];
      :- Need(r.entity == op.buyer && r.instruction == op.instruction && r.IsLive(now) && draw <= r.amount,
              InvalidReservation);
      Success(r.amount)
  }

  /** Predict the buyer's pool after the settlement and refuse it if it would be short. */
  ghost function DvpBuyerCheck(parties: DvpParties, op: Operation, draw: U64, reserved: U64, lotValue: U64,
                               now: U64): Guard<Error>
    requires op.SettleDvp?
  {
    var buyer := parties.buyer;
    var collateral := CollateralValue(parties.book, op.buyer);
    if collateral.Failure? then Fail(collateral.error) else
    var collateralAfter := collateral.value + (if op.buyerPledges then lotValue else 0);
    if collateralAfter > U64_MAX then Fail(ArithmeticOverflow) else
    var live := Checked(Live(parties.book.reservations, op.buyer, now));
    if live.Failure? then Fail(live.error) else
    if live.value < reserved then Fail(InvalidStoredState) else
    var requiredAfter := buyer.otherExposure + buyer.overdraft + draw + (live.value - reserved);
    if requiredAfter > U64_MAX then Fail(ArithmeticOverflow) else
    if draw != 0 && buyer.status != Active then Fail(ParticipantUnavailable) else
    if collateralAfter < requiredAfter then Fail(InsufficientCollateral) else Pass
  }

  /** Predict the seller's pool after the settlement and refuse it if it would be short. */
  ghost function DvpSellerCheck(parties: DvpParties, op: Operation, repayment: U64, lotValue: U64,
                                now: U64): Guard<Error>
    requires op.SettleDvp?
    requires repayment <= parties.seller.overdraft
  {
    var seller := parties.seller;
    var collateral := CollateralValue(parties.book, op.seller);
    if collateral.Failure? then Fail(collateral.error) else
    var given := if parties.lot.pledged then lotValue else 0;
    if collateral.value < given then Fail(InvalidStoredState) else
    var requiredAfter := seller.otherExposure + (seller.overdraft - repayment)
                         + Live(parties.book.reservations, op.seller, now);
    if requiredAfter > U64_MAX then Fail(ArithmeticOverflow) else
    if collateral.value - given < requiredAfter then Fail(InsufficientCollateral) else Pass
  }

  /** The records a DvP is about to write, once every check has passed. */
  datatype DvpPlan = DvpPlan(draw: U64, repayment: U64, buyer: Participant, seller: Participant, lot: Lot)

  /** The new records of buyer, seller and lot, each field checked against its width. */
  function DvpRecords(parties: DvpParties, op: Operation, draw: U64, repayment: U64): Result<DvpPlan, Error>
    requires op.SettleDvp? && repayment <= op.payment && repayment <= parties.seller.overdraft
  {
    var buyer, seller, lot := parties.buyer, parties.seller, parties.lot;
    var buyerFunds :- Checked(buyer.cash + draw);
    var buyerCash :- Checked(buyerFunds - op.payment);
    var sellerCash :- Checked(seller.cash + (op.payment - repayment));
    var overdraft :- Checked(buyer.overdraft + draw);
    var buyerSequence :- Next(buyer.sequence);
    var sellerSequence :- Next(seller.sequence);
    var lotSequence :- Next(lot.sequence);
    Success(DvpPlan(draw, repayment,
      buyer.(cash := buyerCash, overdraft := overdraft, sequence := buyerSequence),
      seller.(cash := sellerCash, overdraft := seller.overdraft - repayment, sequence := sellerSequence),
      lot.(owner := op.buyer, pledged := op.buyerPledges, sequence := lotSequence)))
  }

  ghost function DvpPlanned(parties: DvpParties, op: Operation, now: U64): Result<DvpPlan, Error>
    requires op.SettleDvp?
  {
    var draw := if parties.buyer.cash < op.payment then op.payment - parties.buyer.cash else 0;
    var repayment := Min(parties.seller.overdraft, op.payment);
    var lotValue :- LotValue(parties.lot);
    var reserved :- DvpReserved(parties.book, op, draw, now);
    :- DvpBuyerCheck(parties, op, draw, reserved, lotValue, now);
    :- DvpSellerCheck(parties, op, repayment, lotValue, now);
    DvpRecords(parties, op, draw, repayment)
  }

  /** Cash, overdraft, bond and reservation of a settled DvP, before statuses are recomputed. */
  function DvpMoved(book: Book, op: Operation, plan: DvpPlan): Book
    requires op.SettleDvp?
  {
    book.(
      participants := book.participants[op.buyer := plan.buyer][op.seller := plan.seller],
      lots := book.lots[op.lotId := plan.lot],
      reservations :=
        if op.reservationId in book.reservations && op.reservationId != ZERO
        then book.reservations[op.reservationId :=
               book.reservations[op.reservationId].(status := Consumed, consumed := plan.draw)]
        else book.reservations)
  }

  ghost function DvpFinish(book: Book, op: Operation, plan: DvpPlan, now: U64): Applied
    requires op.SettleDvp?
  {
    var buyerFresh :- Refresh(DvpMoved(book, op, plan), op.buyer, now);
    var next :- Refresh(buyerFresh, op.seller, now);
    Success((MarkApplied(next.(settlements := next.settlements + {op.settlementId}), op.operationId),
             Dvp(plan.draw, plan.repayment, plan.buyer.cash, plan.seller.cash)))
  }

  ghost function SettleDvpStep(book: Book, op: Operation, now: U64): Applied
    requires op.SettleDvp?
  {
    var parties :- DvpAdmission(book, op, now);
    var plan :- DvpPlanned(parties, op, now);
    DvpFinish(parties.book, op, plan, now)
  }

  function Min(a: U64, b: U64): U64 {
    if a < b then a else b
  }

  /** One request at one time. */
  ghost function Step(book: Book, op: Operation, now: U64): Applied {
    match op
    case Register(_, _) => RegisterStep(book, op, now)
    case Pledge(_, _, _) => PledgeStep(book, op, now)
    case Revalue(_, _, _, _, _, _, _, _) => RevalueStep(book, op, now)
    case Reserve(_, _, _, _, _, _, _) => ReserveStep(book, op, now)
    case Release(_, _, _, _) => ReleaseStep(book, op, now)
    case ReturnLot(_, _, _, _) => ReturnLotStep(book, op, now)
    case ApplyFunds(_, _, _, _, _) => ApplyFundsStep(book, op, now)
    case UpdateExposure(_, _, _, _) => UpdateExposureStep(book, op, now)
    case OpenDay(_, _, _, _, _) => OpenDayStep(book, op, now)
    case SettleDvp(_, _, _, _, _, _, _, _, _, _, _, _) => SettleDvpStep(book, op, now)
    case EndDay(_, _, _) => EndDayStep(book, op, now)
  }
}
