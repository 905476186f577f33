/**
 The liquidity book as an object. Every public request runs on a copy, the copy is checked, and
 only then does it replace the book. Each method is proved against its step function.
 */
module LiquidityBook {
  import opened Numbers
  import opened Results
  import opened Sums
  import opened LiquidityTypes
  import opened LiquiditySpec
  import opened LiquidityFolds
  import opened LiquiditySteps
  import opened LiquidityRuns

  /** The method reports what the step function computes, and on success the object holds the new book. */
  ghost predicate Agrees(applied: Applied, after: Book, r: Result<Reply, Error>) {
    match r
    case Success(reply) => applied == Success((after, reply))
    case Failure(error) => applied == Failure(error)
  }

  /** Every stored lot has a value, as the stored-state check guarantees. */
  predicate Priced(lots: map<Id, Lot>) {
    forall k | k in lots :: LotValue(lots[k]).Success?
  }

  /** What is wrong with a bad lot: its record, or only its value. */
  function LotFault(participants: map<Id, Participant>, k: Id, lot: Lot): Error {
    var value := LotValue(lot);
    if k != lot.lotId || lot.lotId == ZERO || lot.asset == ZERO || lot.owner == ZERO || lot.owner !in participants
       || value.Success?
    then InvalidCollateral else value.error
  }

  /** The error belongs to the first kind of record, in the order they are checked, that has a bad one. */
  ghost predicate FaultIn(book: Book, error: Error) {
    if exists k | k in book.participants :: !ValidParticipant(k, book.participants[k]) then error == InvalidParticipant
    else if exists k | k in book.lots :: !ValidLot(book.participants, k, book.lots[k]) then
      exists k | k in book.lots && !ValidLot(book.participants, k, book.lots[k]) ::
        error == LotFault(book.participants, k, book.lots[k])
    else error == InvalidReservation
  }

  class BojLiquidityBook {
    var participants: map<Id, Participant>
    var lots: map<Id, Lot>
    var reservations: map<Id, Reservation>
    var settlements: set<Id>
    var receipts: set<Id>
    var operations: set<Id>

    function Contents(): Book
      reads this
    {
      Book(participants, lots, reservations, settlements, receipts, operations)
    }

    constructor ()
      ensures Contents() == EMPTY
    {
      participants, lots, reservations := map[], map[], map[];
      settlements, receipts, operations := {}, {}, {};
    }

    constructor Clone(other: BojLiquidityBook)
      ensures Contents() == other.Contents()
    {
      participants, lots, reservations := other.participants, other.lots, other.reservations;
      settlements, receipts, operations := other.settlements, other.receipts, other.operations;
    }

    // ----- totals ----------------------------------------------------------------------------

    method CollateralValueOf(entity: Id) returns (r: Result<U64, Error>)
      requires Priced(lots)
      ensures r == CollateralValue(Contents(), entity)
    {
      var total: U64, keys := 0, lots.Keys;
      ghost var rest := CollateralParts(lots, entity);
      while keys != {}
        invariant keys <= lots.Keys && rest.Keys == keys
        invariant forall k | k in keys :: rest[k] == CollateralPart(lots[k], entity)
        invariant Collateral(lots, entity) == total + Total(rest)
        decreases keys
      {
        var k :| k in keys;
        TotalRemove(rest, k);
        TotalNonnegative(rest - {k});
        if lots[k].owner == entity && lots[k].pledged {
          var value := LotValue(lots[k]).value;
          if total + value > U64_MAX {
            return Failure(ArithmeticOverflow);
          }
          total := total + value;
        }
        keys, rest := keys - {k}, rest - {k};
      }
      return Success(total);
    }

    method LiveReserved(entity: Id, now: U64) returns (r: Result<U64, Error>)
      ensures r == Checked(Live(reservations, entity, now))
    {
      var total: U64, keys := 0, reservations.Keys;
      ghost var rest := LiveParts(reservations, entity, now);
      while keys != {}
        invariant keys <= reservations.Keys && rest.Keys == keys
        invariant forall k | k in keys :: rest[k] == LivePart(reservations[k], entity, now)
        invariant Live(reservations, entity, now) == total + Total(rest)
        decreases keys
      {
        var k :| k in keys;
        TotalRemove(rest, k);
        TotalNonnegative(rest - {k});
        if reservations[k].entity == entity && reservations[k].IsLive(now) {
          if total + reservations[k].amount > U64_MAX {
            return Failure(ArithmeticOverflow);
          }
          total := total + reservations[k].amount;
        }
        keys, rest := keys - {k}, rest - {k};
      }
      return Success(total);
    }

    method RequiredOf(p: Participant, now: U64) returns (r: Result<U64, Error>)
      ensures r == Required(Contents(), p, now)
    {
      LiveBounds(reservations, p.entity, now);
      :- Need(p.otherExposure + p.overdraft <= U64_MAX, ArithmeticOverflow);
      var live := LiveReserved(p.entity, now);
      if live.Failure? || p.otherExposure + p.overdraft + live.value > U64_MAX {
        return Failure(ArithmeticOverflow);
      }
      return Success(p.otherExposure + p.overdraft + live.value);
    }

    method AvailableHeadroom(entity: Id, now: U64) returns (r: Result<U64, Error>)
      requires Priced(lots)
      ensures r == Headroom(Contents(), entity, now)
    {
      if entity !in participants {
        return Failure(UnknownParticipant);
      }
      var required :- RequiredOf(participants[entity], now);
      var collateral :- CollateralValueOf(entity);
      return Success(if required < collateral then collateral - required else 0);
    }

    method RefreshStatus(entity: Id, now: U64) returns (r: Guard<Error>)
      requires Priced(lots)
      modifies this`participants
      ensures match Refresh(old(Contents()), entity, now)
              case Success(next) => r.Pass? && Contents() == next
              case Failure(error) => r == Fail(error) && Contents() == old(Contents())
    {
      if entity !in participants {
        return Fail(UnknownParticipant);
      }
      var p := participants[entity];
      var collateral := CollateralValueOf(p.entity);
      if collateral.Failure? {
        return Fail(collateral.error);
      }
      var required := RequiredOf(p, now);
      if required.Failure? {
        return Fail(required.error);
      }
      if p.status != Suspended && p.status != Overdue {
        var status := if collateral.value < required.value then CollateralShortfall else Active;
        participants := participants[entity := p.(status := status)];
      }
      return Pass;
    }

    // ----- stored-state check ----------------------------------------------------------------

    method Validate() returns (r: Guard<Error>)
      ensures r.Pass? <==> Valid(Contents())
      ensures r.Fail? ==> FaultIn(Contents(), r.error)
    {
      var keys := participants.Keys;
      while keys != {}
        invariant keys <= participants.Keys
        invariant forall k | k in participants && k !in keys :: ValidParticipant(k, participants[k])
        decreases keys
      {
        var k :| k in keys;
        if !ValidParticipant(k, participants[k]) {
          return Fail(InvalidParticipant);
        }
        keys := keys - {k};
      }
      keys := lots.Keys;
      while keys != {}
        invariant keys <= lots.Keys
        invariant forall k | k in lots && k !in keys :: ValidLot(participants, k, lots[k])
        decreases keys
      {
        var k :| k in keys;
        if !ValidLot(participants, k, lots[k]) {
          return Fail(LotFault(participants, k, lots[k]));
        }
        keys := keys - {k};
      }
      keys := reservations.Keys;
      while keys != {}
        invariant keys <= reservations.Keys
        invariant forall k | k in reservations && k !in keys :: ValidReservation(participants, k, reservations[k])
        decreases keys
      {
        var k :| k in keys;
        if !ValidReservation(participants, k, reservations[k]) {
          return Fail(InvalidReservation);
        }
        keys := keys - {k};
      }
      return Pass;
    }

    // ----- requests on the copy --------------------------------------------------------------

    method RegisterInner(op: Operation, now: U64) returns (r: Result<Reply, Error>)
      requires op.Register?
      modifies this
      ensures Agrees(RegisterStep(old(Contents()), op, now), Contents(), r)
    {
      var p := op.participant;
      :- NewOperation(Contents(), op.operationId);
      :- Need(p.entity != ZERO && p.fundsAccount != ZERO && p.jgbAccount != ZERO && p.businessDay != 0
              && p.deadline > now && p.sequence == 0 && p.overdraft == 0 && !p.closed && p.status == Active,
              InvalidParticipant);
      if p.entity in participants
         || exists k | k in participants ::
              participants[k].fundsAccount == p.fundsAccount || participants[k].jgbAccount == p.jgbAccount {
        return Failure(DuplicateParticipant);
      }
      participants := participants[p.entity := p];
      operations := operations + {op.operationId};
      return Success(Done);
    }

    method PledgeInner(op: Operation, now: U64) returns (r: Result<Reply, Error>)
      requires op.Pledge? && Priced(lots)
      modifies this
      ensures Agrees(PledgeStep(old(Contents()), op, now), Contents(), r)
    {
      hide CollateralValue, Refresh;
      :- NewOperation(Contents(), op.operationId);
      var lot := op.lot;
      :- Need(lot.lotId != ZERO && lot.asset != ZERO && lot.owner != ZERO && lot.pledged && lot.sequence == 0
              && lot.lotId !in lots, InvalidCollateral);
      var value :- LotValue(lot);
      :- Need(lot.owner in participants, UnknownParticipant);
      var p := participants[lot.owner];
      :- Need(p.sequence == op.expectedSequence, StaleSequence);
      :- Need(p.status != Suspended && p.status != Overdue && !p.closed && p.deadline > now, ParticipantUnavailable);
      :- Need(p.sequence < U64_MAX, ArithmeticOverflow);
      participants := participants[lot.owner := p.(sequence := p.sequence + 1)];
      lots := lots[lot.lotId := lot.(sequence := 1)];
      :- RefreshStatus(lot.owner, now);
      operations := operations + {op.operationId};
      return Success(Amount(value));
    }

    method RevalueInner(op: Operation, now: U64) returns (r: Result<Reply, Error>)
      requires op.Revalue? && Priced(lots)
      modifies this
      ensures Agrees(RevalueStep(old(Contents()), op, now), Contents(), r)
    {
      hide LotValue, CollateralValue, Refresh;
      :- NewOperation(Contents(), op.operationId);
      :- Need(op.lotId in lots, UnknownCollateral);
      var lot := lots[op.lotId];
      :- Need(lot.sequence == op.expectedLotSequence, StaleSequence);
      :- Need(op.epoch > lot.epoch, StaleValuation);
      :- Need(lot.sequence < U64_MAX, ArithmeticOverflow);
      var revalued := lot.(price := op.price, index := op.index, rate := op.rate, epoch := op.epoch,
                           sequence := lot.sequence + 1);
      lots := lots[op.lotId := revalued];
      var value :- LotValue(revalued);
      :- Need(lot.owner in participants, UnknownParticipant);
      var p := participants[lot.owner];
      :- Need(p.sequence == op.expectedSequence, StaleSequence);
      :- Need(p.sequence < U64_MAX, ArithmeticOverflow);
      participants := participants[lot.owner := p.(sequence := p.sequence + 1)];
      var total :- CollateralValueOf(lot.owner);
      :- RefreshStatus(lot.owner, now);
      operations := operations + {op.operationId};
      return Success(Amount(total));
    }

    method ReserveInner(op: Operation, now: U64) returns (r: Result<Reply, Error>)
      requires op.Reserve? && Priced(lots)
      modifies this
      ensures Agrees(ReserveStep(old(Contents()), op, now), Contents(), r)
    {
      hide LotValue, CollateralValue, Refresh;
      :- NewOperation(Contents(), op.operationId);
      :- Need(op.reservationId != ZERO && op.entity != ZERO && op.instruction != ZERO && op.amount != 0
              && op.expiresAt > now && op.reservationId !in reservations, InvalidReservation);
      :- RefreshStatus(op.entity, now);
      r := GrantReservation(op, now);
    }

    method GrantReservation(op: Operation, now: U64) returns (r: Result<Reply, Error>)
      requires op.Reserve? && Priced(lots)
      modifies this
      ensures Agrees(ReserveGrant(old(Contents()), op, now), Contents(), r)
    {
      hide LotValue, CollateralValue, Refresh;
      :- Need(op.entity in participants, UnknownParticipant);
      var p := participants[op.entity];
      :- Need(p.sequence == op.expectedSequence, StaleSequence);
      :- Need(p.status == Active && !p.closed && op.expiresAt <= p.deadline && p.deadline > now,
              ParticipantUnavailable);
      var headroom :- AvailableHeadroom(op.entity, now);
      :- Need(op.amount <= headroom, InsufficientCollateral);
      reservations := reservations[op.reservationId :=
        Reservation(op.reservationId, op.entity, op.instruction, op.amount, op.expiresAt, Open, 0)];
      :- Need(p.sequence < U64_MAX, ArithmeticOverflow);
      participants := participants[op.entity := p.(sequence := p.sequence + 1)];
      operations := operations + {op.operationId};
      return Success(Amount(headroom - op.amount));
    }

    method ReleaseInner(op: Operation, now: U64) returns (r: Result<Reply, Error>)
      requires op.Release? && Priced(lots)
      modifies this
      ensures Agrees(ReleaseStep(old(Contents()), op, now), Contents(), r)
    {
      hide LotValue, CollateralValue, Refresh;
      :- NewOperation(Contents(), op.operationId);
      :- Need(op.entity in participants, UnknownParticipant);
      var p := participants[op.entity];
      :- Need(p.sequence == op.expectedSequence, StaleSequence);
      :- Need(op.reservationId in reservations, UnknownReservation);
      var reservation := reservations[op.reservationId];
      :- Need(reservation.entity == op.entity && reservation.status == Open, InvalidReservation);
      reservations := reservations[op.reservationId := reservation.(status := Released)];
      :- Need(p.sequence < U64_MAX, ArithmeticOverflow);
      participants := participants[op.entity := p.(sequence := p.sequence + 1)];
      :- RefreshStatus(op.entity, now);
      var headroom :- AvailableHeadroom(op.entity, now);
      operations := operations + {op.operationId};
      return Success(Amount(headroom));
    }

    method ReturnLotInner(op: Operation, now: U64) returns (r: Result<Reply, Error>)
      requires op.ReturnLot? && Priced(lots)
      modifies this
      ensures Agrees(ReturnLotStep(old(Contents()), op, now), Contents(), r)
    {
      hide LotValue, CollateralValue, Refresh;
      :- NewOperation(Contents(), op.operationId);
      :- Need(op.lotId in lots, UnknownCollateral);
      var lot := lots[op.lotId];
      :- Need(lot.sequence == op.expectedLotSequence, StaleSequence);
      :- Need(lot.pledged, InvalidCollateral);
      :- RefreshStatus(lot.owner, now);
      r := GrantReturn(lot, op, now);
    }

    method GrantReturn(lot: Lot, op: Operation, now: U64) returns (r: Result<Reply, Error>)
      requires op.ReturnLot? && Priced(lots) && LotValue(lot).Success?
      modifies this
      ensures Agrees(ReturnGrant(old(Contents()), lot, op, now), Contents(), r)
    {
      hide LotValue, CollateralValue, Refresh;
      :- Need(lot.owner in participants, UnknownParticipant);
      var p := participants[lot.owner];
      :- Need(p.sequence == op.expectedSequence, StaleSequence);
      :- Need(p.status == Active && !p.closed && p.deadline > now, ParticipantUnavailable);
      var value := LotValue(lot).value;
      var collateral :- CollateralValueOf(lot.owner);
      :- Need(collateral >= value, InvalidStoredState);
      var required :- RequiredOf(p, now);
      :- Need(collateral - value >= required, InsufficientCollateral);
      :- Need(lot.sequence < U64_MAX, ArithmeticOverflow);
      lots := lots[op.lotId := lot.(pledged := false, sequence := lot.sequence + 1)];
      :- Need(p.sequence < U64_MAX, ArithmeticOverflow);
      participants := participants[lot.owner := p.(sequence := p.sequence + 1)];
      operations := operations + {op.operationId};
      return Success(Amount(collateral - value - required));
    }

    method ApplyFundsInner(op: Operation, now: U64) returns (r: Result<Reply, Error>)
      requires op.ApplyFunds? && Priced(lots)
      modifies this
      ensures Agrees(ApplyFundsStep(old(Contents()), op, now), Contents(), r)
    {
      hide LotValue, CollateralValue, Refresh;
      :- NewOperation(Contents(), op.operationId);
      :- Need(op.receiptId != ZERO && op.entity != ZERO && op.amount != 0, InvalidFundsReceipt);
      :- Need(op.receiptId !in receipts, DuplicateFundsReceipt);
      :- Need(op.entity in participants, UnknownParticipant);
      var p := participants[op.entity];
      :- Need(p.sequence == op.expectedSequence, StaleSequence);
      var repayment := Min(p.overdraft, op.amount);
      :- Need(p.cash + (op.amount - repayment) <= U64_MAX && p.sequence < U64_MAX, ArithmeticOverflow);
      var cash, overdraft := p.cash + (op.amount - repayment), p.overdraft - repayment;
      participants := participants[op.entity := p.(overdraft := overdraft, cash := cash, sequence := p.sequence + 1)];
      :- RefreshStatus(op.entity, now);
      receipts := receipts + {op.receiptId};
      operations := operations + {op.operationId};
      return Success(Funds(repayment, cash, overdraft));
    }

    method UpdateExposureInner(op: Operation, now: U64) returns (r: Result<Reply, Error>)
      requires op.UpdateExposure? && Priced(lots)
      modifies this
      ensures Agrees(UpdateExposureStep(old(Contents()), op, now), Contents(), r)
    {
      hide LotValue, CollateralValue, Refresh;
      :- NewOperation(Contents(), op.operationId);
      :- Need(op.entity != ZERO, InvalidParticipant);
      :- Need(op.entity in participants, UnknownParticipant);
      var p := participants[op.entity];
      :- Need(p.sequence == op.expectedSequence, StaleSequence);
      var changed := p.(otherExposure := op.newExposure);
      var required :- RequiredOf(changed, now);
      if op.newExposure > p.otherExposure {
        var collateral :- CollateralValueOf(op.entity);
        :- Need(collateral >= required, InsufficientCollateral);
      }
      r := StoreExposure(changed, op, now);
    }

    method StoreExposure(changed: Participant, op: Operation, now: U64) returns (r: Result<Reply, Error>)
      requires op.UpdateExposure? && Priced(lots)
      modifies this
      ensures Agrees(SetExposure(old(Contents()), changed, op, now), Contents(), r)
    {
      hide LotValue, CollateralValue, Refresh;
      :- Need(changed.sequence < U64_MAX, ArithmeticOverflow);
      participants := participants[op.entity := changed.(sequence := changed.sequence + 1)];
      :- RefreshStatus(op.entity, now);
      var headroom :- AvailableHeadroom(op.entity, now);
      operations := operations + {op.operationId};
      return Success(Amount(headroom));
    }

    method OpenDayInner(op: Operation, now: U64) returns (r: Result<Reply, Error>)
      requires op.OpenDay? && Priced(lots)
      modifies this
      ensures Agrees(OpenDayStep(old(Contents()), op, now), Contents(), r)
    {
      hide LotValue, CollateralValue;
      :- NewOperation(Contents(), op.operationId);
      :- Need(op.entity in participants, UnknownParticipant);
      var p := participants[op.entity];
      :- Need(p.sequence == op.expectedSequence, StaleSequence);
      :- Need(p.status != Suspended && p.overdraft == 0 && p.closed && op.businessDay > p.businessDay
              && now >= p.deadline && op.deadline > now, InvalidBusinessDay);
      ReleaseReservations(op.entity);
      :- Need(p.sequence < U64_MAX, ArithmeticOverflow);
      participants := participants[op.entity :=
        p.(businessDay := op.businessDay, deadline := op.deadline, closed := false, status := Active,
           sequence := p.sequence + 1)];
      :- RefreshStatus(op.entity, now);
      operations := operations + {op.operationId};
      return Success(Status(participants[op.entity].status));
    }

    method EndDayInner(op: Operation, now: U64) returns (r: Result<Reply, Error>)
      requires op.EndDay? && Priced(lots)
      modifies this
      ensures Agrees(EndDayStep(old(Contents()), op, now), Contents(), r)
    {
      hide LotValue, CollateralValue, Refresh;
      :- NewOperation(Contents(), op.operationId);
      :- Need(op.entity in participants, UnknownParticipant);
      var p := participants[op.entity];
      :- Need(p.sequence == op.expectedSequence, StaleSequence);
      :- Need(now >= p.deadline, TooEarlyForEndOfDay);
      :- Need(!p.closed, BusinessDayAlreadyClosed);
      ReleaseReservations(op.entity);
      :- Need(p.sequence < U64_MAX, ArithmeticOverflow);
      var status := if p.overdraft == 0 then Active else Overdue;
      participants := participants[op.entity := p.(status := status, closed := true, sequence := p.sequence + 1)];
      operations := operations + {op.operationId};
      return Success(Status(status));
    }

    method ReleaseReservations(entity: Id)
      modifies this`reservations
      ensures reservations == ReleaseAll(old(reservations), entity)
    {
      var keys := reservations.Keys;
      while keys != {}
        invariant keys <= reservations.Keys == old(reservations).Keys
        invariant forall k | k in reservations ::
          reservations[k] == if k in keys then old(reservations)[k] else ReleaseAll(old(reservations), entity)[k]
        decreases keys
      {
        var k :| k in keys;
        if reservations[k].entity == entity && reservations[k].status == Open {
          reservations := reservations[k := reservations[k].(status := Released)];
        }
        keys := keys - {k};
      }
    }

    // ----- delivery versus payment -----------------------------------------------------------

    method AdmitDvp(op: Operation, now: U64) returns (r: Result<DvpParties, Error>)
      requires op.SettleDvp? && Priced(lots)
      modifies this
      ensures DvpAdmission(old(Contents()), op, now) == r
      ensures r.Success? ==> Contents() == r.value.book && lots == old(lots)
    {
      hide LotValue, CollateralValue;
      :- NewOperation(Contents(), op.operationId);
      :- Need(op.settlementId != ZERO && op.instruction != ZERO && op.buyer != ZERO && op.seller != ZERO
              && op.lotId != ZERO && op.payment != 0 && op.buyer != op.seller && op.settlementId !in settlements,
              InvalidSettlement);
      :- RefreshStatus(op.buyer, now);
      :- RefreshStatus(op.seller, now);
      var buyer, seller := participants[op.buyer], participants[op.seller];
      :- Need(op.lotId in lots, UnknownCollateral);
      var lot := lots[op.lotId];
      :- Need(buyer.sequence == op.expectedBuyerSequence && seller.sequence == op.expectedSellerSequence
              && lot.sequence == op.expectedLotSequence, StaleSequence);
      :- Need(lot.owner == op.seller && buyer.businessDay == seller.businessDay && buyer.deadline > now
              && seller.deadline > now && !buyer.closed && !seller.closed && buyer.status != Suspended
              && buyer.status != Overdue && seller.status != Suspended && seller.status != Overdue,
              ParticipantUnavailable);
      return Success(DvpParties(Contents(), buyer, seller, lot));
    }

    method CheckBuyer(parties: DvpParties, op: Operation, draw: U64, reserved: U64, lotValue: U64, now: U64)
        returns (r: Guard<Error>)
      requires op.SettleDvp? && Priced(lots) && Contents() == parties.book
      ensures r == DvpBuyerCheck(parties, op, draw, reserved, lotValue, now)
    {
      var buyer := parties.buyer;
      var collateral := CollateralValueOf(op.buyer);
      if collateral.Failure? {
        return Fail(collateral.error);
      }
      var collateralAfter := collateral.value + (if op.buyerPledges then lotValue else 0);
      if collateralAfter > U64_MAX {
        return Fail(ArithmeticOverflow);
      }
      var live := LiveReserved(op.buyer, now);
      if live.Failure? {
        return Fail(live.error);
      }
      if live.value < reserved {
        return Fail(InvalidStoredState);
      }
      var requiredAfter := buyer.otherExposure + buyer.overdraft + draw + (live.value - reserved);
      if requiredAfter > U64_MAX {
        return Fail(ArithmeticOverflow);
      }
      if draw != 0 && buyer.status != Active {
        return Fail(ParticipantUnavailable);
      }
      if collateralAfter < requiredAfter {
        return Fail(InsufficientCollateral);
      }
      return Pass;
    }

    method CheckSeller(parties: DvpParties, op: Operation, repayment: U64, lotValue: U64, now: U64)
        returns (r: Guard<Error>)
      requires op.SettleDvp? && Priced(lots) && Contents() == parties.book
      requires repayment <= parties.seller.overdraft
      ensures r == DvpSellerCheck(parties, op, repayment, lotValue, now)
    {
      var seller := parties.seller;
      var collateral := CollateralValueOf(op.seller);
      if collateral.Failure? {
        return Fail(collateral.error);
      }
      var given := if parties.lot.pledged then lotValue else 0;
      if collateral.value < given {
        return Fail(InvalidStoredState);
      }
      LiveBounds(reservations, op.seller, now);
      var live := LiveReserved(op.seller, now);
      if live.Failure? || seller.otherExposure + (seller.overdraft - repayment) + live.value > U64_MAX {
        return Fail(ArithmeticOverflow);
      }
      if collateral.value - given < seller.otherExposure + (seller.overdraft - repayment) + live.value {
        return Fail(InsufficientCollateral);
      }
      return Pass;
    }

    method PlanDvp(parties: DvpParties, op: Operation, now: U64) returns (r: Result<DvpPlan, Error>)
      requires op.SettleDvp? && Priced(lots) && Contents() == parties.book
      ensures r == DvpPlanned(parties, op, now)
      ensures r.Success? ==> LotValue(r.value.lot).Success?
    {
      var draw := if parties.buyer.cash < op.payment then op.payment - parties.buyer.cash else 0;
      var repayment := Min(parties.seller.overdraft, op.payment);
      var lotValue :- LotValue(parties.lot);
      var reserved :- DvpReserved(Contents(), op, draw, now);
      :- CheckBuyer(parties, op, draw, reserved, lotValue, now);
      :- CheckSeller(parties, op, repayment, lotValue, now);
      return DvpRecords(parties, op, draw, repayment);
    }

    method FinishDvp(op: Operation, plan: DvpPlan, now: U64) returns (r: Result<Reply, Error>)
      requires op.SettleDvp? && Priced(lots) && LotValue(plan.lot).Success?
      modifies this
      ensures Agrees(DvpFinish(old(Contents()), op, plan, now), Contents(), r)
    {
      hide LotValue, CollateralValue, Refresh;
      participants := participants[op.buyer := plan.buyer];
      participants := participants[op.seller := plan.seller];
      lots := lots[op.lotId := plan.lot];
      if op.reservationId in reservations && op.reservationId != ZERO {
        reservations := reservations[op.reservationId :=
          reservations[op.reservationId].(status := Consumed, consumed := plan.draw)];
      }
      :- RefreshStatus(op.buyer, now);
      :- RefreshStatus(op.seller, now);
      settlements := settlements + {op.settlementId};
      operations := operations + {op.operationId};
      return Success(Dvp(plan.draw, plan.repayment, plan.buyer.cash, plan.seller.cash));
    }

    method SettleDvpInner(op: Operation, now: U64) returns (r: Result<Reply, Error>)
      requires op.SettleDvp? && Priced(lots)
      modifies this
      ensures Agrees(SettleDvpStep(old(Contents()), op, now), Contents(), r)
    {
      var parties :- AdmitDvp(op, now);
      var plan :- PlanDvp(parties, op, now);
      r := FinishDvp(op, plan, now);
    }

    // ----- atomic requests -------------------------------------------------------------------

    method Dispatch(op: Operation, now: U64) returns (r: Result<Reply, Error>)
      requires Priced(lots)
      modifies this
      ensures Agrees(Step(old(Contents()), op, now), Contents(), r)
    {
      match op
      case Register(_, _) => r := RegisterInner(op, now);
      case Pledge(_, _, _) => r := PledgeInner(op, now);
      case Revalue(_, _, _, _, _, _, _, _) => r := RevalueInner(op, now);
      case Reserve(_, _, _, _, _, _, _) => r := ReserveInner(op, now);
      case Release(_, _, _, _) => r := ReleaseInner(op, now);
      case ReturnLot(_, _, _, _) => r := ReturnLotInner(op, now);
      case ApplyFunds(_, _, _, _, _) => r := ApplyFundsInner(op, now);
      case UpdateExposure(_, _, _, _) => r := UpdateExposureInner(op, now);
      case OpenDay(_, _, _, _, _) => r := OpenDayInner(op, now);
      case SettleDvp(_, _, _, _, _, _, _, _, _, _, _, _) => r := SettleDvpInner(op, now);
      case EndDay(_, _, _) => r := EndDayInner(op, now);
    }

    /**
     Run a request on a copy, check the copy and install it. A refused request leaves the book
     untouched, and the check never refuses a request that its own operation accepted.
     */
    method Atomic(op: Operation, now: U64) returns (r: Result<Reply, Error>)
      requires Valid(Contents())
      modifies this
      ensures Valid(Contents())
      ensures Contents() == Apply(old(Contents()), Event(op, now))
      ensures Agrees(Step(old(Contents()), op, now), Contents(), r)
    {
      assert Keyed(Contents()) && Priced(lots);
      hide Valid, Step, Keyed, Priced, FaultIn;
      var next := new BojLiquidityBook.Clone(this);
      r := next.Dispatch(op, now);
      if r.Failure? {
        return;
      }
      StepValid(Contents(), op, now, next.Contents(), r.value);
      var check := next.Validate();
      if check.Fail? {
        assert false;
      }
      Become(next);
    }

    method Become(next: BojLiquidityBook)
      modifies this
      ensures Contents() == old(next.Contents())
    {
      participants, lots, reservations := next.participants, next.lots, next.reservations;
      settlements, receipts, operations := next.settlements, next.receipts, next.operations;
    }
  }
}
