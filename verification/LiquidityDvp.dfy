/** The simultaneous collateral DvP: two participants, one bond lot and at most one reservation move at once. */
module LiquidityDvp {
  import opened Numbers
  import opened Results
  import opened LiquidityTypes
  import opened LiquiditySpec
  import opened LiquidityFolds
  import opened LiquidityEffects
  import opened LiquiditySteps

  /** What the request says about the lot and the reservation, with the payment's own arithmetic. */
  ghost predicate DvpTerms(book: Book, op: Operation, now: U64, draw: nat, repayment: nat)
    requires op.SettleDvp?
  {
    && op.buyer != op.seller && op.buyer in book.participants && op.seller in book.participants
    && op.lotId in book.lots && book.lots[op.lotId].owner == op.seller
    && LotValue(book.lots[op.lotId]).Success? && book.lots[op.lotId].sequence < U64_MAX
    && var b, s := book.participants[op.buyer], book.participants[op.seller];
    && b.entity == op.buyer && s.entity == op.seller
    && draw == (if b.cash < op.payment then op.payment - b.cash else 0)
    && repayment == (if s.overdraft < op.payment then s.overdraft else op.payment)
    && b.overdraft + draw <= U64_MAX && s.cash + op.payment - repayment <= U64_MAX
    && b.sequence < U64_MAX && s.sequence < U64_MAX
    && now < b.deadline && now < s.deadline && b.businessDay == s.businessDay
    && (op.reservationId != ZERO ==>
          op.reservationId in book.reservations
          && var r := book.reservations[op.reservationId];
          r.entity == op.buyer && r.IsLive(now) && draw <= r.amount)
  }

  function BuyerAfter(b: Participant, op: Operation, draw: nat, status: ParticipantStatus): Participant
    requires op.SettleDvp? && op.payment <= b.cash + draw <= U64_MAX + op.payment
    requires b.overdraft + draw <= U64_MAX && b.sequence < U64_MAX
  {
    b.(cash := b.cash + draw - op.payment, overdraft := b.overdraft + draw, sequence := b.sequence + 1,
       status := status)
  }

  function SellerAfter(s: Participant, op: Operation, repayment: nat, status: ParticipantStatus): Participant
    requires op.SettleDvp? && repayment <= s.overdraft && repayment <= op.payment
    requires s.cash + op.payment - repayment <= U64_MAX && s.sequence < U64_MAX
  {
    s.(cash := s.cash + op.payment - repayment, overdraft := s.overdraft - repayment,
       sequence := s.sequence + 1, status := status)
  }

  function LotsAfter(book: Book, op: Operation): map<Id, Lot>
    requires op.SettleDvp? && op.lotId in book.lots && book.lots[op.lotId].sequence < U64_MAX
  {
    var lot := book.lots[op.lotId];
    book.lots[op.lotId := lot.(owner := op.buyer, pledged := op.buyerPledges, sequence := lot.sequence + 1)]
  }

  function ReservationsAfter(book: Book, op: Operation, draw: nat): map<Id, Reservation>
    requires op.SettleDvp? && draw <= U64_MAX
    requires op.reservationId != ZERO ==> op.reservationId in book.reservations
  {
    if op.reservationId == ZERO then book.reservations
    else book.reservations[op.reservationId :=
           book.reservations[op.reservationId].(status := Consumed, consumed := draw)]
  }

  /** A settled DvP in closed form: both pools cover what they back and both participants end active. */
  ghost predicate DvpEffect(book: Book, op: Operation, now: U64, next: Book, reply: Reply)
    requires op.SettleDvp?
  {
    && reply.Dvp? && DvpTerms(book, op, now, reply.draw, reply.sellerRepayment)
    && var b, s := book.participants[op.buyer], book.participants[op.seller];
    && next.participants == book.participants
         [op.buyer := BuyerAfter(b, op, reply.draw, Active)]
         [op.seller := SellerAfter(s, op, reply.sellerRepayment, Active)]
    && next.lots == LotsAfter(book, op)
    && next.reservations == ReservationsAfter(book, op, reply.draw)
    && op.operationId !in book.operations && next.operations == book.operations + {op.operationId}
    && op.settlementId !in book.settlements && next.settlements == book.settlements + {op.settlementId}
    && next.receipts == book.receipts
    && reply.buyerCashAfter == next.participants[op.buyer].cash
    && reply.sellerCashAfter == next.participants[op.seller].cash
    && Covered(next, op.buyer, now) && Covered(next, op.seller, now)
    && (reply.draw != 0 ==> Covered(book, op.buyer, now))
  }

  /** The totals a DvP predicts are the folds over the maps it leaves behind. */
  lemma DvpPrediction(book: Book, op: Operation, now: U64, draw: nat, repayment: nat)
    requires op.SettleDvp? && DvpTerms(book, op, now, draw, repayment)
    ensures var lots, lot := LotsAfter(book, op), book.lots[op.lotId];
      && Collateral(lots, op.buyer)
         == Collateral(book.lots, op.buyer) + (if op.buyerPledges then LotWorth(lot) else 0)
      && Collateral(lots, op.seller)
         == Collateral(book.lots, op.seller) - (if lot.pledged then LotWorth(lot) else 0)
      && (forall e | e != op.buyer && e != op.seller :: Collateral(lots, e) == Collateral(book.lots, e))
    ensures var rs := ReservationsAfter(book, op, draw);
      && Live(rs, op.buyer, now) == Live(book.reservations, op.buyer, now)
         - (if op.reservationId == ZERO then 0 else book.reservations[op.reservationId].amount)
      && (forall e | e != op.buyer :: Live(rs, e, now) == Live(book.reservations, e, now))
  {
    var lot := book.lots[op.lotId];
    var after := LotsAfter(book, op)[op.lotId];
    assert LotWorth(after) == LotWorth(lot);
    CollateralUpdate(book.lots, op.lotId, after, op.buyer);
    CollateralUpdate(book.lots, op.lotId, after, op.seller);
    forall e | e != op.buyer && e != op.seller
      ensures Collateral(LotsAfter(book, op), e) == Collateral(book.lots, e)
    {
      CollateralUpdate(book.lots, op.lotId, after, e);
    }
    if op.reservationId != ZERO {
      var r := ReservationsAfter(book, op, draw)[op.reservationId];
      LiveUpdate(book.reservations, op.reservationId, r, op.buyer, now);
      forall e | e != op.buyer
        ensures Live(ReservationsAfter(book, op, draw), e, now) == Live(book.reservations, e, now)
      {
        LiveUpdate(book.reservations, op.reservationId, r, e, now);
      }
    }
  }

  /** Admission changes nothing but the two statuses, which it recomputes. */
  ghost predicate Admitted(book: Book, op: Operation, now: U64, parties: DvpParties)
    requires op.SettleDvp?
  {
    && op.buyer != op.seller && op.buyer in book.participants && op.seller in book.participants
    && var b, s := book.participants[op.buyer], book.participants[op.seller];
    && parties.buyer == b.(status := parties.buyer.status) && b.entity == op.buyer
    && parties.seller == s.(status := parties.seller.status) && s.entity == op.seller
    && parties.book == book.(participants := book.participants[op.buyer := parties.buyer][op.seller := parties.seller])
    && op.lotId in book.lots && parties.lot == book.lots[op.lotId] && parties.lot.owner == op.seller
    && b.businessDay == s.businessDay && now < b.deadline && now < s.deadline
    && op.operationId !in book.operations && op.settlementId !in book.settlements
    && parties.buyer.status != Overdue && parties.buyer.status != Suspended
    && parties.seller.status != Overdue && parties.seller.status != Suspended
    && (parties.buyer.status == Active ==> Covered(book, op.buyer, now))
  }

  lemma AdmissionEffect(book: Book, op: Operation, now: U64)
    requires Keyed(book) && op.SettleDvp? && DvpAdmission(book, op, now).Success?
    ensures Admitted(book, op, now, DvpAdmission(book, op, now).value)
  {
    RefreshEffect(book, op.buyer, now);
    RefreshEffect(Refresh(book, op.buyer, now).value, op.seller, now);
  }

  /** The records a settlement is about to write follow from the request's own terms. */
  ghost predicate PlannedRecords(book: Book, op: Operation, now: U64, parties: DvpParties, plan: DvpPlan)
    requires op.SettleDvp?
  {
    && DvpTerms(book, op, now, plan.draw, plan.repayment)
    && plan.buyer == BuyerAfter(book.participants[op.buyer], op, plan.draw, parties.buyer.status)
    && plan.seller == SellerAfter(book.participants[op.seller], op, plan.repayment, parties.seller.status)
    && plan.lot == LotsAfter(book, op)[op.lotId]
  }

  lemma PlanRecords(book: Book, op: Operation, now: U64, parties: DvpParties, draw: U64, repayment: U64, plan: DvpPlan)
    requires op.SettleDvp? && Admitted(book, op, now, parties)
    requires draw == (if parties.buyer.cash < op.payment then op.payment - parties.buyer.cash else 0)
    requires repayment == Min(parties.seller.overdraft, op.payment)
    requires LotValue(parties.lot).Success? && DvpReserved(parties.book, op, draw, now).Success?
    requires DvpRecords(parties, op, draw, repayment) == Success(plan)
    ensures PlannedRecords(book, op, now, parties, plan)
  {
  }

  /** What the two checks establish about the pools before anything moves. */
  ghost predicate PlannedCover(book: Book, op: Operation, now: U64, plan: DvpPlan)
    requires op.SettleDvp? && DvpTerms(book, op, now, plan.draw, plan.repayment)
  {
    var b, s, lot := book.participants[op.buyer], book.participants[op.seller], book.lots[op.lotId];
    && b.otherExposure + b.overdraft + plan.draw + Live(book.reservations, op.buyer, now)
         - (if op.reservationId == ZERO then 0 else book.reservations[op.reservationId].amount)
       <= Collateral(book.lots, op.buyer) + (if op.buyerPledges then LotWorth(lot) else 0)
    && s.otherExposure + s.overdraft - plan.repayment + Live(book.reservations, op.seller, now)
       <= Collateral(book.lots, op.seller) - (if lot.pledged then LotWorth(lot) else 0)
    && (plan.draw != 0 ==> Covered(book, op.buyer, now))
  }

  lemma PlanCover(book: Book, op: Operation, now: U64, parties: DvpParties, plan: DvpPlan)
    requires op.SettleDvp? && Admitted(book, op, now, parties)
    requires DvpTerms(book, op, now, plan.draw, plan.repayment)
    requires DvpPlanned(parties, op, now) == Success(plan)
    ensures PlannedCover(book, op, now, plan)
  {
    var draw, repayment := plan.draw, plan.repayment;
    var lotValue := LotValue(parties.lot).value;
    var reserved := DvpReserved(parties.book, op, draw, now).value;
    assert DvpBuyerCheck(parties, op, draw, reserved, lotValue, now).Pass?;
    assert DvpSellerCheck(parties, op, repayment, lotValue, now).Pass?;
  }

  /** Recomputing two covered participants leaves both active and nothing else changed. */
  lemma RefreshBoth(moved: Book, buyer: Id, seller: Id, now: U64)
    requires buyer != seller && Covered(moved, buyer, now) && Covered(moved, seller, now)
    requires moved.participants[buyer].entity == buyer && moved.participants[seller].entity == seller
    requires moved.participants[buyer].status != Overdue && moved.participants[buyer].status != Suspended
    requires moved.participants[seller].status != Overdue && moved.participants[seller].status != Suspended
    requires Refresh(moved, buyer, now).Success?
    requires Refresh(Refresh(moved, buyer, now).value, seller, now).Success?
    ensures Refresh(Refresh(moved, buyer, now).value, seller, now).value
         == moved.(participants := moved.participants
              [buyer := moved.participants[buyer].(status := Active)]
              [seller := moved.participants[seller].(status := Active)])
  {
  }

  lemma MovedCovered(book: Book, op: Operation, now: U64, parties: DvpParties, plan: DvpPlan)
    requires op.SettleDvp? && Admitted(book, op, now, parties)
    requires PlannedRecords(book, op, now, parties, plan) && PlannedCover(book, op, now, plan)
    ensures var moved := DvpMoved(parties.book, op, plan);
      && moved == book.(participants := book.participants[op.buyer := plan.buyer][op.seller := plan.seller],
                        lots := LotsAfter(book, op),
                        reservations := ReservationsAfter(book, op, plan.draw))
      && Covered(moved, op.buyer, now) && Covered(moved, op.seller, now)
  {
    DvpPrediction(book, op, now, plan.draw, plan.repayment);
    assert parties.book.participants[op.buyer := plan.buyer][op.seller := plan.seller]
        == book.participants[op.buyer := plan.buyer][op.seller := plan.seller];
  }

  /** The finished book with both statuses active, as one update of the book before. */
  ghost predicate Finished(book: Book, op: Operation, plan: DvpPlan, next: Book, reply: Reply)
    requires op.SettleDvp?
  {
    && op.lotId in book.lots && book.lots[op.lotId].sequence < U64_MAX
    && (op.reservationId != ZERO ==> op.reservationId in book.reservations)
    && next == Book(
         book.participants[op.buyer := plan.buyer.(status := Active)][op.seller := plan.seller.(status := Active)],
         LotsAfter(book, op), ReservationsAfter(book, op, plan.draw),
         book.settlements + {op.settlementId}, book.receipts, book.operations + {op.operationId})
    && reply == Dvp(plan.draw, plan.repayment, plan.buyer.cash, plan.seller.cash)
  }

  lemma FinishShape(book: Book, op: Operation, now: U64, parties: DvpParties, plan: DvpPlan,
                    next: Book, reply: Reply)
    requires op.SettleDvp? && Admitted(book, op, now, parties)
    requires PlannedRecords(book, op, now, parties, plan) && PlannedCover(book, op, now, plan)
    requires DvpFinish(parties.book, op, plan, now) == Success((next, reply))
    ensures Finished(book, op, plan, next, reply)
  {
    MovedCovered(book, op, now, parties, plan);
    RefreshBoth(DvpMoved(parties.book, op, plan), op.buyer, op.seller, now);
    UpdateTwice(book.participants, op.buyer, op.seller, plan.buyer, plan.seller,
                plan.buyer.(status := Active), plan.seller.(status := Active));
  }

  lemma FinishEffect(book: Book, op: Operation, now: U64, parties: DvpParties, plan: DvpPlan,
                     next: Book, reply: Reply)
    requires op.SettleDvp? && op.operationId !in book.operations && op.settlementId !in book.settlements
    requires PlannedRecords(book, op, now, parties, plan) && PlannedCover(book, op, now, plan)
    requires Finished(book, op, plan, next, reply)
    ensures DvpEffect(book, op, now, next, reply)
  {
    DvpPrediction(book, op, now, plan.draw, plan.repayment);
    assert plan.buyer.(status := Active) == BuyerAfter(book.participants[op.buyer], op, plan.draw, Active);
    assert plan.seller.(status := Active) == SellerAfter(book.participants[op.seller], op, plan.repayment, Active);
  }

  lemma UpdateTwice(ps: map<Id, Participant>, buyer: Id, seller: Id,
                    b: Participant, s: Participant, b': Participant, s': Participant)
    ensures ps[buyer := b][seller := s][buyer := b'][seller := s'] == ps[buyer := b'][seller := s']
  {
  }

  lemma PlanLayers(parties: DvpParties, op: Operation, now: U64, plan: DvpPlan)
    requires op.SettleDvp? && DvpPlanned(parties, op, now) == Success(plan)
    ensures plan.draw == (if parties.buyer.cash < op.payment then op.payment - parties.buyer.cash else 0)
    ensures plan.repayment == Min(parties.seller.overdraft, op.payment)
    ensures LotValue(parties.lot).Success? && DvpReserved(parties.book, op, plan.draw, now).Success?
    ensures DvpRecords(parties, op, plan.draw, plan.repayment) == Success(plan)
  {
  }

  lemma PlanDoes(book: Book, op: Operation, now: U64, parties: DvpParties, plan: DvpPlan, next: Book, reply: Reply)
    requires op.SettleDvp? && Admitted(book, op, now, parties)
    requires DvpPlanned(parties, op, now) == Success(plan)
    requires DvpFinish(parties.book, op, plan, now) == Success((next, reply))
    ensures DvpEffect(book, op, now, next, reply)
  {
    PlanLayers(parties, op, now, plan);
    PlanRecords(book, op, now, parties, plan.draw, plan.repayment, plan);
    PlanCover(book, op, now, parties, plan);
    FinishShape(book, op, now, parties, plan, next, reply);
    FinishEffect(book, op, now, parties, plan, next, reply);
  }

  lemma DvpDoes(book: Book, op: Operation, now: U64, next: Book, reply: Reply)
    requires Keyed(book) && op.SettleDvp? && SettleDvpStep(book, op, now) == Success((next, reply))
    ensures DvpEffect(book, op, now, next, reply)
  {
    AdmissionEffect(book, op, now);
    var parties := DvpAdmission(book, op, now).value;
    var plan := DvpPlanned(parties, op, now).value;
    PlanDoes(book, op, now, parties, plan, next, reply);
  }

  lemma DvpConserves(book: Book, op: Operation, now: U64, next: Book, reply: Reply)
    requires op.SettleDvp? && DvpEffect(book, op, now, next, reply)
    ensures NetCash(next.participants) == NetCash(book.participants)
  {
    var b, s := next.participants[op.buyer], next.participants[op.seller];
    NetCashUpdate(book.participants, op.buyer, b);
    NetCashUpdate(book.participants[op.buyer := b], op.seller, s);
  }

  lemma DvpValid(book: Book, op: Operation, now: U64, next: Book, reply: Reply)
    requires Valid(book) && op.SettleDvp? && DvpEffect(book, op, now, next, reply)
    ensures Valid(next)
  {
    DvpParticipantsValid(book, op, now, next, reply);
    DvpLotsValid(book, op, now, next, reply);
    DvpReservationsValid(book, op, now, next, reply);
    hide DvpEffect, ValidParticipant, ValidLot, ValidReservation;
  }

  lemma DvpParticipantsValid(book: Book, op: Operation, now: U64, next: Book, reply: Reply)
    requires Valid(book) && op.SettleDvp? && DvpEffect(book, op, now, next, reply)
    ensures forall k | k in next.participants :: ValidParticipant(k, next.participants[k])
  {
    hide ValidLot, ValidReservation, LotsAfter, ReservationsAfter, Covered;
    forall k | k in next.participants ensures ValidParticipant(k, next.participants[k]) {
      assert k in book.participants && ValidParticipant(k, book.participants[k]);
    }
  }

  lemma DvpLotsValid(book: Book, op: Operation, now: U64, next: Book, reply: Reply)
    requires Valid(book) && op.SettleDvp? && DvpEffect(book, op, now, next, reply)
    ensures forall k | k in next.lots :: ValidLot(next.participants, k, next.lots[k])
  {
    hide ValidReservation, ReservationsAfter, Covered, BuyerAfter, SellerAfter;
    forall k | k in next.lots ensures ValidLot(next.participants, k, next.lots[k]) {
      assert ValidLot(book.participants, k, book.lots[k]);
      assert ValidParticipant(op.buyer, book.participants[op.buyer]);
    }
  }

  lemma DvpReservationsValid(book: Book, op: Operation, now: U64, next: Book, reply: Reply)
    requires Valid(book) && op.SettleDvp? && DvpEffect(book, op, now, next, reply)
    ensures forall k | k in next.reservations :: ValidReservation(next.participants, k, next.reservations[k])
  {
    hide ValidLot, ValidParticipant, LotsAfter, Covered, BuyerAfter, SellerAfter;
    forall k | k in next.reservations ensures ValidReservation(next.participants, k, next.reservations[k]) {
      assert ValidReservation(book.participants, k, book.reservations[k]);
    }
  }

  lemma DvpDays(book: Book, op: Operation, now: U64, next: Book, reply: Reply)
    requires op.SettleDvp? && DvpEffect(book, op, now, next, reply)
    ensures Timely(book) ==> Timely(next)
    ensures forall e | e in book.participants ::
      e in next.participants && DayKept(book.participants[e], next.participants[e], now)
  {
  }

  lemma DvpKeeps(book: Book, op: Operation, now: U64, next: Book, reply: Reply)
    requires Valid(book) && op.SettleDvp? && DvpEffect(book, op, now, next, reply)
    ensures Kept(book, next, op, now)
  {
    DvpValid(book, op, now, next, reply);
    DvpConserves(book, op, now, next, reply);
    DvpDays(book, op, now, next, reply);
  }

  lemma DvpSolvent(book: Book, op: Operation, now: U64, next: Book, reply: Reply)
    requires Keyed(book) && op.SettleDvp? && DvpEffect(book, op, now, next, reply)
    ensures SolvencyKept(book, next, op, now)
  {
    DvpPrediction(book, op, now, reply.draw, reply.sellerRepayment);
    SolvencyFromParts(book, next, op, now);
  }
}
