/**
 Exactly which requests are accepted, in terms of the stored records, the request and the time. The
 step functions check widths and sums one after another on intermediate books; here each request
 has one condition on the book as it stands.
 */
module LiquidityAcceptance {
  import opened Numbers
  import opened Results
  import opened LiquidityTypes
  import opened LiquiditySpec
  import opened LiquidityFolds
  import opened LiquidityEffects
  import opened LiquiditySteps
  import opened LiquidityDvp

  ghost predicate NewId(book: Book, id: Id) {
    id != ZERO && id !in book.operations
  }

  /** A participant that the request names with its current sequence number, which can still move. */
  ghost predicate Current(book: Book, entity: Id, expected: U64) {
    entity in book.participants && book.participants[entity].sequence == expected < U64_MAX
  }

  ghost predicate Usable(p: Participant, now: U64) {
    p.status != Suspended && p.status != Overdue && !p.closed && now < p.deadline
  }

  // ----- status ------------------------------------------------------------------------------

  lemma ObligationsBounds(book: Book, p: Participant, now: U64)
    ensures p.otherExposure + p.overdraft <= Obligations(book, p, now)
  {
    LiveBounds(book.reservations, p.entity, now);
  }

  /** A status is recomputed exactly when the pool and what it backs both fit their width. */
  lemma RefreshExact(book: Book, entity: Id, now: U64)
    requires entity in book.participants ==> book.participants[entity].entity == entity
    ensures Refresh(book, entity, now).Success? <==>
      && entity in book.participants
      && Collateral(book.lots, entity) <= U64_MAX
      && Obligations(book, book.participants[entity], now) <= U64_MAX
  {
    CollateralBounds(book.lots, entity);
    if entity in book.participants {
      ObligationsBounds(book, book.participants[entity], now);
    }
  }

  // ----- single requests ---------------------------------------------------------------------

  ghost predicate RegisterTerms(book: Book, op: Operation, now: U64)
    requires op.Register?
  {
    var p := op.participant;
    && NewId(book, op.operationId)
    && p.entity != ZERO && p.fundsAccount != ZERO && p.jgbAccount != ZERO
    && p.businessDay > 0 && now < p.deadline && p.sequence == 0 && p.overdraft == 0 && !p.closed && p.status == Active
    && p.entity !in book.participants
    && (forall k | k in book.participants ::
          p.fundsAccount != book.participants[k].fundsAccount && p.jgbAccount != book.participants[k].jgbAccount)
  }

  lemma RegisterExact(book: Book, op: Operation, now: U64)
    requires op.Register?
    ensures RegisterStep(book, op, now).Success? <==> RegisterTerms(book, op, now)
  {
  }

  ghost predicate PledgeTerms(book: Book, op: Operation, now: U64)
    requires op.Pledge?
  {
    var lot := op.lot;
    && NewId(book, op.operationId)
    && lot.lotId != ZERO && lot.asset != ZERO && lot.owner != ZERO && lot.pledged && lot.sequence == 0
    && lot.lotId !in book.lots && LotValue(lot).Success?
    && Current(book, lot.owner, op.expectedSequence) && Usable(book.participants[lot.owner], now)
    && Collateral(book.lots, lot.owner) + LotWorth(lot) <= U64_MAX
    && Obligations(book, book.participants[lot.owner], now) <= U64_MAX
  }

  lemma PledgeExact(book: Book, op: Operation, now: U64)
    requires Keyed(book) && op.Pledge?
    ensures PledgeStep(book, op, now).Success? <==> PledgeTerms(book, op, now)
  {
    var lot := op.lot;
    if lot.owner in book.participants && book.participants[lot.owner].sequence < U64_MAX && lot.lotId !in book.lots {
      var p := book.participants[lot.owner];
      var after := book.(participants := book.participants[lot.owner := p.(sequence := p.sequence + 1)],
                         lots := book.lots[lot.lotId := lot.(sequence := 1)]);
      CollateralUpdate(book.lots, lot.lotId, lot.(sequence := 1), lot.owner);
      RefreshExact(after, lot.owner, now);
      assert LotWorth(lot.(sequence := 1)) == LotWorth(lot);
      hide Refresh, LotValue, Collateral, Obligations;
      assert Obligations(after, after.participants[lot.owner], now) == Obligations(book, p, now) by {
        SameObligations(after, after.participants[lot.owner], book, p, now);
      }
    }
  }

  lemma SameObligations(a: Book, p: Participant, b: Book, q: Participant, now: U64)
    requires a.reservations == b.reservations && p.entity == q.entity
    requires p.otherExposure == q.otherExposure && p.overdraft == q.overdraft
    ensures Obligations(a, p, now) == Obligations(b, q, now)
  {
  }

  ghost predicate RevalueTerms(book: Book, op: Operation, now: U64)
    requires op.Revalue?
  {
    && NewId(book, op.operationId)
    && op.lotId in book.lots
    && var lot := book.lots[op.lotId];
    && lot.sequence == op.expectedLotSequence < U64_MAX && lot.epoch < op.epoch
    && Current(book, lot.owner, op.expectedSequence)
    && var priced := lot.(price := op.price, index := op.index, rate := op.rate);
    && LotValue(priced).Success?
    && Collateral(book.lots, lot.owner) + (if lot.pledged then LotWorth(priced) - LotWorth(lot) else 0) <= U64_MAX
    && Obligations(book, book.participants[lot.owner], now) <= U64_MAX
  }

  lemma RevalueExact(book: Book, op: Operation, now: U64)
    requires Keyed(book) && op.Revalue?
    ensures RevalueStep(book, op, now).Success? <==> RevalueTerms(book, op, now)
  {
    if op.lotId in book.lots && book.lots[op.lotId].sequence < U64_MAX
       && book.lots[op.lotId].owner in book.participants
       && book.participants[book.lots[op.lotId].owner].sequence < U64_MAX {
      var lot := book.lots[op.lotId];
      var p := book.participants[lot.owner];
      var priced := lot.(price := op.price, index := op.index, rate := op.rate);
      var revalued := priced.(epoch := op.epoch, sequence := lot.sequence + 1);
      var after := book.(lots := book.lots[op.lotId := revalued],
                         participants := book.participants[lot.owner := p.(sequence := p.sequence + 1)]);
      CollateralUpdate(book.lots, op.lotId, revalued, lot.owner);
      CollateralBounds(after.lots, lot.owner);
      RefreshExact(after, lot.owner, now);
      assert LotValue(revalued) == LotValue(priced) && LotWorth(revalued) == LotWorth(priced);
      hide Refresh, LotValue, Collateral, Obligations;
      SameObligations(after, after.participants[lot.owner], book, p, now);
    }
  }

  ghost predicate ReserveTerms(book: Book, op: Operation, now: U64)
    requires op.Reserve?
  {
    && NewId(book, op.operationId)
    && op.reservationId != ZERO && op.reservationId !in book.reservations
    && op.entity != ZERO && op.instruction != ZERO && op.amount > 0
    && Current(book, op.entity, op.expectedSequence)
    && var p := book.participants[op.entity];
    && Usable(p, now) && now < op.expiresAt <= p.deadline
    && Obligations(book, p, now) + op.amount <= Collateral(book.lots, op.entity) <= U64_MAX
  }

  lemma ReserveExact(book: Book, op: Operation, now: U64)
    requires Keyed(book) && op.Reserve?
    ensures ReserveStep(book, op, now).Success? <==> ReserveTerms(book, op, now)
  {
    RefreshExact(book, op.entity, now);
    CollateralBounds(book.lots, op.entity);
    if Refresh(book, op.entity, now).Success? {
      RefreshEffect(book, op.entity, now);
      var current, p := Refresh(book, op.entity, now).value, book.participants[op.entity];
      var q := current.participants[op.entity];
      ObligationsBounds(book, p, now);
      hide Refresh, Collateral, Obligations, LotValue;
      SameObligations(current, q, book, p, now);
    }
  }

  ghost predicate ReleaseTerms(book: Book, op: Operation, now: U64)
    requires op.Release?
  {
    && NewId(book, op.operationId)
    && Current(book, op.entity, op.expectedSequence)
    && op.reservationId in book.reservations
    && var r, p := book.reservations[op.reservationId], book.participants[op.entity];
    && r.entity == op.entity && r.status == Open
    && Collateral(book.lots, op.entity) <= U64_MAX
    && Obligations(book, p, now) - (if now < r.expiresAt then r.amount else 0) <= U64_MAX
  }

  lemma ReleaseExact(book: Book, op: Operation, now: U64)
    requires Keyed(book) && op.Release?
    ensures ReleaseStep(book, op, now).Success? <==> ReleaseTerms(book, op, now)
  {
    if op.entity in book.participants && op.reservationId in book.reservations
       && book.participants[op.entity].sequence < U64_MAX
       && book.reservations[op.reservationId].entity == op.entity
       && book.reservations[op.reservationId].status == Open {
      var r, p := book.reservations[op.reservationId], book.participants[op.entity];
      var after := book.(reservations := book.reservations[op.reservationId := r.(status := Released)],
                         participants := book.participants[op.entity := p.(sequence := p.sequence + 1)]);
      LiveUpdate(book.reservations, op.reservationId, r.(status := Released), op.entity, now);
      RefreshExact(after, op.entity, now);
      CollateralBounds(book.lots, op.entity);
      if Refresh(after, op.entity, now).Success? {
        RefreshEffect(after, op.entity, now);
        var next := Refresh(after, op.entity, now).value;
        ObligationsBounds(next, next.participants[op.entity], now);
        assert Obligations(next, next.participants[op.entity], now)
            == Obligations(after, after.participants[op.entity], now);
      }
      hide Refresh, Collateral, LotValue;
    }
  }

  ghost predicate ReturnLotTerms(book: Book, op: Operation, now: U64)
    requires op.ReturnLot?
  {
    && NewId(book, op.operationId)
    && op.lotId in book.lots
    && var lot := book.lots[op.lotId];
    && lot.pledged && lot.sequence == op.expectedLotSequence < U64_MAX && LotValue(lot).Success?
    && Current(book, lot.owner, op.expectedSequence)
    && var p := book.participants[lot.owner];
    && Usable(p, now)
    && Obligations(book, p, now) + LotWorth(lot) <= Collateral(book.lots, lot.owner) <= U64_MAX
  }

  lemma ReturnLotExact(book: Book, op: Operation, now: U64)
    requires Keyed(book) && op.ReturnLot?
    ensures ReturnLotStep(book, op, now).Success? <==> ReturnLotTerms(book, op, now)
  {
    if op.lotId in book.lots {
      var lot := book.lots[op.lotId];
      RefreshExact(book, lot.owner, now);
      CollateralBounds(book.lots, lot.owner);
      assert lot.pledged ==> LotWorth(lot) <= Collateral(book.lots, lot.owner);
      if Refresh(book, lot.owner, now).Success? {
        RefreshEffect(book, lot.owner, now);
        var current, p := Refresh(book, lot.owner, now).value, book.participants[lot.owner];
        var q := current.participants[lot.owner];
        ObligationsBounds(book, p, now);
        hide Refresh, Collateral, Obligations, LotValue;
        SameObligations(current, q, book, p, now);
      }
    }
  }

  ghost predicate ApplyFundsTerms(book: Book, op: Operation, now: U64)
    requires op.ApplyFunds?
  {
    && NewId(book, op.operationId)
    && op.receiptId != ZERO && op.receiptId !in book.receipts && op.entity != ZERO && op.amount > 0
    && Current(book, op.entity, op.expectedSequence)
    && var p := book.participants[op.entity];
    && var repaid := if p.overdraft < op.amount then p.overdraft else op.amount;
    && p.cash + op.amount - repaid <= U64_MAX
    && Collateral(book.lots, op.entity) <= U64_MAX
    && Obligations(book, p, now) - repaid <= U64_MAX
  }

  lemma ApplyFundsExact(book: Book, op: Operation, now: U64)
    requires Keyed(book) && op.ApplyFunds?
    ensures ApplyFundsStep(book, op, now).Success? <==> ApplyFundsTerms(book, op, now)
  {
    if op.entity in book.participants && book.participants[op.entity].sequence < U64_MAX {
      var p := book.participants[op.entity];
      var repaid := Min(p.overdraft, op.amount);
      if p.cash + (op.amount - repaid) <= U64_MAX {
        var q := p.(overdraft := p.overdraft - repaid, cash := p.cash + (op.amount - repaid),
            sequence := p.sequence + 1);
        var after := book.(participants := book.participants[op.entity := q]);
        RefreshExact(after, op.entity, now);
        hide Refresh, Collateral, LotValue;
      }
    }
  }

  ghost predicate UpdateExposureTerms(book: Book, op: Operation, now: U64)
    requires op.UpdateExposure?
  {
    && NewId(book, op.operationId)
    && op.entity != ZERO && Current(book, op.entity, op.expectedSequence)
    && var p := book.participants[op.entity];
    && var backed := op.newExposure + p.overdraft + Live(book.reservations, op.entity, now);
    && backed <= U64_MAX && Collateral(book.lots, op.entity) <= U64_MAX
    && (op.newExposure > p.otherExposure ==> backed <= Collateral(book.lots, op.entity))
  }

  lemma UpdateExposureExact(book: Book, op: Operation, now: U64)
    requires Keyed(book) && op.UpdateExposure?
    ensures UpdateExposureStep(book, op, now).Success? <==> UpdateExposureTerms(book, op, now)
  {
    if op.entity in book.participants && book.participants[op.entity].sequence < U64_MAX {
      var p := book.participants[op.entity];
      var changed := p.(otherExposure := op.newExposure);
      var after := book.(participants := book.participants[op.entity := changed.(sequence := p.sequence + 1)]);
      RefreshExact(after, op.entity, now);
      CollateralBounds(book.lots, op.entity);
      LiveBounds(book.reservations, op.entity, now);
      if Refresh(after, op.entity, now).Success? {
        RefreshEffect(after, op.entity, now);
        var next := Refresh(after, op.entity, now).value;
        assert Obligations(next, next.participants[op.entity], now)
            == Obligations(after, after.participants[op.entity], now) == Obligations(book, changed, now);
      }
      hide Refresh, Collateral, LotValue;
    }
  }

  ghost predicate OpenDayTerms(book: Book, op: Operation, now: U64)
    requires op.OpenDay?
  {
    && NewId(book, op.operationId)
    && Current(book, op.entity, op.expectedSequence)
    && var p := book.participants[op.entity];
    && p.status != Suspended && p.overdraft == 0 && p.closed
    && p.businessDay < op.businessDay && p.deadline <= now < op.deadline
    && Collateral(book.lots, op.entity) <= U64_MAX
  }

  lemma OpenDayExact(book: Book, op: Operation, now: U64)
    requires Keyed(book) && op.OpenDay?
    ensures OpenDayStep(book, op, now).Success? <==> OpenDayTerms(book, op, now)
  {
    if op.entity in book.participants && book.participants[op.entity].sequence < U64_MAX {
      var p := book.participants[op.entity];
      var q := p.(businessDay := op.businessDay, deadline := op.deadline, closed := false, status := Active,
                  sequence := p.sequence + 1);
      var after := book.(reservations := ReleaseAll(book.reservations, op.entity),
                         participants := book.participants[op.entity := q]);
      RefreshExact(after, op.entity, now);
      LiveReleaseAll(book.reservations, op.entity, op.entity, now);
      hide Refresh, Collateral, LotValue, ReleaseAll;
    }
  }

  ghost predicate EndDayTerms(book: Book, op: Operation, now: U64)
    requires op.EndDay?
  {
    && NewId(book, op.operationId)
    && Current(book, op.entity, op.expectedSequence)
    && book.participants[op.entity].deadline <= now && !book.participants[op.entity].closed
  }

  lemma EndDayExact(book: Book, op: Operation, now: U64)
    requires op.EndDay?
    ensures EndDayStep(book, op, now).Success? <==> EndDayTerms(book, op, now)
  {
  }

  // ----- delivery versus payment -------------------------------------------------------------

  /** What the buyer's cash does not cover of the payment. */
  function DrawOf(b: Participant, payment: U64): nat {
    if b.cash < payment then payment - b.cash else 0
  }

  /** What the payment takes off the seller's overdraft. */
  function RepaymentOf(s: Participant, payment: U64): nat {
    if s.overdraft < payment then s.overdraft else payment
  }

  /** The reservation named, if any, is the buyer's for this very instruction, live and large enough. */
  ghost predicate ReservationFits(book: Book, op: Operation, draw: nat, now: U64)
    requires op.SettleDvp?
  {
    op.reservationId != ZERO ==>
      && op.reservationId in book.reservations
      && var r := book.reservations[op.reservationId];
         && r.entity == op.buyer && r.instruction == op.instruction
         && r.status == Open && now < r.expiresAt && draw <= r.amount
  }

  ghost function ReservedFor(book: Book, op: Operation): int
    requires op.SettleDvp? && (op.reservationId != ZERO ==> op.reservationId in book.reservations)
  {
    if op.reservationId == ZERO then 0 else book.reservations[op.reservationId].amount
  }

  lemma ReservedExact(book: Book, op: Operation, draw: U64, now: U64)
    requires op.SettleDvp?
    ensures DvpReserved(book, op, draw, now).Success? <==> ReservationFits(book, op, draw, now)
    ensures ReservationFits(book, op, draw, now) ==>
      DvpReserved(book, op, draw, now).value == ReservedFor(book, op) <= Live(book.reservations, op.buyer, now)
  {
    LiveBounds(book.reservations, op.buyer, now);
  }

  /** Who, what and when: everything but the sums. */
  ghost predicate DvpNames(book: Book, op: Operation, now: U64)
    requires op.SettleDvp?
  {
    && NewId(book, op.operationId)
    && op.settlementId != ZERO && op.settlementId !in book.settlements
    && op.instruction != ZERO && op.buyer != ZERO && op.seller != ZERO && op.lotId != ZERO
    && op.payment > 0 && op.buyer != op.seller
    && Current(book, op.buyer, op.expectedBuyerSequence) && Current(book, op.seller, op.expectedSellerSequence)
    && var b, s := book.participants[op.buyer], book.participants[op.seller];
    && Usable(b, now) && Usable(s, now) && b.businessDay == s.businessDay
    && op.lotId in book.lots
    && var lot := book.lots[op.lotId];
    && lot.owner == op.seller && lot.sequence == op.expectedLotSequence < U64_MAX && LotValue(lot).Success?
    && ReservationFits(book, op, DrawOf(b, op.payment), now)
  }

  /** The sums: both pools cover what they back once the settlement is done, and every total fits. */
  ghost predicate DvpSums(book: Book, op: Operation, now: U64)
    requires op.SettleDvp? && DvpNames(book, op, now)
  {
    var b, s, lot := book.participants[op.buyer], book.participants[op.seller], book.lots[op.lotId];
    var draw, repaid := DrawOf(b, op.payment), RepaymentOf(s, op.payment);
    var reserved := ReservedFor(book, op);
    var gained := if op.buyerPledges then LotWorth(lot) else 0;
    var given := if lot.pledged then LotWorth(lot) else 0;
    && Obligations(book, b, now) <= U64_MAX && Obligations(book, s, now) <= U64_MAX
    && Collateral(book.lots, op.seller) <= U64_MAX
    && Obligations(book, b, now) + draw - reserved <= Collateral(book.lots, op.buyer) + gained <= U64_MAX
    && Obligations(book, s, now) - repaid <= Collateral(book.lots, op.seller) - given
    && (draw > 0 ==> Obligations(book, b, now) <= Collateral(book.lots, op.buyer))
    && s.cash + op.payment - repaid <= U64_MAX
  }

  ghost predicate SettleDvpTerms(book: Book, op: Operation, now: U64)
    requires op.SettleDvp?
  {
    DvpNames(book, op, now) && DvpSums(book, op, now)
  }

  /** What admission asks: names, times and statuses, and totals that fit before anything moves. */
  ghost predicate AdmissionTerms(book: Book, op: Operation, now: U64)
    requires op.SettleDvp?
  {
    && NewId(book, op.operationId)
    && op.settlementId != ZERO && op.settlementId !in book.settlements
    && op.instruction != ZERO && op.buyer != ZERO && op.seller != ZERO && op.lotId != ZERO
    && op.payment > 0 && op.buyer != op.seller
    && op.buyer in book.participants && op.seller in book.participants && op.lotId in book.lots
    && var b, s, lot := book.participants[op.buyer], book.participants[op.seller], book.lots[op.lotId];
    && b.sequence == op.expectedBuyerSequence && s.sequence == op.expectedSellerSequence
    && lot.sequence == op.expectedLotSequence
    && lot.owner == op.seller && b.businessDay == s.businessDay && Usable(b, now) && Usable(s, now)
    && Collateral(book.lots, op.buyer) <= U64_MAX && Obligations(book, b, now) <= U64_MAX
    && Collateral(book.lots, op.seller) <= U64_MAX && Obligations(book, s, now) <= U64_MAX
  }

  lemma AdmissionExact(book: Book, op: Operation, now: U64)
    requires Keyed(book) && op.SettleDvp?
    ensures DvpAdmission(book, op, now).Success? <==> AdmissionTerms(book, op, now)
    ensures DvpAdmission(book, op, now).Success? ==>
      (DvpAdmission(book, op, now).value.buyer.status == Active <==>
         Obligations(book, book.participants[op.buyer], now) <= Collateral(book.lots, op.buyer))
  {
    RefreshExact(book, op.buyer, now);
    if op.buyer != op.seller && Refresh(book, op.buyer, now).Success? {
      RefreshEffect(book, op.buyer, now);
      var current := Refresh(book, op.buyer, now).value;
      RefreshExact(current, op.seller, now);
      assert op.seller in current.participants <==> op.seller in book.participants;
      if op.seller in book.participants {
        assert Obligations(current, current.participants[op.seller], now)
            == Obligations(book, book.participants[op.seller], now);
      }
      if Refresh(current, op.seller, now).Success? {
        RefreshEffect(current, op.seller, now);
      }
    }
    hide Refresh, Collateral, Obligations, LotValue;
  }

  /** What planning asks on top. */
  ghost predicate PlanTerms(book: Book, op: Operation, now: U64)
    requires op.SettleDvp? && AdmissionTerms(book, op, now)
  {
    var b, s, lot := book.participants[op.buyer], book.participants[op.seller], book.lots[op.lotId];
    var draw, repaid := DrawOf(b, op.payment), RepaymentOf(s, op.payment);
    && LotValue(lot).Success?
    && ReservationFits(book, op, draw, now)
    && var reserved := ReservedFor(book, op);
    && var gained := if op.buyerPledges then LotWorth(lot) else 0;
    && var given := if lot.pledged then LotWorth(lot) else 0;
    && Obligations(book, b, now) + draw - reserved <= Collateral(book.lots, op.buyer) + gained <= U64_MAX
    && Obligations(book, s, now) - repaid <= Collateral(book.lots, op.seller) - given
    && (draw > 0 ==> Obligations(book, b, now) <= Collateral(book.lots, op.buyer))
    && s.cash + op.payment - repaid <= U64_MAX
    && b.sequence < U64_MAX && s.sequence < U64_MAX && lot.sequence < U64_MAX
  }

  lemma TermsMatch(book: Book, op: Operation, now: U64)
    requires op.SettleDvp?
    ensures SettleDvpTerms(book, op, now) <==> AdmissionTerms(book, op, now) && PlanTerms(book, op, now)
  {
    hide Collateral, Obligations, LotValue;
    if op.buyer in book.participants && op.lotId in book.lots {
      CollateralBounds(book.lots, op.buyer);
      WorthBounds(book.lots[op.lotId]);
    }
  }

  lemma WorthBounds(lot: Lot)
    ensures 0 <= LotWorth(lot)
  {
  }

  lemma BuyerCheckExact(parties: DvpParties, op: Operation, draw: U64, reserved: U64, lotValue: U64, now: U64)
    requires op.SettleDvp?
    requires Collateral(parties.book.lots, op.buyer) <= U64_MAX
    requires reserved <= Live(parties.book.reservations, op.buyer, now) <= U64_MAX
    ensures DvpBuyerCheck(parties, op, draw, reserved, lotValue, now).Pass? <==>
      var after := Collateral(parties.book.lots, op.buyer) + (if op.buyerPledges then lotValue else 0);
      && parties.buyer.otherExposure + parties.buyer.overdraft + draw
           + Live(parties.book.reservations, op.buyer, now) - reserved <= after <= U64_MAX
      && (draw > 0 ==> parties.buyer.status == Active)
  {
    CollateralBounds(parties.book.lots, op.buyer);
    hide Collateral, Live;
  }

  lemma SellerCheckExact(parties: DvpParties, op: Operation, repaid: U64, lotValue: U64, now: U64)
    requires op.SettleDvp? && repaid <= parties.seller.overdraft
    requires Collateral(parties.book.lots, op.seller) <= U64_MAX
    requires parties.lot.pledged ==> lotValue <= Collateral(parties.book.lots, op.seller)
    ensures DvpSellerCheck(parties, op, repaid, lotValue, now).Pass? <==>
      parties.seller.otherExposure + parties.seller.overdraft - repaid + Live(parties.book.reservations, op.seller, now)
        <= Collateral(parties.book.lots, op.seller) - (if parties.lot.pledged then lotValue else 0)
  {
    CollateralBounds(parties.book.lots, op.seller);
    hide Collateral, Live;
  }

  /** An admission leaves everything but the two statuses. */
  ghost predicate Admission(book: Book, op: Operation, now: U64, parties: DvpParties)
    requires op.SettleDvp?
  {
    && Admitted(book, op, now, parties) && AdmissionTerms(book, op, now)
    && (parties.buyer.status == Active <==>
          Obligations(book, book.participants[op.buyer], now) <= Collateral(book.lots, op.buyer))
  }

  lemma PlanExact(book: Book, op: Operation, now: U64, parties: DvpParties)
    requires op.SettleDvp? && Admission(book, op, now, parties)
    ensures DvpPlanned(parties, op, now).Success? <==> PlanTerms(book, op, now)
  {
    var b, s, lot := book.participants[op.buyer], book.participants[op.seller], book.lots[op.lotId];
    var draw, repaid := DrawOf(b, op.payment), RepaymentOf(s, op.payment);
    assert parties.book.lots == book.lots && parties.book.reservations == book.reservations && parties.lot == lot;
    PlanSteps(parties, op, now);
    RecordsExact(parties, op, draw, repaid);
    ReservedExact(parties.book, op, draw, now);
    hide DvpPlanned, DvpReserved, DvpRecords, DvpBuyerCheck, DvpSellerCheck, LotValue;
    if LotValue(lot).Success? && ReservationFits(book, op, draw, now) {
      ChecksExact(book, op, now, parties, draw, repaid);
    }
  }

  lemma ChecksExact(book: Book, op: Operation, now: U64, parties: DvpParties, draw: U64, repaid: U64)
    requires op.SettleDvp? && Admission(book, op, now, parties)
    requires draw == DrawOf(parties.buyer, op.payment) && repaid == RepaymentOf(parties.seller, op.payment)
    requires LotValue(parties.lot).Success? && ReservationFits(book, op, draw, now)
    ensures var b, s, lot := book.participants[op.buyer], book.participants[op.seller], book.lots[op.lotId];
      var gained, given := if op.buyerPledges then LotWorth(lot) else 0, if lot.pledged then LotWorth(lot) else 0;
      var worth, reserved := LotValue(lot).value, DvpReserved(parties.book, op, draw, now);
      && reserved.Success?
      && (DvpBuyerCheck(parties, op, draw, reserved.value, worth, now).Pass? <==>
            && Obligations(book, b, now) + draw - ReservedFor(book, op)
                 <= Collateral(book.lots, op.buyer) + gained <= U64_MAX
            && (draw > 0 ==> Obligations(book, b, now) <= Collateral(book.lots, op.buyer)))
      && (DvpSellerCheck(parties, op, repaid, worth, now).Pass? <==>
            Obligations(book, s, now) - repaid <= Collateral(book.lots, op.seller) - given)
  {
    var lot := book.lots[op.lotId];
    CollateralBounds(book.lots, op.seller);
    assert lot.pledged && lot.owner == op.seller ==> LotWorth(lot) <= Collateral(book.lots, op.seller);
    ReservedExact(parties.book, op, draw, now);
    assert LotWorth(lot) == LotValue(lot).value && parties.lot == lot && parties.book.lots == book.lots;
    LiveBounds(book.reservations, op.seller, now);
    hide DvpBuyerCheck, DvpSellerCheck, DvpReserved, Collateral, Live, LotValue;
    BuyerCheckExact(parties, op, draw, DvpReserved(parties.book, op, draw, now).value, LotValue(lot).value, now);
    SellerCheckExact(parties, op, repaid, LotValue(lot).value, now);
  }

  /** Planning succeeds exactly when each of its parts does. */
  lemma PlanSteps(parties: DvpParties, op: Operation, now: U64)
    requires op.SettleDvp?
    ensures var draw, repaid := DrawOf(parties.buyer, op.payment), RepaymentOf(parties.seller, op.payment);
      var worth, reserved := LotValue(parties.lot), DvpReserved(parties.book, op, draw, now);
      DvpPlanned(parties, op, now).Success? <==>
        && worth.Success? && reserved.Success?
        && DvpBuyerCheck(parties, op, draw, reserved.value, worth.value, now).Pass?
        && DvpSellerCheck(parties, op, repaid, worth.value, now).Pass?
        && DvpRecords(parties, op, draw, repaid).Success?
  {
    hide LotValue, DvpReserved, DvpBuyerCheck, DvpSellerCheck, DvpRecords;
  }

  lemma RecordsExact(parties: DvpParties, op: Operation, draw: U64, repaid: U64)
    requires op.SettleDvp? && draw == DrawOf(parties.buyer, op.payment)
      && repaid == RepaymentOf(parties.seller, op.payment)
    ensures DvpRecords(parties, op, draw, repaid).Success? <==>
      && parties.seller.cash + op.payment - repaid <= U64_MAX && parties.buyer.overdraft + draw <= U64_MAX
      && parties.buyer.sequence < U64_MAX && parties.seller.sequence < U64_MAX && parties.lot.sequence < U64_MAX
  {
  }

  /** Once planned, nothing can fail any more: both recomputed totals fit. */
  lemma FinishSucceeds(book: Book, op: Operation, now: U64, parties: DvpParties, plan: DvpPlan)
    requires op.SettleDvp? && Admission(book, op, now, parties) && PlanTerms(book, op, now)
    requires DvpPlanned(parties, op, now) == Success(plan)
    ensures DvpFinish(parties.book, op, plan, now).Success?
  {
    PlanLayers(parties, op, now, plan);
    PlanRecords(book, op, now, parties, plan.draw, plan.repayment, plan);
    PlanCover(book, op, now, parties, plan);
    MovedCovered(book, op, now, parties, plan);
    DvpPrediction(book, op, now, plan.draw, plan.repayment);
    var moved := DvpMoved(parties.book, op, plan);
    assert Collateral(moved.lots, op.buyer) <= U64_MAX && Collateral(moved.lots, op.seller) <= U64_MAX by {
      CollateralBounds(moved.lots, op.seller);
      WorthBounds(book.lots[op.lotId]);
      hide Collateral, Obligations, LotValue, DvpPlanned;
    }
    assert moved.participants[op.buyer].entity == op.buyer && moved.participants[op.seller].entity == op.seller;
    hide DvpPlanned, PlanTerms, Admission, PlannedRecords, PlannedCover, DvpMoved, LotsAfter, ReservationsAfter;
    BothRefresh(moved, op.buyer, op.seller, now);
  }

  lemma BothRefresh(moved: Book, buyer: Id, seller: Id, now: U64)
    requires buyer != seller && Covered(moved, buyer, now) && Covered(moved, seller, now)
    requires moved.participants[buyer].entity == buyer && moved.participants[seller].entity == seller
    requires Collateral(moved.lots, buyer) <= U64_MAX && Collateral(moved.lots, seller) <= U64_MAX
    ensures Refresh(moved, buyer, now).Success?
    ensures Refresh(Refresh(moved, buyer, now).value, seller, now).Success?
  {
    RefreshExact(moved, buyer, now);
    RefreshEffect(moved, buyer, now);
    var next := Refresh(moved, buyer, now).value;
    RefreshExact(next, seller, now);
    hide Refresh, Collateral;
  }

  /**
   A settlement is accepted exactly when its condition holds: parties, lot, day and sequence numbers as
   named, a reservation of the buyer for this very instruction that is live and large enough, if one is
   named, and sums that fit and are covered on both sides afterwards.
   */
  lemma SettleDvpExact(book: Book, op: Operation, now: U64)
    requires Keyed(book) && op.SettleDvp?
    ensures SettleDvpStep(book, op, now).Success? <==> SettleDvpTerms(book, op, now)
  {
    TermsMatch(book, op, now);
    AdmissionExact(book, op, now);
    var admitted := DvpAdmission(book, op, now);
    if admitted.Success? {
      AdmissionEffect(book, op, now);
      var parties := admitted.value;
      assert Admission(book, op, now, parties) by {
        hide Admitted, AdmissionTerms, DvpAdmission;
      }
      hide Admission, SettleDvpTerms, AdmissionTerms, PlanTerms, DvpAdmission, DvpPlanned, DvpFinish, Admitted;
      PlanExact(book, op, now, parties);
      var planned := DvpPlanned(parties, op, now);
      if planned.Success? {
        FinishSucceeds(book, op, now, parties, planned.value);
      }
    } else {
      hide SettleDvpTerms, AdmissionTerms, PlanTerms, DvpAdmission, DvpPlanned, DvpFinish;
    }
  }

  // ----- every request -----------------------------------------------------------------------

  ghost predicate Terms(book: Book, op: Operation, now: U64) {
    match op
    case Register(_, _) => RegisterTerms(book, op, now)
    case Pledge(_, _, _) => PledgeTerms(book, op, now)
    case Revalue(_, _, _, _, _, _, _, _) => RevalueTerms(book, op, now)
    case Reserve(_, _, _, _, _, _, _) => ReserveTerms(book, op, now)
    case Release(_, _, _, _) => ReleaseTerms(book, op, now)
    case ReturnLot(_, _, _, _) => ReturnLotTerms(book, op, now)
    case ApplyFunds(_, _, _, _, _) => ApplyFundsTerms(book, op, now)
    case UpdateExposure(_, _, _, _) => UpdateExposureTerms(book, op, now)
    case OpenDay(_, _, _, _, _) => OpenDayTerms(book, op, now)
    case SettleDvp(_, _, _, _, _, _, _, _, _, _, _, _) => SettleDvpTerms(book, op, now)
    case EndDay(_, _, _) => EndDayTerms(book, op, now)
  }

  /** Each of the eleven requests is accepted exactly when its condition holds. */
  lemma StepExact(book: Book, op: Operation, now: U64)
    requires Keyed(book)
    ensures Step(book, op, now).Success? <==> Terms(book, op, now)
  {
    hide RegisterTerms, PledgeTerms, RevalueTerms, ReserveTerms, ReleaseTerms, ReturnLotTerms, ApplyFundsTerms,
      UpdateExposureTerms, OpenDayTerms, SettleDvpTerms, EndDayTerms, RegisterStep, PledgeStep, RevalueStep,
      ReserveStep, ReleaseStep, ReturnLotStep, ApplyFundsStep, UpdateExposureStep, OpenDayStep, SettleDvpStep,
      EndDayStep, Keyed;
    match op
    case Register(_, _) => RegisterExact(book, op, now);
    case Pledge(_, _, _) => PledgeExact(book, op, now);
    case Revalue(_, _, _, _, _, _, _, _) => RevalueExact(book, op, now);
    case Reserve(_, _, _, _, _, _, _) => ReserveExact(book, op, now);
    case Release(_, _, _, _) => ReleaseExact(book, op, now);
    case ReturnLot(_, _, _, _) => ReturnLotExact(book, op, now);
    case ApplyFunds(_, _, _, _, _) => ApplyFundsExact(book, op, now);
    case UpdateExposure(_, _, _, _) => UpdateExposureExact(book, op, now);
    case OpenDay(_, _, _, _, _) => OpenDayExact(book, op, now);
    case SettleDvp(_, _, _, _, _, _, _, _, _, _, _, _) => SettleDvpExact(book, op, now);
    case EndDay(_, _, _) => EndDayExact(book, op, now);
  }
}
