/**
 The effect of each successful request in closed form: which records change, to what, and what
 the guards established. The step functions recompute statuses from the changed maps; here the
 same books are described without naming the intermediate ones.
 */
module LiquidityEffects {
  import opened Numbers
  import opened Results
  import opened LiquidityTypes
  import opened LiquiditySpec
  import opened LiquidityFolds

  /** The operation is recorded, and among the participants at most `entity` changes. */
  ghost predicate Touched(book: Book, next: Book, op: Operation, entity: Id) {
    && entity in book.participants && entity in next.participants
    && next.participants == book.participants[entity := next.participants[entity]]
    && op.operationId !in book.operations
    && next.operations == book.operations + {op.operationId}
  }

  /** A status that agrees with the pool as it stands in `next`. */
  ghost predicate Refreshed(next: Book, entity: Id, before: ParticipantStatus, now: U64)
    requires entity in next.participants
  {
    var q := next.participants[entity];
    && (q.status == Overdue <==> before == Overdue)
    && (q.status == Suspended <==> before == Suspended)
    && (before != Overdue && before != Suspended ==>
          (q.status == Active <==> Obligations(next, q, now) <= Collateral(next.lots, entity)))
  }

  ghost predicate RegisterEffect(book: Book, op: Operation, now: U64, next: Book)
    requires op.Register?
  {
    var p := op.participant;
    && p.entity !in book.participants
    && p.entity != ZERO && p.fundsAccount != ZERO && p.jgbAccount != ZERO && p.businessDay != 0
    && now < p.deadline && p.overdraft == 0 && p.status == Active
    && op.operationId !in book.operations
    && next == book.(participants := book.participants[p.entity := p],
                     operations := book.operations + {op.operationId})
  }

  lemma RegisterDoes(book: Book, op: Operation, now: U64, next: Book, reply: Reply)
    requires op.Register? && RegisterStep(book, op, now) == Success((next, reply))
    ensures RegisterEffect(book, op, now, next)
  {
  }

  ghost predicate PledgeEffect(book: Book, op: Operation, now: U64, next: Book, reply: Reply)
    requires op.Pledge?
  {
    var lot := op.lot;
    && Touched(book, next, op, lot.owner)
    && var p, q := book.participants[lot.owner], next.participants[lot.owner];
    && now < p.deadline && p.sequence < U64_MAX
    && q == p.(sequence := p.sequence + 1, status := q.status)
    && Refreshed(next, lot.owner, p.status, now)
    && lot.lotId !in book.lots && lot.lotId != ZERO && lot.asset != ZERO && lot.owner != ZERO
    && LotValue(lot).Success? && lot.pledged
    && reply == Amount(LotWorth(lot))
    && next == book.(participants := next.participants, operations := next.operations,
                     lots := book.lots[lot.lotId := lot.(sequence := 1)])
  }

  lemma PledgeDoes(book: Book, op: Operation, now: U64, next: Book, reply: Reply)
    requires Keyed(book) && op.Pledge? && PledgeStep(book, op, now) == Success((next, reply))
    ensures PledgeEffect(book, op, now, next, reply)
  {
    var p := book.participants[op.lot.owner];
    RefreshEffect(book.(participants := book.participants[op.lot.owner := p.(sequence := p.sequence + 1)],
                        lots := book.lots[op.lot.lotId := op.lot.(sequence := 1)]), op.lot.owner, now);
  }

  ghost predicate RevalueEffect(book: Book, op: Operation, now: U64, next: Book, reply: Reply)
    requires op.Revalue?
  {
    && op.lotId in book.lots
    && var lot := book.lots[op.lotId];
    && Touched(book, next, op, lot.owner)
    && var p, q := book.participants[lot.owner], next.participants[lot.owner];
    && p.sequence < U64_MAX && lot.sequence < U64_MAX && lot.epoch < op.epoch
    && q == p.(sequence := p.sequence + 1, status := q.status)
    && Refreshed(next, lot.owner, p.status, now)
    && var revalued := lot.(price := op.price, index := op.index, rate := op.rate, epoch := op.epoch,
                            sequence := lot.sequence + 1);
    && LotValue(revalued).Success?
    && reply.Amount? && reply.yen == Collateral(next.lots, lot.owner)
    && next == book.(participants := next.participants, operations := next.operations,
                     lots := book.lots[op.lotId := revalued])
  }

  lemma RevalueDoes(book: Book, op: Operation, now: U64, next: Book, reply: Reply)
    requires Keyed(book) && op.Revalue? && RevalueStep(book, op, now) == Success((next, reply))
    ensures RevalueEffect(book, op, now, next, reply)
  {
    hide LotValue;
    var lot := book.lots[op.lotId];
    var p := book.participants[lot.owner];
    var revalued := lot.(price := op.price, index := op.index, rate := op.rate, epoch := op.epoch,
                         sequence := lot.sequence + 1);
    RefreshEffect(book.(lots := book.lots[op.lotId := revalued],
                        participants := book.participants[lot.owner := p.(sequence := p.sequence + 1)]),
                  lot.owner, now);
  }

  ghost predicate ReserveEffect(book: Book, op: Operation, now: U64, next: Book, reply: Reply)
    requires op.Reserve?
  {
    && Touched(book, next, op, op.entity)
    && var p, q := book.participants[op.entity], next.participants[op.entity];
    && now < op.expiresAt <= p.deadline && !p.closed && p.sequence < U64_MAX
    && q == p.(sequence := p.sequence + 1, status := Active)
    && op.reservationId !in book.reservations
    && op.reservationId != ZERO && op.entity != ZERO && op.instruction != ZERO && op.amount != 0
    && reply.Amount?
    && reply.yen == Collateral(book.lots, op.entity) - Obligations(book, p, now) - op.amount
    && Collateral(book.lots, op.entity) <= U64_MAX
    && next == book.(participants := next.participants, operations := next.operations,
                     reservations := book.reservations[op.reservationId :=
                       Reservation(op.reservationId, op.entity, op.instruction, op.amount, op.expiresAt, Open, 0)])
  }

  lemma ReserveDoes(book: Book, op: Operation, now: U64, next: Book, reply: Reply)
    requires Keyed(book) && op.Reserve? && ReserveStep(book, op, now) == Success((next, reply))
    ensures ReserveEffect(book, op, now, next, reply)
  {
    RefreshEffect(book, op.entity, now);
  }

  ghost predicate ReleaseEffect(book: Book, op: Operation, now: U64, next: Book, reply: Reply)
    requires op.Release?
  {
    && Touched(book, next, op, op.entity)
    && var p, q := book.participants[op.entity], next.participants[op.entity];
    && p.sequence < U64_MAX
    && q == p.(sequence := p.sequence + 1, status := q.status)
    && Refreshed(next, op.entity, p.status, now)
    && op.reservationId in book.reservations
    && var r := book.reservations[op.reservationId];
    && r.entity == op.entity && r.status == Open
    && next == book.(participants := next.participants, operations := next.operations,
                     reservations := book.reservations[op.reservationId := r.(status := Released)])
    && reply.Amount? && Headroom(next, op.entity, now) == Success(reply.yen)
  }

  lemma ReleaseDoes(book: Book, op: Operation, now: U64, next: Book, reply: Reply)
    requires Keyed(book) && op.Release? && ReleaseStep(book, op, now) == Success((next, reply))
    ensures ReleaseEffect(book, op, now, next, reply)
  {
    var p, r := book.participants[op.entity], book.reservations[op.reservationId];
    RefreshEffect(book.(reservations := book.reservations[op.reservationId := r.(status := Released)],
                        participants := book.participants[op.entity := p.(sequence := p.sequence + 1)]),
                  op.entity, now);
  }

  ghost predicate ReturnLotEffect(book: Book, op: Operation, now: U64, next: Book, reply: Reply)
    requires op.ReturnLot?
  {
    && op.lotId in book.lots
    && var lot := book.lots[op.lotId];
    && Touched(book, next, op, lot.owner)
    && var p, q := book.participants[lot.owner], next.participants[lot.owner];
    && lot.pledged && now < p.deadline && !p.closed && p.sequence < U64_MAX && lot.sequence < U64_MAX
    && q == p.(sequence := p.sequence + 1, status := Active)
    && reply.Amount?
    && reply.yen == Collateral(book.lots, lot.owner) - LotWorth(lot) - Obligations(book, p, now)
    && Collateral(book.lots, lot.owner) <= U64_MAX
    && next == book.(participants := next.participants, operations := next.operations,
                     lots := book.lots[op.lotId := lot.(pledged := false, sequence := lot.sequence + 1)])
  }

  lemma ReturnLotDoes(book: Book, op: Operation, now: U64, next: Book, reply: Reply)
    requires Keyed(book) && op.ReturnLot? && ReturnLotStep(book, op, now) == Success((next, reply))
    ensures ReturnLotEffect(book, op, now, next, reply)
  {
    RefreshEffect(book, book.lots[op.lotId].owner, now);
  }

  ghost predicate ApplyFundsEffect(book: Book, op: Operation, now: U64, next: Book, reply: Reply)
    requires op.ApplyFunds?
  {
    && Touched(book, next, op, op.entity)
    && var p, q := book.participants[op.entity], next.participants[op.entity];
    && p.sequence < U64_MAX
    && q == p.(overdraft := q.overdraft, cash := q.cash, sequence := p.sequence + 1, status := q.status)
    && q.cash - q.overdraft == p.cash - p.overdraft + op.amount
    && q.overdraft == (if p.overdraft <= op.amount then 0 else p.overdraft - op.amount)
    && Refreshed(next, op.entity, p.status, now)
    && op.receiptId !in book.receipts
    && next == book.(participants := next.participants, operations := next.operations,
                     receipts := book.receipts + {op.receiptId})
    && reply == Funds(p.overdraft - q.overdraft, q.cash, q.overdraft)
  }

  lemma ApplyFundsDoes(book: Book, op: Operation, now: U64, next: Book, reply: Reply)
    requires Keyed(book) && op.ApplyFunds? && ApplyFundsStep(book, op, now) == Success((next, reply))
    ensures ApplyFundsEffect(book, op, now, next, reply)
  {
    hide LotValue;
    var p := book.participants[op.entity];
    var repayment := Min(p.overdraft, op.amount);
    var credited := p.(overdraft := p.overdraft - repayment, cash := p.cash + (op.amount - repayment),
                       sequence := p.sequence + 1);
    RefreshEffect(book.(participants := book.participants[op.entity := credited]), op.entity, now);
  }

  ghost predicate UpdateExposureEffect(book: Book, op: Operation, now: U64, next: Book, reply: Reply)
    requires op.UpdateExposure?
  {
    && Touched(book, next, op, op.entity)
    && var p, q := book.participants[op.entity], next.participants[op.entity];
    && p.sequence < U64_MAX
    && q == p.(otherExposure := op.newExposure, sequence := p.sequence + 1, status := q.status)
    && Refreshed(next, op.entity, p.status, now)
    && (p.otherExposure < op.newExposure ==>
          Obligations(book, p.(otherExposure := op.newExposure), now) <= Collateral(book.lots, op.entity))
    && next == book.(participants := next.participants, operations := next.operations)
    && reply.Amount? && Headroom(next, op.entity, now) == Success(reply.yen)
  }

  lemma UpdateExposureDoes(book: Book, op: Operation, now: U64, next: Book, reply: Reply)
    requires Keyed(book) && op.UpdateExposure? && UpdateExposureStep(book, op, now) == Success((next, reply))
    ensures UpdateExposureEffect(book, op, now, next, reply)
  {
    hide LotValue;
    var p := book.participants[op.entity];
    var changed := p.(otherExposure := op.newExposure);
    RefreshEffect(book.(participants := book.participants[op.entity := changed.(sequence := p.sequence + 1)]),
                  op.entity, now);
  }

  ghost predicate OpenDayEffect(book: Book, op: Operation, now: U64, next: Book, reply: Reply)
    requires op.OpenDay?
  {
    && Touched(book, next, op, op.entity)
    && var p, q := book.participants[op.entity], next.participants[op.entity];
    && p.sequence < U64_MAX && p.overdraft == 0 && p.closed && p.businessDay < op.businessDay
    && p.deadline <= now < op.deadline
    && q == p.(businessDay := op.businessDay, deadline := op.deadline, closed := false,
               sequence := p.sequence + 1, status := q.status)
    && Refreshed(next, op.entity, Active, now)
    && next == book.(participants := next.participants, operations := next.operations,
                     reservations := ReleaseAll(book.reservations, op.entity))
    && reply == Status(q.status)
  }

  lemma OpenDayDoes(book: Book, op: Operation, now: U64, next: Book, reply: Reply)
    requires Keyed(book) && op.OpenDay? && OpenDayStep(book, op, now) == Success((next, reply))
    ensures OpenDayEffect(book, op, now, next, reply)
  {
    var p := book.participants[op.entity];
    var reopened := p.(businessDay := op.businessDay, deadline := op.deadline, closed := false,
                       status := Active, sequence := p.sequence + 1);
    RefreshEffect(book.(reservations := ReleaseAll(book.reservations, op.entity),
                        participants := book.participants[op.entity := reopened]), op.entity, now);
  }

  ghost predicate EndDayEffect(book: Book, op: Operation, now: U64, next: Book, reply: Reply)
    requires op.EndDay?
  {
    && Touched(book, next, op, op.entity)
    && var p, q := book.participants[op.entity], next.participants[op.entity];
    && p.sequence < U64_MAX && p.deadline <= now && !p.closed
    && q == p.(status := if p.overdraft == 0 then Active else Overdue, closed := true,
               sequence := p.sequence + 1)
    && next == book.(participants := next.participants, operations := next.operations,
                     reservations := ReleaseAll(book.reservations, op.entity))
    && reply == Status(q.status)
  }

  lemma EndDayDoes(book: Book, op: Operation, now: U64, next: Book, reply: Reply)
    requires op.EndDay? && EndDayStep(book, op, now) == Success((next, reply))
    ensures EndDayEffect(book, op, now, next, reply)
  {
  }
}
