/** How the book's totals respond to the changes that requests make. */
module LiquidityFolds {
  import opened Numbers
  import opened Results
  import opened Sums
  import opened LiquidityTypes
  import opened LiquiditySpec

  lemma CollateralUpdate(lots: map<Id, Lot>, k: Id, lot: Lot, entity: Id)
    ensures Collateral(lots[k := lot], entity)
         == Collateral(lots, entity) + CollateralPart(lot, entity)
            - (if k in lots then CollateralPart(lots[k], entity) else 0)
  {
    assert CollateralParts(lots[k := lot], entity) == CollateralParts(lots, entity)[k := CollateralPart(lot, entity)];
    TotalUpdate(CollateralParts(lots, entity), k, CollateralPart(lot, entity));
  }

  lemma CollateralBounds(lots: map<Id, Lot>, entity: Id)
    ensures 0 <= Collateral(lots, entity)
    ensures forall k | k in lots :: CollateralPart(lots[k], entity) <= Collateral(lots, entity)
  {
    var parts := CollateralParts(lots, entity);
    assert forall k | k in lots :: CollateralPart(lots[k], entity) == parts[k];
    TotalNonnegative(CollateralParts(lots, entity));
  }

  lemma LiveUpdate(rs: map<Id, Reservation>, k: Id, r: Reservation, entity: Id, now: U64)
    ensures Live(rs[k := r], entity, now)
         == Live(rs, entity, now) + LivePart(r, entity, now)
            - (if k in rs then LivePart(rs[k], entity, now) else 0)
  {
    assert LiveParts(rs[k := r], entity, now) == LiveParts(rs, entity, now)[k := LivePart(r, entity, now)];
    TotalUpdate(LiveParts(rs, entity, now), k, LivePart(r, entity, now));
  }

  lemma LiveBounds(rs: map<Id, Reservation>, entity: Id, now: U64)
    ensures 0 <= Live(rs, entity, now)
    ensures forall k | k in rs :: LivePart(rs[k], entity, now) <= Live(rs, entity, now)
  {
    var parts := LiveParts(rs, entity, now);
    assert forall k | k in rs :: LivePart(rs[k], entity, now) == parts[k];
    TotalNonnegative(LiveParts(rs, entity, now));
  }

  /** Reservations only drop out as the clock advances. */
  lemma LiveAntitone(rs: map<Id, Reservation>, entity: Id, earlier: U64, now: U64)
    requires earlier <= now
    ensures Live(rs, entity, now) <= Live(rs, entity, earlier)
  {
    TotalMonotone(LiveParts(rs, entity, now), LiveParts(rs, entity, earlier));
  }

  /** Only reservations that are open now and expire later are live. */
  lemma LiveVanishes(rs: map<Id, Reservation>, entity: Id, now: U64)
    requires forall k | k in rs :: rs[k].entity == entity && rs[k].status == Open ==> rs[k].expiresAt <= now
    ensures Live(rs, entity, now) == 0
  {
    TotalZero(LiveParts(rs, entity, now));
  }

  lemma LiveReleaseAll(rs: map<Id, Reservation>, released: Id, entity: Id, now: U64)
    ensures Live(ReleaseAll(rs, released), entity, now) == if entity == released then 0 else Live(rs, entity, now)
  {
    var next := ReleaseAll(rs, released);
    if entity == released {
      LiveVanishes(next, entity, now);
    } else {
      assert LiveParts(next, entity, now) == LiveParts(rs, entity, now);
    }
  }

  lemma NetCashUpdate(ps: map<Id, Participant>, k: Id, p: Participant)
    ensures NetCash(ps[k := p])
         == NetCash(ps) + (p.cash - p.overdraft) - (if k in ps then ps[k].cash - ps[k].overdraft else 0)
  {
    assert NetParts(ps[k := p]) == NetParts(ps)[k := p.cash - p.overdraft];
    TotalUpdate(NetParts(ps), k, p.cash - p.overdraft);
  }

  /** Recomputing a status touches nothing else, and neither sets nor clears overdue or suspended. */
  lemma RefreshEffect(book: Book, entity: Id, now: U64)
    requires Refresh(book, entity, now).Success?
    ensures entity in book.participants
    ensures var next, p := Refresh(book, entity, now).value, book.participants[entity];
      && entity in next.participants
      && next == book.(participants := book.participants[entity := p.(status := next.participants[entity].status)])
      && (next.participants[entity].status == Overdue <==> p.status == Overdue)
      && (next.participants[entity].status == Suspended <==> p.status == Suspended)
      && (p.status != Overdue && p.status != Suspended && p.entity == entity ==>
            (next.participants[entity].status == Active
             <==> Obligations(book, p, now) <= Collateral(book.lots, entity)))
  {
    var p := book.participants[entity];
    assert book.participants[entity := p] == book.participants;
  }

  /** A change confined to one participant, plus lots and reservations that stay well formed. */
  lemma OneParticipant(book: Book, next: Book, entity: Id, q: Participant)
    requires Valid(book)
    requires entity in book.participants && ValidParticipant(entity, q)
    requires next.participants == book.participants[entity := q]
    requires forall k | k in next.lots :: ValidLot(book.participants, k, next.lots[k])
    requires forall k | k in next.reservations :: ValidReservation(book.participants, k, next.reservations[k])
    ensures Valid(next)
    ensures NetCash(next.participants) == NetCash(book.participants) + (q.cash - q.overdraft)
              - (book.participants[entity].cash - book.participants[entity].overdraft)
  {
    NetCashUpdate(book.participants, entity, q);
    forall k | k in next.lots ensures ValidLot(next.participants, k, next.lots[k]) {
      assert ValidLot(book.participants, k, next.lots[k]);
    }
    forall k | k in next.reservations ensures ValidReservation(next.participants, k, next.reservations[k]) {
      assert ValidReservation(book.participants, k, next.reservations[k]);
    }
  }
}
