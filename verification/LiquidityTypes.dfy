/**
 The central-bank liquidity book as data: participants with one common collateral pool each,
 bond lots, timed reservations, and the eleven requests that change them.

 A 32-byte identifier is a natural number and all-zero bytes are 0: only equality with another
 identifier or with zero is ever used. The hexadecimal map keys of the program are the
 identifiers themselves.
 */
module LiquidityTypes {
  import opened Numbers
  import opened Results
  import opened Sums

  type Id = nat

  const ZERO: Id := 0
  const BPS := 10_000
  const PRICE_SCALE := 1_000_000
  const INDEX_SCALE := 1_000_000
  const PAR := 100

  datatype ParticipantStatus = Active | CollateralShortfall | Overdue | Suspended

  /** `Open` is the state the program calls active; the name keeps it apart from an active participant. */
  datatype ReservationStatus = Open | Consumed | Released

  datatype Participant = Participant(
    entity: Id, fundsAccount: Id, jgbAccount: Id,
    cash: U64, otherExposure: U64, overdraft: U64,
    businessDay: U32, deadline: U64, closed: bool,
    sequence: U64, status: ParticipantStatus)

  datatype Lot = Lot(
    lotId: Id, asset: Id, owner: Id,
    face: U64, price: U64, index: U64, rate: U16,
    epoch: U64, pledged: bool, sequence: U64)

  datatype Reservation = Reservation(
    reservationId: Id, entity: Id, instruction: Id,
    amount: U64, expiresAt: U64, status: ReservationStatus, consumed: U64)
  {
    predicate IsLive(now: U64) {
      status == Open && now < expiresAt
    }
  }

  datatype Book = Book(
    participants: map<Id, Participant>,
    lots: map<Id, Lot>,
    reservations: map<Id, Reservation>,
    settlements: set<Id>,
    receipts: set<Id>,
    operations: set<Id>)

  const EMPTY := Book(map[], map[], map[], {}, {}, {})

  datatype Operation =
    | Register(operationId: Id, participant: Participant)
    | Pledge(operationId: Id, expectedSequence: U64, lot: Lot)
    | Revalue(operationId: Id, lotId: Id, expectedLotSequence: U64, expectedSequence: U64,
              price: U64, index: U64, rate: U16, epoch: U64)
    | Reserve(operationId: Id, reservationId: Id, entity: Id, instruction: Id,
              expectedSequence: U64, amount: U64, expiresAt: U64)
    | Release(operationId: Id, reservationId: Id, entity: Id, expectedSequence: U64)
    | ReturnLot(operationId: Id, lotId: Id, expectedLotSequence: U64, expectedSequence: U64)
    | ApplyFunds(operationId: Id, receiptId: Id, entity: Id, expectedSequence: U64, amount: U64)
    | UpdateExposure(operationId: Id, entity: Id, expectedSequence: U64, newExposure: U64)
    | OpenDay(operationId: Id, entity: Id, expectedSequence: U64, businessDay: U32, deadline: U64)
    | SettleDvp(operationId: Id, settlementId: Id, instruction: Id, buyer: Id, seller: Id, lotId: Id,
                payment: U64, buyerPledges: bool, reservationId: Id,
                expectedBuyerSequence: U64, expectedSellerSequence: U64, expectedLotSequence: U64)
    | EndDay(operationId: Id, entity: Id, expectedSequence: U64)

  datatype Reply =
    | Done
    | Amount(yen: U64)
    | Status(status: ParticipantStatus)
    | Funds(repayment: U64, cashAfter: U64, overdraftAfter: U64)
    | Dvp(draw: U64, sellerRepayment: U64, buyerCashAfter: U64, sellerCashAfter: U64)

  datatype Error =
    | InvalidOperation | DuplicateOperation | InvalidParticipant | DuplicateParticipant
    | UnknownParticipant | ParticipantUnavailable | InvalidCollateral | UnknownCollateral
    | StaleValuation | InvalidReservation | UnknownReservation | InvalidFundsReceipt
    | DuplicateFundsReceipt | InsufficientCollateral | InvalidSettlement | StaleSequence
    | TooEarlyForEndOfDay | BusinessDayAlreadyClosed | InvalidBusinessDay
    | ArithmeticOverflow | InvalidStoredState

  // ----- valuation ---------------------------------------------------------------------------

  function CheckedProduct(acc: nat, factors: seq<nat>): Result<nat, Error>
    decreases |factors|
  {
    if factors == [] then Success(acc)
    else if acc * factors[0] > U128_MAX then Failure(ArithmeticOverflow)
    else CheckedProduct(acc * factors[0], factors[1..])
  }

  /** Yen value of a lot after index ratio and haircut, rounded down. */
  function LotValue(lot: Lot): Result<U64, Error> {
    if !(lot.face != 0 && lot.price != 0 && lot.index != 0 && 0 < lot.rate <= BPS) then Failure(InvalidCollateral) else
    var numerator :- CheckedProduct(lot.face, [lot.price, lot.index, lot.rate]);
    var value := numerator / (PAR * PRICE_SCALE * INDEX_SCALE * BPS);
    if value > U64_MAX then Failure(ArithmeticOverflow) else Success(value)
  }

  function LotWorth(lot: Lot): nat {
    var value := LotValue(lot);
    if value.Success? then value.value else 0
  }

  // ----- folds -------------------------------------------------------------------------------

  function CollateralPart(lot: Lot, entity: Id): nat {
    if lot.owner == entity && lot.pledged then LotWorth(lot) else 0
  }

  function CollateralParts(lots: map<Id, Lot>, entity: Id): map<Id, int> {
    map k | k in lots :: CollateralPart(lots[k], entity)
  }

  /** Value of everything the entity has pledged. */
  ghost function Collateral(lots: map<Id, Lot>, entity: Id): int {
    Total(CollateralParts(lots, entity))
  }

  function LivePart(reservation: Reservation, entity: Id, now: U64): nat {
    if reservation.entity == entity && reservation.IsLive(now) then reservation.amount else 0
  }

  function LiveParts(reservations: map<Id, Reservation>, entity: Id, now: U64): map<Id, int> {
    map k | k in reservations :: LivePart(reservations[k], entity, now)
  }

  /** Sum of the entity's reservations that are still open at `now`. */
  ghost function Live(reservations: map<Id, Reservation>, entity: Id, now: U64): int {
    Total(LiveParts(reservations, entity, now))
  }

  function NetParts(participants: map<Id, Participant>): map<Id, int> {
    map k | k in participants :: participants[k].cash - participants[k].overdraft
  }

  /** Central-bank money: current-account balances minus overdrafts. */
  ghost function NetCash(participants: map<Id, Participant>): int {
    Total(NetParts(participants))
  }

  /** Everything the pool has to back, apart from overflow. */
  ghost function Obligations(book: Book, p: Participant, now: U64): int {
    p.otherExposure + p.overdraft + Live(book.reservations, p.entity, now)
  }

  // ----- stored-state check ------------------------------------------------------------------

  predicate ValidParticipant(k: Id, p: Participant) {
    && k == p.entity
    && p.entity != ZERO && p.fundsAccount != ZERO && p.jgbAccount != ZERO
    && p.businessDay != 0
    && p.deadline != 0
    && (p.status == Overdue ==> p.closed)
    && (p.cash == 0 || p.overdraft == 0)
  }

  predicate ValidLot(participants: map<Id, Participant>, k: Id, lot: Lot) {
    && k == lot.lotId
    && lot.lotId != ZERO && lot.asset != ZERO && lot.owner != ZERO
    && lot.owner in participants
    && LotValue(lot).Success?
  }

  predicate ValidReservation(participants: map<Id, Participant>, k: Id, r: Reservation) {
    && k == r.reservationId
    && r.reservationId != ZERO && r.entity != ZERO && r.instruction != ZERO
    && r.amount != 0
    && r.expiresAt != 0
    && r.entity in participants
    && (r.status != Consumed ==> r.consumed == 0)
    && r.consumed <= r.amount
  }

  /** Every participant is stored under its own identifier. */
  predicate Keyed(book: Book) {
    forall k | k in book.participants :: book.participants[k].entity == k
  }

  /** What the stored-state check of the program accepts. */
  predicate Valid(book: Book) {
    && (forall k | k in book.participants :: ValidParticipant(k, book.participants[k]))
    && (forall k | k in book.lots :: ValidLot(book.participants, k, book.lots[k]))
    && (forall k | k in book.reservations :: ValidReservation(book.participants, k, book.reservations[k]))
  }
}
