/** Whole runs of the liquidity book: any requests, in any order, some refused, under a clock that never goes back. */
module LiquidityRuns {
  import opened Numbers
  import opened Results
  import opened Sums
  import opened LiquidityTypes
  import opened LiquiditySpec
  import opened LiquidityFolds
  import opened LiquidityEffects
  import opened LiquiditySteps
  import opened LiquidityDvp

  /** Every successful request leaves a well-formed book, conserves money and respects the business day. */
  lemma StepKeeps(book: Book, op: Operation, now: U64, next: Book, reply: Reply)
    requires Valid(book) && Step(book, op, now) == Success((next, reply))
    ensures Kept(book, next, op, now)
  {
    assert Keyed(book);
    hide Valid, Keyed, Kept, OpenDayEffect, EndDayEffect, RegisterEffect, PledgeEffect, RevalueEffect, ReserveEffect,
      ReleaseEffect, ReturnLotEffect, ApplyFundsEffect, UpdateExposureEffect, DvpEffect;
    match op
    case Register(_, _) => RegisterDoes(book, op, now, next, reply); RegisterKeeps(book, op, now, next);
    case Pledge(_, _, _) => PledgeDoes(book, op, now, next, reply); PledgeKeeps(book, op, now, next, reply);
    case Revalue(_, _, _, _, _, _, _, _) =>
      RevalueDoes(book, op, now, next, reply);
      RevalueKeeps(book, op, now, next, reply);
    case Reserve(_, _, _, _, _, _, _) =>
      ReserveDoes(book, op, now, next, reply);
      ReserveKeeps(book, op, now, next, reply);
    case Release(_, _, _, _) => ReleaseDoes(book, op, now, next, reply); ReleaseKeeps(book, op, now, next, reply);
    case ReturnLot(_, _, _, _) => ReturnLotDoes(book, op, now, next, reply); ReturnLotKeeps(book, op, now, next, reply);
    case ApplyFunds(_, _, _, _, _) =>
      ApplyFundsDoes(book, op, now, next, reply);
      ApplyFundsKeeps(book, op, now, next, reply);
    case UpdateExposure(_, _, _, _) =>
      UpdateExposureDoes(book, op, now, next, reply); UpdateExposureKeeps(book, op, now, next, reply);
    case OpenDay(_, _, _, _, _) => OpenDayDoes(book, op, now, next, reply); OpenDayKeeps(book, op, now, next, reply);
    case SettleDvp(_, _, _, _, _, _, _, _, _, _, _, _) =>
      DvpDoes(book, op, now, next, reply);
      DvpKeeps(book, op, now, next, reply);
    case EndDay(_, _, _) => EndDayDoes(book, op, now, next, reply); EndDayKeeps(book, op, now, next, reply);
  }

  /** The stored-state check accepts whatever a successful request leaves behind. */
  lemma StepValid(book: Book, op: Operation, now: U64, next: Book, reply: Reply)
    requires Valid(book) && Step(book, op, now) == Success((next, reply))
    ensures Valid(next)
  {
    StepKeeps(book, op, now, next, reply);
  }

  /** Every successful request keeps covered participants covered, apart from a revaluation of their own lots. */
  lemma StepSolvent(book: Book, op: Operation, now: U64, next: Book, reply: Reply)
    requires Keyed(book) && Step(book, op, now) == Success((next, reply))
    ensures SolvencyKept(book, next, op, now)
  {
    hide SolvencyKept, RegisterEffect, PledgeEffect, RevalueEffect, ReserveEffect, ReleaseEffect, ReturnLotEffect,
      ApplyFundsEffect, UpdateExposureEffect, DvpEffect;
    match op
    case Register(_, _) => RegisterDoes(book, op, now, next, reply); RegisterSolvent(book, op, now, next);
    case Pledge(_, _, _) => PledgeDoes(book, op, now, next, reply); PledgeSolvent(book, op, now, next, reply);
    case Revalue(_, _, _, _, _, _, _, _) =>
      RevalueDoes(book, op, now, next, reply);
      RevalueSolvent(book, op, now, next, reply);
    case Reserve(_, _, _, _, _, _, _) =>
      ReserveDoes(book, op, now, next, reply);
      ReserveSolvent(book, op, now, next, reply);
    case Release(_, _, _, _) => ReleaseDoes(book, op, now, next, reply); ReleaseSolvent(book, op, now, next, reply);
    case ReturnLot(_, _, _, _) =>
      ReturnLotDoes(book, op, now, next, reply);
      ReturnLotSolvent(book, op, now, next, reply);
    case ApplyFunds(_, _, _, _, _) =>
      ApplyFundsDoes(book, op, now, next, reply);
      ApplyFundsSolvent(book, op, now, next, reply);
    case UpdateExposure(_, _, _, _) =>
      UpdateExposureDoes(book, op, now, next, reply); UpdateExposureSolvent(book, op, now, next, reply);
    case OpenDay(_, _, _, _, _) => OpenDayDoes(book, op, now, next, reply); DaySolvent(book, next, op, op.entity, now);
    case SettleDvp(_, _, _, _, _, _, _, _, _, _, _, _) =>
      DvpDoes(book, op, now, next, reply);
      DvpSolvent(book, op, now, next, reply);
    case EndDay(_, _, _) => EndDayDoes(book, op, now, next, reply); DaySolvent(book, next, op, op.entity, now);
  }

  // ----- runs --------------------------------------------------------------------------------

  datatype Event = Event(op: Operation, now: U64)

  /** A refused request leaves the book as it was. */
  ghost function Apply(book: Book, event: Event): Book {
    match Step(book, event.op, event.now)
    case Success((next, _)) => next
    case Failure(_) => book
  }

  ghost function After(book: Book, run: seq<Event>): Book {
    if run == [] then book else Apply(After(book, run[..|run| - 1]), run[|run| - 1])
  }

  /** The book as request `i` finds it. */
  ghost function At(book: Book, run: seq<Event>, i: nat): Book
    requires i <= |run|
  {
    After(book, run[..i])
  }

  ghost predicate Succeeds(book: Book, run: seq<Event>, i: nat)
    requires i < |run|
  {
    Step(At(book, run, i), run[i].op, run[i].now).Success?
  }

  lemma AtNext(book: Book, run: seq<Event>, i: nat)
    requires i < |run|
    ensures At(book, run, i + 1) == Apply(At(book, run, i), run[i])
  {
    assert run[..i + 1][..i] == run[..i];
  }

  ghost predicate Clocked(run: seq<Event>, start: U64) {
    && (forall i | 0 <= i < |run| :: start <= run[i].now)
    && (forall i, j | 0 <= i < j < |run| :: run[i].now <= run[j].now)
  }

  /** The stored-state check holds in every reachable book, and no open reservation outlives its owner's deadline. */
  lemma {:induction false} RunValid(book: Book, run: seq<Event>)
    requires Valid(book) && Timely(book)
    ensures Valid(After(book, run)) && Timely(After(book, run))
  {
    if run != [] {
      var before, event := After(book, run[..|run| - 1]), run[|run| - 1];
      RunValid(book, run[..|run| - 1]);
      var applied := Step(before, event.op, event.now);
      if applied.Success? {
        StepKeeps(before, event.op, event.now, applied.value.0, applied.value.1);
      }
    }
  }

  // ----- money -------------------------------------------------------------------------------

  /** Money that entered: one opening balance per participant, one amount per external receipt. */
  datatype Inflow = Inflow(opening: map<Id, int>, receipts: map<Id, int>)

  ghost function Record(ledger: Inflow, book: Book, event: Event): Inflow {
    if Step(book, event.op, event.now).Failure? then ledger else
      match event.op
      case Register(_, p) => ledger.(opening := ledger.opening[p.entity := p.cash])
      case ApplyFunds(_, receiptId, _, _, amount) => ledger.(receipts := ledger.receipts[receiptId := amount])
      case _ => ledger
  }

  ghost function Entered(run: seq<Event>): Inflow {
    if run == [] then Inflow(map[], map[]) else
      var before := run[..|run| - 1];
      Record(Entered(before), After(EMPTY, before), run[|run| - 1])
  }

  /** Balances minus overdrafts are exactly the opening balances plus each accepted receipt once. */
  ghost predicate Balanced(book: Book, ledger: Inflow) {
    && NetCash(book.participants) == Total(ledger.opening) + Total(ledger.receipts)
    && ledger.opening.Keys == book.participants.Keys
    && ledger.receipts.Keys == book.receipts
  }

  lemma {:induction false} RunConserves(run: seq<Event>)
    ensures Balanced(After(EMPTY, run), Entered(run))
  {
    if run == [] {
      assert NetParts(EMPTY.participants) == map[];
    } else {
      var before := run[..|run| - 1];
      RunConserves(before);
      RunValid(EMPTY, before);
      RecordBalances(After(EMPTY, before), run[|run| - 1], Entered(before));
    }
  }

  lemma RecordBalances(book: Book, event: Event, ledger: Inflow)
    requires Valid(book) && Balanced(book, ledger)
    ensures Balanced(Apply(book, event), Record(ledger, book, event))
  {
    hide Total, Valid, Timely, DayKept;
    var applied := Step(book, event.op, event.now);
    if applied.Success? {
      StepKeeps(book, event.op, event.now, applied.value.0, applied.value.1);
      EnteredOnce(book, event, ledger);
    }
  }

  /** A successful request adds its money to the ledger under a key not used before. */
  lemma EnteredOnce(book: Book, event: Event, ledger: Inflow)
    requires Valid(book) && Step(book, event.op, event.now).Success?
    requires ledger.opening.Keys == book.participants.Keys && ledger.receipts.Keys == book.receipts
    ensures var next := Apply(book, event);
      match event.op
      case Register(_, p) =>
        && next.participants.Keys == book.participants.Keys + {p.entity}
        && Total(ledger.opening[p.entity := p.cash]) == Total(ledger.opening) + p.cash
      case ApplyFunds(_, receiptId, _, _, amount) =>
        && next.participants.Keys == book.participants.Keys
        && Total(ledger.receipts[receiptId := amount]) == Total(ledger.receipts) + amount
      case _ => next.participants.Keys == book.participants.Keys
  {
    var next, reply := Step(book, event.op, event.now).value.0, Step(book, event.op, event.now).value.1;
    StepKeeps(book, event.op, event.now, next, reply);
    if event.op.Register? {
      RegisterDoes(book, event.op, event.now, next, reply);
      TotalUpdate(ledger.opening, event.op.participant.entity, event.op.participant.cash);
    } else {
      ParticipantsStay(book, event.op, event.now, next, reply);
      if event.op.ApplyFunds? {
        TotalUpdate(ledger.receipts, event.op.receiptId, event.op.amount);
      }
    }
  }

  lemma ParticipantsStay(book: Book, op: Operation, now: U64, next: Book, reply: Reply)
    requires Keyed(book) && Step(book, op, now) == Success((next, reply)) && !op.Register?
    ensures next.participants.Keys == book.participants.Keys
  {
    match op
    case Pledge(_, _, _) => PledgeDoes(book, op, now, next, reply);
    case Revalue(_, _, _, _, _, _, _, _) => RevalueDoes(book, op, now, next, reply);
    case Reserve(_, _, _, _, _, _, _) => ReserveDoes(book, op, now, next, reply);
    case Release(_, _, _, _) => ReleaseDoes(book, op, now, next, reply);
    case ReturnLot(_, _, _, _) => ReturnLotDoes(book, op, now, next, reply);
    case ApplyFunds(_, _, _, _, _) => ApplyFundsDoes(book, op, now, next, reply);
    case UpdateExposure(_, _, _, _) => UpdateExposureDoes(book, op, now, next, reply);
    case OpenDay(_, _, _, _, _) => OpenDayDoes(book, op, now, next, reply);
    case SettleDvp(_, _, _, _, _, _, _, _, _, _, _, _) => DvpDoes(book, op, now, next, reply);
    case EndDay(_, _, _) => EndDayDoes(book, op, now, next, reply);
  }

  // ----- replay ------------------------------------------------------------------------------

  lemma {:induction false} MarksGrow(book: Book, run: seq<Event>, i: nat, j: nat)
    requires Valid(book) && Timely(book) && i <= j <= |run|
    ensures At(book, run, i).operations <= At(book, run, j).operations
    ensures At(book, run, i).receipts <= At(book, run, j).receipts
    ensures At(book, run, i).settlements <= At(book, run, j).settlements
    decreases j - i
  {
    if i < j {
      MarksGrow(book, run, i, j - 1);
      AtNext(book, run, j - 1);
      RunValid(book, run[..j - 1]);
      hide Valid, Timely, Apply;
      MarksStep(At(book, run, j - 1), run[j - 1]);
    }
  }

  lemma MarksStep(book: Book, event: Event)
    requires Valid(book)
    ensures book.operations <= Apply(book, event).operations
    ensures book.receipts <= Apply(book, event).receipts && book.settlements <= Apply(book, event).settlements
  {
    hide Valid, Step;
    var applied := Step(book, event.op, event.now);
    if applied.Success? {
      StepKeeps(book, event.op, event.now, applied.value.0, applied.value.1);
    }
  }

  /** No operation, external receipt or settlement takes effect twice in a run. */
  lemma NoReplay(book: Book, run: seq<Event>, i: nat, j: nat)
    requires Valid(book) && Timely(book) && i < j < |run|
    requires Succeeds(book, run, i) && Succeeds(book, run, j)
    ensures run[i].op.operationId != run[j].op.operationId
    ensures run[i].op.ApplyFunds? && run[j].op.ApplyFunds? ==> run[i].op.receiptId != run[j].op.receiptId
    ensures run[i].op.SettleDvp? && run[j].op.SettleDvp? ==> run[i].op.settlementId != run[j].op.settlementId
  {
    RunValid(book, run[..i]);
    RunValid(book, run[..j]);
    var first := Step(At(book, run, i), run[i].op, run[i].now);
    var second := Step(At(book, run, j), run[j].op, run[j].now);
    StepKeeps(At(book, run, i), run[i].op, run[i].now, first.value.0, first.value.1);
    StepKeeps(At(book, run, j), run[j].op, run[j].now, second.value.0, second.value.1);
    AtNext(book, run, i);
    MarksGrow(book, run, i + 1, j);
  }

  // ----- solvency ----------------------------------------------------------------------------

  /** The request is accepted and puts a new price on a lot of `e`. */
  ghost predicate Reprices(book: Book, event: Event, e: Id) {
    Step(book, event.op, event.now).Success? && Revalues(book, event.op, e)
  }

  /** No accepted request of the run puts a new price on a lot of `e`. */
  ghost predicate Unrevalued(book: Book, run: seq<Event>, e: Id) {
    run == [] ||
    var before, event := run[..|run| - 1], run[|run| - 1];
    Unrevalued(book, before, e) && !Reprices(After(book, before), event, e)
  }

  /** Once covered, a participant stays covered at every later time until its own collateral is revalued. */
  lemma {:induction false} RunSolvent(book: Book, run: seq<Event>, e: Id, start: U64, end: U64)
    requires Valid(book) && Timely(book) && Covered(book, e, start) && Clocked(run, start)
    requires start <= end && forall i | 0 <= i < |run| :: run[i].now <= end
    requires Unrevalued(book, run, e)
    ensures Covered(After(book, run), e, end)
  {
    if run == [] {
      LiveAntitone(book.reservations, book.participants[e].entity, start, end);
    } else {
      var before, event := run[..|run| - 1], run[|run| - 1];
      RunSolvent(book, before, e, start, event.now);
      RunValid(book, before);
      ApplySolvent(After(book, before), event, e, end);
    }
  }

  lemma ApplySolvent(book: Book, event: Event, e: Id, end: U64)
    requires Keyed(book) && Covered(book, e, event.now) && !Reprices(book, event, e) && event.now <= end
    ensures Covered(Apply(book, event), e, end)
  {
    var applied := Step(book, event.op, event.now);
    if applied.Success? {
      StepSolvent(book, event.op, event.now, applied.value.0, applied.value.1);
    }
    var next := Apply(book, event);
    assert Covered(next, e, event.now);
    LiveAntitone(next.reservations, next.participants[e].entity, event.now, end);
  }

  // ----- business days -----------------------------------------------------------------------

  lemma ApplyDay(book: Book, event: Event, e: Id)
    requires Valid(book) && e in book.participants
    ensures e in Apply(book, event).participants
    ensures DayKept(book.participants[e], Apply(book, event).participants[e], event.now)
  {
    var applied := Step(book, event.op, event.now);
    if applied.Success? {
      StepKeeps(book, event.op, event.now, applied.value.0, applied.value.1);
    }
  }

  /** From the deadline until the next day opens, the overdraft never grows and no reservation is live. */
  lemma {:induction false} RunAfterDeadline(book: Book, run: seq<Event>, e: Id, now: U64)
    requires Valid(book) && Timely(book) && e in book.participants
    requires forall i | 0 <= i < |run| :: book.participants[e].deadline <= run[i].now
    requires book.participants[e].deadline <= now
    ensures e in After(book, run).participants
    ensures var p, q := book.participants[e], After(book, run).participants[e];
      && p.businessDay <= q.businessDay
      && (p.businessDay == q.businessDay ==>
            && q.deadline == p.deadline
            && q.overdraft <= p.overdraft
            && Live(After(book, run).reservations, e, now) == 0)
  {
    RunValid(book, run);
    if run != [] {
      var last := |run| - 1;
      RunAfterDeadline(book, run[..last], e, now);
      RunValid(book, run[..last]);
      ApplyDay(After(book, run[..last]), run[last], e);
    }
    if book.participants[e].businessDay == After(book, run).participants[e].businessDay {
      LiveVanishes(After(book, run).reservations, e, now);
    }
  }

  /** A later business day is only ever reached through a step that starts closed and with no overdraft. */
  lemma {:induction false} DayBoundary(book: Book, run: seq<Event>, e: Id)
    requires Valid(book) && Timely(book) && e in book.participants
    ensures e in After(book, run).participants
    ensures book.participants[e].businessDay < After(book, run).participants[e].businessDay ==>
      exists i :: 0 <= i < |run| && OpensDay(book, run, i, e)
                  && At(book, run, i).participants[e].businessDay == book.participants[e].businessDay
  {
    if run != [] {
      var last := |run| - 1;
      DayBoundary(book, run[..last], e);
      RunValid(book, run[..last]);
      var before := After(book, run[..last]);
      ApplyDay(before, run[last], e);
      AtNext(book, run, last);
      assert run[..|run|] == run;
      hide Valid, Timely, Apply, Step;
      if book.participants[e].businessDay < before.participants[e].businessDay {
        var i :| 0 <= i < last && OpensDay(book, run[..last], i, e)
                 && At(book, run[..last], i).participants[e].businessDay == book.participants[e].businessDay;
        assert run[..last][..i] == run[..i] && run[..last][..i + 1] == run[..i + 1];
        assert OpensDay(book, run, i, e);
      } else if book.participants[e].businessDay < After(book, run).participants[e].businessDay {
        DayNeverBack(book, run[..last], e);
        assert OpensDay(book, run, last, e);
      }
    }
  }

  lemma {:induction false} DayNeverBack(book: Book, run: seq<Event>, e: Id)
    requires Valid(book) && Timely(book) && e in book.participants
    ensures e in After(book, run).participants
    ensures book.participants[e].businessDay <= After(book, run).participants[e].businessDay
  {
    if run != [] {
      var last := |run| - 1;
      DayNeverBack(book, run[..last], e);
      RunValid(book, run[..last]);
      ApplyDay(After(book, run[..last]), run[last], e);
    }
  }

  /** Request `i` moves participant `e` to a later day: closed, past its deadline and free of overdraft. */
  ghost predicate OpensDay(book: Book, run: seq<Event>, i: nat, e: Id)
    requires i < |run|
  {
    var before, after := At(book, run, i), At(book, run, i + 1);
    && e in before.participants && e in after.participants
    && var p, q := before.participants[e], after.participants[e];
    && p.businessDay < q.businessDay && p.closed && !q.closed
    && p.overdraft == 0 && q.overdraft == 0
    && p.deadline <= run[i].now < q.deadline
  }
}
