/** Deposits: what is charged, what is refunded and what the restaurant keeps, over whole runs. */
module Money {
  import opened Basics
  import opened ReservationData
  import opened EditFunctions
  import opened Store
  import opened Effects

  /** The money movements that committed batches order. */
  datatype Movement = Charge(id: Id, amount: int) | Repay(id: Id, amount: int, at: int)

  function MovementsOf(batch: Batch): seq<Movement> {
    match batch.reservation
    case CreateObject(_, _) => []
    case ModifyObject(id, _, AuthorizePatch(_, paid, _)) => [Charge(id, paid)]
    case ModifyObject(id, _, CancelPatch(outcome, _, _)) =>
      if outcome.status == RefundDone then [Repay(id, outcome.amountKrw, batch.table.inventoryUpdatedAt)] else []
  }

  function Movements(s: Store, op: Op): seq<Movement> {
    if Named(s, op) && op.EditsLedger() && BatchOf(s, op).Ok? then MovementsOf(BatchOf(s, op).value) else []
  }

  /** `moves` holds the movements of each operation of a run. */
  ghost predicate Orders(run: Run, moves: seq<seq<Movement>>)
    requires run.Valid()
  {
    && |moves| == |run.ops|
    && forall i {:trigger Run.Unfold(i)} ::
         0 <= i < |run.ops| && Run.Unfold(i) ==> moves[i] == Movements(run.states[i], run.ops[i])
  }

  /** All movements in commit order. */
  function Flatten(moves: seq<seq<Movement>>): seq<Movement> {
    if moves == [] then [] else Flatten(moves[..|moves| - 1]) + moves[|moves| - 1]
  }

  function Charged(journal: seq<Movement>): int {
    if journal == [] then 0
    else
      var last := journal[|journal| - 1];
      Charged(journal[..|journal| - 1]) + (if last.Charge? then last.amount else 0)
  }

  function Repaid(journal: seq<Movement>): int {
    if journal == [] then 0
    else
      var last := journal[|journal| - 1];
      Repaid(journal[..|journal| - 1]) + (if last.Repay? then last.amount else 0)
  }

  /** The movements of one reservation. */
  function For(journal: seq<Movement>, id: Id): seq<Movement> {
    if journal == [] then []
    else
      var last := journal[|journal| - 1];
      For(journal[..|journal| - 1], id) + (if last.id == id then [last] else [])
  }

  // ----- the states a reservation record can be in

  datatype Account = Account(paid: int, refunded: int, refund: RefundStatus)

  /** The seven reachable combinations of status, hold and payment, with the money each stands for. */
  function AccountOf(status: Status, hold: HoldStatus, payment: PaymentStatus, deposit: int): Option<Account> {
    match (status, hold, payment)
    case (StatusAutoConfirmed, HoldBooked, PayNotRequired) => Some(Account(0, 0, RefundNotApplicable))
    case (StatusPaymentRequired, HoldHeld, PayRequired) => Some(Account(0, 0, RefundNotApplicable))
    case (StatusConfirmed, HoldBooked, PayAuthorized) => Some(Account(deposit, 0, RefundNotApplicable))
    case (StatusCancelled, HoldReleased, PayNotRequired) => Some(Account(0, 0, RefundNotApplicable))
    case (StatusCancelled, HoldReleased, PayCancelledBeforePayment) => Some(Account(0, 0, RefundNotApplicable))
    case (StatusCancelled, HoldReleased, PayAuthorized) => Some(Account(deposit, 0, RefundForfeited))
    case (StatusCancelled, HoldReleased, PayRefunded) => Some(Account(deposit, deposit, RefundDone))
    case _ => None
  }

  ghost predicate RecordInv(v: Reservation) {
    AccountOf(v.status, v.hold, v.payment, v.quotedDepositKrw)
    == Some(Account(v.paidDepositKrw, v.refundedAmountKrw, v.refund))
  }

  /** What creation pins: the quoted terms, the seat and the time. */
  ghost predicate SameTerms(v: Reservation, w: Reservation) {
    && v.quotedDepositKrw == w.quotedDepositKrw
    && v.cancellationDeadlineAt == w.cancellationDeadlineAt
    && v.policyDecision == w.policyDecision && v.policyVersion == w.policyVersion
    && v.reservationId == w.reservationId && v.tableId == w.tableId && v.restaurantId == w.restaurantId
    && v.reservationAt == w.reservationAt && v.turnTimeMinutes == w.turnTimeMinutes && v.partySize == w.partySize
    && v.holdExpiresAt == w.holdExpiresAt && v.lateArrivalGraceMinutes == w.lateArrivalGraceMinutes
    && v.quoteExpiresAt == w.quoteExpiresAt && v.requestedAt == w.requestedAt
  }

  /** The movements that a record stands for. */
  function Expected(id: Id, v: Reservation): seq<Movement> {
    match v.payment
    case PayAuthorized => [Charge(id, v.quotedDepositKrw)]
    case PayRefunded =>
      [Charge(id, v.quotedDepositKrw), Repay(id, v.quotedDepositKrw, v.refundedAt.GetOr(v.cancellationDeadlineAt))]
    case _ => []
  }

  /** A hold has an expiry, and a refund was made by the deadline. */
  ghost predicate DatesInv(v: Reservation) {
    && (v.hold == HoldHeld ==> v.holdExpiresAt.Some?)
    && (v.refundedAt.Some? ==> v.refundedAt.value <= v.cancellationDeadlineAt)
  }

  ghost predicate ChargedThenRepaid(moves: seq<Movement>, id: Id, v: Reservation) {
    exists at :: at <= v.cancellationDeadlineAt
                 && moves == [Charge(id, v.quotedDepositKrw), Repay(id, v.quotedDepositKrw, at)]
  }

  /** The part of a deposit that is still with the restaurant. */
  function Kept(v: Reservation): int {
    if v.payment == PayAuthorized then v.quotedDepositKrw else 0
  }

  ghost function TotalKept(m: map<Id, Versioned<Reservation>>): int
    decreases |m|
  {
    if m == map[] then 0
    else
      var id :| id in m;
      Kept(m[id].value) + TotalKept(m - {id})
  }

  lemma {:induction false} TotalKeptSplit(m: map<Id, Versioned<Reservation>>, id: Id)
    requires id in m
    ensures TotalKept(m) == Kept(m[id].value) + TotalKept(m - {id})
    decreases |m|
  {
    var j :| j in m && TotalKept(m) == Kept(m[j].value) + TotalKept(m - {j});
    if j != id {
      assert |m - {j}| < |m| && |m - {id}| < |m| by {
        assert (m - {j}).Keys == m.Keys - {j} && (m - {id}).Keys == m.Keys - {id};
      }
      TotalKeptSplit(m - {j}, id);
      TotalKeptSplit(m - {id}, j);
      assert m - {j} - {id} == m - {id} - {j};
    }
  }

  lemma TotalKeptUpdate(m: map<Id, Versioned<Reservation>>, id: Id, x: Versioned<Reservation>)
    ensures TotalKept(m[id := x])
            == TotalKept(m) + Kept(x.value) - (if id in m then Kept(m[id].value) else 0)
  {
    var m' := m[id := x];
    TotalKeptSplit(m', id);
    if id in m {
      TotalKeptSplit(m, id);
      assert m' - {id} == m - {id};
    } else {
      assert m' - {id} == m;
    }
  }

  // ----- appending movements

  lemma {:induction false} AppendMovement(journal: seq<Movement>, move: Movement, id: Id)
    ensures Charged(journal + [move]) == Charged(journal) + (if move.Charge? then move.amount else 0)
    ensures Repaid(journal + [move]) == Repaid(journal) + (if move.Repay? then move.amount else 0)
    ensures For(journal + [move], id) == For(journal, id) + (if move.id == id then [move] else [])
  {
    assert (journal + [move])[..|journal|] == journal;
  }

  lemma AuthorizeMoves(s: Store, op: Op)
    requires op.Authorize? && RunAlone(s, op).Some?
    ensures Movements(s, op) == [Charge(op.reservation, s.reservations[op.reservation].value.quotedDepositKrw)]
  {
  }

  lemma CancelMoves(s: Store, op: Op)
    requires op.Cancel? && RunAlone(s, op).Some?
    ensures var v := s.reservations[op.reservation].value;
            Movements(s, op) == if RefundDue(v, op.at) then [Repay(op.reservation, v.paidDepositKrw, op.at)] else []
  {
  }

  lemma CreateMoves(s: Store, op: Op)
    requires op.Create?
    ensures Movements(s, op) == []
  {
  }

  type Records = map<Id, Versioned<Reservation>>

  /** The records, the journal and the totals fit together. */
  ghost predicate Balanced(m: Records, journal: seq<Movement>) {
    && (forall id :: id in m ==> RecordInv(m[id].value) && DatesInv(m[id].value)
                                 && For(journal, id) == Expected(id, m[id].value))
    && (forall id :: id !in m ==> For(journal, id) == [])
    && Charged(journal) == Repaid(journal) + TotalKept(m)
  }

  lemma UnmovedRecord(m: Records, id: Id, x: Versioned<Reservation>, journal: seq<Movement>)
    requires Balanced(m, journal) && RecordInv(x.value) && DatesInv(x.value) && For(journal, id) == Expected(id, x.value)
    requires Kept(x.value) == if id in m then Kept(m[id].value) else 0
    ensures Balanced(m[id := x], journal)
  {
    TotalKeptUpdate(m, id, x);
  }

  lemma MovedExplained(m: Records, id: Id, x: Versioned<Reservation>, journal: seq<Movement>, move: Movement, j: Id)
    requires Balanced(m, journal) && id in m && RecordInv(x.value) && DatesInv(x.value) && move.id == id
    requires For(journal, id) + [move] == Expected(id, x.value)
    ensures j in m[id := x] ==> RecordInv(m[id := x][j].value)
                                && DatesInv(m[id := x][j].value)
                                && For(journal + [move], j) == Expected(j, m[id := x][j].value)
    ensures j !in m[id := x] ==> For(journal + [move], j) == []
  {
    AppendMovement(journal, move, j);
    if j != id {
      assert For(journal + [move], j) == For(journal, j);
    }
  }

  lemma MovedTotals(m: Records, id: Id, x: Versioned<Reservation>, journal: seq<Movement>, move: Movement)
    requires Charged(journal) == Repaid(journal) + TotalKept(m) && id in m
    requires Kept(x.value) == Kept(m[id].value) + (if move.Charge? then move.amount else -move.amount)
    ensures Charged(journal + [move]) == Repaid(journal + [move]) + TotalKept(m[id := x])
  {
    AppendMovement(journal, move, id);
    TotalKeptUpdate(m, id, x);
  }

  lemma MovedRecord(m: Records, id: Id, x: Versioned<Reservation>, journal: seq<Movement>, move: Movement)
    requires Balanced(m, journal) && id in m && RecordInv(x.value) && DatesInv(x.value) && move.id == id
    requires For(journal, id) + [move] == Expected(id, x.value)
    requires Kept(x.value) == Kept(m[id].value) + (if move.Charge? then move.amount else -move.amount)
    ensures Balanced(m[id := x], journal + [move])
  {
    forall j {
      MovedExplained(m, id, x, journal, move, j);
    }
    MovedTotals(m, id, x, journal, move);
  }

  lemma CreateBalances(s: Store, op: Op, s': Store, journal: seq<Movement>)
    requires op.Create? && Effect(s, op, s') && Balanced(s.reservations, journal)
    ensures Balanced(s'.reservations, journal)
  {
    var id := op.request.reservationId;
    UnmovedRecord(s.reservations, id, s'.reservations[id], journal);
  }

  lemma AuthorizeBalances(s: Store, op: Op, s': Store, journal: seq<Movement>)
    requires op.Authorize? && Effect(s, op, s') && Balanced(s.reservations, journal)
    ensures Balanced(s'.reservations,
                     journal + [Charge(op.reservation, s.reservations[op.reservation].value.quotedDepositKrw)])
  {
    var id := op.reservation;
    var v := s.reservations[id].value;
    assert RecordInv(v) && DatesInv(v) && For(journal, id) == Expected(id, v);
    MovedRecord(s.reservations, id, s'.reservations[id], journal, Charge(id, v.quotedDepositKrw));
  }

  /** The record that a cancellation leaves, and the repayment it orders. */
  lemma CancelledRecord(v: Reservation, v': Reservation, at: int, cancellationId: string, moves: seq<Movement>, id: Id)
    requires RecordInv(v) && DatesInv(v) && v.status != StatusCancelled && moves == Expected(id, v)
    requires DepositSettled(v, v', cancellationId, at)
    requires v' == v.(status := StatusCancelled, hold := HoldReleased, payment := v'.payment, refund := v'.refund,
                      refundReference := v'.refundReference, refundedAmountKrw := v'.refundedAmountKrw,
                      refundedAt := v'.refundedAt, inventoryVersion := v'.inventoryVersion)
    ensures RecordInv(v') && DatesInv(v')
    ensures if RefundDue(v, at)
            then moves + [Repay(id, v.paidDepositKrw, at)] == Expected(id, v') && Kept(v') == Kept(v) - v.paidDepositKrw
            else moves == Expected(id, v') && Kept(v') == Kept(v)
  {
  }

  lemma CancelBalances(s: Store, op: Op, s': Store, journal: seq<Movement>, moves: seq<Movement>)
    requires op.Cancel? && Effect(s, op, s') && Balanced(s.reservations, journal)
    requires var v := s.reservations[op.reservation].value;
             moves == if RefundDue(v, op.at) then [Repay(op.reservation, v.paidDepositKrw, op.at)] else []
    ensures Balanced(s'.reservations, journal + moves)
  {
    var id := op.reservation;
    var v := s.reservations[id].value;
    assert RecordInv(v) && DatesInv(v) && For(journal, id) == Expected(id, v);
    CancelledRecord(v, s'.reservations[id].value, op.at, op.cancellationId, For(journal, id), id);
    if moves == [] {
      assert journal + moves == journal;
      UnmovedRecord(s.reservations, id, s'.reservations[id], journal);
    } else {
      MovedRecord(s.reservations, id, s'.reservations[id], journal, moves[0]);
    }
  }

  lemma StepBalances(s: Store, op: Op, s': Store, journal: seq<Movement>)
    requires RunAlone(s, op) == Some(s') && Balanced(s.reservations, journal)
    ensures Balanced(s'.reservations, journal + Movements(s, op))
  {
    CommittedEffect(s, op);
    match op {
      case Create(_, _, _) =>
        CreateMoves(s, op);
        CreateBalances(s, op, s', journal);
        assert journal + Movements(s, op) == journal;
      case Authorize(_, _, _, _, _) =>
        AuthorizeMoves(s, op);
        AuthorizeBalances(s, op, s', journal);
      case Cancel(_, _, _, _) =>
        CancelMoves(s, op);
        CancelBalances(s, op, s', journal, Movements(s, op));
      case _ =>
        assert journal + Movements(s, op) == journal;
    }
  }

  lemma EmptyJournalBalances()
    ensures Balanced(map[], [])
  {
  }

  lemma FlattenNext(moves: seq<seq<Movement>>, n: nat)
    requires 0 < n <= |moves|
    ensures Flatten(moves[..n]) == Flatten(moves[..n - 1]) + moves[n - 1]
  {
    assert moves[..n][..n - 1] == moves[..n - 1];
  }

  lemma RunStepBalances(run: Run, moves: seq<seq<Movement>>, n: nat, journal: seq<Movement>)
    requires run.Valid() && Orders(run, moves) && 0 < n <= |run.ops|
    requires Balanced(run.states[n - 1].reservations, journal)
    ensures Balanced(run.states[n].reservations, journal + moves[n - 1])
  {
    assert Run.Unfold(n - 1);
    StepBalances(run.states[n - 1], run.ops[n - 1], run.states[n], journal);
  }

  lemma {:induction false} RunBalances(run: Run, moves: seq<seq<Movement>>, n: nat)
    requires run.Valid() && Orders(run, moves) && n <= |run.ops|
    ensures Balanced(run.states[n].reservations, Flatten(moves[..n]))
  {
    if n == 0 {
      EmptyJournalBalances();
    } else {
      RunBalances(run, moves, n - 1);
      RunStepBalances(run, moves, n, Flatten(moves[..n - 1]));
      FlattenNext(moves, n);
    }
  }

  // ----- main results

  /** What a record and the movements of its reservation may be together. */
  ghost predicate Settled(moves: seq<Movement>, id: Id, v: Reservation) {
    || (moves == [] && v.paidDepositKrw == 0 && v.refundedAmountKrw == 0)
    || (moves == [Charge(id, v.quotedDepositKrw)]
        && v.paidDepositKrw == v.quotedDepositKrw && v.refundedAmountKrw == 0)
    || (ChargedThenRepaid(moves, id, v) && v.paidDepositKrw == v.refundedAmountKrw == v.quotedDepositKrw)
  }

  lemma RecordIsSettled(id: Id, v: Reservation)
    requires RecordInv(v) && DatesInv(v)
    ensures Settled(Expected(id, v), id, v)
  {
    if v.payment == PayRefunded {
      var at := v.refundedAt.GetOr(v.cancellationDeadlineAt);
      assert at <= v.cancellationDeadlineAt;
    }
  }

  /**
   Money is conserved: on every run, what was charged is what was repaid plus the deposits of the
   authorized reservations; and each reservation was charged at most once, exactly its quoted deposit, and
   repaid at most once, only after the charge, exactly that deposit, at or before its deadline.
   */
  lemma MoneyIsConserved(run: Run, moves: seq<seq<Movement>>)
    requires run.Valid() && Orders(run, moves)
    ensures var journal, records := Flatten(moves), run.Final().reservations;
            && Charged(journal) == Repaid(journal) + TotalKept(records)
            && (forall id :: id !in records ==> For(journal, id) == [])
            && (forall id :: id in records ==> Settled(For(journal, id), id, records[id].value))
  {
    RunBalances(run, moves, |run.ops|);
    assert moves[..|run.ops|] == moves;
    var records := run.Final().reservations;
    forall id | id in records ensures Settled(For(Flatten(moves), id), id, records[id].value) {
      RecordIsSettled(id, records[id].value);
    }
  }

  lemma StepKeepsTerms(s: Store, op: Op, s': Store, id: Id)
    requires Effect(s, op, s') && id in s.reservations
    ensures id in s'.reservations && SameTerms(s.reservations[id].value, s'.reservations[id].value)
    ensures s.reservations[id].value.status == StatusCancelled ==> s'.reservations[id] == s.reservations[id]
  {
  }

  /**
   Terms are pinned and cancellation is final: from creation on, no operation changes what was quoted,
   and a cancelled record never changes again.
   */
  lemma {:induction false} TermsArePinned(run: Run, i: nat, j: nat, id: Id)
    requires run.Valid() && i <= j <= |run.ops| && id in run.states[i].reservations
    ensures id in run.states[j].reservations
    ensures SameTerms(run.states[i].reservations[id].value, run.states[j].reservations[id].value)
    ensures run.states[i].reservations[id].value.status == StatusCancelled
            ==> run.states[j].reservations[id] == run.states[i].reservations[id]
  {
    if i < j {
      TermsArePinned(run, i, j - 1, id);
      StepEffect(run, j - 1);
      StepKeepsTerms(run.states[j - 1], run.ops[j - 1], run.states[j], id);
    }
  }

  ghost predicate OneOfSeven(v: Reservation) {
    (v.status, v.hold, v.payment) in {
      (StatusAutoConfirmed, HoldBooked, PayNotRequired),
      (StatusPaymentRequired, HoldHeld, PayRequired),
      (StatusConfirmed, HoldBooked, PayAuthorized),
      (StatusCancelled, HoldReleased, PayNotRequired),
      (StatusCancelled, HoldReleased, PayCancelledBeforePayment),
      (StatusCancelled, HoldReleased, PayAuthorized),
      (StatusCancelled, HoldReleased, PayRefunded)}
  }

  lemma RecordIsOneOfSeven(v: Reservation)
    requires RecordInv(v)
    ensures OneOfSeven(v)
  {
  }

  /** Only seven combinations of status, hold and payment are reachable. */
  lemma SevenRecordStates(run: Run, i: nat, id: Id)
    requires run.Valid() && i <= |run.ops| && id in run.states[i].reservations
    ensures OneOfSeven(run.states[i].reservations[id].value)
  {
    var moves := seq(|run.ops|, k requires 0 <= k < |run.ops| => Movements(run.states[k], run.ops[k]));
    RunBalances(run, moves, i);
    RecordIsOneOfSeven(run.states[i].reservations[id].value);
  }

  // ----- what each operation does to the deposit

  lemma StepSettlesDeposit(s: Store, op: Op, s': Store)
    requires RunAlone(s, op) == Some(s') && op.Cancel?
    ensures op.reservation in s.reservations && op.reservation in s'.reservations
    ensures var v, v' := s.reservations[op.reservation].value, s'.reservations[op.reservation].value;
            && v'.status == StatusCancelled && DepositSettled(v, v', op.cancellationId, op.at)
            && Movements(s, op) == if RefundDue(v, op.at) then [Repay(op.reservation, v.paidDepositKrw, op.at)] else []
  {
    CommittedEffect(s, op);
    CancelMoves(s, op);
  }

  /**
   Every cancellation settles the deposit: if it was paid, it is repaid in full up to the deadline and kept, with
   nothing repaid, after it; if it was asked for and not paid, it no longer is; if none was asked for, that stays.
   */
  lemma CancellationSettlesDeposit(run: Run, moves: seq<seq<Movement>>, i: nat)
    requires run.Valid() && Orders(run, moves) && i < |run.ops| && run.ops[i].Cancel?
    ensures var id, at, cancellationId := run.ops[i].reservation, run.ops[i].at, run.ops[i].cancellationId;
            && id in run.states[i].reservations && id in run.states[i + 1].reservations
            && var v, v' := run.states[i].reservations[id].value, run.states[i + 1].reservations[id].value;
            && v'.status == StatusCancelled
            && match v.payment
               case PayAuthorized =>
                 if at <= v.cancellationDeadlineAt
                 then && v'.payment == PayRefunded && v'.refund == RefundDone
                      && v'.refundedAmountKrw == v.paidDepositKrw == v.quotedDepositKrw && v'.refundedAt == Some(at)
                      && v'.refundReference == RefundReference(cancellationId, v.reservationId, v.paidDepositKrw)
                      && moves[i] == [Repay(id, v.quotedDepositKrw, at)]
                 else && v'.payment == PayAuthorized && v'.refund == RefundForfeited && v'.refundedAmountKrw == 0
                      && v'.refundedAt == None && v'.refundReference == NoReference && moves[i] == []
               case PayRequired =>
                 v'.payment == PayCancelledBeforePayment && v'.refund == RefundNotApplicable && moves[i] == []
               case PayNotRequired =>
                 v'.payment == PayNotRequired && v'.refund == RefundNotApplicable && moves[i] == []
               case _ => false
  {
    assert Run.Unfold(i);
    StepSettlesDeposit(run.states[i], run.ops[i], run.states[i + 1]);
    RunBalances(run, moves, i);
    StepEffect(run, i);
    LiveRecord(run.states[i].reservations[run.ops[i].reservation].value);
  }

  lemma LiveRecord(v: Reservation)
    requires RecordInv(v)
    ensures v.payment == PayAuthorized ==> v.status == StatusCancelled || v.paidDepositKrw == v.quotedDepositKrw
    ensures v.status != StatusCancelled ==> v.payment == PayAuthorized || v.payment == PayRequired || v.payment == PayNotRequired
  {
  }

  /** Every payment charges the quoted deposit, and creations order no movement. */
  lemma PaymentChargesDeposit(run: Run, moves: seq<seq<Movement>>, i: nat)
    requires run.Valid() && Orders(run, moves) && i < |run.ops|
    ensures run.ops[i].Authorize? ==>
              var id := run.ops[i].reservation;
              && id in run.states[i].reservations && id in run.states[i + 1].reservations
              && var v, v' := run.states[i].reservations[id].value, run.states[i + 1].reservations[id].value;
              && v'.status == StatusConfirmed && v'.payment == PayAuthorized
              && v'.paidDepositKrw == v.quotedDepositKrw && moves[i] == [Charge(id, v.quotedDepositKrw)]
              && v'.paymentReference == PaymentReference(run.ops[i].attemptId, v.reservationId, run.ops[i].payment)
    ensures !run.ops[i].Authorize? && !run.ops[i].Cancel? ==> moves[i] == []
  {
    assert Run.Unfold(i);
    StepEffect(run, i);
    if run.ops[i].Authorize? {
      AuthorizeMoves(run.states[i], run.ops[i]);
    } else if run.ops[i].Create? {
      CreateMoves(run.states[i], run.ops[i]);
    }
  }
}
