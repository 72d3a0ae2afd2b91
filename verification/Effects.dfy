/** What one committed operation does to the store, in the terms that the later proofs use. */
module Effects {
  import opened Basics
  import opened ReservationData
  import opened Ledger
  import opened Policy
  import opened EditFunctions
  import opened Store

  /** Only the ledger bookkeeping of table `t` changed, and its version rose by one. */
  ghost predicate LedgerWritten(s: Store, t: Id, s': Store, ledger: seq<Entry>) {
    && t in s.tables && t in s'.tables
    && s'.restaurants == s.restaurants
    && s'.tables == s.tables[t := s'.tables[t]]
    && s'.tables[t].version == s.tables[t].version + 1
    && s'.tables[t].value == s.tables[t].value.(
         ledger := ledger, inventoryUpdatedAt := s'.tables[t].value.inventoryUpdatedAt,
         lastReservationId := s'.tables[t].value.lastReservationId)
  }

  /** The table shows the time of the operation, and the reservation if one was created. */
  ghost predicate Marked(s: Store, t: Id, s': Store, at: int, created: Option<Id>) {
    && t in s.tables && t in s'.tables
    && s'.tables[t].value.inventoryUpdatedAt == Some(at)
    && s'.tables[t].value.lastReservationId
       == (if created.Some? then created else s.tables[t].value.lastReservationId)
  }

  ghost predicate Created(s: Store, r: Id, t: Id, request: CreateRequest, s': Store) {
    var id, at := request.reservationId, request.inquiry.requestedAt;
    && id !in s.reservations && id in s'.reservations && r in s.restaurants && t in s.tables
    && s'.reservations == s.reservations[id := s'.reservations[id]]
    && var v := s'.reservations[id].value;
    && var entry := EntryFor(v);
    && var ledger := s.tables[t].value.ledger;
    && LedgerWritten(s, t, s', Active(ledger, at) + [entry])
    && |Active(ledger, at)| < LEDGER_LIMIT
    && v.reservationId == id && v.tableId == s.tables[t].value.tableId
    && v.inventoryVersion == s'.tables[t].version
    && v.turnTimeMinutes == s.tables[t].value.Turn()
    && v.reservationAt.instant <= at + s.restaurants[r].value.Window()
    && v.reservationAt == request.inquiry.desiredAt && v.requestedAt == at
    && v.paidDepositKrw == 0 && v.refundedAmountKrw == 0 && v.refund == RefundNotApplicable && v.refundedAt == None
    && (v.holdExpiresAt.Some? <==> v.hold == HoldHeld)
    && ((v.status, v.hold, v.payment) == (StatusAutoConfirmed, HoldBooked, PayNotRequired)
        || (v.status, v.hold, v.payment) == (StatusPaymentRequired, HoldHeld, PayRequired))
    && !Conflicts(ledger, at, entry.startsAt, entry.endsAt)
  }

  ghost predicate Modified(s: Store, id: Id, t: Id, s': Store, v': Reservation) {
    && id in s.reservations && t in s.tables && t in s'.tables
    && s'.reservations == s.reservations[id := Versioned(s.reservations[id].version + 1, v')]
    && v'.inventoryVersion == s'.tables[t].version
    && s.reservations[id].value.tableId == s.tables[t].value.tableId
  }

  ghost predicate Authorized(s: Store, id: Id, t: Id, at: int, s': Store) {
    && id in s.reservations && t in s.tables && id in s'.reservations
    && var v, v' := s.reservations[id].value, s'.reservations[id].value;
    && var entryId := EntryId(Snap(s.reservations, id));
    && var active := Active(s.tables[t].value.ledger, at);
    && HasId(active, entryId)
    && LedgerWritten(s, t, s', BookId(active, entryId))
    && Modified(s, id, t, s', v')
    && v.status == StatusPaymentRequired && v.hold == HoldHeld
    && v.holdExpiresAt.Some? && at < v.holdExpiresAt.value
    && v' == v.(status := StatusConfirmed, hold := HoldBooked, payment := PayAuthorized,
                paymentReference := v'.paymentReference, paidDepositKrw := v.quotedDepositKrw,
                inventoryVersion := v'.inventoryVersion)
  }

  /** A paid deposit that is not cancelled after its deadline is due for repayment. */
  predicate RefundDue(v: Reservation, at: int) {
    v.payment == PayAuthorized && at <= v.cancellationDeadlineAt
  }

  /**
   What becomes of a deposit when `v` is cancelled: a paid one is repaid in full up to the deadline and kept after
   it, one that was never paid is no longer asked for, and where none was asked for nothing changes.
   */
  ghost predicate DepositSettled(v: Reservation, v': Reservation, cancellationId: string, at: int) {
    if RefundDue(v, at) then
      && v'.payment == PayRefunded && v'.refund == RefundDone && v'.refundedAmountKrw == v.paidDepositKrw
      && v'.refundedAt == Some(at) && !Blank(cancellationId)
      && v'.refundReference == RefundReference(cancellationId, v.reservationId, v.paidDepositKrw)
    else
      && v'.refundedAmountKrw == 0 && v'.refundedAt == None && v'.refundReference == NoReference
      && v'.refund == (if v.payment == PayAuthorized then RefundForfeited else RefundNotApplicable)
      && v'.payment == (if v.payment == PayRequired then PayCancelledBeforePayment else v.payment)
  }

  ghost predicate Cancelled(s: Store, id: Id, t: Id, cancellationId: string, at: int, s': Store) {
    && id in s.reservations && t in s.tables && id in s'.reservations
    && var v, v' := s.reservations[id].value, s'.reservations[id].value;
    && var entryId := EntryId(Snap(s.reservations, id));
    && var active := Active(s.tables[t].value.ledger, at);
    && HasId(active, entryId)
    && LedgerWritten(s, t, s', WithoutId(active, entryId))
    && Modified(s, id, t, s', v')
    && v.status != StatusCancelled
    && DepositSettled(v, v', cancellationId, at)
    && v' == v.(status := StatusCancelled, hold := HoldReleased, payment := v'.payment, refund := v'.refund,
                refundReference := v'.refundReference, refundedAmountKrw := v'.refundedAmountKrw,
                refundedAt := v'.refundedAt, inventoryVersion := v'.inventoryVersion)
  }

  ghost predicate Effect(s: Store, op: Op, s': Store) {
    match op
    case Create(r, t, request) =>
      Created(s, r, t, request, s') && Marked(s, t, s', request.inquiry.requestedAt, Some(request.reservationId))
    case Authorize(v, t, attemptId, payment, at) =>
      && Authorized(s, v, t, at, s')
      && s'.reservations[v].value.paymentReference
         == PaymentReference(attemptId, s.reservations[v].value.reservationId, payment)
      && Marked(s, t, s', at, None)
    case Cancel(v, t, cancellationId, at) =>
      Cancelled(s, v, t, cancellationId, at, s') && Marked(s, t, s', at, None)
    case ConfigureRestaurant(r, policy) =>
      && r in s.restaurants && s'.tables == s.tables && s'.reservations == s.reservations
      && s'.restaurants == s.restaurants[r := Versioned(s.restaurants[r].version + 1,
                                                        SetRestaurantPolicy(s.restaurants[r].value, policy))]
    case ConfigureTable(t, policy) =>
      && t in s.tables && s'.restaurants == s.restaurants && s'.reservations == s.reservations
      && s'.tables == s.tables[t := Versioned(s.tables[t].version + 1, SetTablePolicy(s.tables[t].value, policy))]
  }

  lemma CreateEffect(s: Store, op: Op)
    requires op.Create? && RunAlone(s, op).Some?
    ensures Effect(s, op, RunAlone(s, op).value)
  {
    var r, t, request := op.restaurant, op.table, op.request;
    var at := request.inquiry.requestedAt;
    var s' := RunAlone(s, op).value;
    var quote := QuotePolicy(s.restaurants[r].value, s.tables[t].value, request.inquiry).value;
    var v := s'.reservations[request.reservationId].value;
    BookableQuoteFits(s.restaurants[r].value, s.tables[t].value, request.inquiry);
    assert EntryFor(v) == NewEntry(request.reservationId, request.inquiry.desiredAt.instant, quote,
                                   HoldExpiry(s.restaurants[r].value, at, quote.decision));
  }

  lemma BookableQuoteFits(r: Restaurant, t: Table, q: Inquiry)
    requires QuotePolicy(r, t, q).Ok? && QuotePolicy(r, t, q).value.isBookable
    ensures !Conflicts(t.ledger, q.requestedAt, q.desiredAt.instant, q.desiredAt.instant + t.Turn() * MINUTE)
    ensures q.desiredAt.instant <= q.requestedAt + r.Window()
  {
    EligibilityIsExact(r, t, q);
    assert !Violates(TurnTimeConflict, r, t, q) && !Violates(OutsideBookingWindow, r, t, q);
  }

  /** What committing a batch that modifies reservation `id` and table `t` does to the store. */
  lemma CommitModifies(s: Store, batch: Batch, id: Id, t: Id)
    requires Commit(s, batch).Some? && batch.reservation.ModifyObject? && batch.reservation.objectId == id
    requires batch.table.objectId == t
    ensures id in s.reservations && t in s.tables
    ensures var s' := Commit(s, batch).value;
            && LedgerWritten(s, t, s', batch.table.ledger)
            && Marked(s, t, s', batch.table.inventoryUpdatedAt, batch.table.lastReservationId)
            && s'.tables[t].version == s.tables[t].version + 1
            && s'.reservations
               == s.reservations[id := Versioned(s.reservations[id].version + 1,
                                                 PatchReservation(s.reservations[id].value, batch.reservation.patch))]
  {
  }

  /** The batch that a payment computes. */
  lemma AuthorizeBatch(v: Snapshot<Reservation>, t: Snapshot<Table>, attemptId: string, payment: string, at: int)
    requires AuthorizeDeposit(v, t, attemptId, payment, at).Ok?
    ensures var batch := AuthorizeDeposit(v, t, attemptId, payment, at).value;
            && v.value.tableId == t.value.tableId && PaymentReady(v.value, at, payment).None?
            && HasId(Active(t.value.ledger, at), EntryId(v))
            && batch.reservation == ModifyObject(
                 v.objectId, v.objectVersion,
                 AuthorizePatch(PaymentReference(attemptId, v.value.reservationId, payment), v.value.quotedDepositKrw,
                                t.objectVersion + 1))
            && batch.table == TableEdit(t.objectId, t.objectVersion, BookId(Active(t.value.ledger, at), EntryId(v)), at, None)
  {
  }

  lemma AuthorizeEffect(s: Store, op: Op)
    requires op.Authorize? && RunAlone(s, op).Some?
    ensures Effect(s, op, RunAlone(s, op).value)
  {
    AuthorizeBatch(Snap(s.reservations, op.reservation), Snap(s.tables, op.table), op.attemptId, op.payment, op.at);
    CommitModifies(s, BatchOf(s, op).value, op.reservation, op.table);
  }

  /** The batch that a cancellation computes. */
  lemma CancelBatch(v: Snapshot<Reservation>, t: Snapshot<Table>, cancellationId: string, at: int)
    requires CancelReservation(v, t, cancellationId, at).Ok?
    ensures var batch := CancelReservation(v, t, cancellationId, at).value;
            && v.value.tableId == t.value.tableId && v.value.status != StatusCancelled
            && HasId(Active(t.value.ledger, at), EntryId(v)) && RefundOutcome(v.value, at, cancellationId).Ok?
            && var outcome := RefundOutcome(v.value, at, cancellationId).value;
            && batch.reservation == ModifyObject(
                 v.objectId, v.objectVersion,
                 CancelPatch(outcome, if outcome.status == RefundDone then Some(at) else None, t.objectVersion + 1))
            && batch.table == TableEdit(t.objectId, t.objectVersion, WithoutId(Active(t.value.ledger, at), EntryId(v)), at, None)
  {
  }

  lemma CancelEffect(s: Store, op: Op)
    requires op.Cancel? && RunAlone(s, op).Some?
    ensures Effect(s, op, RunAlone(s, op).value)
  {
    CancelBatch(Snap(s.reservations, op.reservation), Snap(s.tables, op.table), op.cancellationId, op.at);
    CommitModifies(s, BatchOf(s, op).value, op.reservation, op.table);
  }

  lemma CommittedEffect(s: Store, op: Op)
    requires RunAlone(s, op).Some?
    ensures Effect(s, op, RunAlone(s, op).value)
  {
    match op {
      case Create(_, _, _) => CreateEffect(s, op);
      case Authorize(_, _, _, _, _) => AuthorizeEffect(s, op);
      case Cancel(_, _, _, _) => CancelEffect(s, op);
      case _ =>
    }
  }

  lemma StepEffect(run: Run, i: nat)
    requires run.Valid() && i < |run.ops|
    ensures Effect(run.states[i], run.ops[i], run.states[i + 1])
  {
    assert Run.Unfold(i);
    CommittedEffect(run.states[i], run.ops[i]);
  }
}
