/** When payments and cancellations go through, told from the ledger of a reachable store. */
module Outcomes {
  import opened Basics
  import opened ReservationData
  import opened Ledger
  import opened Policy
  import opened EditFunctions
  import opened Store
  import opened Effects
  import opened Bookings
  import opened Money

  /** The reservation's own entry stands in the table's ledger and is active at `at`. */
  ghost predicate Stands(s: Store, id: Id, t: Id, at: int)
    requires id in s.reservations && t in s.tables
  {
    var e := EntryFor(s.reservations[id].value);
    e in LedgerOf(s, t) && IsActive(e, at)
  }

  ghost predicate WellFormed(s: Store, id: Id, t: Id) {
    && id in s.reservations && t in s.tables && id != "" && t != ""
    && 0 <= s.reservations[id].version && 0 <= s.tables[t].version
  }

  lemma ActiveMeansStands(s: Store, id: Id, t: Id, at: int)
    requires Inv(s) && id in s.reservations && t in s.tables
    ensures HasId(Active(LedgerOf(s, t), at), id) <==> Stands(s, id, t, at)
    ensures Stands(s, id, t, at) ==> Agrees(s, t, EntryFor(s.reservations[id].value))
  {
    assert LedgerInv(s, t);
    var active := Active(LedgerOf(s, t), at);
    var e := EntryFor(s.reservations[id].value);
    if HasId(active, id) {
      var k :| 0 <= k < |active| && active[k].reservationId == id;
      ActiveMember(LedgerOf(s, t), at, active[k]);
      assert Agrees(s, t, active[k]);
    }
    if Stands(s, id, t, at) {
      ActiveMember(LedgerOf(s, t), at, e);
      HasIdMember(active, e);
    }
  }

  /** With nothing in between, what can be computed can be committed. */
  lemma AloneThereIsNoConflict(s: Store, op: Op)
    requires Named(s, op) && (op.Authorize? || op.Cancel?)
    ensures RunAlone(s, op).Some? <==> BatchOf(s, op).Ok?
  {
  }

  lemma PaymentConditions(v: Snapshot<Reservation>, t: Snapshot<Table>, attemptId: string, payment: string, at: int)
    requires Identified(v) && Identified(t) && |t.value.ledger| <= LEDGER_LIMIT
    ensures AuthorizeDeposit(v, t, attemptId, payment, at).Ok?
            <==> && v.value.tableId == t.value.tableId && PaymentReady(v.value, at, payment) == None
                 && !Blank(attemptId) && HasId(Active(t.value.ledger, at), EntryId(v))
  {
    ActiveLength(t.value.ledger, at);
  }

  lemma CancellationConditions(v: Snapshot<Reservation>, t: Snapshot<Table>, cancellationId: string, at: int)
    requires Identified(v) && Identified(t) && |t.value.ledger| <= LEDGER_LIMIT
    ensures CancelReservation(v, t, cancellationId, at).Ok?
            <==> && v.value.tableId == t.value.tableId && v.value.status != StatusCancelled
                 && HasId(Active(t.value.ledger, at), EntryId(v))
                 && (v.value.payment == PayAuthorized && at <= v.value.cancellationDeadlineAt ==> !Blank(cancellationId))
  {
    ActiveLength(t.value.ledger, at);
    WithoutIdKeeps(Active(t.value.ledger, at), EntryId(v));
  }

  lemma AuthorizeOutcome(s: Store, id: Id, t: Id, attemptId: string, payment: string, at: int)
    requires Inv(s) && WellFormed(s, id, t) && RecordInv(s.reservations[id].value)
    requires DatesInv(s.reservations[id].value)
    ensures RunAlone(s, Authorize(id, t, attemptId, payment, at)).Some?
            <==> && Stands(s, id, t, at) && s.reservations[id].value.hold == HoldHeld
                 && payment in ACCEPTED_PAYMENT_METHODS && !Blank(attemptId)
  {
    assert LedgerInv(s, t);
    ActiveMeansStands(s, id, t, at);
    AloneThereIsNoConflict(s, Authorize(id, t, attemptId, payment, at));
    PaymentConditions(Snap(s.reservations, id), Snap(s.tables, t), attemptId, payment, at);
    assert EntryId(Snap(s.reservations, id)) == id;
  }

  lemma CancelOutcome(s: Store, id: Id, t: Id, cancellationId: string, at: int)
    requires Inv(s) && WellFormed(s, id, t) && RecordInv(s.reservations[id].value)
    ensures RunAlone(s, Cancel(id, t, cancellationId, at)).Some?
            <==> && Stands(s, id, t, at)
                 && var v := s.reservations[id].value;
                    (v.payment == PayAuthorized && at <= v.cancellationDeadlineAt ==> !Blank(cancellationId))
  {
    assert LedgerInv(s, t);
    ActiveMeansStands(s, id, t, at);
    AloneThereIsNoConflict(s, Cancel(id, t, cancellationId, at));
    CancellationConditions(Snap(s.reservations, id), Snap(s.tables, t), cancellationId, at);
    assert EntryId(Snap(s.reservations, id)) == id;
  }

  lemma RunKeepsRecordInv(run: Run, id: Id)
    requires run.Valid() && id in run.Final().reservations
    ensures RecordInv(run.Final().reservations[id].value) && DatesInv(run.Final().reservations[id].value)
  {
    var moves := seq(|run.ops|, k requires 0 <= k < |run.ops| => Movements(run.states[k], run.ops[k]));
    RunBalances(run, moves, |run.ops|);
  }

  /**
   In a reachable store a payment commits exactly if the reservation's entry stands in the ledger of the named
   table as a hold that has neither expired nor ended, the method is accepted and the attempt has an id.
   */
  lemma PaymentSucceedsExactly(run: Run, id: Id, t: Id, attemptId: string, payment: string, at: int)
    requires run.Valid() && WellFormed(run.Final(), id, t)
    ensures var s := run.Final();
            RunAlone(s, Authorize(id, t, attemptId, payment, at)).Some?
            <==> && Stands(s, id, t, at) && s.reservations[id].value.hold == HoldHeld
                 && payment in ACCEPTED_PAYMENT_METHODS && !Blank(attemptId)
  {
    RunKeepsInv(run, |run.ops|);
    RunKeepsRecordInv(run, id);
    AuthorizeOutcome(run.Final(), id, t, attemptId, payment, at);
  }

  /**
   In a reachable store a cancellation commits exactly if the reservation's entry stands in the ledger of the
   named table and, when a refund is due, the cancellation has an id.
   */
  lemma CancellationSucceedsExactly(run: Run, id: Id, t: Id, cancellationId: string, at: int)
    requires run.Valid() && WellFormed(run.Final(), id, t)
    ensures var s := run.Final();
            RunAlone(s, Cancel(id, t, cancellationId, at)).Some?
            <==> && Stands(s, id, t, at)
                 && var v := s.reservations[id].value;
                    (v.payment == PayAuthorized && at <= v.cancellationDeadlineAt ==> !Blank(cancellationId))
  {
    RunKeepsInv(run, |run.ops|);
    RunKeepsRecordInv(run, id);
    CancelOutcome(run.Final(), id, t, cancellationId, at);
  }

  // ----- what an error tells

  /** An error of a creation tells the truth about the request. */
  ghost predicate CreationRefused(r: Snapshot<Restaurant>, t: Snapshot<Table>, c: CreateRequest, error: Error) {
    var quote := QuotePolicy(r.value, t.value, c.inquiry);
    match error
    case PolicyNotAccepted => !c.acceptedPolicy
    case InvalidClock => c.acceptedPolicy && !r.value.ClocksValid()
    case LedgerTooLong => c.acceptedPolicy && |t.value.ledger| > LEDGER_LIMIT
    case PolicyRejected(reasons) =>
      && quote.Ok? && !quote.value.isBookable
      && forall rule :: rule in reasons <==> Violates(rule, r.value, t.value, c.inquiry)
    case InvalidObjectVersion => t.objectVersion < 0
    case MissingObjectId => t.objectId == ""
    case LedgerFull => |Active(t.value.ledger, c.inquiry.requestedAt)| >= LEDGER_LIMIT
    case _ => false
  }

  lemma CreationErrorsAreTrue(r: Snapshot<Restaurant>, t: Snapshot<Table>, c: CreateRequest)
    ensures CreateReservation(r, t, c).Err? ==> CreationRefused(r, t, c, CreateReservation(r, t, c).error)
  {
    QuoteExactly(r.value, t.value, c.inquiry);
  }

  /** An error that is about the objects that a payment and a cancellation have in common. */
  ghost predicate EditRefused(v: Snapshot<Reservation>, t: Snapshot<Table>, at: int, error: Error) {
    match error
    case WrongTable => v.value.tableId != t.value.tableId
    case LedgerTooLong => |t.value.ledger| > LEDGER_LIMIT
    case EntryMissing => !exists e :: e in t.value.ledger && IsActive(e, at) && e.reservationId == EntryId(v)
    case InvalidObjectVersion => t.objectVersion < 0 || v.objectVersion < 0
    case MissingObjectId => v.objectId == "" || t.objectId == ""
    case _ => false
  }

  lemma MissingEntry(ledger: seq<Entry>, at: int, id: Id)
    requires !HasId(Active(ledger, at), id)
    ensures !exists e :: e in ledger && IsActive(e, at) && e.reservationId == id
  {
    if e :| e in ledger && IsActive(e, at) && e.reservationId == id {
      ActiveMember(ledger, at, e);
      HasIdMember(Active(ledger, at), e);
    }
  }

  /** An error of a payment tells the truth: about the record, the method, the attempt or the objects. */
  lemma PaymentErrorsAreTrue(v: Snapshot<Reservation>, t: Snapshot<Table>, attemptId: string, payment: string, at: int)
    ensures var result := AuthorizeDeposit(v, t, attemptId, payment, at);
            result.Err? ==>
              match result.error
              case NotAwaitingDeposit => v.value.status != StatusPaymentRequired || v.value.hold != HoldHeld
              case HoldExpiryMissing => v.value.holdExpiresAt.None?
              case HoldExpired => v.value.holdExpiresAt.Some? && v.value.holdExpiresAt.value <= at
              case PaymentDeclined => payment !in {"pm_sandbox_visa_4242", "pm_sandbox_mastercard_5555"}
              case BlankOperationId => Blank(attemptId)
              case error => EditRefused(v, t, at, error)
  {
    ActiveLength(t.value.ledger, at);
    if !HasId(Active(t.value.ledger, at), EntryId(v)) {
      MissingEntry(t.value.ledger, at, EntryId(v));
    }
  }

  /** An error of a cancellation tells the truth: about the record, the cancellation or the objects. */
  lemma CancellationErrorsAreTrue(v: Snapshot<Reservation>, t: Snapshot<Table>, cancellationId: string, at: int)
    ensures var result := CancelReservation(v, t, cancellationId, at);
            result.Err? ==>
              match result.error
              case AlreadyCancelled => v.value.status == StatusCancelled
              case BlankOperationId => Blank(cancellationId) && RefundDue(v.value, at)
              case error => EditRefused(v, t, at, error)
  {
    ActiveLength(t.value.ledger, at);
    WithoutIdKeeps(Active(t.value.ledger, at), EntryId(v));
    if !HasId(Active(t.value.ledger, at), EntryId(v)) {
      MissingEntry(t.value.ledger, at, EntryId(v));
    }
  }
}
