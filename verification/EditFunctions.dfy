/**
 The three edit functions.  Each reads object snapshots and returns an edit batch
 of two object edits, or raises; none of them writes anything itself.
 */
module EditFunctions {
  import opened Basics
  import opened ReservationData
  import opened Ledger
  import opened Policy

  datatype Snapshot<T> = Snapshot(objectId: Id, objectVersion: int, value: T)

  datatype Ref = RestaurantRef(id: Id) | TableRef(id: Id) | ReservationRef(id: Id)

  datatype Patch =
    | AuthorizePatch(paymentReference: Reference, paidDepositKrw: int, inventoryVersion: int)
    | CancelPatch(outcome: Refund, refundedAt: Option<int>, inventoryVersion: int)

  datatype Refund = Refund(status: RefundStatus, amountKrw: int, reference: Reference, payment: PaymentStatus)

  datatype ReservationEdit =
    | CreateObject(primaryKey: Id, properties: Reservation)
    | ModifyObject(objectId: Id, expectedVersion: int, patch: Patch)

  datatype TableEdit = TableEdit(
    objectId: Id,
    expectedVersion: int,
    ledger: seq<Entry>,
    inventoryUpdatedAt: int,
    lastReservationId: Option<Id>)

  datatype Batch = Batch(reservation: ReservationEdit, table: TableEdit, readSet: map<Ref, int>)

  datatype CreateRequest = CreateRequest(reservationId: Id, inquiry: Inquiry, acceptedPolicy: bool)

  const ACCEPTED_PAYMENT_METHODS := {"pm_sandbox_visa_4242", "pm_sandbox_mastercard_5555"}

  predicate Blank(text: string) {
    forall c :: c in text ==> IsSpace(c)
  }

  /** An object has an id and a version, as every edit of it asks. */
  predicate Identified<T>(s: Snapshot<T>) {
    s.objectId != "" && s.objectVersion >= 0
  }

  function HoldExpiry(r: Restaurant, requestedAt: int, decision: Decision): Option<int> {
    if decision != PaymentRequired then None else Some(requestedAt + r.depositHoldMinutes.GetOr(10) * MINUTE)
  }

  function NewEntry(id: Id, start: int, quote: Quote, holdExpiresAt: Option<int>): Entry {
    Entry(id, start, quote.serviceEndsAt, match holdExpiresAt case Some(x) => Held(x) case None => Booked)
  }

  function NewReservation(c: CreateRequest, quote: Quote, holdExpiresAt: Option<int>, tableVersion: int): Reservation {
    var isHeld := holdExpiresAt.Some?;
    Reservation(
      reservationId := c.reservationId,
      restaurantId := quote.restaurantId,
      tableId := quote.tableId,
      partySize := c.inquiry.partySize,
      reservationAt := c.inquiry.desiredAt,
      requestedAt := c.inquiry.requestedAt,
      status := if isHeld then StatusPaymentRequired else StatusAutoConfirmed,
      policyVersion := quote.policyVersion,
      policyDecision := quote.decision,
      quotedDepositKrw := quote.depositKrw,
      cancellationDeadlineAt := quote.cancellationDeadlineAt,
      lateArrivalGraceMinutes := quote.lateArrivalGraceMinutes,
      quoteExpiresAt := quote.quoteExpiresAt,
      hold := if isHeld then HoldHeld else HoldBooked,
      holdExpiresAt := holdExpiresAt,
      payment := if isHeld then PayRequired else PayNotRequired,
      paymentReference := NoReference,
      paidDepositKrw := 0,
      refund := RefundNotApplicable,
      refundReference := NoReference,
      refundedAmountKrw := 0,
      refundedAt := None,
      inventoryVersion := tableVersion + 1,
      turnTimeMinutes := quote.turnTimeMinutes)
  }

  function CreateReservation(r: Snapshot<Restaurant>, t: Snapshot<Table>, c: CreateRequest): Result<Batch, Error> {
    if !c.acceptedPolicy then Err(PolicyNotAccepted)
    else match QuotePolicy(r.value, t.value, c.inquiry)
      case Err(error) => Err(error)
      case Ok(quote) =>
        if !quote.isBookable then Err(PolicyRejected(quote.reasons))
        else
          var requestedAt := c.inquiry.requestedAt;
          var expiry := HoldExpiry(r.value, requestedAt, quote.decision);
          var entry := NewEntry(c.reservationId, c.inquiry.desiredAt.instant, quote, expiry);
          var ledger := Active(t.value.ledger, requestedAt) + [entry];
          if t.objectVersion < 0 then Err(InvalidObjectVersion)
          else if t.objectId == "" then Err(MissingObjectId)
          else if |ledger| > LEDGER_LIMIT then Err(LedgerFull)
          else
            Ok(Batch(
                 CreateObject(c.reservationId, NewReservation(c, quote, expiry, t.objectVersion)),
                 TableEdit(t.objectId, t.objectVersion, ledger, requestedAt, Some(c.reservationId)),
                 map[RestaurantRef(r.objectId) := r.objectVersion, TableRef(t.objectId) := t.objectVersion]))
  }

  /** The id under which the ledger files a reservation. */
  function EntryId(v: Snapshot<Reservation>): Id {
    if v.value.reservationId != "" then v.value.reservationId else v.objectId
  }

  /** The ledger entry that a reservation record describes. */
  function EntryFor(v: Reservation): Entry {
    Entry(v.reservationId, v.reservationAt.instant, v.reservationAt.instant + v.turnTimeMinutes * MINUTE,
          if v.hold == HoldHeld then Held(v.holdExpiresAt.GetOr(0)) else Booked)
  }

  function TwoObjectBatch(v: Snapshot<Reservation>, t: Snapshot<Table>, patch: Patch, ledger: seq<Entry>, at: int)
    : Result<Batch, Error>
  {
    if t.objectVersion < 0 then Err(InvalidObjectVersion)
    else if v.objectId == "" then Err(MissingObjectId)
    else if v.objectVersion < 0 then Err(InvalidObjectVersion)
    else if |ledger| > LEDGER_LIMIT then Err(LedgerFull)
    else if t.objectId == "" then Err(MissingObjectId)
    else
      Ok(Batch(
           ModifyObject(v.objectId, v.objectVersion, patch),
           TableEdit(t.objectId, t.objectVersion, ledger, at, None),
           map[ReservationRef(v.objectId) := v.objectVersion, TableRef(t.objectId) := t.objectVersion]))
  }

  function PaymentReady(v: Reservation, at: int, method': string): Option<Error> {
    if v.status != StatusPaymentRequired || v.hold != HoldHeld then Some(NotAwaitingDeposit)
    else match v.holdExpiresAt
      case None => Some(HoldExpiryMissing)
      case Some(expiry) =>
        if expiry <= at then Some(HoldExpired)
        else if method' !in ACCEPTED_PAYMENT_METHODS then Some(PaymentDeclined)
        else None
  }

  function AuthorizeDeposit(v: Snapshot<Reservation>, t: Snapshot<Table>, attemptId: string, method': string, at: int)
    : Result<Batch, Error>
  {
    if v.value.tableId != t.value.tableId then Err(WrongTable)
    else if PaymentReady(v.value, at, method').Some? then Err(PaymentReady(v.value, at, method').value)
    else if Blank(attemptId) then Err(BlankOperationId)
    else if EntryId(v) == "" then Err(MissingObjectId)
    else if |t.value.ledger| > LEDGER_LIMIT then Err(LedgerTooLong)
    else match Transition(t.value.ledger, EntryId(v), at)
      case Err(error) => Err(error)
      case Ok(ledger) =>
        var reference := PaymentReference(attemptId, v.value.reservationId, method');
        TwoObjectBatch(
          v, t, AuthorizePatch(reference, v.value.quotedDepositKrw, t.objectVersion + 1), ledger, at)
  }

  function RefundOutcome(v: Reservation, at: int, cancellationId: string): Result<Refund, Error> {
    if v.payment != PayAuthorized then
      var next := if v.payment == PayRequired then PayCancelledBeforePayment else v.payment;
      Ok(Refund(RefundNotApplicable, 0, NoReference, next))
    else if at > v.cancellationDeadlineAt then
      Ok(Refund(RefundForfeited, 0, NoReference, PayAuthorized))
    else if Blank(cancellationId) then Err(BlankOperationId)
    else
      var reference := RefundReference(cancellationId, v.reservationId, v.paidDepositKrw);
      Ok(Refund(RefundDone, v.paidDepositKrw, reference, PayRefunded))
  }

  function CancelReservation(v: Snapshot<Reservation>, t: Snapshot<Table>, cancellationId: string, at: int)
    : Result<Batch, Error>
  {
    if v.value.tableId != t.value.tableId then Err(WrongTable)
    else if v.value.status == StatusCancelled then Err(AlreadyCancelled)
    else if EntryId(v) == "" then Err(MissingObjectId)
    else if |t.value.ledger| > LEDGER_LIMIT then Err(LedgerTooLong)
    else match Removal(t.value.ledger, EntryId(v), at)
      case Err(error) => Err(error)
      case Ok(ledger) =>
        match RefundOutcome(v.value, at, cancellationId)
        case Err(error) => Err(error)
        case Ok(outcome) =>
          var refundedAt := if outcome.status == RefundDone then Some(at) else None;
          TwoObjectBatch(v, t, CancelPatch(outcome, refundedAt, t.objectVersion + 1), ledger, at)
  }

  /**
   Creation and quote agree: on a table object with an id and a version, creation succeeds exactly
   when the policy was accepted, the quote is bookable and the active ledger has room; and then the
   record holds the quoted decision, deposit, deadline and end of service, and the ledger gains one
   entry for exactly the quoted interval.
   */
  lemma QuoteAndCreateAgree(r: Snapshot<Restaurant>, t: Snapshot<Table>, c: CreateRequest)
    requires t.objectId != "" && t.objectVersion >= 0
    ensures CreateReservation(r, t, c).Ok?
            <==> && c.acceptedPolicy
                 && QuotePolicy(r.value, t.value, c.inquiry).Ok?
                 && QuotePolicy(r.value, t.value, c.inquiry).value.isBookable
                 && |Active(t.value.ledger, c.inquiry.requestedAt)| < LEDGER_LIMIT
    ensures CreateReservation(r, t, c).Ok? ==>
              var quote := QuotePolicy(r.value, t.value, c.inquiry).value;
              var batch := CreateReservation(r, t, c).value;
              var v := batch.reservation.properties;
              && batch.reservation.CreateObject?
              && v.reservationId == batch.reservation.primaryKey == c.reservationId
              && v.restaurantId == r.value.restaurantId && v.tableId == t.value.tableId
              && v.policyDecision == quote.decision && v.policyVersion == quote.policyVersion
              && v.lateArrivalGraceMinutes == quote.lateArrivalGraceMinutes
              && v.quoteExpiresAt == quote.quoteExpiresAt && v.requestedAt == c.inquiry.requestedAt
              && v.reservationAt == c.inquiry.desiredAt && v.partySize == c.inquiry.partySize
              && (v.hold == HoldHeld ==>
                    v.holdExpiresAt == Some(c.inquiry.requestedAt + quote.holdMinutes * MINUTE))
              && v.quotedDepositKrw == quote.depositKrw
              && v.cancellationDeadlineAt == quote.cancellationDeadlineAt
              && v.reservationAt.instant + v.turnTimeMinutes * MINUTE == quote.serviceEndsAt
              && (v.status == StatusPaymentRequired <==> quote.decision == PaymentRequired)
              && (v.status == StatusAutoConfirmed <==> quote.decision == AutoConfirmed)
              && batch.table.inventoryUpdatedAt == c.inquiry.requestedAt
              && batch.table.lastReservationId == Some(c.reservationId)
              && batch.table.ledger == Active(t.value.ledger, c.inquiry.requestedAt) + [EntryFor(v)]
              && (forall e :: e in batch.table.ledger
                         <==> (e in t.value.ledger && IsActive(e, c.inquiry.requestedAt))
                              || e == EntryFor(v))
  {
    if CreateReservation(r, t, c).Ok? {
      NewLedger(r, t, c);
      NewLedgerMembers(t.value.ledger, c.inquiry.requestedAt,
                       EntryFor(CreateReservation(r, t, c).value.reservation.properties));
    }
  }

  lemma NewLedger(r: Snapshot<Restaurant>, t: Snapshot<Table>, c: CreateRequest)
    requires CreateReservation(r, t, c).Ok?
    ensures var batch := CreateReservation(r, t, c).value;
            && batch.reservation.CreateObject?
            && batch.table.ledger
               == Active(t.value.ledger, c.inquiry.requestedAt) + [EntryFor(batch.reservation.properties)]
  {
    var quote := QuotePolicy(r.value, t.value, c.inquiry).value;
    NewRecordDescribesEntry(c, quote, HoldExpiry(r.value, c.inquiry.requestedAt, quote.decision), t.objectVersion);
  }

  lemma NewRecordDescribesEntry(c: CreateRequest, quote: Quote, expiry: Option<int>, version: int)
    requires quote.serviceEndsAt == c.inquiry.desiredAt.instant + quote.turnTimeMinutes * MINUTE
    ensures EntryFor(NewReservation(c, quote, expiry, version))
         == NewEntry(c.reservationId, c.inquiry.desiredAt.instant, quote, expiry)
  {
  }

  lemma NewLedgerMembers(ledger: seq<Entry>, at: int, entry: Entry)
    ensures forall e :: e in Active(ledger, at) + [entry] <==> (e in ledger && IsActive(e, at)) || e == entry
  {
    forall e {
      ActiveMember(ledger, at, e);
    }
  }
}
