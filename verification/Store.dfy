/**
 The object store and its commit rule, and an operation run alone on the current store.

 A batch is applied as a whole, and only if every version it names is current and the
 primary key it creates is unused.  Each modification raises the version of its object by one.
 */
module Store {
  import opened Basics
  import opened ReservationData
  import opened EditFunctions

  datatype Versioned<T> = Versioned(version: int, value: T)

  datatype Store = Store(
    restaurants: map<Id, Versioned<Restaurant>>,
    tables: map<Id, Versioned<Table>>,
    reservations: map<Id, Versioned<Reservation>>)

  /** The version of a newly created object. */
  const FIRST_VERSION := 1

  function CurrentVersion(s: Store, ref: Ref): Option<int> {
    match ref
    case RestaurantRef(id) => if id in s.restaurants then Some(s.restaurants[id].version) else None
    case TableRef(id) => if id in s.tables then Some(s.tables[id].version) else None
    case ReservationRef(id) => if id in s.reservations then Some(s.reservations[id].version) else None
  }

  predicate Current(s: Store, batch: Batch) {
    && (forall ref :: ref in batch.readSet ==> CurrentVersion(s, ref) == Some(batch.readSet[ref]))
    && CurrentVersion(s, TableRef(batch.table.objectId)) == Some(batch.table.expectedVersion)
    && match batch.reservation
       case CreateObject(key, _) => key !in s.reservations
       case ModifyObject(id, version, _) => CurrentVersion(s, ReservationRef(id)) == Some(version)
  }

  function PatchReservation(v: Reservation, patch: Patch): Reservation {
    match patch
    case AuthorizePatch(reference, paid, inventoryVersion) =>
      v.(status := StatusConfirmed, hold := HoldBooked, payment := PayAuthorized, paymentReference := reference,
         paidDepositKrw := paid, inventoryVersion := inventoryVersion)
    case CancelPatch(outcome, refundedAt, inventoryVersion) =>
      v.(status := StatusCancelled, hold := HoldReleased, payment := outcome.payment, refund := outcome.status,
         refundReference := outcome.reference, refundedAmountKrw := outcome.amountKrw, refundedAt := refundedAt,
         inventoryVersion := inventoryVersion)
  }

  function PatchTable(t: Table, edit: TableEdit): Table {
    t.(ledger := edit.ledger, inventoryUpdatedAt := Some(edit.inventoryUpdatedAt),
       lastReservationId := match edit.lastReservationId case Some(id) => Some(id) case None => t.lastReservationId)
  }

  function Commit(s: Store, batch: Batch): Option<Store> {
    if !Current(s, batch) then None
    else
      var t := s.tables[batch.table.objectId];
      var tables := s.tables[batch.table.objectId := Versioned(t.version + 1, PatchTable(t.value, batch.table))];
      match batch.reservation
      case CreateObject(key, properties) =>
        Some(s.(tables := tables, reservations := s.reservations[key := Versioned(FIRST_VERSION, properties)]))
      case ModifyObject(id, _, patch) =>
        var v := s.reservations[id];
        Some(s.(tables := tables,
                reservations := s.reservations[id := Versioned(v.version + 1, PatchReservation(v.value, patch))]))
  }

  /** The parameters of the two configuration actions; neither can touch a ledger. */
  datatype RestaurantPolicy = RestaurantPolicy(
    serviceStart: Clock,
    lastSeating: Clock,
    slotIntervalMinutes: int,
    bookingWindowDays: int,
    minAdvanceMinutes: int,
    closedWeekdays: set<int>,
    maxOnlinePartySize: int,
    largePartyThreshold: int,
    autoConfirmPartySizeMax: int,
    depositPerPersonKrw: int,
    cancellationCutoffHours: int,
    lateArrivalGraceMinutes: int,
    quoteValidityMinutes: int,
    policyVersion: string)

  datatype TablePolicy = TablePolicy(isWindow: bool, minPartySize: int, turnTimeMinutes: int, isAccessible: bool)

  function SetRestaurantPolicy(r: Restaurant, p: RestaurantPolicy): Restaurant {
    r.(serviceStart := Some(p.serviceStart), lastSeating := Some(p.lastSeating),
       slotIntervalMinutes := Some(p.slotIntervalMinutes), bookingWindowDays := Some(p.bookingWindowDays),
       minAdvanceMinutes := Some(p.minAdvanceMinutes), closedWeekdays := p.closedWeekdays,
       maxOnlinePartySize := Some(p.maxOnlinePartySize), largePartyThreshold := Some(p.largePartyThreshold),
       autoConfirmPartySizeMax := Some(p.autoConfirmPartySizeMax),
       depositPerPersonKrw := Some(p.depositPerPersonKrw),
       cancellationCutoffHours := Some(p.cancellationCutoffHours),
       lateArrivalGraceMinutes := Some(p.lateArrivalGraceMinutes),
       quoteValidityMinutes := Some(p.quoteValidityMinutes), policyVersion := p.policyVersion)
  }

  function SetTablePolicy(t: Table, p: TablePolicy): Table {
    t.(isWindow := p.isWindow, minPartySize := Some(p.minPartySize),
       turnTimeMinutes := Some(p.turnTimeMinutes), isAccessible := p.isAccessible)
  }

  /** An operation, naming the objects it works on rather than their contents. */
  datatype Op =
    | Create(restaurant: Id, table: Id, request: CreateRequest)
    | Authorize(reservation: Id, table: Id, attemptId: string, payment: string, at: int)
    | Cancel(reservation: Id, table: Id, cancellationId: string, at: int)
    | ConfigureRestaurant(restaurant: Id, restaurantPolicy: RestaurantPolicy)
    | ConfigureTable(table: Id, tablePolicy: TablePolicy)
  {
    /** The caller-supplied time of a ledger operation. */
    function When(): int
      requires Create? || Authorize? || Cancel?
    {
      if Create? then request.inquiry.requestedAt else at
    }

    predicate EditsLedger() {
      Create? || Authorize? || Cancel?
    }

    /** The reservation that a ledger operation creates or changes. */
    function Subject(): Id
      requires EditsLedger()
    {
      if Create? then request.reservationId else reservation
    }
  }

  function Snap<T>(objects: map<Id, Versioned<T>>, id: Id): Snapshot<T>
    requires id in objects
  {
    Snapshot(id, objects[id].version, objects[id].value)
  }

  /** The objects that an operation names exist. */
  predicate Named(s: Store, op: Op) {
    match op
    case Create(r, t, _) => r in s.restaurants && t in s.tables
    case Authorize(v, t, _, _, _) => v in s.reservations && t in s.tables
    case Cancel(v, t, _, _) => v in s.reservations && t in s.tables
    case ConfigureRestaurant(r, _) => r in s.restaurants
    case ConfigureTable(t, _) => t in s.tables
  }

  /** The batch that a ledger operation computes from the store as it stands. */
  function BatchOf(s: Store, op: Op): Result<Batch, Error>
    requires Named(s, op) && op.EditsLedger()
  {
    match op
    case Create(r, t, request) => CreateReservation(Snap(s.restaurants, r), Snap(s.tables, t), request)
    case Authorize(v, t, attemptId, payment, at) =>
      AuthorizeDeposit(Snap(s.reservations, v), Snap(s.tables, t), attemptId, payment, at)
    case Cancel(v, t, cancellationId, at) =>
      CancelReservation(Snap(s.reservations, v), Snap(s.tables, t), cancellationId, at)
  }

  /** Read, compute and commit with nothing in between; `None` if the call raises or conflicts. */
  function RunAlone(s: Store, op: Op): Option<Store> {
    if !Named(s, op) then None
    else match op
      case ConfigureRestaurant(id, policy) =>
        var r := s.restaurants[id];
        Some(s.(restaurants :=
                  s.restaurants[id := Versioned(r.version + 1, SetRestaurantPolicy(r.value, policy))]))
      case ConfigureTable(id, policy) =>
        var t := s.tables[id];
        Some(s.(tables := s.tables[id := Versioned(t.version + 1, SetTablePolicy(t.value, policy))]))
      case _ =>
        match BatchOf(s, op)
        case Err(_) => None
        case Ok(batch) => Commit(s, batch)
  }

  function Replay(init: Store, ops: seq<Op>): Option<Store> {
    if ops == [] then Some(init)
    else match Replay(init, ops[..|ops| - 1])
      case None => None
      case Some(s) => RunAlone(s, ops[|ops| - 1])
  }

  // ----- runs

  /** No reservations yet, and empty ledgers. */
  ghost predicate Initial(s: Store) {
    && s.reservations == map[]
    && forall t :: t in s.tables ==> s.tables[t].value.ledger == []
  }

  /** The states that committed operations, each run alone, go through. */
  datatype Run = Run(states: seq<Store>, ops: seq<Op>) {
    ghost predicate Valid() {
      && |states| == |ops| + 1
      && Initial(states[0])
      && forall i {:trigger Unfold(i)} ::
           0 <= i < |ops| && Unfold(i) ==> RunAlone(states[i], ops[i]) == Some(states[i + 1])
    }

    /** Always true: a proof mentions it to use one step, so that other proofs need not carry the steps. */
    static ghost predicate Unfold(i: int) {
      true
    }

    ghost function Final(): Store
      requires Valid()
    {
      states[|ops|]
    }
  }

  /** A run goes on with any operation that commits on its last state. */
  function ExtendRun(run: Run, op: Op, s: Store): Run {
    Run(run.states + [s], run.ops + [op])
  }

  lemma ExtendIsValid(run: Run, op: Op, s: Store)
    requires run.Valid() && RunAlone(run.Final(), op) == Some(s)
    ensures ExtendRun(run, op, s).Valid()
  {
    var longer := ExtendRun(run, op, s);
    forall i | 0 <= i < |longer.ops| ensures RunAlone(longer.states[i], longer.ops[i]) == Some(longer.states[i + 1]) {
      assert Run.Unfold(i);
    }
  }

  lemma {:induction false} ReplayGivesRun(init: Store, ops: seq<Op>) returns (run: Run)
    requires Initial(init) && Replay(init, ops).Some?
    ensures run.Valid() && run.ops == ops && run.states[0] == init && run.Final() == Replay(init, ops).value
  {
    if ops == [] {
      run := Run([init], []);
    } else {
      var front := ReplayGivesRun(init, ops[..|ops| - 1]);
      run := ExtendRun(front, ops[|ops| - 1], Replay(init, ops).value);
      ExtendIsValid(front, ops[|ops| - 1], Replay(init, ops).value);
    }
  }
}
