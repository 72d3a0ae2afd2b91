/** A restaurant whose seatings take a whole day, for runs that show where a promise ends. */
module DayTables {
  import opened Basics
  import opened ReservationData
  import opened Ledger
  import opened Policy
  import opened EditFunctions
  import opened Store
  import opened RecordBookings

  const DAYS_AHEAD := LEDGER_LIMIT - 1

  /** Open around the clock and 499 days ahead. */
  function DayRestaurant(notice: Option<int>): Restaurant {
    Restaurant(
      restaurantId := "restaurant",
      isOpen := true,
      serviceStart := None,
      lastSeating := None,
      slotIntervalMinutes := None,
      bookingWindowDays := Some(DAYS_AHEAD),
      minAdvanceMinutes := notice,
      closedWeekdays := {},
      maxOnlinePartySize := None,
      largePartyThreshold := None,
      autoConfirmPartySizeMax := None,
      depositPerPersonKrw := None,
      depositHoldMinutes := None,
      cancellationCutoffHours := None,
      lateArrivalGraceMinutes := None,
      quoteValidityMinutes := None,
      policyVersion := "")
  }

  function DayTable(ledger: seq<Entry>, updatedAt: Option<int>, last: Option<Id>): Table {
    Table(
      restaurantId := "restaurant",
      tableId := "table",
      isAvailable := true,
      capacity := Some(2),
      minPartySize := None,
      turnTimeMinutes := Some(24 * 60),
      isAccessible := false,
      isWindow := false,
      ledger := ledger,
      inventoryUpdatedAt := updatedAt,
      lastReservationId := last)
  }

  predicate IsDayTable(t: Table) {
    t == DayTable(t.ledger, t.inventoryUpdatedAt, t.lastReservationId)
  }

  function DayEntry(name: Id, day: int): Entry {
    Entry(name, day * DAY, day * DAY + DAY, Booked)
  }

  /** Asks on one day for the whole of another. */
  function Request(name: Id, day: int, asked: int): CreateRequest {
    CreateRequest(name, Inquiry(Moment(day * DAY, 0), asked * DAY, 2, true, NoPreference), true)
  }

  function Reserve(name: Id, day: int, asked: int): Op {
    Create("restaurant", "table", Request(name, day, asked))
  }

  /** A seating at midnight within notice and booking window that meets no active entry. */
  ghost predicate Seatable(ledger: seq<Entry>, notice: Option<int>, q: Inquiry) {
    && q.desiredAt.LocalMinute() == 0 && q.partySize == 2 && q.hasPhone && q.seating == NoPreference
    && q.requestedAt + notice.GetOr(0) * MINUTE <= q.desiredAt.instant <= q.requestedAt + DAYS_AHEAD * DAY
    && |ledger| <= LEDGER_LIMIT
    && forall e :: e in ledger && IsActive(e, q.requestedAt) ==>
                     !Meets(q.desiredAt.instant, q.desiredAt.instant + DAY, e)
  }

  lemma TimelyDay(t: Table, notice: Option<int>, q: Inquiry)
    requires q.desiredAt.LocalMinute() == 0
    requires q.requestedAt + notice.GetOr(0) * MINUTE <= q.desiredAt.instant <= q.requestedAt + DAYS_AHEAD * DAY
    ensures TimelyRequest(DayRestaurant(notice), q)
  {
    TimelyExactly(DayRestaurant(notice), t, q);
  }

  lemma SeatableIsBookable(t: Table, notice: Option<int>, q: Inquiry)
    requires IsDayTable(t) && Seatable(t.ledger, notice, q)
    ensures var quote := QuotePolicy(DayRestaurant(notice), t, q);
            quote.Ok? && quote.value.isBookable && quote.value.decision == AutoConfirmed
  {
    var r := DayRestaurant(notice);
    TimelyDay(t, notice, q);
    assert Complies(r, t, q);
    QuoteExactly(r, t, q);
  }

  /** No active entry of the ledger stands in the way of the day. */
  ghost predicate Free(ledger: seq<Entry>, notice: Option<int>, day: int, asked: int) {
    && asked * DAY + notice.GetOr(0) * MINUTE <= day * DAY && day <= asked + DAYS_AHEAD && |ledger| <= LEDGER_LIMIT
    && forall e :: e in ledger && IsActive(e, asked * DAY) ==> !Meets(day * DAY, day * DAY + DAY, e)
  }

  lemma DayIsOnTheGrid(day: int)
    ensures Moment(day * DAY, 0).LocalMinute() == 0
  {
  }

  lemma FreeDayIsBookable(t: Table, notice: Option<int>, name: Id, day: int, asked: int)
    requires IsDayTable(t) && Free(t.ledger, notice, day, asked)
    ensures var quote := QuotePolicy(DayRestaurant(notice), t, Request(name, day, asked).inquiry);
            quote.Ok? && quote.value.isBookable && quote.value.decision == AutoConfirmed
  {
    DayIsOnTheGrid(day);
    SeatableIsBookable(t, notice, Request(name, day, asked).inquiry);
  }

  /** The restaurant, and its table with this ledger. */
  ghost predicate Site(s: Store, notice: Option<int>, ledger: seq<Entry>) {
    && s.restaurants == map["restaurant" := Versioned(1, DayRestaurant(notice))]
    && "table" in s.tables && 0 <= s.tables["table"].version
    && IsDayTable(s.tables["table"].value) && s.tables["table"].value.ledger == ledger
  }

  /** The record is confirmed for the day. */
  ghost predicate Reserved(s: Store, name: Id, day: int) {
    Confirmed(s, name) && RecordEntry(s, name) == DayEntry(name, day)
  }

  /** What the batch for a free day looks like. */
  ghost predicate IsReservation(batch: Batch, version: int, ledger: seq<Entry>, name: Id, day: int, asked: int) {
    && batch.reservation.CreateObject? && batch.reservation.primaryKey == name
    && batch.reservation.properties.hold == HoldBooked
    && EntryFor(batch.reservation.properties) == DayEntry(name, day)
    && batch.table == TableEdit("table", version, Active(ledger, asked * DAY) + [DayEntry(name, day)], asked * DAY, Some(name))
    && batch.readSet == map[RestaurantRef("restaurant") := 1, TableRef("table") := version]
  }

  lemma ReserveBatch(notice: Option<int>, t: Snapshot<Table>, name: Id, day: int, asked: int)
    requires t.objectId == "table" && t.objectVersion >= 0 && IsDayTable(t.value)
    requires Free(t.value.ledger, notice, day, asked) && |Active(t.value.ledger, asked * DAY)| < LEDGER_LIMIT
    ensures var r := Snapshot("restaurant", 1, DayRestaurant(notice));
            var result := CreateReservation(r, t, Request(name, day, asked));
            result.Ok? && IsReservation(result.value, t.objectVersion, t.value.ledger, name, day, asked)
  {
    FreeDayIsBookable(t.value, notice, name, day, asked);
  }

  lemma ReserveCommits(s: Store, notice: Option<int>, ledger: seq<Entry>, name: Id, day: int, asked: int, batch: Batch)
    requires Site(s, notice, ledger) && name !in s.reservations
    requires IsReservation(batch, s.tables["table"].version, ledger, name, day, asked)
    ensures Commit(s, batch).Some?
    ensures var s' := Commit(s, batch).value;
            && Site(s', notice, Active(ledger, asked * DAY) + [DayEntry(name, day)]) && Reserved(s', name, day)
            && s'.reservations == s.reservations[name := s'.reservations[name]]
  {
  }

  lemma ReserveNext(s: Store, notice: Option<int>, ledger: seq<Entry>, name: Id, day: int, asked: int)
    returns (s': Store)
    requires Site(s, notice, ledger) && Free(ledger, notice, day, asked) && name !in s.reservations
    requires |Active(ledger, asked * DAY)| < LEDGER_LIMIT
    ensures RunAlone(s, Reserve(name, day, asked)) == Some(s')
    ensures Site(s', notice, Active(ledger, asked * DAY) + [DayEntry(name, day)]) && Reserved(s', name, day)
    ensures s'.reservations == s.reservations[name := s'.reservations[name]]
  {
    var r, t := Snap(s.restaurants, "restaurant"), Snap(s.tables, "table");
    ReserveBatch(notice, t, name, day, asked);
    var batch := CreateReservation(r, t, Request(name, day, asked)).value;
    ReserveCommits(s, notice, ledger, name, day, asked, batch);
    s' := Commit(s, batch).value;
  }

  lemma StartRun(notice: Option<int>) returns (run: Run)
    ensures run.Valid() && |run.ops| == 0 && Site(run.Final(), notice, []) && run.Final().reservations == map[]
  {
    var s := Store(map["restaurant" := Versioned(1, DayRestaurant(notice))],
                   map["table" := Versioned(1, DayTable([], None, None))], map[]);
    run := Run([s], []);
  }

  /** The run goes on with one more reservation. */
  lemma ReserveInRun(run: Run, notice: Option<int>, ledger: seq<Entry>, name: Id, day: int, asked: int)
    returns (longer: Run)
    requires run.Valid() && Site(run.Final(), notice, ledger) && Free(ledger, notice, day, asked)
    requires name !in run.Final().reservations && |Active(ledger, asked * DAY)| < LEDGER_LIMIT
    ensures longer.Valid() && longer == ExtendRun(run, Reserve(name, day, asked), longer.Final())
    ensures Site(longer.Final(), notice, Active(ledger, asked * DAY) + [DayEntry(name, day)])
    ensures Reserved(longer.Final(), name, day)
    ensures longer.Final().reservations == run.Final().reservations[name := longer.Final().reservations[name]]
  {
    var s := ReserveNext(run.Final(), notice, ledger, name, day, asked);
    ExtendIsValid(run, Reserve(name, day, asked), s);
    longer := ExtendRun(run, Reserve(name, day, asked), s);
  }
}
