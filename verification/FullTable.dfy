/**
 A table that is booked out day by day until its ledger holds 500 entries, and a request that is then
 refused for their number: under a negative minimum notice it asks for the day before.
 */
module FullTable {
  import opened Basics
  import opened ReservationData
  import opened Ledger
  import opened Policy
  import opened EditFunctions
  import opened Store
  import opened TableHistory
  import opened Packing
  import opened DayTables

  /** The restaurant is willing to seat a diner a day ago. */
  const NOTICE := Some(-24 * 60)

  /** A name of `i + 1` characters. */
  function Name(i: nat): Id {
    seq(i + 1, _ => 'r')
  }

  function DayLedger(n: nat): seq<Entry> {
    seq(n, i requires 0 <= i < n => DayEntry(Name(i), i))
  }

  lemma {:induction false} NothingExpires(n: nat)
    ensures Active(DayLedger(n), 0) == DayLedger(n)
  {
    if n > 0 {
      NothingExpires(n - 1);
      assert DayLedger(n)[..n - 1] == DayLedger(n - 1);
    }
  }

  lemma NextDayIsFree(n: nat)
    requires n <= LEDGER_LIMIT
    ensures n < LEDGER_LIMIT ==> Free(DayLedger(n), NOTICE, n, 0)
    ensures Free(DayLedger(n), NOTICE, -1, 0)
  {
    forall e | e in DayLedger(n) ensures !Meets(n * DAY, n * DAY + DAY, e) && !Meets(-1 * DAY, -1 * DAY + DAY, e) {
      var i :| 0 <= i < n && e == DayEntry(Name(i), i);
    }
  }

  ghost predicate AllBooked(states: seq<Store>) {
    forall i :: 0 <= i < |states| ==> Site(states[i], NOTICE, DayLedger(i))
  }

  ghost predicate OneDayEach(ops: seq<Op>) {
    forall i :: 0 <= i < |ops| ==> ops[i] == Reserve(Name(i), i, 0)
  }

  /** A run that books the days before `n`, one after the other. */
  ghost predicate BooksDays(run: Run, n: nat) {
    && run.Valid() && |run.ops| == n && AllBooked(run.states) && OneDayEach(run.ops)
    && ShortNames(run.Final(), n)
  }

  lemma AppendBooked(states: seq<Store>, ops: seq<Op>, s: Store)
    requires AllBooked(states) && OneDayEach(ops) && Site(s, NOTICE, DayLedger(|states|))
    ensures AllBooked(states + [s]) && OneDayEach(ops + [Reserve(Name(|ops|), |ops|, 0)])
  {
  }

  ghost predicate ShortNames(s: Store, n: nat) {
    forall id :: id in s.reservations ==> |id| <= n
  }

  lemma BookDay(run: Run, n: nat) returns (longer: Run)
    requires n < LEDGER_LIMIT && run.Valid() && Site(run.Final(), NOTICE, DayLedger(n)) && ShortNames(run.Final(), n)
    ensures longer.Valid() && longer == ExtendRun(run, Reserve(Name(n), n, 0), longer.Final())
    ensures Site(longer.Final(), NOTICE, DayLedger(n + 1)) && ShortNames(longer.Final(), n + 1)
  {
    NothingExpires(n);
    NextDayIsFree(n);
    longer := ReserveInRun(run, NOTICE, DayLedger(n), Name(n), n, 0);
    assert DayLedger(n) + [DayEntry(Name(n), n)] == DayLedger(n + 1);
  }

  lemma BookOneMore(run: Run, n: nat) returns (longer: Run)
    requires n < LEDGER_LIMIT && BooksDays(run, n)
    ensures BooksDays(longer, n + 1)
  {
    longer := BookDay(run, n);
    AppendBooked(run.states, run.ops, longer.Final());
  }

  lemma {:induction false} BookDays(n: nat) returns (run: Run)
    requires n <= LEDGER_LIMIT
    ensures BooksDays(run, n)
  {
    if n == 0 {
      run := StartRun(NOTICE);
    } else {
      run := BookDays(n - 1);
      run := BookOneMore(run, n - 1);
    }
  }

  lemma SiteIsRoomy(s: Store, n: nat, op: Op)
    requires Site(s, NOTICE, DayLedger(n)) && op == Reserve(Name(n), n, 0)
    ensures SpacedCreate(s, op, DAY, DAYS_AHEAD * DAY)
    ensures Roomy(s, "restaurant", "table", DAY, DAYS_AHEAD * DAY)
  {
  }

  lemma BookedRunIsOrderly(run: Run, n: nat)
    requires BooksDays(run, n)
    ensures "table" in run.states[0].tables
    ensures InOrder(run, n, "table", 0) && Spaced(run, n, "table", DAY, DAYS_AHEAD * DAY)
  {
    assert Site(run.states[0], NOTICE, DayLedger(0));
    forall i | 0 <= i < n ensures SpacedCreate(run.states[i], run.ops[i], DAY, DAYS_AHEAD * DAY) {
      SiteIsRoomy(run.states[i], i, run.ops[i]);
    }
  }

  function DayBefore(): CreateRequest {
    Request("late", -1, 0)
  }

  lemma DayBeforeIsRefused(t: Snapshot<Table>)
    requires t.objectId == "table" && t.objectVersion >= 0
    requires IsDayTable(t.value) && t.value.ledger == DayLedger(LEDGER_LIMIT)
    ensures CreateReservation(Snapshot("restaurant", 1, DayRestaurant(NOTICE)), t, DayBefore()) == Err(LedgerFull)
    ensures var quote := QuotePolicy(DayRestaurant(NOTICE), t.value, DayBefore().inquiry);
            quote.Ok? && quote.value.isBookable
  {
    NextDayIsFree(LEDGER_LIMIT);
    FreeDayIsBookable(t.value, NOTICE, "late", -1, 0);
    NothingExpires(LEDGER_LIMIT);
  }

  /**
   The entry limit can be reached: all conditions of the packing result hold except that the request is for a
   seating that is over, and the accepted, bookable request is refused because of the 500 active entries.
   */
  lemma PastRequestReachesTheLimit() returns (run: Run)
    ensures run.Valid() && "table" in run.states[0].tables
    ensures Roomy(run.Final(), "restaurant", "table", DAY, DAYS_AHEAD * DAY)
    ensures InOrder(run, |run.ops|, "table", DayBefore().inquiry.requestedAt)
    ensures Spaced(run, |run.ops|, "table", DAY, DAYS_AHEAD * DAY)
    ensures var s := run.Final();
            var quote := QuotePolicy(s.restaurants["restaurant"].value, s.tables["table"].value, DayBefore().inquiry);
            && quote.Ok? && quote.value.isBookable && DayBefore().acceptedPolicy
            && CreateReservation(Snap(s.restaurants, "restaurant"), Snap(s.tables, "table"), DayBefore())
               == Err(LedgerFull)
  {
    run := BookDays(LEDGER_LIMIT);
    BookedRunIsOrderly(run, LEDGER_LIMIT);
    SiteIsRoomy(run.Final(), LEDGER_LIMIT, Reserve(Name(LEDGER_LIMIT), LEDGER_LIMIT, 0));
    DayBeforeIsRefused(Snap(run.Final().tables, "table"));
  }
}
