/**
 What a backdated call can do: a reservation is made, a later one on the same table prunes its entry after it has
 ended, and a call that supplies an earlier time is then given the same seats at the same time again.
 */
module Backdating {
  import opened Basics
  import opened ReservationData
  import opened Ledger
  import opened Store
  import opened Bookings
  import opened TableHistory
  import opened RecordBookings
  import opened DayTables

  lemma ActiveOfOne(e: Entry, at: int)
    ensures Active([e], at) == if IsActive(e, at) then [e] else []
  {
    assert [e][..0] == [];
  }

  /** On day 0 the table is reserved for day 1 as `first`. */
  lemma FirstRun() returns (run: Run)
    ensures run.Valid() && run.ops == [Reserve("first", 1, 0)] && run.Final().reservations.Keys == {"first"}
    ensures Site(run.Final(), None, [DayEntry("first", 1)]) && Reserved(run.Final(), "first", 1)
  {
    run := StartRun(None);
    run := ReserveInRun(run, None, [], "first", 1, 0);
    assert Active([], 0) + [DayEntry("first", 1)] == [DayEntry("first", 1)];
  }

  /** On day 3 it is reserved for day 4; that prunes the entry of `first`, which has ended. */
  lemma SecondRun() returns (run: Run)
    ensures run.Valid() && run.ops == [Reserve("first", 1, 0), Reserve("next", 4, 3)]
    ensures Site(run.Final(), None, [DayEntry("next", 4)]) && Reserved(run.Final(), "next", 4)
    ensures Reserved(run.states[1], "first", 1) && Reserved(run.Final(), "first", 1)
    ensures run.Final().reservations.Keys == {"first", "next"}
  {
    run := FirstRun();
    ActiveOfOne(DayEntry("first", 1), 3 * DAY);
    run := ReserveInRun(run, None, [DayEntry("first", 1)], "next", 4, 3);
    assert [] + [DayEntry("next", 4)] == [DayEntry("next", 4)];
  }

  /**
   Two confirmed reservations of one table for the same day: with day 0 supplied as the time again, the table is
   reserved for day 1 as `second`.  No reservation is made after it was to start; only the times are out of order.
   */
  lemma TwoConfirmedForOneDay() returns (run: Run)
    ensures run.Valid() && run.ops == [Reserve("first", 1, 0), Reserve("next", 4, 3), Reserve("second", 1, 0)]
    ensures Creates(run.ops[0], "table", "first") && Creates(run.ops[2], "table", "second") && StartsLater(run, "table")
    ensures Confirmed(run.Final(), "first") && Confirmed(run.Final(), "second")
    ensures forall instant :: DAY <= instant < 2 * DAY ==>
              && Within(RecordEntry(run.Final(), "first").startsAt, RecordEntry(run.Final(), "first").endsAt, instant)
              && Within(RecordEntry(run.Final(), "second").startsAt, RecordEntry(run.Final(), "second").endsAt, instant)
  {
    run := SecondRun();
    ActiveOfOne(DayEntry("next", 4), 0);
    run := ReserveInRun(run, None, [DayEntry("next", 4)], "second", 1, 0);
  }

  /** A backdated look at a reachable ledger does see that it was pruned. */
  lemma BackdatedLookDiffers() returns (run: Run)
    ensures run.Valid() && |run.ops| == 2 && "table" in run.Final().tables
    ensures Active(LedgerOf(run.Final(), "table"), 0) != Active(History(run, 2, "table"), 0)
  {
    run := SecondRun();
    var e := DayEntry("first", 1);
    assert History(run, 1, "table") == History(run, 0, "table") + [e];
    assert e in History(run, 2, "table");
    ActiveMember(History(run, 2, "table"), 0, e);
    ActiveMember(LedgerOf(run.Final(), "table"), 0, e);
  }
}
