/**
 When reservation records, and not only ledger entries, keep out of each other's way.

 A record stays after its entry has been pruned, and only entries block a table.  So the question when a record
 still blocks its table is answered exactly, for every run, from the times of the operations on that table.
 */
module RecordBookings {
  import opened ReservationData
  import opened Ledger
  import opened Policy
  import opened EditFunctions
  import opened Store
  import opened Effects
  import opened Bookings
  import opened InventoryVersions
  import opened TableHistory
  import opened Money
  import opened Outcomes

  ghost predicate Creates(op: Op, t: Id, id: Id) {
    op.Create? && op.table == t && op.request.reservationId == id
  }

  /** The reservation exists and has not been cancelled. */
  ghost predicate Uncancelled(s: Store, id: Id) {
    id in s.reservations && s.reservations[id].value.hold != HoldReleased
  }

  ghost predicate Confirmed(s: Store, id: Id) {
    id in s.reservations && s.reservations[id].value.hold == HoldBooked
  }

  /** The entry that the record of a reservation describes. */
  ghost function RecordEntry(s: Store, id: Id): Entry
    requires id in s.reservations
  {
    EntryFor(s.reservations[id].value)
  }

  /** The entry was active at the times of all operations on the table between `i` and `n`. */
  ghost predicate AlwaysActive(run: Run, i: nat, n: nat, t: Id, e: Entry)
    requires run.Valid() && n <= |run.ops|
  {
    forall k :: i < k < n && EditsTable(run.ops[k], t) ==> IsActive(e, run.ops[k].When())
  }

  // ----- one step

  lemma StepUncancelled(s: Store, op: Op, s': Store, id: Id)
    requires Effect(s, op, s') && Uncancelled(s', id) && id in s.reservations
    ensures Uncancelled(s, id)
  {
  }

  /** What an operation on another reservation of the table leaves of an entry. */
  lemma EditOfOther(s: Store, op: Op, s': Store, t: Id, e: Entry)
    requires Inv(s) && Effect(s, op, s') && EditsTable(op, t) && op.Subject() != e.reservationId && t in s.tables
    ensures t in s'.tables
    ensures e in LedgerOf(s', t) <==> e in LedgerOf(s, t) && IsActive(e, op.When())
  {
    var active := Active(LedgerOf(s, t), op.When());
    ActiveMember(LedgerOf(s, t), op.When(), e);
    WrittenLedger(s, op, s', t);
    match op {
      case Create(_, _, request) =>
        assert s'.reservations[request.reservationId].value.reservationId == request.reservationId;
      case Authorize(v, _, _, _, _) => BookOfOther(active, v, e);
      case Cancel(v, _, _, _) => WithoutIdMember(active, v, e);
    }
  }

  lemma BookOfOther(ledger: seq<Entry>, id: Id, e: Entry)
    requires e.reservationId != id
    ensures e in BookId(ledger, id) <==> e in ledger
  {
    if e in ledger {
      var k :| 0 <= k < |ledger| && ledger[k] == e;
      assert BookId(ledger, id)[k] == e;
    }
  }

  lemma PaidRecord(s: Store, op: Op, s': Store, id: Id)
    requires Effect(s, op, s') && op.Authorize? && op.reservation == id
    ensures id in s.reservations && id in s'.reservations
    ensures RecordEntry(s', id) == RecordEntry(s, id).(claim := Booked)
  {
  }

  /** A payment finds the record's entry in the ledger and active, and leaves it there as a booking. */
  lemma PaymentOfRecord(s: Store, op: Op, s': Store, t: Id, id: Id)
    requires Inv(s) && Effect(s, op, s') && op.Authorize? && op.table == t && op.reservation == id
    ensures id in s.reservations && id in s'.reservations && t in s.tables && t in s'.tables
    ensures RecordEntry(s, id) in LedgerOf(s, t) && IsActive(RecordEntry(s, id), op.When())
    ensures RecordEntry(s', id) == RecordEntry(s, id).(claim := Booked) && RecordEntry(s', id) in LedgerOf(s', t)
  {
    var e, active := RecordEntry(s, id), Active(LedgerOf(s, t), op.When());
    PaidRecord(s, op, s', id);
    WrittenLedger(s, op, s', t);
    ActiveMeansStands(s, id, t, op.When());
    ActiveMember(LedgerOf(s, t), op.When(), e);
    EditedLedgerKeeps(active, id, e);
    assert s.reservations[id].value.reservationId == id;
  }

  /**
   One step in the life of a record's entry: it stays exactly if it was there and is active at the time of the
   operation, when that works on the table; and it changes at most from a hold to a booking.
   */
  lemma StepLife(s: Store, op: Op, s': Store, t: Id, id: Id)
    requires Inv(s) && Effect(s, op, s') && t in s.tables && id in s.reservations && Uncancelled(s', id)
    requires TouchesRecord(op, id) ==> op.table == t && !op.Create?
    ensures t in s'.tables
    ensures RecordEntry(s', id) in LedgerOf(s', t)
            <==> && RecordEntry(s, id) in LedgerOf(s, t)
                 && (EditsTable(op, t) ==> IsActive(RecordEntry(s', id), op.When()))
    ensures RecordEntry(s', id) == RecordEntry(s, id)
            || (RecordEntry(s, id) in LedgerOf(s, t) && RecordEntry(s', id) in LedgerOf(s', t)
                && RecordEntry(s', id) == RecordEntry(s, id).(claim := Booked))
  {
    if TouchesRecord(op, id) {
      if op.Authorize? {
        PaymentOfRecord(s, op, s', t, id);
      }
    } else {
      StepRecord(s, op, s', id);
      if EditsTable(op, t) {
        EditOfOther(s, op, s', t, RecordEntry(s, id));
      } else {
        StepElsewhere(s, op, s', t);
      }
    }
  }

  // ----- whole runs

  lemma CreatedEntryIsThere(run: Run, i: nat, t: Id, id: Id)
    requires run.Valid() && i < |run.ops| && Creates(run.ops[i], t, id)
    ensures id in run.states[i + 1].reservations && t in run.states[i + 1].tables
    ensures RecordEntry(run.states[i + 1], id) in LedgerOf(run.states[i + 1], t)
  {
    StepEffect(run, i);
  }

  lemma StillThere(run: Run, i: nat, n: nat, t: Id, id: Id)
    requires run.Valid() && i < n <= |run.ops| && Creates(run.ops[i], t, id)
    ensures id in run.states[n].reservations && t in run.states[n].tables
  {
    CreatedEntryIsThere(run, i, t, id);
    TermsArePinned(run, i + 1, n, id);
    VersionsGrow(run, i + 1, n, t);
  }

  lemma {:induction false} UncancelledBefore(run: Run, m: nat, n: nat, id: Id)
    requires run.Valid() && m <= n <= |run.ops| && id in run.states[m].reservations && Uncancelled(run.states[n], id)
    ensures Uncancelled(run.states[m], id)
  {
    if m < n {
      TermsArePinned(run, m, n - 1, id);
      StepEffect(run, n - 1);
      StepUncancelled(run.states[n - 1], run.ops[n - 1], run.states[n], id);
      UncancelledBefore(run, m, n - 1, id);
    }
  }

  /** `StepLife` for a step of a run. */
  lemma LifeInRun(run: Run, i: nat, n: nat, t: Id, id: Id)
    requires run.Valid() && i < n < |run.ops| && Creates(run.ops[i], t, id) && Uncancelled(run.states[n + 1], id)
    ensures id in run.states[n].reservations && t in run.states[n].tables && t in run.states[n + 1].tables
    ensures var s, s', op := run.states[n], run.states[n + 1], run.ops[n];
            && (RecordEntry(s', id) in LedgerOf(s', t)
                <==> && RecordEntry(s, id) in LedgerOf(s, t)
                     && (EditsTable(op, t) ==> IsActive(RecordEntry(s', id), op.When())))
            && (RecordEntry(s', id) == RecordEntry(s, id)
                || (RecordEntry(s, id) in LedgerOf(s, t) && RecordEntry(s', id) in LedgerOf(s', t)
                    && RecordEntry(s', id) == RecordEntry(s, id).(claim := Booked)))
  {
    StillThere(run, i, n, t, id);
    RunKeepsInv(run, n);
    StepEffect(run, n);
    if TouchesRecord(run.ops[n], id) {
      OneTableForLife(run, i, n, id);
    }
    StepLife(run.states[n], run.ops[n], run.states[n + 1], t, id);
  }

  lemma AlwaysActiveNext(run: Run, i: nat, n: nat, t: Id, e: Entry, e': Entry)
    requires run.Valid() && i < n < |run.ops| && (e' == e || e' == e.(claim := Booked))
    ensures AlwaysActive(run, i, n + 1, t, e')
            <==> AlwaysActive(run, i, n, t, e') && (EditsTable(run.ops[n], t) ==> IsActive(e', run.ops[n].When()))
    ensures AlwaysActive(run, i, n, t, e) ==> AlwaysActive(run, i, n, t, e')
  {
  }

  /**
   How long a record blocks its table: in every run, whatever times the callers supply, the entry of an uncancelled
   reservation is in its table's ledger exactly if it was active at the time of every operation on that table since
   the reservation was created.
   */
  lemma {:induction false} EntryLivesExactly(run: Run, i: nat, n: nat, t: Id, id: Id)
    requires run.Valid() && i < n <= |run.ops| && Creates(run.ops[i], t, id) && Uncancelled(run.states[n], id)
    ensures t in run.states[n].tables
    ensures RecordEntry(run.states[n], id) in LedgerOf(run.states[n], t)
            <==> AlwaysActive(run, i, n, t, RecordEntry(run.states[n], id))
  {
    if n == i + 1 {
      CreatedEntryIsThere(run, i, t, id);
    } else {
      LifeInRun(run, i, n - 1, t, id);
      UncancelledBefore(run, n - 1, n, id);
      EntryLivesExactly(run, i, n - 1, t, id);
      AlwaysActiveNext(run, i, n - 1, t, RecordEntry(run.states[n - 1], id), RecordEntry(run.states[n], id));
    }
  }

  // ----- when a request meets with a conflict

  /** The reservation was created on the table, is not cancelled, and its entry has always been active, as it is at `at`. */
  ghost predicate Blocks(run: Run, i: nat, n: nat, t: Id, id: Id, at: int)
    requires run.Valid() && n <= |run.ops|
  {
    && i < n && Creates(run.ops[i], t, id) && Uncancelled(run.states[n], id)
    && AlwaysActive(run, i, n, t, RecordEntry(run.states[n], id)) && IsActive(RecordEntry(run.states[n], id), at)
  }

  lemma WrittenIdsInRun(run: Run, n: nat, t: Id, id: Id)
    requires run.Valid() && n < |run.ops|
    requires t in run.states[n + 1].tables && HasId(LedgerOf(run.states[n + 1], t), id)
    ensures t in run.states[n].tables && (HasId(LedgerOf(run.states[n], t), id) || Creates(run.ops[n], t, id))
  {
    RunKeepsInv(run, n);
    StepEffect(run, n);
    WrittenIds(run.states[n], run.ops[n], run.states[n + 1], t, id);
  }

  lemma {:induction false} EntryWasCreated(run: Run, n: nat, t: Id, id: Id) returns (i: nat)
    requires run.Valid() && n <= |run.ops| && t in run.states[n].tables && HasId(LedgerOf(run.states[n], t), id)
    ensures i < n && Creates(run.ops[i], t, id)
  {
    i := n;
    if n > 0 {
      WrittenIdsInRun(run, n - 1, t, id);
      if Creates(run.ops[n - 1], t, id) {
        i := n - 1;
      } else {
        i := EntryWasCreated(run, n - 1, t, id);
      }
    }
  }

  lemma ActiveEntryBlocks(run: Run, n: nat, t: Id, at: int, e: Entry) returns (i: nat)
    requires run.Valid() && n <= |run.ops| && t in run.states[n].tables
    requires e in LedgerOf(run.states[n], t) && IsActive(e, at)
    ensures Blocks(run, i, n, t, e.reservationId, at) && RecordEntry(run.states[n], e.reservationId) == e
  {
    RunKeepsInv(run, n);
    assert LedgerInv(run.states[n], t);
    assert Agrees(run.states[n], t, e);
    HasIdMember(LedgerOf(run.states[n], t), e);
    i := EntryWasCreated(run, n, t, e.reservationId);
    EntryLivesExactly(run, i, n, t, e.reservationId);
  }

  lemma BlockingEntryIsActive(run: Run, i: nat, n: nat, t: Id, id: Id, at: int)
    requires run.Valid() && n <= |run.ops| && Blocks(run, i, n, t, id, at)
    ensures t in run.states[n].tables && RecordEntry(run.states[n], id) in Active(LedgerOf(run.states[n], t), at)
  {
    EntryLivesExactly(run, i, n, t, id);
    ActiveMember(LedgerOf(run.states[n], t), at, RecordEntry(run.states[n], id));
  }

  /**
   Conflicts told from records and times: in every run a request meets with a conflict exactly if its interval meets
   that of an uncancelled reservation of the table whose entry was active at the time of every operation on the table
   since its creation, and is active at the time of the request.
   */
  lemma ConflictsExactly(run: Run, n: nat, t: Id, at: int, start: int, end: int)
    requires run.Valid() && n <= |run.ops| && t in run.states[n].tables
    ensures Conflicts(LedgerOf(run.states[n], t), at, start, end)
            <==> exists i: nat, id: Id ::
                   Blocks(run, i, n, t, id, at) && Meets(start, end, RecordEntry(run.states[n], id))
  {
    var ledger := LedgerOf(run.states[n], t);
    if Conflicts(ledger, at, start, end) {
      var e :| e in Active(ledger, at) && Meets(start, end, e);
      ActiveMember(ledger, at, e);
      var i := ActiveEntryBlocks(run, n, t, at, e);
      assert Blocks(run, i, n, t, e.reservationId, at) && Meets(start, end, RecordEntry(run.states[n], e.reservationId));
    }
    if i: nat, id: Id :| Blocks(run, i, n, t, id, at) && Meets(start, end, RecordEntry(run.states[n], id)) {
      BlockingEntryIsActive(run, i, n, t, id, at);
    }
  }

  // ----- confirmed records that meet

  /** An operation on the table after `i` and before `n` came with a time at or past `end`. */
  ghost predicate Overtaken(run: Run, i: nat, n: nat, t: Id, end: int)
    requires run.Valid() && n <= |run.ops|
  {
    exists k :: i < k < n && EditsTable(run.ops[k], t) && end <= run.ops[k].When()
  }

  /**
   A confirmed reservation blocks a request at `at` exactly if neither the request nor any operation on the table since
   its creation came with a time at or past its end; otherwise its entry has been pruned or does not count.
   */
  lemma ConfirmedBlocksExactly(run: Run, i: nat, n: nat, t: Id, id: Id, at: int)
    requires run.Valid() && i < n <= |run.ops| && Creates(run.ops[i], t, id) && Confirmed(run.states[n], id)
    ensures t in run.states[n].tables
    ensures var e := RecordEntry(run.states[n], id);
            e in Active(LedgerOf(run.states[n], t), at) <==> at < e.endsAt && !Overtaken(run, i, n, t, e.endsAt)
  {
    EntryLivesExactly(run, i, n, t, id);
    ActiveMember(LedgerOf(run.states[n], t), at, RecordEntry(run.states[n], id));
  }

  lemma SameInterval(run: Run, m: nat, n: nat, id: Id)
    requires run.Valid() && m <= n <= |run.ops| && id in run.states[m].reservations
    ensures id in run.states[n].reservations
    ensures var e, f := RecordEntry(run.states[m], id), RecordEntry(run.states[n], id);
            e.reservationId == f.reservationId && e.startsAt == f.startsAt && e.endsAt == f.endsAt
  {
    TermsArePinned(run, m, n, id);
  }

  /** A reservation whose entry is gone is never confirmed later. */
  lemma GoneStaysUnconfirmed(run: Run, i: nat, m: nat, n: nat, t: Id, id: Id)
    requires run.Valid() && i < m <= n <= |run.ops| && Creates(run.ops[i], t, id)
    requires id in run.states[m].reservations && t in run.states[m].tables
    requires RecordEntry(run.states[m], id) !in LedgerOf(run.states[m], t)
    ensures id in run.states[n].reservations && run.states[n].reservations[id] == run.states[m].reservations[id]
  {
    TouchMeansHere(run, i, id);
    LeavingIsDropping(run, i + 1, m, t, id);
    RunKeepsInv(run, m);
    NoEntryNoId(run.states[m], t, id);
    DroppedForGood(run, m, n, id);
  }

  lemma NoEntryNoId(s: Store, t: Id, id: Id)
    requires Inv(s) && t in s.tables && id in s.reservations && RecordEntry(s, id) !in LedgerOf(s, t)
    ensures !HasId(LedgerOf(s, t), id)
  {
    assert LedgerInv(s, t);
    forall k | 0 <= k < |LedgerOf(s, t)| ensures LedgerOf(s, t)[k].reservationId != id {
      assert Agrees(s, t, LedgerOf(s, t)[k]);
    }
  }

  /** At the commit that creates `b`, a record that it meets is not among those that block. */
  lemma NewRecordMeetsNoBlocker(run: Run, i: nat, j: nat, t: Id, a: Id, b: Id)
    requires run.Valid() && i < j < |run.ops| && Creates(run.ops[i], t, a) && Creates(run.ops[j], t, b)
    requires Uncancelled(run.states[j], a) && b in run.states[j + 1].reservations
    requires Overlaps(RecordEntry(run.states[j], a), RecordEntry(run.states[j + 1], b))
    ensures !(AlwaysActive(run, i, j, t, RecordEntry(run.states[j], a))
              && IsActive(RecordEntry(run.states[j], a), run.ops[j].When()))
  {
    StepEffect(run, j);
    if Blocks(run, i, j, t, a, run.ops[j].When()) {
      BlockingEntryIsActive(run, i, j, t, a, run.ops[j].When());
    }
  }

  /**
   Two confirmed reservations of one table that meet: between the creation of the first and that of the second, that
   included, an operation on the table came with a time at or past the end of the first.
   */
  lemma MeetingRecordsWereOvertaken(run: Run, i: nat, j: nat, t: Id, a: Id, b: Id)
    requires run.Valid() && i < j < |run.ops| && Creates(run.ops[i], t, a) && Creates(run.ops[j], t, b)
    requires Confirmed(run.Final(), a) && Confirmed(run.Final(), b)
    requires Overlaps(RecordEntry(run.Final(), a), RecordEntry(run.Final(), b))
    ensures Overtaken(run, i, j + 1, t, RecordEntry(run.Final(), a).endsAt)
  {
    var n := |run.ops|;
    StillThere(run, i, j, t, a);
    UncancelledBefore(run, j, n, a);
    SameInterval(run, j, n, a);
    StillThere(run, j, j + 1, t, b);
    SameInterval(run, j + 1, n, b);
    NewRecordMeetsNoBlocker(run, i, j, t, a, b);
    var e := RecordEntry(run.states[j], a);
    var k :| i < k <= j && EditsTable(run.ops[k], t) && !IsActive(e, run.ops[k].When());
    if run.ops[k].When() < e.endsAt {
      LapsedIsNotConfirmed(run, i, j, t, a, b, k);
    }
  }

  /** A hold that had expired when `b` was created is not confirmed afterwards. */
  lemma LapsedIsNotConfirmed(run: Run, i: nat, j: nat, t: Id, a: Id, b: Id, k: nat)
    requires run.Valid() && i < k <= j < |run.ops| && Creates(run.ops[i], t, a) && Creates(run.ops[j], t, b)
    requires Uncancelled(run.states[j], a) && EditsTable(run.ops[k], t)
    requires run.ops[k].When() < RecordEntry(run.states[j], a).endsAt
    requires !IsActive(RecordEntry(run.states[j], a), run.ops[k].When())
    ensures !Confirmed(run.Final(), a)
  {
    StepEffect(run, j);
    StepRecord(run.states[j], run.ops[j], run.states[j + 1], a);
    if Creates(run.ops[j], t, a) {
      OneTableForLife(run, i, j, a);
    }
    EntryLivesExactly(run, i, j + 1, t, a);
    GoneStaysUnconfirmed(run, i, j + 1, |run.ops|, t, a);
  }

  /** Every reservation of the table was requested no later than it was to start. */
  ghost predicate StartsLater(run: Run, t: Id)
    requires run.Valid()
  {
    forall i :: 0 <= i < |run.ops| && run.ops[i].Create? && run.ops[i].table == t ==>
                  run.ops[i].When() <= run.ops[i].request.inquiry.desiredAt.instant
  }

  lemma NoticeOfCreation(s: Store, op: Op)
    requires op.Create? && RunAlone(s, op).Some?
    ensures op.restaurant in s.restaurants
    ensures 0 <= s.restaurants[op.restaurant].value.minAdvanceMinutes.GetOr(0) ==>
              op.When() <= op.request.inquiry.desiredAt.instant
  {
    BookableExactly(s.restaurants[op.restaurant].value, s.tables[op.table].value, op.request.inquiry);
  }

  /** A minimum notice that is never negative is enough for that. */
  lemma NoticeMeansStartsLater(run: Run, t: Id)
    requires run.Valid()
    requires forall i :: 0 <= i < |run.ops| && run.ops[i].Create? && run.ops[i].restaurant in run.states[i].restaurants ==>
               0 <= run.states[i].restaurants[run.ops[i].restaurant].value.minAdvanceMinutes.GetOr(0)
    ensures StartsLater(run, t)
  {
    forall i | 0 <= i < |run.ops| && run.ops[i].Create? && run.ops[i].table == t
      ensures run.ops[i].When() <= run.ops[i].request.inquiry.desiredAt.instant
    {
      assert Run.Unfold(i);
      NoticeOfCreation(run.states[i], run.ops[i]);
    }
  }

  lemma LaterRecordIsApart(run: Run, i: nat, j: nat, t: Id, a: Id, b: Id, at: int)
    requires run.Valid() && i < j < |run.ops| && Creates(run.ops[i], t, a) && Creates(run.ops[j], t, b)
    requires InOrder(run, |run.ops|, t, at) && StartsLater(run, t)
    requires Confirmed(run.Final(), a) && Confirmed(run.Final(), b)
    ensures !Overlaps(RecordEntry(run.Final(), a), RecordEntry(run.Final(), b))
  {
    if Overlaps(RecordEntry(run.Final(), a), RecordEntry(run.Final(), b)) {
      MeetingRecordsWereOvertaken(run, i, j, t, a, b);
      RequestedStart(run, j, t, b);
    }
  }

  lemma RequestedStart(run: Run, j: nat, t: Id, b: Id)
    requires run.Valid() && j < |run.ops| && Creates(run.ops[j], t, b)
    ensures b in run.Final().reservations
    ensures RecordEntry(run.Final(), b).startsAt == run.ops[j].request.inquiry.desiredAt.instant
  {
    StepEffect(run, j);
    SameInterval(run, j + 1, |run.ops|, b);
  }

  /**
   No double booking of records: if the times on a table do not go backwards and no reservation is requested after it
   was to start, then no two confirmed reservations of the table hold it at the same instant, even those whose
   entries have long been pruned.
   */
  lemma ConfirmedRecordsAreApart(run: Run, i: nat, j: nat, t: Id, a: Id, b: Id, at: int, instant: int)
    requires run.Valid() && i < |run.ops| && j < |run.ops|
    requires Creates(run.ops[i], t, a) && Creates(run.ops[j], t, b) && a != b
    requires InOrder(run, |run.ops|, t, at) && StartsLater(run, t)
    requires Confirmed(run.Final(), a) && Confirmed(run.Final(), b)
    ensures var e, f := RecordEntry(run.Final(), a), RecordEntry(run.Final(), b);
            !(Within(e.startsAt, e.endsAt, instant) && Within(f.startsAt, f.endsAt, instant))
  {
    if i < j {
      LaterRecordIsApart(run, i, j, t, a, b, at);
    } else {
      LaterRecordIsApart(run, j, i, t, b, a, at);
    }
  }
}
