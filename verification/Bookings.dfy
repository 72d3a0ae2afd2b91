/**
 What holds of tables and reservations in every reachable store, with no assumption on the
 order of the times that callers supply and with turn times changing between bookings.
 */
module Bookings {
  import opened Basics
  import opened ReservationData
  import opened Ledger
  import opened EditFunctions
  import opened Store
  import opened Effects
  import opened Interleaving

  ghost function LedgerOf(s: Store, t: Id): seq<Entry>
    requires t in s.tables
  {
    s.tables[t].value.ledger
  }

  /** A ledger entry is the one its reservation record describes, on the table it is stored for. */
  ghost predicate Agrees(s: Store, t: Id, e: Entry)
    requires t in s.tables
  {
    && e.reservationId in s.reservations
    && var v := s.reservations[e.reservationId].value;
    && e == EntryFor(v) && v.hold != HoldReleased && v.tableId == s.tables[t].value.tableId
    && (v.hold == HoldHeld ==> v.holdExpiresAt.Some?)
  }

  ghost predicate LedgerInv(s: Store, t: Id)
    requires t in s.tables
  {
    var ledger := LedgerOf(s, t);
    && Disjoint(ledger) && UniqueIds(ledger) && |ledger| <= LEDGER_LIMIT
    && forall e :: e in ledger ==> Agrees(s, t, e)
  }

  /** No reservation has entries in two tables. */
  ghost predicate OneTableEach(s: Store) {
    forall t, u, e, f ::
      t in s.tables && u in s.tables && t != u && e in LedgerOf(s, t) && f in LedgerOf(s, u)
      ==> e.reservationId != f.reservationId
  }

  ghost predicate Inv(s: Store) {
    && (forall t :: t in s.tables ==> LedgerInv(s, t))
    && OneTableEach(s)
    && (forall id :: id in s.reservations ==> s.reservations[id].value.reservationId == id)
  }

  // ----- every operation keeps the invariant

  /** What a ledger write must satisfy for the invariant to survive it. */
  ghost predicate SafeWrite(s: Store, t: Id, s': Store, ledger: seq<Entry>, subject: Id) {
    && LedgerWritten(s, t, s', ledger)
    && subject in s'.reservations && s'.reservations == s.reservations[subject := s'.reservations[subject]]
    && s'.reservations[subject].value.reservationId == subject
    && Disjoint(ledger) && UniqueIds(ledger) && |ledger| <= LEDGER_LIMIT
    && (forall e :: e in ledger && e.reservationId == subject ==> Agrees(s', t, e))
    && (forall e :: e in ledger && e.reservationId != subject ==> e in LedgerOf(s, t))
    && (forall u, f :: u in s.tables && u != t && f in LedgerOf(s, u) ==> f.reservationId != subject)
  }

  lemma OtherLedgerKept(s: Store, t: Id, s': Store, ledger: seq<Entry>, subject: Id, u: Id)
    requires Inv(s) && SafeWrite(s, t, s', ledger, subject) && u in s'.tables && u != t
    ensures LedgerInv(s', u)
  {
    assert LedgerInv(s, u);
    forall f | f in LedgerOf(s', u) ensures Agrees(s', u, f) {
      assert Agrees(s, u, f);
    }
  }

  lemma WrittenLedgerKept(s: Store, t: Id, s': Store, ledger: seq<Entry>, subject: Id)
    requires Inv(s) && SafeWrite(s, t, s', ledger, subject)
    ensures LedgerInv(s', t)
  {
    assert LedgerInv(s, t);
    forall e | e in ledger ensures Agrees(s', t, e) {
      if e.reservationId != subject {
        assert Agrees(s, t, e);
      }
    }
  }

  lemma WriteKeepsOneTableEach(s: Store, t: Id, s': Store, ledger: seq<Entry>, subject: Id)
    requires Inv(s) && SafeWrite(s, t, s', ledger, subject)
    ensures OneTableEach(s')
  {
    forall e | e in ledger ensures e.reservationId == subject || e in LedgerOf(s, t) {
    }
  }

  lemma WriteKeepsInv(s: Store, t: Id, s': Store, ledger: seq<Entry>, subject: Id)
    requires Inv(s) && SafeWrite(s, t, s', ledger, subject)
    ensures Inv(s')
  {
    forall u | u in s'.tables ensures LedgerInv(s', u) {
      if u != t {
        OtherLedgerKept(s, t, s', ledger, subject, u);
      } else {
        WrittenLedgerKept(s, t, s', ledger, subject);
      }
    }
    WriteKeepsOneTableEach(s, t, s', ledger, subject);
  }

  lemma NewEntryIsApart(s: Store, r: Id, t: Id, request: CreateRequest, s': Store, e: Entry)
    requires Inv(s) && Created(s, r, t, request, s') && e in Active(LedgerOf(s, t), request.inquiry.requestedAt)
    ensures e in LedgerOf(s, t) && e.reservationId != request.reservationId
    ensures !Overlaps(e, EntryFor(s'.reservations[request.reservationId].value))
  {
    ActiveMember(LedgerOf(s, t), request.inquiry.requestedAt, e);
    assert LedgerInv(s, t);
    assert Agrees(s, t, e);
  }

  lemma NewIdIsNowhere(s: Store, id: Id, u: Id, f: Entry)
    requires Inv(s) && id !in s.reservations && u in s.tables && f in LedgerOf(s, u)
    ensures f.reservationId != id
  {
    assert LedgerInv(s, u);
    assert Agrees(s, u, f);
  }

  lemma NewEntryAgrees(s: Store, r: Id, t: Id, request: CreateRequest, s': Store)
    requires Created(s, r, t, request, s')
    ensures Agrees(s', t, EntryFor(s'.reservations[request.reservationId].value))
  {
  }

  /** The new ledger is without overlaps and repetitions, and of entries that were there before except one. */
  lemma NewLedgerKeeps(s: Store, r: Id, t: Id, request: CreateRequest, s': Store, ledger: seq<Entry>)
    requires Inv(s) && Created(s, r, t, request, s')
    requires ledger == Active(LedgerOf(s, t), request.inquiry.requestedAt)
                       + [EntryFor(s'.reservations[request.reservationId].value)]
    ensures Disjoint(ledger) && UniqueIds(ledger) && |ledger| <= LEDGER_LIMIT
    ensures forall e :: e in ledger && e.reservationId != request.reservationId ==> e in LedgerOf(s, t)
    ensures forall e :: e in ledger && e.reservationId == request.reservationId ==> e == ledger[|ledger| - 1]
  {
    var active, entry := Active(LedgerOf(s, t), request.inquiry.requestedAt), ledger[|ledger| - 1];
    assert LedgerInv(s, t);
    ActiveKeeps(LedgerOf(s, t), request.inquiry.requestedAt);
    forall e | e in active
      ensures e in LedgerOf(s, t) && !Overlaps(e, entry) && e.reservationId != request.reservationId
    {
      NewEntryIsApart(s, r, t, request, s', e);
    }
    AppendKeeps(active, entry);
  }

  lemma CreateKeepsInv(s: Store, r: Id, t: Id, request: CreateRequest, s': Store)
    requires Inv(s) && Created(s, r, t, request, s')
    ensures Inv(s')
  {
    var id := request.reservationId;
    var ledger := Active(LedgerOf(s, t), request.inquiry.requestedAt) + [EntryFor(s'.reservations[id].value)];
    NewLedgerKeeps(s, r, t, request, s', ledger);
    NewEntryAgrees(s, r, t, request, s');
    forall u, f | u in s.tables && u != t && f in LedgerOf(s, u) ensures f.reservationId != id {
      NewIdIsNowhere(s, id, u, f);
    }
    WriteKeepsInv(s, t, s', ledger, id);
  }

  /** An id found in one table's ledger is in no other. */
  lemma ActiveIdIsHere(s: Store, t: Id, at: int, id: Id)
    requires Inv(s) && t in s.tables && HasId(Active(LedgerOf(s, t), at), id)
    ensures HasId(LedgerOf(s, t), id)
    ensures forall u, f :: u in s.tables && u != t && f in LedgerOf(s, u) ==> f.reservationId != id
  {
    var active := Active(LedgerOf(s, t), at);
    var k :| 0 <= k < |active| && active[k].reservationId == id;
    ActiveMember(LedgerOf(s, t), at, active[k]);
    var j :| 0 <= j < |LedgerOf(s, t)| && LedgerOf(s, t)[j] == active[k];
  }

  lemma BookIdKeeps(ledger: seq<Entry>, id: Id)
    ensures Disjoint(ledger) ==> Disjoint(BookId(ledger, id))
    ensures UniqueIds(ledger) ==> UniqueIds(BookId(ledger, id))
    ensures forall e :: e in BookId(ledger, id) && e.reservationId != id ==> e in ledger
    ensures forall e :: e in BookId(ledger, id) && e.reservationId == id ==>
                          exists f :: f in ledger && f.reservationId == id && e == f.(claim := Booked)
  {
    var booked := BookId(ledger, id);
    forall e | e in booked
      ensures e.reservationId != id ==> e in ledger
      ensures e.reservationId == id ==>
                exists f :: f in ledger && f.reservationId == id && e == f.(claim := Booked)
    {
      var k :| 0 <= k < |booked| && booked[k] == e;
      assert e == Book(ledger[k], id) && ledger[k] in ledger;
    }
    if Disjoint(ledger) {
      forall i, j | 0 <= i < j < |booked| ensures !Overlaps(booked[i], booked[j]) {
        assert !Overlaps(ledger[i], ledger[j]);
      }
    }
  }

  /** Booking the entry of a record and confirming the record leave the two in agreement. */
  lemma BookedEntryAgrees(s: Store, id: Id, t: Id, at: int, s': Store, f: Entry)
    requires Authorized(s, id, t, at, s') && Agrees(s, t, f) && f.reservationId == id
    requires s.reservations[id].value.reservationId == id
    ensures Agrees(s', t, f.(claim := Booked))
  {
  }

  lemma BookedEntriesAgree(s: Store, id: Id, t: Id, at: int, s': Store, k: nat)
    requires Inv(s) && Authorized(s, id, t, at, s') && k < |Active(LedgerOf(s, t), at)|
    ensures var e := Book(Active(LedgerOf(s, t), at)[k], id);
            if e.reservationId == id then Agrees(s', t, e) else e in LedgerOf(s, t)
  {
    var f := Active(LedgerOf(s, t), at)[k];
    ActiveMember(LedgerOf(s, t), at, f);
    assert LedgerInv(s, t);
    assert Agrees(s, t, f);
    if f.reservationId == id {
      BookedEntryAgrees(s, id, t, at, s', f);
    }
  }

  lemma BookedLedgerAgrees(s: Store, id: Id, t: Id, at: int, s': Store, e: Entry)
    requires Inv(s) && Authorized(s, id, t, at, s') && e in BookId(Active(LedgerOf(s, t), at), id)
    ensures if e.reservationId == id then Agrees(s', t, e) else e in LedgerOf(s, t)
  {
    var active := Active(LedgerOf(s, t), at);
    var k :| 0 <= k < |active| && e == Book(active[k], id);
    BookedEntriesAgree(s, id, t, at, s', k);
  }

  lemma BookedLedgerKeeps(ledger: seq<Entry>, id: Id, at: int)
    requires Disjoint(ledger) && UniqueIds(ledger) && |ledger| <= LEDGER_LIMIT
    ensures var booked := BookId(Active(ledger, at), id);
            Disjoint(booked) && UniqueIds(booked) && |booked| <= LEDGER_LIMIT
  {
    ActiveKeeps(ledger, at);
    ActiveLength(ledger, at);
    BookIdKeeps(Active(ledger, at), id);
  }

  lemma AuthorizeKeepsInv(s: Store, id: Id, t: Id, at: int, s': Store)
    requires Inv(s) && Authorized(s, id, t, at, s')
    ensures Inv(s')
  {
    var booked := BookId(Active(LedgerOf(s, t), at), id);
    assert LedgerInv(s, t);
    BookedLedgerKeeps(LedgerOf(s, t), id, at);
    ActiveIdIsHere(s, t, at, id);
    forall e | e in booked ensures if e.reservationId == id then Agrees(s', t, e) else e in LedgerOf(s, t) {
      BookedLedgerAgrees(s, id, t, at, s', e);
    }
    WriteKeepsInv(s, t, s', booked, id);
  }

  lemma CancelKeepsInv(s: Store, id: Id, t: Id, cancellationId: string, at: int, s': Store)
    requires Inv(s) && Cancelled(s, id, t, cancellationId, at, s')
    ensures Inv(s')
  {
    var ledger := LedgerOf(s, t);
    var active := Active(ledger, at);
    assert LedgerInv(s, t);
    ActiveKeeps(ledger, at);
    ActiveLength(ledger, at);
    WithoutIdKeeps(active, id);
    ActiveIdIsHere(s, t, at, id);
    forall e | e in WithoutId(active, id) ensures e.reservationId != id && e in ledger {
      WithoutIdMember(active, id, e);
      ActiveMember(ledger, at, e);
    }
    WriteKeepsInv(s, t, s', WithoutId(active, id), id);
  }

  lemma ConfigureKeepsInv(s: Store, op: Op, s': Store)
    requires Inv(s) && Effect(s, op, s') && !op.EditsLedger()
    ensures Inv(s')
  {
    forall t | t in s'.tables ensures LedgerInv(s', t) {
      assert LedgerInv(s, t);
      forall e | e in LedgerOf(s', t) ensures Agrees(s', t, e) {
        assert Agrees(s, t, e);
      }
    }
    forall t, u, e, f |
      t in s'.tables && u in s'.tables && t != u && e in LedgerOf(s', t) && f in LedgerOf(s', u)
      ensures e.reservationId != f.reservationId
    {
      assert e in LedgerOf(s, t) && f in LedgerOf(s, u);
    }
  }

  lemma StepKeepsInv(s: Store, op: Op, s': Store)
    requires Inv(s) && Effect(s, op, s')
    ensures Inv(s')
  {
    match op {
      case Create(r, t, request) => CreateKeepsInv(s, r, t, request, s');
      case Authorize(v, t, _, _, at) => AuthorizeKeepsInv(s, v, t, at, s');
      case Cancel(v, t, cancellationId, at) => CancelKeepsInv(s, v, t, cancellationId, at, s');
      case _ => ConfigureKeepsInv(s, op, s');
    }
  }

  lemma {:induction false} RunKeepsInv(run: Run, i: nat)
    requires run.Valid() && i <= |run.ops|
    ensures Inv(run.states[i])
  {
    if i > 0 {
      RunKeepsInv(run, i - 1);
      StepEffect(run, i - 1);
      StepKeepsInv(run.states[i - 1], run.ops[i - 1], run.states[i]);
    }
  }

  // ----- main results on every interleaving

  /**
   No double booking: at no instant do two entries of a table's stored ledger both hold the table,
   in any store that any interleaving of clients reaches.
   */
  lemma NoDoubleBooking(init: Store, events: seq<Event>, t: Id, i: nat, j: nat, instant: int)
    requires Initial(init)
    requires var s := Steps(System(init, map[], []), events).store;
             t in s.tables && i < |LedgerOf(s, t)| && j < |LedgerOf(s, t)|
    ensures var ledger := LedgerOf(Steps(System(init, map[], []), events).store, t);
            && Within(ledger[i].startsAt, ledger[i].endsAt, instant)
            && Within(ledger[j].startsAt, ledger[j].endsAt, instant)
            ==> i == j
  {
    var run := InterleavingIsRun(init, events);
    RunKeepsInv(run, |run.ops|);
    var s := run.Final();
    assert LedgerInv(s, t);
    if i < j {
      assert !Overlaps(LedgerOf(s, t)[i], LedgerOf(s, t)[j]);
    } else if j < i {
      assert !Overlaps(LedgerOf(s, t)[j], LedgerOf(s, t)[i]);
    }
  }

  /**
   Ledger and records agree: each reservation has at most one entry in all ledgers together; an entry
   has the start, the recorded turn time, the hold status and, while held, the expiry of its record, and
   stands in the ledger of the record's table; a released reservation has none.
   */
  lemma LedgerAgreesWithRecords(init: Store, events: seq<Event>)
    requires Initial(init)
    ensures var s := Steps(System(init, map[], []), events).store;
            && OneTableEach(s)
            && (forall t :: t in s.tables ==> UniqueIds(LedgerOf(s, t)) && |LedgerOf(s, t)| <= LEDGER_LIMIT)
            && forall t, e :: t in s.tables && e in LedgerOf(s, t) ==>
                 && e.reservationId in s.reservations
                 && var v := s.reservations[e.reservationId].value;
                 && v.reservationId == e.reservationId && v.tableId == s.tables[t].value.tableId
                 && v.hold != HoldReleased
                 && e.startsAt == v.reservationAt.instant
                 && e.endsAt == e.startsAt + v.turnTimeMinutes * MINUTE
                 && (v.hold == HoldBooked ==> e.claim == Booked)
                 && (v.hold == HoldHeld ==> e.claim.Held? && v.holdExpiresAt == Some(e.claim.expiresAt))
  {
    var run := InterleavingIsRun(init, events);
    RunKeepsInv(run, |run.ops|);
    var s := run.Final();
    forall t | t in s.tables ensures UniqueIds(LedgerOf(s, t)) && |LedgerOf(s, t)| <= LEDGER_LIMIT {
      assert LedgerInv(s, t);
    }
    forall t, e | t in s.tables && e in LedgerOf(s, t) ensures Agrees(s, t, e) {
      assert LedgerInv(s, t);
    }
  }

  // ----- dropped reservations

  /** The reservation exists, but no ledger has an entry for it. */
  ghost predicate Dropped(s: Store, id: Id) {
    && id in s.reservations
    && forall t :: t in s.tables ==> !HasId(LedgerOf(s, t), id)
  }

  lemma AppendedId(ledger: seq<Entry>, e: Entry, id: Id)
    ensures HasId(ledger + [e], id) ==> HasId(ledger, id) || e.reservationId == id
  {
    if HasId(ledger + [e], id) && e.reservationId != id {
      var k :| 0 <= k < |ledger + [e]| && (ledger + [e])[k].reservationId == id;
      assert ledger[k].reservationId == id;
    }
  }

  lemma WrittenIdsOfCreate(s: Store, op: Op, s': Store, id: Id)
    requires Effect(s, op, s') && op.Create? && HasId(LedgerOf(s', op.table), id)
    ensures HasId(LedgerOf(s, op.table), id) || op.Subject() == id
  {
    var before := LedgerOf(s, op.table);
    AppendedId(Active(before, op.When()), EntryFor(s'.reservations[op.Subject()].value), id);
    if HasId(Active(before, op.When()), id) {
      HasIdActive(before, op.When(), id);
    }
  }

  lemma WrittenIdsOfEdit(s: Store, op: Op, s': Store, id: Id)
    requires Effect(s, op, s') && (op.Authorize? || op.Cancel?) && HasId(LedgerOf(s', op.table), id)
    ensures HasId(LedgerOf(s, op.table), id)
  {
    var before := LedgerOf(s, op.table);
    HasIdAfterEdit(Active(before, op.When()), EntryId(Snap(s.reservations, op.reservation)), id);
    HasIdActive(before, op.When(), id);
  }

  lemma LedgerElsewhere(s: Store, op: Op, s': Store, u: Id)
    requires Effect(s, op, s') && u in s'.tables && !(op.EditsLedger() && op.table == u)
    ensures u in s.tables && LedgerOf(s', u) == LedgerOf(s, u)
  {
  }

  /** Every entry written by an operation was there before or belongs to the operation's subject. */
  lemma WrittenIds(s: Store, op: Op, s': Store, u: Id, id: Id)
    requires Effect(s, op, s') && u in s'.tables && HasId(LedgerOf(s', u), id)
    ensures u in s.tables
    ensures HasId(LedgerOf(s, u), id) || (op.Create? && op.table == u && op.Subject() == id)
  {
    if !(op.EditsLedger() && op.table == u) {
      LedgerElsewhere(s, op, s', u);
    } else if op.Create? {
      WrittenIdsOfCreate(s, op, s', id);
    } else {
      WrittenIdsOfEdit(s, op, s', id);
    }
  }

  /** An authorization or cancellation finds its subject in the ledger. */
  lemma SubjectIsInLedger(s: Store, op: Op, s': Store)
    requires Inv(s) && Effect(s, op, s') && (op.Authorize? || op.Cancel?)
    ensures op.table in s.tables && HasId(LedgerOf(s, op.table), op.reservation)
  {
    ActiveIdIsHere(s, op.table, op.When(), op.reservation);
  }

  lemma DroppedStaysDropped(s: Store, op: Op, s': Store, id: Id)
    requires Inv(s) && Effect(s, op, s') && Dropped(s, id)
    ensures Dropped(s', id) && s'.reservations[id] == s.reservations[id]
    ensures op.EditsLedger() ==> op.Subject() != id
  {
    if op.Authorize? || op.Cancel? {
      SubjectIsInLedger(s, op, s');
    }
    forall u | u in s'.tables ensures !HasId(LedgerOf(s', u), id) {
      if HasId(LedgerOf(s', u), id) {
        WrittenIds(s, op, s', u, id);
      }
    }
  }

  lemma NotElsewhere(s: Store, t: Id, id: Id)
    requires Inv(s) && t in s.tables && HasId(LedgerOf(s, t), id)
    ensures id in s.reservations
    ensures forall u :: u in s.tables && u != t ==> !HasId(LedgerOf(s, u), id)
  {
    var i :| 0 <= i < |LedgerOf(s, t)| && LedgerOf(s, t)[i].reservationId == id;
    assert LedgerInv(s, t);
    assert Agrees(s, t, LedgerOf(s, t)[i]);
    forall u | u in s.tables && u != t ensures !HasId(LedgerOf(s, u), id) {
      forall j | 0 <= j < |LedgerOf(s, u)| ensures LedgerOf(s, u)[j].reservationId != id {
        assert LedgerOf(s, u)[j] in LedgerOf(s, u) && LedgerOf(s, t)[i] in LedgerOf(s, t);
      }
    }
  }

  /** The id is in its table's ledger, or in none. */
  ghost predicate HereOrDropped(s: Store, t: Id, id: Id) {
    t in s.tables && (HasId(LedgerOf(s, t), id) || Dropped(s, id))
  }

  lemma StaysOrIsDropped(s: Store, op: Op, s': Store, t: Id, id: Id)
    requires Inv(s) && Effect(s, op, s') && HereOrDropped(s, t, id)
    ensures HereOrDropped(s', t, id)
  {
    if Dropped(s, id) {
      DroppedStaysDropped(s, op, s', id);
    } else {
      NotElsewhere(s, t, id);
      if !HasId(LedgerOf(s', t), id) {
        forall u | u in s'.tables ensures !HasId(LedgerOf(s', u), id) {
          if HasId(LedgerOf(s', u), id) {
            WrittenIds(s, op, s', u, id);
          }
        }
      }
    }
  }

  lemma StaysOrIsDroppedInRun(run: Run, i: nat, t: Id, id: Id)
    requires run.Valid() && i < |run.ops| && HereOrDropped(run.states[i], t, id)
    ensures HereOrDropped(run.states[i + 1], t, id)
  {
    RunKeepsInv(run, i);
    StepEffect(run, i);
    StaysOrIsDropped(run.states[i], run.ops[i], run.states[i + 1], t, id);
  }

  lemma DroppedStaysDroppedInRun(run: Run, i: nat, id: Id)
    requires run.Valid() && i < |run.ops| && Dropped(run.states[i], id)
    ensures Dropped(run.states[i + 1], id)
    ensures run.states[i + 1].reservations[id] == run.states[i].reservations[id]
    ensures run.ops[i].EditsLedger() ==> run.ops[i].Subject() != id
  {
    RunKeepsInv(run, i);
    StepEffect(run, i);
    DroppedStaysDropped(run.states[i], run.ops[i], run.states[i + 1], id);
  }

  lemma {:induction false} DroppedForGood(run: Run, i: nat, j: nat, id: Id)
    requires run.Valid() && i <= j <= |run.ops| && Dropped(run.states[i], id)
    ensures Dropped(run.states[j], id)
    ensures run.states[j].reservations[id] == run.states[i].reservations[id]
    ensures forall k :: i <= k < j && run.ops[k].EditsLedger() ==> run.ops[k].Subject() != id
  {
    if i < j {
      DroppedForGood(run, i, j - 1, id);
      DroppedStaysDroppedInRun(run, j - 1, id);
    }
  }

  lemma {:induction false} LeavingIsDropping(run: Run, i: nat, j: nat, t: Id, id: Id)
    requires run.Valid() && i <= j <= |run.ops| && HereOrDropped(run.states[i], t, id)
    ensures HereOrDropped(run.states[j], t, id)
  {
    if i < j {
      LeavingIsDropping(run, i, j - 1, t, id);
      StaysOrIsDroppedInRun(run, j - 1, t, id);
    }
  }

  /**
   Dropped ids are frozen: once the entry of a reservation has left its table's ledger, at any later
   point of the run no ledger has an entry for it, its record is unchanged, and no operation on it has
   committed since, whatever times the callers supply.
   */
  lemma DroppedIdsAreFrozen(run: Run, i: nat, j: nat, k: nat, t: Id, id: Id)
    requires run.Valid() && i <= j <= k <= |run.ops|
    requires t in run.states[i].tables && HasId(LedgerOf(run.states[i], t), id)
    requires t in run.states[j].tables && !HasId(LedgerOf(run.states[j], t), id)
    ensures id in run.states[j].reservations && id in run.states[k].reservations
    ensures forall u :: u in run.states[k].tables ==> !HasId(LedgerOf(run.states[k], u), id)
    ensures run.states[k].reservations[id] == run.states[j].reservations[id]
    ensures forall m :: j <= m < k && run.ops[m].EditsLedger() ==> run.ops[m].Subject() != id
  {
    LeavingIsDropping(run, i, j, t, id);
    DroppedForGood(run, j, k, id);
  }

  // ----- how entries leave

  /** `op` cancels the reservation of `e`, or works on the table at or past the end of `e`. */
  ghost predicate Ends(op: Op, t: Id, e: Entry) {
    && op.EditsLedger() && op.table == t
    && ((op.Cancel? && op.reservation == e.reservationId) || e.endsAt <= op.When())
  }

  ghost predicate Lapses(op: Op, t: Id, e: Entry) {
    op.EditsLedger() && op.table == t && e.claim.Held? && e.claim.expiresAt <= op.When()
  }

  /** What pruning and editing leave of an active entry. */
  lemma EditedLedgerKeeps(active: seq<Entry>, id: Id, e: Entry)
    requires e in active
    ensures Book(e, id) in BookId(active, id)
    ensures e.reservationId != id ==> e in WithoutId(active, id)
  {
    var k :| 0 <= k < |active| && active[k] == e;
    assert BookId(active, id)[k] == Book(e, id);
    WithoutIdMember(active, id, e);
  }

  /** An active entry survives an operation on its table, unless it is cancelled; a payment books it. */
  lemma ActiveSurvives(s: Store, op: Op, s': Store, e: Entry)
    requires Effect(s, op, s') && op.EditsLedger() && e in Active(LedgerOf(s, op.table), op.When())
    requires op.Cancel? ==> EntryId(Snap(s.reservations, op.reservation)) != e.reservationId
    ensures op.table in s'.tables
    ensures e in LedgerOf(s', op.table) || (op.Authorize? && e.(claim := Booked) in LedgerOf(s', op.table))
  {
    if !op.Create? {
      EditedLedgerKeeps(Active(LedgerOf(s, op.table), op.When()), EntryId(Snap(s.reservations, op.reservation)), e);
    }
  }

  lemma StepLifetime(s: Store, op: Op, s': Store, t: Id, e: Entry)
    requires Inv(s) && Effect(s, op, s') && t in s.tables && e in LedgerOf(s, t)
    ensures t in s'.tables
    ensures e in LedgerOf(s', t) || Ends(op, t, e) || Lapses(op, t, e)
            || (e.claim.Held? && e.(claim := Booked) in LedgerOf(s', t))
  {
    assert LedgerInv(s, t);
    assert Agrees(s, t, e);
    if op.EditsLedger() && op.table == t && !Ends(op, t, e) && !Lapses(op, t, e) {
      ActiveMember(LedgerOf(s, t), op.When(), e);
      ActiveSurvives(s, op, s', e);
    }
  }

  /** A booked entry leaves only by its cancellation or by an operation at or past its end. */
  lemma {:induction false} BookedEntryLifetime(run: Run, i: nat, j: nat, t: Id, e: Entry) returns (k: nat)
    requires run.Valid() && i <= j <= |run.ops|
    requires t in run.states[i].tables && e in LedgerOf(run.states[i], t) && e.claim == Booked
    requires t in run.states[j].tables && e !in LedgerOf(run.states[j], t)
    ensures i <= k < j && Ends(run.ops[k], t, e)
    decreases j - i
  {
    RunKeepsInv(run, i);
    StepEffect(run, i);
    StepLifetime(run.states[i], run.ops[i], run.states[i + 1], t, e);
    if e in LedgerOf(run.states[i + 1], t) {
      k := BookedEntryLifetime(run, i + 1, j, t, e);
    } else {
      k := i;
    }
  }

  /** A held entry leaves only by its cancellation or by an operation at or past its expiry or end. */
  lemma {:induction false} HeldEntryLifetime(run: Run, i: nat, j: nat, t: Id, e: Entry) returns (k: nat)
    requires run.Valid() && i <= j <= |run.ops|
    requires t in run.states[i].tables && e in LedgerOf(run.states[i], t) && e.claim.Held?
    requires t in run.states[j].tables && !HasId(LedgerOf(run.states[j], t), e.reservationId)
    ensures i <= k < j && (Ends(run.ops[k], t, e) || Lapses(run.ops[k], t, e))
    decreases j - i
  {
    HasIdMember(LedgerOf(run.states[i], t), e);
    RunKeepsInv(run, i);
    StepEffect(run, i);
    StepLifetime(run.states[i], run.ops[i], run.states[i + 1], t, e);
    if e in LedgerOf(run.states[i + 1], t) {
      k := HeldEntryLifetime(run, i + 1, j, t, e);
    } else if Ends(run.ops[i], t, e) || Lapses(run.ops[i], t, e) {
      k := i;
    } else {
      var booked := e.(claim := Booked);
      if booked in LedgerOf(run.states[j], t) {
        HasIdMember(LedgerOf(run.states[j], t), booked);
      }
      k := BookedEntryLifetime(run, i + 1, j, t, booked);
    }
  }
}
