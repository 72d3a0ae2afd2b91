/**
 When pruning can be seen: the stored ledger of a table against the one it would have if nothing were ever pruned,
 told exactly for every run, and with the consequence that no look sees it which is not backdated.
 */
module Compaction {
  import opened ReservationData
  import opened Ledger
  import opened Policy
  import opened EditFunctions
  import opened Store
  import opened Effects
  import opened Bookings
  import opened InventoryVersions
  import opened TableHistory
  import opened RecordBookings

  // ----- subsequences

  /** `a` is `b` without some of its entries. */
  ghost predicate Sub(a: seq<Entry>, b: seq<Entry>) {
    a == []
    || (b != []
        && ((a[|a| - 1] == b[|b| - 1] && Sub(a[..|a| - 1], b[..|b| - 1])) || Sub(a, b[..|b| - 1])))
  }

  lemma SubSkip(a: seq<Entry>, b: seq<Entry>, e: Entry)
    requires Sub(a, b)
    ensures Sub(a, b + [e])
  {
    assert (b + [e])[..|b|] == b;
  }

  lemma SubAppend(a: seq<Entry>, b: seq<Entry>, e: Entry)
    requires Sub(a, b)
    ensures Sub(a + [e], b + [e])
  {
    assert (a + [e])[..|a|] == a && (b + [e])[..|b|] == b;
  }

  lemma {:induction false} SubMember(a: seq<Entry>, b: seq<Entry>, e: Entry)
    requires Sub(a, b) && e in a
    ensures e in b
    decreases |b|
  {
    var front, last := b[..|b| - 1], b[|b| - 1];
    assert b == front + [last];
    if Sub(a, front) {
      SubMember(a, front, e);
    } else if e != last {
      assert a == a[..|a| - 1] + [last];
      SubMember(a[..|a| - 1], front, e);
    }
  }

  /** Dropping the inactive entries of the shorter one. */
  lemma {:induction false} SubPrune(a: seq<Entry>, b: seq<Entry>, w: int)
    requires Sub(a, b)
    ensures Sub(Active(a, w), b)
    decreases |b|
  {
    if a != [] {
      var front, last := b[..|b| - 1], b[|b| - 1];
      assert b == front + [last];
      if Sub(a, front) {
        SubPrune(a, front, w);
        SubSkip(Active(a, w), front, last);
      } else {
        var rest := a[..|a| - 1];
        SubPrune(rest, front, w);
        SubSkip(Active(rest, w), front, last);
        SubAppend(Active(rest, w), front, last);
        ActivePrefix(a, w);
      }
    }
  }

  lemma ActivePrefix(a: seq<Entry>, w: int)
    requires a != []
    ensures var rest, last := a[..|a| - 1], a[|a| - 1];
            Active(a, w) == if IsActive(last, w) then Active(rest, w) + [last] else Active(rest, w)
  {
    assert Active(a[..|a| - 1], w) + [] == Active(a[..|a| - 1], w);
  }

  lemma {:induction false} SubActive(a: seq<Entry>, b: seq<Entry>, at: int)
    requires Sub(a, b)
    ensures Sub(Active(a, at), Active(b, at))
    decreases |b|
  {
    if a != [] {
      var front, last := b[..|b| - 1], b[|b| - 1];
      ActivePrefix(b, at);
      if Sub(a, front) {
        SubActive(a, front, at);
        SubSkip(Active(a, at), Active(front, at), last);
      } else {
        var rest := a[..|a| - 1];
        SubActive(rest, front, at);
        SubAppend(Active(rest, at), Active(front, at), last);
        ActivePrefix(a, at);
      }
    }
  }

  lemma BookIdPrefix(a: seq<Entry>, id: Id)
    requires a != []
    ensures BookId(a, id) == BookId(a[..|a| - 1], id) + [Book(a[|a| - 1], id)]
  {
  }

  lemma {:induction false} SubBook(a: seq<Entry>, b: seq<Entry>, id: Id)
    requires Sub(a, b)
    ensures Sub(BookId(a, id), BookId(b, id))
    decreases |b|
  {
    if a != [] {
      var front, last := b[..|b| - 1], b[|b| - 1];
      BookIdPrefix(b, id);
      if Sub(a, front) {
        SubBook(a, front, id);
        SubSkip(BookId(a, id), BookId(front, id), Book(last, id));
      } else {
        SubBook(a[..|a| - 1], front, id);
        SubAppend(BookId(a[..|a| - 1], id), BookId(front, id), Book(last, id));
        BookIdPrefix(a, id);
      }
    }
  }

  lemma WithoutIdPrefix(a: seq<Entry>, id: Id)
    requires a != []
    ensures var rest, last := a[..|a| - 1], a[|a| - 1];
            WithoutId(a, id) == if last.reservationId != id then WithoutId(rest, id) + [last] else WithoutId(rest, id)
  {
    assert WithoutId(a[..|a| - 1], id) + [] == WithoutId(a[..|a| - 1], id);
  }

  lemma {:induction false} SubWithout(a: seq<Entry>, b: seq<Entry>, id: Id)
    requires Sub(a, b)
    ensures Sub(WithoutId(a, id), WithoutId(b, id))
    decreases |b|
  {
    if a != [] {
      var front, last := b[..|b| - 1], b[|b| - 1];
      WithoutIdPrefix(b, id);
      if Sub(a, front) {
        SubWithout(a, front, id);
        SubSkip(WithoutId(a, id), WithoutId(front, id), last);
      } else {
        SubWithout(a[..|a| - 1], front, id);
        SubAppend(WithoutId(a[..|a| - 1], id), WithoutId(front, id), last);
        WithoutIdPrefix(a, id);
      }
    }
  }

  /** A subsequence that has all the entries, of a sequence that repeats none, is that sequence. */
  lemma {:induction false} FullSubIsAll(a: seq<Entry>, b: seq<Entry>)
    requires Sub(a, b) && UniqueIds(b) && (forall e :: e in b ==> e in a)
    ensures a == b
    decreases |b|
  {
    if b != [] {
      var front, last := b[..|b| - 1], b[|b| - 1];
      assert b == front + [last] && last in a;
      FrontKeeps(b);
      if Sub(a, front) {
        SubMember(a, front, last);
      } else {
        var rest := a[..|a| - 1];
        assert a == rest + [last];
        forall e | e in front ensures e in rest {
          assert e in b && e.reservationId != last.reservationId;
        }
        FullSubIsAll(rest, front);
      }
    }
  }

  // ----- the history has unique ids of existing reservations

  ghost predicate Recorded(history: seq<Entry>, s: Store) {
    UniqueIds(history) && forall e :: e in history ==> e.reservationId in s.reservations
  }

  lemma CreateRecorded(history: seq<Entry>, s: Store, op: Op, s': Store)
    requires op.Create? && Effect(s, op, s') && Recorded(history, s)
    ensures Recorded(history + [EntryFor(s'.reservations[op.request.reservationId].value)], s')
  {
    var entry := EntryFor(s'.reservations[op.request.reservationId].value);
    assert entry.reservationId == op.request.reservationId && entry.reservationId !in s.reservations;
    AppendKeeps(history, entry);
  }

  lemma EditRecorded(history: seq<Entry>, s: Store, s': Store, id: Id)
    requires Recorded(history, s) && s.reservations.Keys <= s'.reservations.Keys
    ensures Recorded(history, s') && Recorded(BookId(history, id), s') && Recorded(WithoutId(history, id), s')
  {
    BookIdKeeps(history, id);
    WithoutIdKeeps(history, id);
    forall e | e in WithoutId(history, id) ensures e in history {
      WithoutIdMember(history, id, e);
    }
    forall e | e in BookId(history, id) ensures e.reservationId in s.reservations {
      var k :| 0 <= k < |history| && BookId(history, id)[k] == e;
      assert history[k] in history && e.reservationId == history[k].reservationId;
    }
  }

  lemma ExtendRecorded(history: seq<Entry>, s: Store, op: Op, s': Store)
    requires Inv(s) && Effect(s, op, s') && Recorded(history, s)
    ensures Recorded(history, s') && Recorded(Extend(history, op, s'), s')
  {
    EditRecorded(history, s, s', if op.EditsLedger() then op.Subject() else "");
    if op.Create? {
      CreateRecorded(history, s, op, s');
    }
  }

  lemma ExtendRecordedInRun(history: seq<Entry>, run: Run, n: nat)
    requires run.Valid() && n < |run.ops| && Recorded(history, run.states[n])
    ensures Recorded(history, run.states[n + 1])
    ensures Recorded(Extend(history, run.ops[n], run.states[n + 1]), run.states[n + 1])
  {
    RunKeepsInv(run, n);
    StepEffect(run, n);
    ExtendRecorded(history, run.states[n], run.ops[n], run.states[n + 1]);
  }

  lemma {:induction false} HistoryRecorded(run: Run, n: nat, t: Id)
    requires run.Valid() && n <= |run.ops|
    ensures Recorded(History(run, n, t), run.states[n])
  {
    if n > 0 {
      HistoryRecorded(run, n - 1, t);
      ExtendRecordedInRun(History(run, n - 1, t), run, n - 1);
    }
  }

  // ----- the stored ledger is a part of the history

  lemma StepSub(s: Store, op: Op, s': Store, t: Id, history: seq<Entry>)
    requires Inv(s) && Effect(s, op, s') && EditsTable(op, t) && t in s.tables && Sub(LedgerOf(s, t), history)
    ensures t in s'.tables && Sub(LedgerOf(s', t), Extend(history, op, s'))
  {
    var pruned := Active(LedgerOf(s, t), op.When());
    SubPrune(LedgerOf(s, t), history, op.When());
    WrittenLedger(s, op, s', t);
    match op {
      case Create(_, _, request) =>
        SubAppend(pruned, history, EntryFor(s'.reservations[request.reservationId].value));
      case Authorize(v, _, _, _, _) => SubBook(pruned, history, v);
      case Cancel(v, _, _, _) => SubWithout(pruned, history, v);
    }
  }

  lemma {:induction false} StoredIsSub(run: Run, n: nat, t: Id)
    requires run.Valid() && n <= |run.ops| && t in run.states[0].tables
    ensures t in run.states[n].tables && Sub(LedgerOf(run.states[n], t), History(run, n, t))
  {
    if n > 0 {
      StoredIsSub(run, n - 1, t);
      RunKeepsInv(run, n - 1);
      StepEffect(run, n - 1);
      if EditsTable(run.ops[n - 1], t) {
        StepSub(run.states[n - 1], run.ops[n - 1], run.states[n], t, History(run, n - 1, t));
      } else {
        StepElsewhere(run.states[n - 1], run.ops[n - 1], run.states[n], t);
      }
    }
  }

  // ----- the history has the entries of the uncancelled reservations

  /** Another reservation's entry is in the extended history exactly if it was in the history. */
  lemma ExtendOfOther(history: seq<Entry>, s: Store, op: Op, s': Store, e: Entry)
    requires Effect(s, op, s') && op.EditsLedger() && op.Subject() != e.reservationId
    ensures e in Extend(history, op, s') <==> e in history
  {
    match op {
      case Create(_, _, request) =>
        assert s'.reservations[request.reservationId].value.reservationId == request.reservationId;
      case Authorize(v, _, _, _, _) => BookOfOther(history, v, e);
      case Cancel(v, _, _, _) => WithoutIdMember(history, v, e);
    }
  }

  lemma StepHistory(s: Store, op: Op, s': Store, t: Id, id: Id, history: seq<Entry>)
    requires Inv(s) && Effect(s, op, s') && id in s.reservations && Uncancelled(s', id)
    requires TouchesRecord(op, id) ==> op.table == t && !op.Create?
    requires RecordEntry(s, id) in history
    ensures RecordEntry(s', id) in if EditsTable(op, t) then Extend(history, op, s') else history
  {
    if TouchesRecord(op, id) {
      if op.Authorize? {
        PaidRecord(s, op, s', id);
        EditedLedgerKeeps(history, id, RecordEntry(s, id));
      }
    } else {
      StepRecord(s, op, s', id);
      if EditsTable(op, t) {
        ExtendOfOther(history, s, op, s', RecordEntry(s, id));
      }
    }
  }

  lemma {:induction false} HistoryHolds(run: Run, i: nat, n: nat, t: Id, id: Id)
    requires run.Valid() && i < n <= |run.ops| && Creates(run.ops[i], t, id) && Uncancelled(run.states[n], id)
    ensures RecordEntry(run.states[n], id) in History(run, n, t)
  {
    if n > i + 1 {
      StillThere(run, i, n - 1, t, id);
      UncancelledBefore(run, n - 1, n, id);
      HistoryHolds(run, i, n - 1, t, id);
      RunKeepsInv(run, n - 1);
      StepEffect(run, n - 1);
      if TouchesRecord(run.ops[n - 1], id) {
        OneTableForLife(run, i, n - 1, id);
      }
      StepHistory(run.states[n - 1], run.ops[n - 1], run.states[n], t, id, History(run, n - 1, t));
    }
  }

  /** The entry is the one that the record of an uncancelled reservation describes. */
  ghost predicate IsRecordEntry(s: Store, e: Entry) {
    Uncancelled(s, e.reservationId) && e == RecordEntry(s, e.reservationId)
  }

  lemma StepCurrent(s: Store, op: Op, s': Store, e: Entry)
    requires Effect(s, op, s') && IsRecordEntry(s, e) && !TouchesRecord(op, e.reservationId)
    ensures IsRecordEntry(s', e)
  {
    StepRecord(s, op, s', e.reservationId);
  }

  lemma CreatedOrOld(history: seq<Entry>, s: Store, op: Op, s': Store, e: Entry)
    requires op.Create? && Effect(s, op, s') && Recorded(history, s) && e in Extend(history, op, s')
    ensures if e in history then IsRecordEntry(s, e) ==> IsRecordEntry(s', e)
            else op.request.reservationId == e.reservationId && IsRecordEntry(s', e)
  {
    if e in history && IsRecordEntry(s, e) {
      StepCurrent(s, op, s', e);
    }
  }

  lemma BookedOrOld(s: Store, op: Op, s': Store, f: Entry)
    requires op.Authorize? && Effect(s, op, s') && IsRecordEntry(s, f)
    ensures IsRecordEntry(s', Book(f, op.reservation))
  {
    if f.reservationId == op.reservation {
      PaidRecord(s, op, s', op.reservation);
    } else {
      StepCurrent(s, op, s', f);
    }
  }

  /** An entry of the extended history is that of the new record, or comes from an entry of the history. */
  lemma ExtendedEntry(history: seq<Entry>, s: Store, op: Op, s': Store, t: Id, e: Entry)
    returns (isNew: bool, f: Entry)
    requires Effect(s, op, s') && EditsTable(op, t) && Recorded(history, s) && e in Extend(history, op, s')
    ensures isNew ==> Creates(op, t, e.reservationId) && IsRecordEntry(s', e)
    ensures !isNew ==> f in history && f.reservationId == e.reservationId && (IsRecordEntry(s, f) ==> IsRecordEntry(s', e))
  {
    isNew, f := false, e;
    match op {
      case Create(_, _, _) =>
        isNew := e !in history;
        CreatedOrOld(history, s, op, s', e);
      case Authorize(v, _, _, _, _) =>
        var k :| 0 <= k < |history| && BookId(history, v)[k] == e;
        f := history[k];
        if IsRecordEntry(s, f) {
          BookedOrOld(s, op, s', f);
        }
      case Cancel(v, _, _, _) =>
        WithoutIdMember(history, v, e);
        if IsRecordEntry(s, e) {
          StepCurrent(s, op, s', e);
        }
    }
  }

  lemma ExtendedEntryInRun(run: Run, n: nat, t: Id, e: Entry) returns (isNew: bool, f: Entry)
    requires run.Valid() && n < |run.ops| && EditsTable(run.ops[n], t) && e in History(run, n + 1, t)
    ensures isNew ==> Creates(run.ops[n], t, e.reservationId) && IsRecordEntry(run.states[n + 1], e)
    ensures !isNew ==> f in History(run, n, t) && f.reservationId == e.reservationId
                       && (IsRecordEntry(run.states[n], f) ==> IsRecordEntry(run.states[n + 1], e))
  {
    StepEffect(run, n);
    HistoryRecorded(run, n, t);
    isNew, f := ExtendedEntry(History(run, n, t), run.states[n], run.ops[n], run.states[n + 1], t, e);
  }

  lemma ElsewhereCurrent(run: Run, i: nat, n: nat, t: Id, e: Entry)
    requires run.Valid() && i < n < |run.ops| && Creates(run.ops[i], t, e.reservationId)
    requires !EditsTable(run.ops[n], t) && IsRecordEntry(run.states[n], e)
    ensures IsRecordEntry(run.states[n + 1], e)
  {
    StepEffect(run, n);
    if TouchesRecord(run.ops[n], e.reservationId) {
      OneTableForLife(run, i, n, e.reservationId);
    } else {
      StepCurrent(run.states[n], run.ops[n], run.states[n + 1], e);
    }
  }

  lemma {:induction false} HistoryEntry(run: Run, n: nat, t: Id, e: Entry) returns (i: nat)
    requires run.Valid() && n <= |run.ops| && e in History(run, n, t)
    ensures i < n && Creates(run.ops[i], t, e.reservationId) && IsRecordEntry(run.states[n], e)
  {
    i := n;
    if n > 0 {
      if EditsTable(run.ops[n - 1], t) {
        var isNew, f := ExtendedEntryInRun(run, n - 1, t, e);
        if isNew {
          i := n - 1;
        } else {
          i := HistoryEntry(run, n - 1, t, f);
        }
      } else {
        i := HistoryEntry(run, n - 1, t, e);
        ElsewhereCurrent(run, i, n - 1, t, e);
      }
    }
  }

  // ----- when pruning can be seen

  lemma SameActiveExactly(ledger: seq<Entry>, history: seq<Entry>, at: int)
    requires Sub(ledger, history) && UniqueIds(history)
    ensures Active(ledger, at) == Active(history, at) <==> forall e :: e in history && IsActive(e, at) ==> e in ledger
  {
    forall e ensures e in Active(ledger, at) <==> e in ledger && IsActive(e, at) {
      ActiveMember(ledger, at, e);
    }
    forall e ensures e in Active(history, at) <==> e in history && IsActive(e, at) {
      ActiveMember(history, at, e);
    }
    if forall e :: e in history && IsActive(e, at) ==> e in ledger {
      ActiveKeeps(history, at);
      SubActive(ledger, history, at);
      FullSubIsAll(Active(ledger, at), Active(history, at));
    } else {
      var e :| e in history && IsActive(e, at) && e !in ledger;
      assert e in Active(history, at) && e !in Active(ledger, at);
    }
  }

  /** Every uncancelled reservation of the table whose entry is active at `at` was active at all operations since. */
  ghost predicate NoneMissed(run: Run, n: nat, t: Id, at: int)
    requires run.Valid() && n <= |run.ops|
  {
    forall i: nat, id: Id ::
      i < n && Creates(run.ops[i], t, id) && Uncancelled(run.states[n], id) && IsActive(RecordEntry(run.states[n], id), at)
      ==> AlwaysActive(run, i, n, t, RecordEntry(run.states[n], id))
  }

  lemma MissedEntry(run: Run, n: nat, t: Id, at: int, e: Entry)
    requires run.Valid() && n <= |run.ops| && t in run.states[n].tables && NoneMissed(run, n, t, at)
    requires e in History(run, n, t) && IsActive(e, at)
    ensures e in LedgerOf(run.states[n], t)
  {
    var i := HistoryEntry(run, n, t, e);
    EntryLivesExactly(run, i, n, t, e.reservationId);
  }

  lemma SeenEntry(run: Run, i: nat, n: nat, t: Id, id: Id, at: int)
    requires run.Valid() && i < n <= |run.ops| && Creates(run.ops[i], t, id) && Uncancelled(run.states[n], id)
    requires t in run.states[n].tables && IsActive(RecordEntry(run.states[n], id), at)
    requires forall e :: e in History(run, n, t) && IsActive(e, at) ==> e in LedgerOf(run.states[n], t)
    ensures AlwaysActive(run, i, n, t, RecordEntry(run.states[n], id))
  {
    HistoryHolds(run, i, n, t, id);
    EntryLivesExactly(run, i, n, t, id);
  }

  /**
   Exactly when pruning cannot be seen: in every run, a look at time `at` finds the same active entries, in the same
   order, in the stored ledger and in the one that was never pruned, if and only if every uncancelled reservation of
   the table whose entry is active at `at` was active at the time of every operation on the table since its creation.
   */
  lemma PruningUnseenExactly(run: Run, n: nat, t: Id, at: int)
    requires run.Valid() && n <= |run.ops| && t in run.states[0].tables
    ensures t in run.states[n].tables
    ensures Active(LedgerOf(run.states[n], t), at) == Active(History(run, n, t), at) <==> NoneMissed(run, n, t, at)
  {
    StoredIsSub(run, n, t);
    HistoryRecorded(run, n, t);
    var ledger, history := LedgerOf(run.states[n], t), History(run, n, t);
    SameActiveExactly(ledger, history, at);
    if NoneMissed(run, n, t, at) {
      forall e | e in history && IsActive(e, at) ensures e in ledger {
        MissedEntry(run, n, t, at, e);
      }
    }
    if forall e :: e in history && IsActive(e, at) ==> e in ledger {
      forall i: nat, id: Id | i < n && Creates(run.ops[i], t, id) && Uncancelled(run.states[n], id)
                              && IsActive(RecordEntry(run.states[n], id), at)
        ensures AlwaysActive(run, i, n, t, RecordEntry(run.states[n], id))
      {
        SeenEntry(run, i, n, t, id, at);
      }
    }
  }

  /**
   Compaction is invisible to every look that is not backdated: at a time no earlier than those of the operations on
   the table so far, whatever their order, the stored ledger and the never-pruned one have the same active entries.
   */
  lemma CompactionIsInvisible(run: Run, n: nat, t: Id, at: int)
    requires run.Valid() && n <= |run.ops| && t in run.states[0].tables && NoneAfter(run, n, t, at)
    ensures t in run.states[n].tables
    ensures Active(LedgerOf(run.states[n], t), at) == Active(History(run, n, t), at)
  {
    PruningUnseenExactly(run, n, t, at);
  }

  /** The policy looks at a ledger only through its active entries. */
  lemma SameActiveSameReasons(r: Restaurant, table: Table, ledger: seq<Entry>, q: Inquiry)
    requires Active(table.ledger, q.requestedAt) == Active(ledger, q.requestedAt)
    ensures Violated(r, table, q) == Violated(r, table.(ledger := ledger), q)
  {
    forall rule ensures Violates(rule, r, table, q) <==> Violates(rule, r, table.(ledger := ledger), q) {
    }
    assert Broken(r, table, q) == Broken(r, table.(ledger := ledger), q);
  }

  /**
   So quotes, authorizations and cancellations that are not backdated cannot tell the stored ledger from the history:
   the same rules are broken, the same decision is taken, and the same entries are found, booked and removed.
   */
  lemma CallsCannotSeeCompaction(run: Run, n: nat, t: Id, r: Restaurant, q: Inquiry, id: Id)
    requires run.Valid() && n <= |run.ops| && t in run.states[0].tables && NoneAfter(run, n, t, q.requestedAt)
    ensures t in run.states[n].tables
    ensures var table := run.states[n].tables[t].value;
            var history := History(run, n, t);
            && Violated(r, table, q) == Violated(r, table.(ledger := history), q)
            && Transition(table.ledger, id, q.requestedAt) == Transition(history, id, q.requestedAt)
            && Removal(table.ledger, id, q.requestedAt) == Removal(history, id, q.requestedAt)
  {
    CompactionIsInvisible(run, n, t, q.requestedAt);
    SameActiveSameReasons(r, run.states[n].tables[t].value, History(run, n, t), q);
  }
}
