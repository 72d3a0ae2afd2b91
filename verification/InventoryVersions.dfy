/** The inventory version kept in a reservation record orders the commits on its table. */
module InventoryVersions {
  import opened ReservationData
  import opened Ledger
  import opened EditFunctions
  import opened Store
  import opened Effects
  import opened Bookings

  predicate TouchesRecord(op: Op, id: Id) {
    op.EditsLedger() && op.Subject() == id
  }

  /** The last of the first `n` operations that wrote the record of `id`, or -1. */
  ghost function LastTouch(run: Run, n: nat, id: Id): int
    requires run.Valid() && n <= |run.ops|
  {
    if n == 0 then -1
    else if TouchesRecord(run.ops[n - 1], id) then n - 1
    else LastTouch(run, n - 1, id)
  }

  lemma StepVersion(s: Store, op: Op, s': Store, t: Id)
    requires Effect(s, op, s') && t in s.tables
    ensures t in s'.tables && s.tables[t].version <= s'.tables[t].version
    ensures op.EditsLedger() && op.table == t ==> s.tables[t].version < s'.tables[t].version
  {
  }

  lemma StepRecord(s: Store, op: Op, s': Store, id: Id)
    requires Effect(s, op, s')
    ensures !TouchesRecord(op, id) ==> (id in s'.reservations <==> id in s.reservations)
    ensures !TouchesRecord(op, id) && id in s.reservations ==> s'.reservations[id] == s.reservations[id]
    ensures TouchesRecord(op, id) ==>
              && id in s'.reservations && op.table in s'.tables
              && s'.reservations[id].value.inventoryVersion == s'.tables[op.table].version
  {
  }

  lemma {:induction false} VersionsGrow(run: Run, i: nat, j: nat, t: Id)
    requires run.Valid() && i <= j <= |run.ops| && t in run.states[i].tables
    ensures t in run.states[j].tables && run.states[i].tables[t].version <= run.states[j].tables[t].version
  {
    if i < j {
      VersionsGrow(run, i, j - 1, t);
      StepEffect(run, j - 1);
      StepVersion(run.states[j - 1], run.ops[j - 1], run.states[j], t);
    }
  }

  /** A record's inventory version is its table's version right after the commit that last wrote it. */
  lemma {:induction false} VersionOfLastTouch(run: Run, n: nat, id: Id)
    requires run.Valid() && n <= |run.ops| && id in run.states[n].reservations
    ensures var k := LastTouch(run, n, id);
            && 0 <= k < n && TouchesRecord(run.ops[k], id)
            && run.ops[k].table in run.states[k + 1].tables
            && run.states[n].reservations[id].value.inventoryVersion
               == run.states[k + 1].tables[run.ops[k].table].version
  {
    if n > 0 {
      StepEffect(run, n - 1);
      StepRecord(run.states[n - 1], run.ops[n - 1], run.states[n], id);
      if !TouchesRecord(run.ops[n - 1], id) {
        VersionOfLastTouch(run, n - 1, id);
      }
    }
  }

  lemma LaterTouchHasLargerVersion(run: Run, i: nat, j: nat)
    requires run.Valid() && i < j < |run.ops|
    requires run.ops[i].EditsLedger() && run.ops[j].EditsLedger() && run.ops[i].table == run.ops[j].table
    ensures var t := run.ops[i].table;
            t in run.states[i + 1].tables && t in run.states[j + 1].tables
            && run.states[i + 1].tables[t].version < run.states[j + 1].tables[t].version
  {
    var t := run.ops[i].table;
    StepEffect(run, i);
    StepRecord(run.states[i], run.ops[i], run.states[i + 1], run.ops[i].Subject());
    VersionsGrow(run, i + 1, j, t);
    StepEffect(run, j);
    StepVersion(run.states[j], run.ops[j], run.states[j + 1], t);
  }

  /**
   Two reservations last written through the same table never share an inventory version, and their
   inventory versions are in the order of the commits that wrote them.
   */
  lemma InventoryVersionsOrderCommits(run: Run, a: Id, b: Id)
    requires run.Valid() && a != b && a in run.Final().reservations && b in run.Final().reservations
    ensures var n := |run.ops|;
            var i, j := LastTouch(run, n, a), LastTouch(run, n, b);
            var va := run.Final().reservations[a].value.inventoryVersion;
            var vb := run.Final().reservations[b].value.inventoryVersion;
            && 0 <= i < n && 0 <= j < n
            && TouchesRecord(run.ops[i], a) && TouchesRecord(run.ops[j], b)
            && (run.ops[i].table == run.ops[j].table ==> va != vb && (va < vb <==> i < j))
  {
    var n := |run.ops|;
    VersionOfLastTouch(run, n, a);
    VersionOfLastTouch(run, n, b);
    var i, j := LastTouch(run, n, a), LastTouch(run, n, b);
    if run.ops[i].table == run.ops[j].table {
      if i < j {
        LaterTouchHasLargerVersion(run, i, j);
      } else {
        LaterTouchHasLargerVersion(run, j, i);
      }
    }
  }

  // ----- a reservation has one table for life

  lemma TouchMeansHere(run: Run, i: nat, id: Id)
    requires run.Valid() && i < |run.ops| && TouchesRecord(run.ops[i], id)
    ensures HereOrDropped(run.states[i + 1], run.ops[i].table, id)
  {
    var op, s, s' := run.ops[i], run.states[i], run.states[i + 1];
    RunKeepsInv(run, i);
    StepEffect(run, i);
    if op.Create? {
      var entry := EntryFor(s'.reservations[id].value);
      assert entry in LedgerOf(s', op.table);
      HasIdMember(LedgerOf(s', op.table), entry);
    } else {
      SubjectIsInLedger(s, op, s');
      StaysOrIsDropped(s, op, s', op.table, id);
    }
  }

  /** All operations that ever write one reservation go through the same table object. */
  lemma OneTableForLife(run: Run, i: nat, j: nat, id: Id)
    requires run.Valid() && i < j < |run.ops|
    requires TouchesRecord(run.ops[i], id) && TouchesRecord(run.ops[j], id)
    ensures run.ops[i].table == run.ops[j].table && !run.ops[j].Create?
  {
    var t := run.ops[i].table;
    TouchMeansHere(run, i, id);
    LeavingIsDropping(run, i + 1, j, t, id);
    RunKeepsInv(run, j);
    StepEffect(run, j);
    SecondTouch(run.states[j], run.ops[j], run.states[j + 1], t, id);
  }

  lemma SecondTouch(s: Store, op: Op, s': Store, t: Id, id: Id)
    requires Inv(s) && Effect(s, op, s') && HereOrDropped(s, t, id) && TouchesRecord(op, id)
    ensures op.table == t && !op.Create?
  {
    if Dropped(s, id) {
      DroppedStaysDropped(s, op, s', id);
    } else {
      NotElsewhere(s, t, id);
      if !op.Create? {
        SubjectIsInLedger(s, op, s');
      }
    }
  }
}
