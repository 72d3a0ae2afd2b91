/** The operations on one table, and the ledger it would have if nothing were ever pruned. */
module TableHistory {
  import opened ReservationData
  import opened Ledger
  import opened EditFunctions
  import opened Store
  import opened Effects
  import opened Bookings

  predicate EditsTable(op: Op, t: Id) {
    op.EditsLedger() && op.table == t
  }

  /** What an operation does to a ledger that is never pruned: it appends, books or removes one id. */
  ghost function Extend(history: seq<Entry>, op: Op, after: Store): seq<Entry> {
    match op
    case Create(_, _, request) =>
      if request.reservationId in after.reservations
      then history + [EntryFor(after.reservations[request.reservationId].value)] else history
    case Authorize(v, _, _, _, _) => BookId(history, v)
    case Cancel(v, _, _, _) => WithoutId(history, v)
    case _ => history
  }

  /** The never-pruned ledger of a table. */
  ghost function History(run: Run, n: nat, t: Id): seq<Entry>
    requires run.Valid() && n <= |run.ops|
  {
    if n == 0 then []
    else if !EditsTable(run.ops[n - 1], t) then History(run, n - 1, t)
    else Extend(History(run, n - 1, t), run.ops[n - 1], run.states[n])
  }

  /** None of the first `n` operations on table `t` comes with a time after `at`. */
  ghost predicate NoneAfter(run: Run, n: nat, t: Id, at: int)
    requires run.Valid() && n <= |run.ops|
  {
    forall i :: 0 <= i < n && EditsTable(run.ops[i], t) ==> run.ops[i].When() <= at
  }

  /** The first `n` operations on table `t` come with non-decreasing times, none of them after `at`. */
  ghost predicate InOrder(run: Run, n: nat, t: Id, at: int)
    requires run.Valid() && n <= |run.ops|
  {
    && NoneAfter(run, n, t, at)
    && (forall i, j :: 0 <= i < j < n && EditsTable(run.ops[i], t) && EditsTable(run.ops[j], t)
                       ==> run.ops[i].When() <= run.ops[j].When())
  }

  /** The ledger that an operation writes is the pruned one, edited as the history is. */
  lemma WrittenLedger(s: Store, op: Op, s': Store, t: Id)
    requires Inv(s) && Effect(s, op, s') && EditsTable(op, t) && t in s.tables
    ensures t in s'.tables
    ensures LedgerOf(s', t) == Extend(Active(LedgerOf(s, t), op.When()), op, s')
    ensures op.Create? ==> op.request.reservationId in s'.reservations
    ensures !op.Create? ==> HasId(Active(LedgerOf(s, t), op.When()), op.reservation)
  {
  }

  lemma StepElsewhere(s: Store, op: Op, s': Store, t: Id)
    requires Effect(s, op, s') && !EditsTable(op, t) && t in s.tables
    ensures t in s'.tables && LedgerOf(s', t) == LedgerOf(s, t)
  {
  }
}
