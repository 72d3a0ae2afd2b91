/**
 How many disjoint intervals fit: with ordered times, positive turn times and a bounded booking window,
 the limit on the number of ledger entries is never reached.
 */
module Packing {
  import opened Basics
  import opened ReservationData
  import opened Ledger
  import opened Policy
  import opened EditFunctions
  import opened Store
  import opened Effects
  import opened Bookings
  import opened TableHistory

  // ----- counting

  lemma {:induction false} Pigeonhole(s: seq<nat>, holes: set<nat>)
    requires forall i :: 0 <= i < |s| ==> s[i] in holes
    requires forall i, j :: 0 <= i < j < |s| ==> s[i] != s[j]
    ensures |s| <= |holes|
  {
    if s != [] {
      forall i | 0 <= i < |s[1..]| ensures s[1..][i] in holes - {s[0]} {
        assert s[1..][i] == s[i + 1];
      }
      Pigeonhole(s[1..], holes - {s[0]});
    }
  }

  function Below(n: nat): (holes: set<nat>)
    ensures |holes| == n
    ensures forall i: nat :: i in holes <==> i < n
  {
    if n == 0 then {} else Below(n - 1) + {n - 1}
  }

  // ----- blocks of one turn time

  /** Whether `e` runs at `at`, or else the number of whole turn times between `at` and its start. */
  function Block(e: Entry, at: int, turn: int): (b: nat)
    requires 0 < turn
  {
    if e.startsAt <= at then 0 else 1 + (e.startsAt - at - 1) / turn
  }

  lemma SameQuotient(x: int, y: int, d: int)
    requires 0 < d && x / d == y / d
    ensures -d < x - y < d
  {
  }

  lemma QuotientBound(x: int, d: int, n: nat)
    requires 0 < d && 0 <= x < n * d
    ensures x / d < n
  {
  }

  lemma DisjointEntriesHaveDifferentBlocks(a: Entry, b: Entry, at: int, turn: int)
    requires 0 < turn && !Overlaps(a, b)
    requires a.startsAt + turn <= a.endsAt && b.startsAt + turn <= b.endsAt && at < a.endsAt && at < b.endsAt
    ensures Block(a, at, turn) != Block(b, at, turn)
  {
    if at < a.startsAt && at < b.startsAt && Block(a, at, turn) == Block(b, at, turn) {
      SameQuotient(a.startsAt - at - 1, b.startsAt - at - 1, turn);
    }
  }

  /** An entry of at least one turn time that starts within the window. */
  predicate Fits(e: Entry, at: int, turn: int, window: int) {
    e.startsAt + turn <= e.endsAt && e.startsAt <= at + window
  }

  /** At most `n` disjoint entries of at least one turn time end after `at` and start within `n - 1` turn times. */
  lemma DisjointEntriesAreFew(ledger: seq<Entry>, at: int, turn: int, window: int, n: nat)
    requires 0 < turn && 0 < n && window <= (n - 1) * turn && Disjoint(ledger)
    requires forall e :: e in ledger ==> at < e.endsAt && Fits(e, at, turn, window)
    ensures |ledger| <= n
  {
    var blocks := seq(|ledger|, i requires 0 <= i < |ledger| => Block(ledger[i], at, turn));
    var holes := Below(n);
    forall i | 0 <= i < |blocks| ensures blocks[i] in holes {
      var e := ledger[i];
      assert e in ledger;
      if at < e.startsAt {
        QuotientBound(e.startsAt - at - 1, turn, n - 1);
      }
    }
    forall i, j | 0 <= i < j < |blocks| ensures blocks[i] != blocks[j] {
      assert ledger[i] in ledger && ledger[j] in ledger;
      DisjointEntriesHaveDifferentBlocks(ledger[i], ledger[j], at, turn);
    }
    Pigeonhole(blocks, holes);
  }

  // ----- runs

  /** Each of the first `n` bookings of table `t` took at least `turn` and was made within `window`. */
  ghost predicate Spaced(run: Run, n: nat, t: Id, turn: int, window: int)
    requires run.Valid() && n <= |run.ops|
  {
    forall i :: 0 <= i < n && run.ops[i].Create? && run.ops[i].table == t ==>
                  SpacedCreate(run.states[i], run.ops[i], turn, window)
  }

  ghost predicate SpacedCreate(s: Store, op: Op, turn: int, window: int)
    requires op.Create?
  {
    && op.table in s.tables && turn <= s.tables[op.table].value.Turn() * MINUTE
    && op.restaurant in s.restaurants && s.restaurants[op.restaurant].value.Window() <= window
  }

  ghost predicate AllFit(ledger: seq<Entry>, at: int, turn: int, window: int) {
    forall e :: e in ledger ==> Fits(e, at, turn, window)
  }

  lemma StepFits(s: Store, op: Op, s': Store, t: Id, at: int, turn: int, window: int)
    requires Effect(s, op, s') && EditsTable(op, t) && t in s.tables && op.When() <= at
    requires AllFit(LedgerOf(s, t), op.When(), turn, window)
    requires op.Create? ==> SpacedCreate(s, op, turn, window)
    ensures t in s'.tables && AllFit(LedgerOf(s', t), at, turn, window)
  {
    var active := Active(LedgerOf(s, t), op.When());
    forall e | e in active ensures Fits(e, at, turn, window) {
      ActiveMember(LedgerOf(s, t), op.When(), e);
    }
    forall e | e in LedgerOf(s', t) ensures Fits(e, at, turn, window) {
      match op {
        case Create(_, _, _) =>
        case Authorize(v, _, _, _, _) =>
          var id := EntryId(Snap(s.reservations, v));
          var k :| 0 <= k < |active| && BookId(active, id)[k] == e;
          assert active[k] in active && e == Book(active[k], id);
        case Cancel(v, _, _, _) =>
          WithoutIdMember(active, EntryId(Snap(s.reservations, v)), e);
      }
    }
  }

  lemma {:induction false} StoredEntriesFit(run: Run, n: nat, t: Id, at: int, turn: int, window: int)
    requires run.Valid() && n <= |run.ops| && t in run.states[0].tables
    requires InOrder(run, n, t, at) && Spaced(run, n, t, turn, window)
    ensures t in run.states[n].tables && AllFit(LedgerOf(run.states[n], t), at, turn, window)
  {
    if n > 0 {
      var op, s, s' := run.ops[n - 1], run.states[n - 1], run.states[n];
      StepEffect(run, n - 1);
      if EditsTable(op, t) {
        StoredEntriesFit(run, n - 1, t, op.When(), turn, window);
        StepFits(s, op, s', t, at, turn, window);
      } else {
        StoredEntriesFit(run, n - 1, t, at, turn, window);
        StepElsewhere(s, op, s', t);
      }
    }
  }

  /** A new entry beside the active ones, all disjoint and all fitting, stays within the limit. */
  lemma RoomForOne(ledger: seq<Entry>, entry: Entry, at: int, turn: int, window: int)
    requires Disjoint(ledger) && AllFit(ledger, at, turn, window)
    requires 0 < turn && window <= (LEDGER_LIMIT - 1) * turn
    requires !Conflicts(ledger, at, entry.startsAt, entry.endsAt)
    requires at < entry.endsAt && Fits(entry, at, turn, window)
    ensures |Active(ledger, at)| < LEDGER_LIMIT
  {
    var active := Active(ledger, at);
    ActiveKeeps(ledger, at);
    forall e | e in active ensures at < e.endsAt && Fits(e, at, turn, window) && !Overlaps(e, entry) {
      ActiveMember(ledger, at, e);
    }
    AppendKeeps(active, entry);
    DisjointEntriesAreFew(active + [entry], at, turn, window, LEDGER_LIMIT);
  }

  /** The requested seating ends after the time of the request. */
  predicate EndsLater(t: Table, q: Inquiry) {
    q.requestedAt < q.desiredAt.instant + t.Turn() * MINUTE
  }

  /** What the packing results ask of the settings: no turn time is too short for the booking window. */
  ghost predicate Roomy(s: Store, r: Id, t: Id, turn: int, window: int) {
    && t in s.tables && r in s.restaurants && 0 < turn && window <= (LEDGER_LIMIT - 1) * turn
    && turn <= s.tables[t].value.Turn() * MINUTE && s.restaurants[r].value.Window() <= window
  }

  lemma NewLedgerFits(s: Store, r: Id, t: Id, q: Inquiry, turn: int, window: int)
    requires Inv(s) && Roomy(s, r, t, turn, window) && AllFit(LedgerOf(s, t), q.requestedAt, turn, window)
    requires EndsLater(s.tables[t].value, q)
    requires var quote := QuotePolicy(s.restaurants[r].value, s.tables[t].value, q);
             quote.Ok? && quote.value.isBookable
    ensures |Active(LedgerOf(s, t), q.requestedAt)| < LEDGER_LIMIT
  {
    var entry := Entry("", q.desiredAt.instant, q.desiredAt.instant + s.tables[t].value.Turn() * MINUTE, Booked);
    assert LedgerInv(s, t);
    BookableQuoteFits(s.restaurants[r].value, s.tables[t].value, q);
    RoomForOne(LedgerOf(s, t), entry, q.requestedAt, turn, window);
  }

  lemma NoticeMeansEndsLater(r: Restaurant, t: Table, q: Inquiry)
    requires QuotePolicy(r, t, q).Ok? && QuotePolicy(r, t, q).value.isBookable
    requires 0 <= r.minAdvanceMinutes.GetOr(0) && 0 < t.Turn()
    ensures EndsLater(t, q)
  {
    BookableExactly(r, t, q);
  }

  /**
   When the entry limit is reached: after operations on a table with non-decreasing times, if every turn time
   is at least `turn` and every booking window at most 499 times that, a creation at a later time is refused
   because of the number of entries exactly if it is accepted, bookable and finds 500 active entries; and
   then it asks for a seating that is over at the time of the request.
   */
  lemma EntryLimitExactly(run: Run, r: Id, t: Id, c: CreateRequest, turn: int, window: int)
    requires run.Valid() && t in run.states[0].tables && Roomy(run.Final(), r, t, turn, window)
    requires InOrder(run, |run.ops|, t, c.inquiry.requestedAt) && Spaced(run, |run.ops|, t, turn, window)
    requires t != "" && 0 <= run.Final().tables[t].version
    ensures var s := run.Final();
            var outcome := CreateReservation(Snap(s.restaurants, r), Snap(s.tables, t), c);
            var quote := QuotePolicy(s.restaurants[r].value, s.tables[t].value, c.inquiry);
            && outcome != Err(LedgerTooLong)
            && (outcome == Err(LedgerFull)
                <==> && c.acceptedPolicy && quote.Ok? && quote.value.isBookable
                     && |Active(LedgerOf(s, t), c.inquiry.requestedAt)| == LEDGER_LIMIT)
            && (outcome == Err(LedgerFull) ==> !EndsLater(s.tables[t].value, c.inquiry))
  {
    var s := run.Final();
    RunKeepsInv(run, |run.ops|);
    assert LedgerInv(s, t);
    ActiveLength(LedgerOf(s, t), c.inquiry.requestedAt);
    StoredEntriesFit(run, |run.ops|, t, c.inquiry.requestedAt, turn, window);
    var quote := QuotePolicy(s.restaurants[r].value, s.tables[t].value, c.inquiry);
    if quote.Ok? && quote.value.isBookable && EndsLater(s.tables[t].value, c.inquiry) {
      NewLedgerFits(s, r, t, c.inquiry, turn, window);
    }
  }

  /**
   So the limit is never reached by a request that ends later than it is made, and by no request at all under
   a minimum notice that is not negative: every accepted, bookable request is then created.
   */
  lemma EntryLimitIsNeverReached(run: Run, r: Id, t: Id, c: CreateRequest, turn: int, window: int)
    requires run.Valid() && t in run.states[0].tables && Roomy(run.Final(), r, t, turn, window)
    requires InOrder(run, |run.ops|, t, c.inquiry.requestedAt) && Spaced(run, |run.ops|, t, turn, window)
    requires t != "" && 0 <= run.Final().tables[t].version
    requires 0 <= run.Final().restaurants[r].value.minAdvanceMinutes.GetOr(0)
             || EndsLater(run.Final().tables[t].value, c.inquiry)
    ensures var s := run.Final();
            var outcome := CreateReservation(Snap(s.restaurants, r), Snap(s.tables, t), c);
            var quote := QuotePolicy(s.restaurants[r].value, s.tables[t].value, c.inquiry);
            && outcome != Err(LedgerFull) && outcome != Err(LedgerTooLong)
            && (outcome.Ok? <==> c.acceptedPolicy && quote.Ok? && quote.value.isBookable)
  {
    var s := run.Final();
    EntryLimitExactly(run, r, t, c, turn, window);
    var quote := QuotePolicy(s.restaurants[r].value, s.tables[t].value, c.inquiry);
    if quote.Ok? && quote.value.isBookable && !EndsLater(s.tables[t].value, c.inquiry) {
      NoticeMeansEndsLater(s.restaurants[r].value, s.tables[t].value, c.inquiry);
    }
  }
}
