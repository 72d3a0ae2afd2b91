/** The ledger of one table: which entries are active, and how a call edits them. */
module Ledger {
  import opened Basics
  import opened ReservationData

  /** An entry counts until its end, and a hold only until it expires. */
  predicate IsActive(e: Entry, at: int) {
    match e.claim
    case Inactive => false
    case Booked => at < e.endsAt
    case Held(expiresAt) => at < e.endsAt && at < expiresAt
  }

  function Active(ledger: seq<Entry>, at: int): seq<Entry> {
    if ledger == [] then []
    else
      var last := ledger[|ledger| - 1];
      Active(ledger[..|ledger| - 1], at) + (if IsActive(last, at) then [last] else [])
  }

  /** The half-open intervals of `a` and `[start, end)` meet, by the test the source uses. */
  predicate Meets(start: int, end: int, a: Entry) {
    start < a.endsAt && a.startsAt < end
  }

  predicate Overlaps(a: Entry, b: Entry) {
    Meets(a.startsAt, a.endsAt, b)
  }

  predicate Within(start: int, end: int, instant: int) {
    start <= instant < end
  }

  ghost predicate Disjoint(ledger: seq<Entry>) {
    forall i, j :: 0 <= i < j < |ledger| ==> !Overlaps(ledger[i], ledger[j])
  }

  ghost predicate UniqueIds(ledger: seq<Entry>) {
    forall i, j :: 0 <= i < j < |ledger| ==> ledger[i].reservationId != ledger[j].reservationId
  }

  predicate HasId(ledger: seq<Entry>, id: Id) {
    exists i :: 0 <= i < |ledger| && ledger[i].reservationId == id
  }

  predicate Conflicts(ledger: seq<Entry>, at: int, start: int, end: int) {
    exists e :: e in Active(ledger, at) && Meets(start, end, e)
  }

  function Book(e: Entry, id: Id): Entry {
    if e.reservationId == id then e.(claim := Booked) else e
  }

  function BookId(ledger: seq<Entry>, id: Id): seq<Entry> {
    seq(|ledger|, i requires 0 <= i < |ledger| => Book(ledger[i], id))
  }

  function WithoutId(ledger: seq<Entry>, id: Id): seq<Entry> {
    if ledger == [] then []
    else
      var last := ledger[|ledger| - 1];
      WithoutId(ledger[..|ledger| - 1], id) + (if last.reservationId != id then [last] else [])
  }

  function Transition(ledger: seq<Entry>, id: Id, at: int): Result<seq<Entry>, Error> {
    if HasId(Active(ledger, at), id) then Ok(BookId(Active(ledger, at), id)) else Err(EntryMissing)
  }

  function Removal(ledger: seq<Entry>, id: Id, at: int): Result<seq<Entry>, Error> {
    if HasId(Active(ledger, at), id) then Ok(WithoutId(Active(ledger, at), id)) else Err(EntryMissing)
  }

  // ----- the loops of the source, proved against the functions above

  method ActiveInventory(ledger: seq<Entry>, at: int) returns (active: seq<Entry>)
    ensures active == Active(ledger, at)
    ensures forall e :: e in active <==> e in ledger && IsActive(e, at)
  {
    active := [];
    for i := 0 to |ledger|
      invariant active == Active(ledger[..i], at)
    {
      assert ledger[..i + 1][..i] == ledger[..i];
      var entry := ledger[i];
      if entry.claim.Inactive? { continue; }
      if entry.endsAt <= at { continue; }
      if entry.claim.Held? && entry.claim.expiresAt <= at { continue; }
      active := active + [entry];
    }
    assert ledger[..|ledger|] == ledger;
    forall e ensures e in active <==> e in ledger && IsActive(e, at) {
      ActiveMember(ledger, at, e);
    }
  }

  method HasTurnConflict(ledger: seq<Entry>, at: int, start: int, end: int) returns (conflict: bool)
    ensures conflict <==> Conflicts(ledger, at, start, end)
  {
    var active := ActiveInventory(ledger, at);
    for i := 0 to |active|
      invariant forall j :: 0 <= j < i ==> !Meets(start, end, active[j])
    {
      if start < active[i].endsAt && active[i].startsAt < end {
        assert active[i] in Active(ledger, at) && Meets(start, end, active[i]);
        return true;
      }
    }
    return false;
  }

  method TransitionInventoryEntry(ledger: seq<Entry>, id: Id, at: int)
    returns (r: Result<seq<Entry>, Error>)
    ensures r == Transition(ledger, id, at)
  {
    var active := ActiveInventory(ledger, at);
    var entries := new Entry[|active|](i requires 0 <= i < |active| => active[i]);
    var matched := false;
    for i := 0 to entries.Length
      invariant matched <==> exists k :: 0 <= k < i && active[k].reservationId == id
      invariant forall k :: 0 <= k < i ==> entries[k] == Book(active[k], id)
      invariant forall k :: i <= k < entries.Length ==> entries[k] == active[k]
    {
      if entries[i].reservationId == id {
        entries[i] := entries[i].(claim := Booked);
        matched := true;
      }
    }
    if !matched {
      return Err(EntryMissing);
    }
    assert entries[..] == BookId(active, id);
    return Ok(entries[..]);
  }

  // ----- facts about the ledger functions

  lemma {:induction false} ActiveMember(ledger: seq<Entry>, at: int, e: Entry)
    ensures e in Active(ledger, at) <==> e in ledger && IsActive(e, at)
  {
    if ledger != [] {
      var front := ledger[..|ledger| - 1];
      ActiveMember(front, at, e);
      assert ledger == front + [ledger[|ledger| - 1]];
    }
  }

  lemma {:induction false} ActiveLength(ledger: seq<Entry>, at: int)
    ensures |Active(ledger, at)| <= |ledger|
  {
    if ledger != [] {
      ActiveLength(ledger[..|ledger| - 1], at);
    }
  }

  lemma ActiveAppend(ledger: seq<Entry>, at: int, e: Entry)
    ensures Active(ledger + [e], at) == Active(ledger, at) + (if IsActive(e, at) then [e] else [])
  {
    assert (ledger + [e])[..|ledger|] == ledger;
  }

  lemma AppendKeeps(ledger: seq<Entry>, e: Entry)
    ensures Disjoint(ledger) && (forall x :: x in ledger ==> !Overlaps(x, e)) ==> Disjoint(ledger + [e])
    ensures UniqueIds(ledger) && (forall x :: x in ledger ==> x.reservationId != e.reservationId)
            ==> UniqueIds(ledger + [e])
  {
  }

  lemma FrontKeeps(ledger: seq<Entry>)
    requires ledger != []
    ensures var front, last := ledger[..|ledger| - 1], ledger[|ledger| - 1];
            && (Disjoint(ledger) ==> Disjoint(front) && forall x :: x in front ==> !Overlaps(x, last))
            && (UniqueIds(ledger) ==>
                  UniqueIds(front) && forall x :: x in front ==> x.reservationId != last.reservationId)
  {
    var front, last := ledger[..|ledger| - 1], ledger[|ledger| - 1];
    forall x | x in front
      ensures Disjoint(ledger) ==> !Overlaps(x, last)
      ensures UniqueIds(ledger) ==> x.reservationId != last.reservationId
    {
      var k :| 0 <= k < |front| && front[k] == x;
      assert ledger[k] == x;
    }
  }

  /** Pruning keeps pairwise facts, because it only drops entries. */
  lemma {:induction false} ActiveKeeps(ledger: seq<Entry>, at: int)
    ensures Disjoint(ledger) ==> Disjoint(Active(ledger, at))
    ensures UniqueIds(ledger) ==> UniqueIds(Active(ledger, at))
  {
    if ledger != [] {
      var front := ledger[..|ledger| - 1];
      ActiveKeeps(front, at);
      FrontKeeps(ledger);
      forall e | e in Active(front, at) ensures e in front {
        ActiveMember(front, at, e);
      }
      if IsActive(ledger[|ledger| - 1], at) {
        AppendKeeps(Active(front, at), ledger[|ledger| - 1]);
      }
    }
  }

  /**
   Pruning at `a` is invisible to a look at `t` exactly when no entry that `t` still
   sees was pruned at `a`.
   */
  lemma {:induction false} PruneInvisibleIff(ledger: seq<Entry>, a: int, t: int)
    ensures Active(Active(ledger, a), t) == Active(ledger, t)
            <==> forall e :: e in ledger && IsActive(e, t) ==> IsActive(e, a)
  {
    if forall e :: e in ledger && IsActive(e, t) ==> IsActive(e, a) {
      PruneInvisible(ledger, a, t);
    } else {
      var e :| e in ledger && IsActive(e, t) && !IsActive(e, a);
      ActiveMember(ledger, t, e);
      ActiveMember(Active(ledger, a), t, e);
      ActiveMember(ledger, a, e);
    }
  }

  lemma {:induction false} PruneInvisible(ledger: seq<Entry>, a: int, t: int)
    requires forall e :: e in ledger && IsActive(e, t) ==> IsActive(e, a)
    ensures Active(Active(ledger, a), t) == Active(ledger, t)
  {
    if ledger != [] {
      var front, last := ledger[..|ledger| - 1], ledger[|ledger| - 1];
      PruneInvisible(front, a, t);
      if IsActive(last, a) {
        ActiveAppend(Active(front, a), t, last);
      } else {
        assert Active(ledger, a) == Active(front, a);
        assert last in ledger;
      }
    }
  }

  lemma {:induction false} WithoutIdMember(ledger: seq<Entry>, id: Id, e: Entry)
    ensures e in WithoutId(ledger, id) <==> e in ledger && e.reservationId != id
  {
    if ledger != [] {
      var front := ledger[..|ledger| - 1];
      WithoutIdMember(front, id, e);
      assert ledger == front + [ledger[|ledger| - 1]];
    }
  }

  lemma {:induction false} WithoutIdKeeps(ledger: seq<Entry>, id: Id)
    ensures |WithoutId(ledger, id)| <= |ledger|
    ensures Disjoint(ledger) ==> Disjoint(WithoutId(ledger, id))
    ensures UniqueIds(ledger) ==> UniqueIds(WithoutId(ledger, id))
  {
    if ledger != [] {
      var front := ledger[..|ledger| - 1];
      WithoutIdKeeps(front, id);
      FrontKeeps(ledger);
      forall e | e in WithoutId(front, id) ensures e in front {
        WithoutIdMember(front, id, e);
      }
      if ledger[|ledger| - 1].reservationId != id {
        AppendKeeps(WithoutId(front, id), ledger[|ledger| - 1]);
      }
    }
  }

  lemma HasIdMember(ledger: seq<Entry>, e: Entry)
    requires e in ledger
    ensures HasId(ledger, e.reservationId)
  {
    var k :| 0 <= k < |ledger| && ledger[k] == e;
    assert ledger[k].reservationId == e.reservationId;
  }

  lemma HasIdActive(ledger: seq<Entry>, at: int, id: Id)
    requires HasId(Active(ledger, at), id)
    ensures HasId(ledger, id)
  {
    var k :| 0 <= k < |Active(ledger, at)| && Active(ledger, at)[k].reservationId == id;
    ActiveMember(ledger, at, Active(ledger, at)[k]);
    HasIdMember(ledger, Active(ledger, at)[k]);
  }

  lemma HasIdAfterEdit(ledger: seq<Entry>, edited: Id, id: Id)
    ensures HasId(BookId(ledger, edited), id) ==> HasId(ledger, id)
    ensures HasId(WithoutId(ledger, edited), id) ==> HasId(ledger, id) && id != edited
  {
    var booked, rest := BookId(ledger, edited), WithoutId(ledger, edited);
    if HasId(booked, id) {
      var k :| 0 <= k < |booked| && booked[k].reservationId == id;
      assert ledger[k].reservationId == id;
    }
    if HasId(rest, id) {
      var k :| 0 <= k < |rest| && rest[k].reservationId == id;
      WithoutIdMember(ledger, edited, rest[k]);
      HasIdMember(ledger, rest[k]);
    }
  }

  /** The overlap test of the source means sharing an instant, for intervals that are not empty. */
  lemma MeetsMeansSharedInstant(start: int, end: int, a: Entry)
    requires start < end && a.startsAt < a.endsAt
    ensures Meets(start, end, a) <==> exists t :: Within(start, end, t) && Within(a.startsAt, a.endsAt, t)
  {
    if Meets(start, end, a) {
      var t := if start < a.startsAt then a.startsAt else start;
      assert Within(start, end, t) && Within(a.startsAt, a.endsAt, t);
    }
  }
}
