/**
 The request bridge of the MCP Apps widget: requests posted to one or two hosts, replies that may
 arrive while a request is still being posted, timeouts, target pinning and teardown.
 */
module Bridge {
  import opened Basics

  type Target = nat

  datatype Outcome = Resolved | Rejected | TimedOut | Aborted

  datatype Settlement = Settlement(id: nat, outcome: Outcome)

  datatype Method = Teardown | ToolResult | OtherMethod

  /** `response` is `Some(true)` for an error reply and `Some(false)` for a result. */
  datatype Message = Message(source: Target, wellFormed: bool, method': Method, id: Option<nat>, response: Option<bool>)

  /**
   Something that happens to the bridge.  A message may make listeners or the host act before its handler
   returns (`inner`), and posting a request may do so for each of its destinations (`first`, `second`).
   */
  datatype Action =
    | Deliver(message: Message, inner: seq<Action>)
    | Call(first: seq<Action>, second: seq<Action>)
    | Expire(timer: nat)
    | Quit

  /**
   `pending` maps request ids to their timer, `timers` maps live timers to their request, and `started` lists the
   requests for which timers have been started, in order; a timer is its place in that list.
   */
  datatype State = State(
    targets: seq<Target>,
    next: nat,
    target: Option<Target>,
    tornDown: bool,
    pending: map<nat, Option<nat>>,
    timers: map<nat, nat>,
    started: seq<nat>,
    settled: seq<Settlement>,
    sent: seq<(nat, Target)>)

  function Start(targets: seq<Target>): State {
    State(targets, 1, None, false, map[], map[], [], [], [])
  }

  function ClearTimer(s: State, timer: Option<nat>): State {
    match timer case None => s case Some(t) => s.(timers := s.timers - {t})
  }

  /** Takes a request off the pending map and settles its promise. */
  function Settle(s: State, id: nat, outcome: Outcome): State
    requires id in s.pending
  {
    ClearTimer(s, s.pending[id]).(pending := s.pending - {id}, settled := s.settled + [Settlement(id, outcome)])
  }

  /** The pending requests below `k` are rejected, in the order in which they were issued. */
  function AbortBelow(s: State, k: nat): State {
    if k == 0 then s
    else
      var before := AbortBelow(s, k - 1);
      if k - 1 !in s.pending then before
      else ClearTimer(before, s.pending[k - 1]).(settled := before.settled + [Settlement(k - 1, Aborted)])
  }

  function TearDown(s: State): State {
    AbortBelow(s.(tornDown := true), s.next).(pending := map[])
  }

  function Fire(s: State, timer: nat): State {
    if timer !in s.timers then s
    else
      var id := s.timers[timer];
      var fired := s.(timers := s.timers - {timer});
      if id !in s.pending then fired
      else fired.(pending := s.pending - {id}, settled := s.settled + [Settlement(id, TimedOut)])
  }

  /** A request still pending after posting gets a timer. */
  function StartTimer(s: State, id: nat): State {
    if id !in s.pending then s
    else s.(pending := s.pending[id := Some(|s.started|)], timers := s.timers[|s.started| := id],
            started := s.started + [id])
  }

  function Destinations(s: State): seq<Target> {
    match s.target case Some(t) => [t] case None => s.targets
  }

  predicate Foreign(s: State, source: Target) {
    s.target.Some? && s.target.value != source
  }

  function Issue(s: State, to: Target): State {
    s.(next := s.next + 1, pending := s.pending[s.next := None], sent := s.sent + [(s.next, to)])
  }

  function Perform(s: State, a: Action): State
    decreases a
  {
    match a
    case Deliver(m, inner) =>
      if m.source !in s.targets || !m.wellFormed then s
      else if m.method' == Teardown && m.id.Some? then PerformAll(TearDown(s), inner)
      else if m.id.Some? && m.response.Some? && m.id.value in s.pending then
        if Foreign(s, m.source) then s
        else Settle(s.(target := Some(m.source)), m.id.value, if m.response.value then Rejected else Resolved)
      else if m.method' == ToolResult && !Foreign(s, m.source) then
        PerformAll(s.(target := Some(m.source)), inner)
      else s
    case Call(first, second) =>
      var destinations := Destinations(s);
      if s.tornDown || destinations == [] then s
      else
        var posted := PerformAll(Issue(s, destinations[0]), first);
        if |destinations| == 1 then StartTimer(posted, s.next)
        else
          var again := PerformAll(posted.(sent := posted.sent + [(s.next, destinations[1])]), second);
          StartTimer(again, s.next)
    case Expire(timer) => Fire(s, timer)
    case Quit => TearDown(s)
  }

  function PerformAll(s: State, actions: seq<Action>): State
    decreases actions
  {
    if actions == [] then s
    else Perform(PerformAll(s, actions[..|actions| - 1]), actions[|actions| - 1])
  }

  // ----- the bridge object

  class McpBridge {
    const targets: seq<Target>
    var nextRequestId: nat
    var standardTarget: Option<Target>
    var isTornDown: bool
    var pending: map<nat, Option<nat>>
    var timers: map<nat, nat>
    var started: seq<nat>
    var settled: seq<Settlement>
    var sent: seq<(nat, Target)>

    ghost function Value(): State
      reads this
    {
      State(targets, nextRequestId, standardTarget, isTornDown, pending, timers, started, settled, sent)
    }

    constructor (targets: seq<Target>)
      ensures Value() == Start(targets)
    {
      this.targets := targets;
      nextRequestId, standardTarget, isTornDown := 1, None, false;
      pending, timers, started, settled, sent := map[], map[], [], [], [];
    }

    method TearDownAll()
      modifies this
      ensures Value() == TearDown(old(Value()))
    {
      isTornDown := true;
      ghost var torn := Value();
      for id := 0 to nextRequestId
        invariant Value() == AbortBelow(torn, id) && torn == old(Value()).(tornDown := true)
        invariant pending == torn.pending && nextRequestId == torn.next
      {
        AbortFrame(torn, id);
        AbortFrame(torn, id + 1);
        if id in pending {
          if pending[id].Some? {
            timers := timers - {pending[id].value};
          }
          settled := settled + [Settlement(id, Aborted)];
        }
      }
      pending := map[];
    }

    method HandleMessage(m: Message, inner: seq<Action>, ghost a: Action)
      requires a == Deliver(m, inner)
      modifies this
      ensures Value() == Perform(old(Value()), a)
      decreases a
    {
      if m.source !in targets || !m.wellFormed {
        return;
      }
      if m.method' == Teardown && m.id.Some? {
        TearDownAll();
        RunAll(inner);
        return;
      }
      if m.id.Some? && m.response.Some? && m.id.value in pending {
        if standardTarget.Some? && m.source != standardTarget.value {
          return;
        }
        standardTarget := Some(m.source);
        var timeoutId := pending[m.id.value];
        pending := pending - {m.id.value};
        if timeoutId.Some? {
          timers := timers - {timeoutId.value};
        }
        settled := settled + [Settlement(m.id.value, if m.response.value then Rejected else Resolved)];
        return;
      }
      if m.method' == ToolResult {
        if standardTarget.Some? && m.source != standardTarget.value {
          return;
        }
        standardTarget := Some(m.source);
        RunAll(inner);
      }
    }

    method Request(first: seq<Action>, second: seq<Action>, ghost a: Action)
      requires a == Call(first, second)
      modifies this
      ensures Value() == Perform(old(Value()), a)
      decreases a
    {
      if isTornDown {
        return;
      }
      var destinations := if standardTarget.Some? then [standardTarget.value] else targets;
      if destinations == [] {
        return;
      }
      var id := nextRequestId;
      nextRequestId := nextRequestId + 1;
      pending := pending[id := None];
      sent := sent + [(id, destinations[0])];
      RunAll(first);
      if |destinations| > 1 {
        sent := sent + [(id, destinations[1])];
        RunAll(second);
      }
      if id !in pending {
        return;
      }
      timers := timers[|started| := id];
      pending := pending[id := Some(|started|)];
      started := started + [id];
    }

    method TimeOut(timer: nat)
      modifies this
      ensures Value() == Fire(old(Value()), timer)
    {
      if timer in timers {
        var id := timers[timer];
        timers := timers - {timer};
        if id in pending {
          pending := pending - {id};
          settled := settled + [Settlement(id, TimedOut)];
        }
      }
    }

    method RunAll(actions: seq<Action>)
      modifies this
      ensures Value() == PerformAll(old(Value()), actions)
      decreases actions
    {
      if actions == [] {
        return;
      }
      RunAll(actions[..|actions| - 1]);
      var a := actions[|actions| - 1];
      match a {
        case Deliver(m, inner) => HandleMessage(m, inner, a);
        case Call(first, second) => Request(first, second, a);
        case Expire(timer) => TimeOut(timer);
        case Quit => TearDownAll();
      }
    }
  }

  lemma {:induction false} AbortFrame(s: State, k: nat)
    ensures AbortBelow(s, k) == s.(timers := AbortBelow(s, k).timers, settled := AbortBelow(s, k).settled)
  {
    if k > 0 {
      AbortFrame(s, k - 1);
    }
  }

  // ----- the invariant

  ghost predicate IsSettled(settled: seq<Settlement>, id: nat) {
    exists i :: 0 <= i < |settled| && settled[i].id == id
  }

  /** Pending ids are the issued ones that are not settled, and each settles at most once. */
  ghost predicate PendingInv(s: State) {
    && SettlementInv(s)
    && (s.tornDown ==> s.pending == map[])
  }

  ghost predicate SettlementInv(s: State) {
    && 0 < s.next
    && (forall id :: id in s.pending <==> 0 < id < s.next && !IsSettled(s.settled, id))
    && (forall i :: 0 <= i < |s.settled| ==> 0 < s.settled[i].id < s.next)
    && (forall i, j :: 0 <= i < j < |s.settled| ==> s.settled[i].id != s.settled[j].id)
  }

  /** Live timers belong to pending requests; `posting` are the requests whose posting has not returned. */
  ghost predicate TimerInv(s: State, posting: set<nat>) {
    && (forall t :: t in s.timers ==> t < |s.started| && s.started[t] == s.timers[t] && s.timers[t] in s.pending && s.pending[s.timers[t]] == Some(t))
    && (forall id :: id in s.pending && id !in posting ==>
                       s.pending[id].Some? && s.pending[id].value in s.timers && s.timers[s.pending[id].value] == id)
    && (forall id :: id in s.pending && id in posting ==> s.pending[id] == None)
    && (forall id :: id in posting ==> id < s.next)
  }

  ghost predicate Inv(s: State, posting: set<nat>) {
    PendingInv(s) && TimerInv(s, posting)
  }

  /** What never goes back: ids, settlements, the pinned target, teardown. */
  ghost predicate Advances(s: State, s': State) {
    && s'.targets == s.targets && s.next <= s'.next && s.settled <= s'.settled && s.sent <= s'.sent
    && (s.target.Some? ==> s'.target == s.target)
    && (s.tornDown ==> s'.tornDown && s'.next == s.next && s'.sent == s.sent && s'.settled == s.settled)
  }

  lemma SettledNext(settled: seq<Settlement>, x: Settlement, id: nat)
    ensures IsSettled(settled + [x], id) <==> IsSettled(settled, id) || x.id == id
  {
    if IsSettled(settled, id) {
      var i :| 0 <= i < |settled| && settled[i].id == id;
      assert (settled + [x])[i].id == id;
    }
    assert (settled + [x])[|settled|] == x;
  }

  /** `s'` is `s` with request `id` taken off the pending map, its timer cleared and its promise settled. */
  ghost predicate Removed(s: State, s': State, id: nat, outcome: Outcome) {
    && id in s.pending
    && s' == s.(pending := s.pending - {id}, settled := s.settled + [Settlement(id, outcome)],
                timers := match s.pending[id] case None => s.timers case Some(t) => s.timers - {t},
                target := s'.target)
  }

  lemma RemoveKeepsPending(s: State, s': State, id: nat, outcome: Outcome)
    requires PendingInv(s) && Removed(s, s', id, outcome)
    ensures PendingInv(s')
  {
    forall j: nat ensures IsSettled(s'.settled, j) <==> IsSettled(s.settled, j) || j == id {
      SettledNext(s.settled, Settlement(id, outcome), j);
    }
    forall i | 0 <= i < |s.settled| ensures s.settled[i].id != id {
      assert IsSettled(s.settled, s.settled[i].id);
    }
  }

  lemma RemoveKeepsTimers(s: State, s': State, posting: set<nat>, id: nat, outcome: Outcome)
    requires TimerInv(s, posting) && Removed(s, s', id, outcome)
    ensures TimerInv(s', posting)
  {
  }

  lemma RemoveKeepsInv(s: State, s': State, posting: set<nat>, id: nat, outcome: Outcome)
    requires Inv(s, posting) && Removed(s, s', id, outcome)
    ensures Inv(s', posting)
  {
    RemoveKeepsPending(s, s', id, outcome);
    RemoveKeepsTimers(s, s', posting, id, outcome);
  }

  lemma FireKeepsInv(s: State, posting: set<nat>, timer: nat)
    requires Inv(s, posting)
    ensures Inv(Fire(s, timer), posting) && Advances(s, Fire(s, timer))
  {
    if timer in s.timers {
      RemoveKeepsInv(s, Fire(s, timer), posting, s.timers[timer], TimedOut);
    }
  }

  lemma IssueKeepsInv(s: State, posting: set<nat>, to: Target)
    requires Inv(s, posting) && !s.tornDown
    ensures Inv(Issue(s, to), posting + {s.next}) && Advances(s, Issue(s, to))
  {
    var s' := Issue(s, to);
    assert !IsSettled(s.settled, s.next);
  }

  lemma StartTimerKeepsInv(s: State, posting: set<nat>, id: nat)
    requires Inv(s, posting + {id}) && id !in posting
    ensures Inv(StartTimer(s, id), posting) && Advances(s, StartTimer(s, id))
  {
    var s' := StartTimer(s, id);
  }

  /** After `k` steps of teardown the pending requests below `k` are settled and have no timer. */
  ghost predicate AbortedBelow(s: State, s': State, k: nat) {
    && (forall id: nat :: IsSettled(s'.settled, id) <==> IsSettled(s.settled, id) || (id in s.pending && id < k))
    && (forall i :: 0 <= i < |s'.settled| ==> 0 < s'.settled[i].id < s.next)
    && (forall i, j :: 0 <= i < j < |s'.settled| ==> s'.settled[i].id != s'.settled[j].id)
    && s.settled <= s'.settled
    && (forall t :: t in s'.timers <==> t in s.timers && s.timers[t] >= k)
  }

  lemma AbortedIds(s: State, before: State, now: State, k: nat)
    requires SettlementInv(s) && 0 < k && AbortedBelow(s, before, k - 1) && k - 1 in s.pending
    requires now.settled == before.settled + [Settlement(k - 1, Aborted)]
    ensures forall id: nat :: IsSettled(now.settled, id) <==> IsSettled(s.settled, id) || (id in s.pending && id < k)
    ensures !IsSettled(before.settled, k - 1) && 0 < k - 1 < s.next
  {
    forall id: nat ensures IsSettled(now.settled, id) <==> IsSettled(before.settled, id) || id == k - 1 {
      SettledNext(before.settled, Settlement(k - 1, Aborted), id);
    }
  }

  lemma AbortOne(s: State, before: State, now: State, posting: set<nat>, k: nat)
    requires SettlementInv(s) && TimerInv(s, posting) && 0 < k && AbortedBelow(s, before, k - 1) && k - 1 in s.pending
    requires now.timers == (match s.pending[k - 1] case None => before.timers case Some(t) => before.timers - {t})
    requires now.settled == before.settled + [Settlement(k - 1, Aborted)]
    ensures AbortedBelow(s, now, k)
  {
    AbortedIds(s, before, now, k);
    AbortTimers(s, before.timers, now.timers, posting, k - 1);
  }

  lemma AbortTimers(s: State, before: map<nat, nat>, now: map<nat, nat>, posting: set<nat>, k: nat)
    requires TimerInv(s, posting) && k in s.pending
    requires forall t :: t in before <==> t in s.timers && s.timers[t] >= k
    requires now == (match s.pending[k] case None => before case Some(t) => before - {t})
    ensures forall t :: t in now <==> t in s.timers && s.timers[t] >= k + 1
  {
    forall t ensures t in now <==> t in s.timers && s.timers[t] >= k + 1 {
    }
  }

  lemma AbortNone(s: State, before: State, now: State, posting: set<nat>, k: nat)
    requires TimerInv(s, posting) && 0 < k && AbortedBelow(s, before, k - 1) && k - 1 !in s.pending
    requires now.timers == before.timers && now.settled == before.settled
    ensures AbortedBelow(s, now, k)
  {
    forall t ensures t in now.timers <==> t in s.timers && s.timers[t] >= k {
    }
  }

  lemma AbortStep(s: State, posting: set<nat>, k: nat)
    requires SettlementInv(s) && TimerInv(s, posting) && 0 < k && AbortedBelow(s, AbortBelow(s, k - 1), k - 1)
    ensures AbortedBelow(s, AbortBelow(s, k), k)
  {
    if k - 1 in s.pending {
      AbortOne(s, AbortBelow(s, k - 1), AbortBelow(s, k), posting, k);
    } else {
      AbortNone(s, AbortBelow(s, k - 1), AbortBelow(s, k), posting, k);
    }
  }

  lemma NoneAborted(s: State)
    requires SettlementInv(s)
    ensures AbortedBelow(s, s, 0)
  {
  }

  lemma {:induction false} AbortMeaning(s: State, posting: set<nat>, k: nat)
    requires SettlementInv(s) && TimerInv(s, posting)
    ensures AbortedBelow(s, AbortBelow(s, k), k)
  {
    if k == 0 {
      NoneAborted(s);
    } else {
      AbortMeaning(s, posting, k - 1);
      AbortStep(s, posting, k);
    }
  }

  lemma TearDownKeepsInv(s: State, posting: set<nat>)
    requires Inv(s, posting)
    ensures Inv(TearDown(s), posting) && Advances(s, TearDown(s)) && TearDown(s).tornDown
  {
    var torn := s.(tornDown := true);
    AbortMeaning(torn, posting, s.next);
    AbortFrame(torn, s.next);
    var s' := TearDown(s);
    if s.tornDown {
      AbortNothing(torn, s.next);
    }
  }

  lemma {:induction false} AbortNothing(s: State, k: nat)
    requires s.pending == map[]
    ensures AbortBelow(s, k) == s
  {
    if k > 0 {
      AbortNothing(s, k - 1);
    }
  }

  lemma TargetKeepsInv(s: State, posting: set<nat>, target: Option<Target>, sent: seq<(nat, Target)>)
    requires Inv(s, posting)
    ensures Inv(s.(target := target, sent := sent), posting)
  {
  }

  // ----- every action keeps it, at any depth of re-entry

  lemma {:induction false} PerformKeepsInv(s: State, a: Action, posting: set<nat>)
    requires Inv(s, posting)
    ensures Inv(Perform(s, a), posting) && Advances(s, Perform(s, a))
    decreases a
  {
    match a {
      case Expire(timer) => FireKeepsInv(s, posting, timer);
      case Quit => TearDownKeepsInv(s, posting);
      case Deliver(m, inner) => DeliverKeepsInv(s, m, inner, posting, a);
      case Call(first, second) => CallKeepsInv(s, first, second, posting, a);
    }
  }

  lemma {:induction false} DeliverKeepsInv(s: State, m: Message, inner: seq<Action>, posting: set<nat>, a: Action)
    requires Inv(s, posting) && a == Deliver(m, inner)
    ensures Inv(Perform(s, a), posting) && Advances(s, Perform(s, a))
    decreases a, 0
  {
    if m.source in s.targets && m.wellFormed {
      if m.method' == Teardown && m.id.Some? {
        TearDownKeepsInv(s, posting);
        PerformAllKeepsInv(TearDown(s), inner, posting);
      } else if m.id.Some? && m.response.Some? && m.id.value in s.pending {
        if !Foreign(s, m.source) {
          RemoveKeepsInv(s, Perform(s, a), posting, m.id.value, if m.response.value then Rejected else Resolved);
        }
      } else if m.method' == ToolResult && !Foreign(s, m.source) {
        var pinned := s.(target := Some(m.source));
        TargetKeepsInv(s, posting, Some(m.source), s.sent);
        PerformAllKeepsInv(pinned, inner, posting);
      }
    }
  }

  lemma {:induction false} CallKeepsInv(s: State, first: seq<Action>, second: seq<Action>, posting: set<nat>, a: Action)
    requires Inv(s, posting) && a == Call(first, second)
    ensures Inv(Perform(s, a), posting) && Advances(s, Perform(s, a))
    decreases a, 1
  {
    var destinations := Destinations(s);
    if !s.tornDown && destinations != [] {
      var id, issued := s.next, Issue(s, destinations[0]);
      IssueKeepsInv(s, posting, destinations[0]);
      PerformAllKeepsInv(issued, first, posting + {id});
      var posted := PerformAll(issued, first);
      if |destinations| == 1 {
        StartTimerKeepsInv(posted, posting, id);
        AdvancesOn(s, issued, posted, StartTimer(posted, id));
      } else {
        var again := SecondPostKeepsInv(posted, second, posting, id, destinations[1], a);
        AdvancesOn(s, issued, posted, StartTimer(again, id));
      }
    }
  }

  lemma AdvancesOn(a: State, b: State, c: State, d: State)
    requires Advances(a, b) && Advances(b, c) && AdvancesWhilePosting(c, d)
    requires !a.tornDown
    ensures Advances(a, d)
  {
  }

  /** What a second post may do even after teardown: it is still sent. */
  ghost predicate AdvancesWhilePosting(s: State, s': State) {
    && s'.targets == s.targets && s.next <= s'.next && s.settled <= s'.settled && s.sent <= s'.sent
    && (s.target.Some? ==> s'.target == s.target)
  }

  lemma {:induction false} SecondPostKeepsInv(
    posted: State, second: seq<Action>, posting: set<nat>, id: nat, to: Target, a: Action)
    returns (again: State)
    requires Inv(posted, posting + {id}) && id !in posting && a.Call? && a.second == second
    ensures again == PerformAll(posted.(sent := posted.sent + [(id, to)]), second)
    ensures Inv(StartTimer(again, id), posting) && AdvancesWhilePosting(posted, StartTimer(again, id))
    decreases a, 0
  {
    var resent := posted.(sent := posted.sent + [(id, to)]);
    TargetKeepsInv(posted, posting + {id}, posted.target, resent.sent);
    PerformAllKeepsInv(resent, second, posting + {id});
    again := PerformAll(resent, second);
    StartTimerKeepsInv(again, posting, id);
  }

  lemma {:induction false} PerformAllKeepsInv(s: State, actions: seq<Action>, posting: set<nat>)
    requires Inv(s, posting)
    ensures Inv(PerformAll(s, actions), posting) && Advances(s, PerformAll(s, actions))
    decreases actions
  {
    if actions != [] {
      PerformAllKeepsInv(s, actions[..|actions| - 1], posting);
      PerformKeepsInv(PerformAll(s, actions[..|actions| - 1]), actions[|actions| - 1], posting);
    }
  }

  // ----- main results

  /**
   After any sequence of actions, with any re-entry: a request is pending exactly if it was issued and has
   not settled, no request settles twice, every pending request has its own live timer and no other timer is live.
   */
  lemma RequestsSettleAtMostOnce(targets: seq<Target>, actions: seq<Action>)
    ensures var s := PerformAll(Start(targets), actions);
            && (forall id :: id in s.pending <==> 0 < id < s.next && !IsSettled(s.settled, id))
            && (forall i, j :: 0 <= i < j < |s.settled| ==> s.settled[i].id != s.settled[j].id)
            && (forall id :: id in s.pending ==> s.pending[id].Some? && s.pending[id].value in s.timers
                                                 && s.timers[s.pending[id].value] == id)
            && (forall t :: t in s.timers ==> s.timers[t] in s.pending && s.pending[s.timers[t]] == Some(t))
  {
    PerformAllKeepsInv(Start(targets), actions, {});
  }

  lemma {:induction false} PerformAllAppend(s: State, a: seq<Action>, b: seq<Action>)
    ensures PerformAll(s, a + b) == PerformAll(PerformAll(s, a), b)
  {
    if b == [] {
      assert a + b == a;
    } else {
      assert (a + b)[..|a + b| - 1] == a + b[..|b| - 1];
      PerformAllAppend(s, a, b[..|b| - 1]);
    }
  }

  /**
   Whatever happens later: settlements stand, the pinned target stays, and once the bridge is torn down nothing
   is pending, no timer is live, and no further request is issued, posted or settled.
   */
  lemma PinningAndTeardownAreFinal(targets: seq<Target>, before: seq<Action>, later: seq<Action>)
    ensures var s, s' := PerformAll(Start(targets), before), PerformAll(Start(targets), before + later);
            && s.settled <= s'.settled
            && (s.target.Some? ==> s'.target == s.target)
            && (s.tornDown ==> s'.tornDown && s'.pending == map[] && s'.timers == map[]
                               && s'.next == s.next && s'.sent == s.sent && s'.settled == s.settled)
  {
    var s := PerformAll(Start(targets), before);
    PerformAllKeepsInv(Start(targets), before, {});
    PerformAllKeepsInv(s, later, {});
    PerformAllAppend(Start(targets), before, later);
    var s' := PerformAll(s, later);
    if s.tornDown {
      assert s'.pending == map[];
      assert s'.timers.Keys == {};
    }
  }

  // ----- where settlements and the pinned target come from

  /** The messages that an action brings, and the timers that it fires, at any depth of re-entry. */
  datatype Seen = Seen(messages: set<Message>, fired: set<nat>) {
    function And(other: Seen): Seen {
      Seen(messages + other.messages, fired + other.fired)
    }
  }

  const NOTHING := Seen({}, {})

  function SeenIn(a: Action): Seen
    decreases a
  {
    match a
    case Deliver(m, inner) => Seen({m}, {}).And(SeenInAll(inner))
    case Call(first, second) => SeenInAll(first).And(SeenInAll(second))
    case Expire(timer) => Seen({}, {timer})
    case Quit => NOTHING
  }

  function SeenInAll(actions: seq<Action>): Seen
    decreases actions
  {
    if actions == [] then NOTHING else SeenInAll(actions[..|actions| - 1]).And(SeenIn(actions[|actions| - 1]))
  }

  lemma AndIsAssociative(a: Seen, b: Seen, c: Seen)
    ensures a.And(b).And(c) == a.And(b.And(c)) && a.And(NOTHING) == a && NOTHING.And(a) == a
  {
  }

  /** A well-formed reply to request `id` from `source`, which is one of the hosts. */
  predicate Replies(m: Message, targets: seq<Target>, source: Target, id: nat, isError: bool) {
    m.source == source && source in targets && m.wellFormed && m.id == Some(id) && m.response == Some(isError)
  }

  /** A well-formed reply or tool result from one of the hosts. */
  predicate Pins(m: Message, targets: seq<Target>) {
    m.source in targets && m.wellFormed && ((m.id.Some? && m.response.Some?) || m.method' == ToolResult)
  }

  /** The pinned target sent a reply to the request. */
  ghost predicate Answered(s: State, id: nat, isError: bool, messages: set<Message>) {
    s.target.Some? && exists m :: m in messages && Replies(m, s.targets, s.target.value, id, isError)
  }

  /** A timer that was started for the request has fired. */
  ghost predicate RanOut(s: State, id: nat, fired: set<nat>) {
    exists timer :: timer in fired && timer < |s.started| && s.started[timer] == id
  }

  ghost predicate Caused(s: State, x: Settlement, seen: Seen) {
    && (x.outcome == Resolved ==> Answered(s, x.id, false, seen.messages))
    && (x.outcome == Rejected ==> Answered(s, x.id, true, seen.messages))
    && (x.outcome == TimedOut ==> RanOut(s, x.id, seen.fired))
    && (x.outcome == Aborted ==> s.tornDown)
  }

  ghost predicate Pinned(s: State, messages: set<Message>) {
    s.target.Some? ==> exists m :: m in messages && Pins(m, s.targets) && m.source == s.target.value
  }

  ghost predicate Explained(s: State, seen: Seen) {
    && (forall i :: 0 <= i < |s.settled| ==> Caused(s, s.settled[i], seen))
    && (forall t :: t in s.timers ==> t < |s.started| && s.started[t] == s.timers[t])
    && Pinned(s, seen.messages)
  }

  /** What `s'` may change of `s` so that causes stay causes. */
  ghost predicate Keeps(s: State, s': State) {
    && s'.targets == s.targets && (s.target.Some? ==> s'.target == s.target)
    && s.started <= s'.started && (s.tornDown ==> s'.tornDown)
  }

  lemma StillCaused(s: State, s': State, x: Settlement, seen: Seen, more: Seen)
    requires Caused(s, x, seen) && Keeps(s, s')
    ensures Caused(s', x, seen.And(more))
  {
    if x.outcome == TimedOut {
      var timer :| timer in seen.fired && timer < |s.started| && s.started[timer] == x.id;
      assert s'.started[timer] == x.id && timer in seen.And(more).fired;
    }
  }

  lemma AllStillCaused(s: State, s': State, n: nat, seen: Seen, more: Seen)
    requires Explained(s, seen) && Keeps(s, s') && s.settled <= s'.settled && n == |s.settled|
    ensures forall i :: 0 <= i < n ==> Caused(s', s'.settled[i], seen.And(more))
  {
    forall i | 0 <= i < n ensures Caused(s', s'.settled[i], seen.And(more)) {
      assert s'.settled[i] == s.settled[i];
      StillCaused(s, s', s.settled[i], seen, more);
    }
  }

  lemma SeeMore(s: State, seen: Seen, more: Seen)
    requires Explained(s, seen)
    ensures Explained(s, seen.And(more))
  {
    AllStillCaused(s, s, |s.settled|, seen, more);
  }

  lemma {:induction false} AbortsOnly(s: State, k: nat)
    ensures s.settled <= AbortBelow(s, k).settled
    ensures forall i :: |s.settled| <= i < |AbortBelow(s, k).settled| ==> AbortBelow(s, k).settled[i].outcome == Aborted
    ensures forall t :: t in AbortBelow(s, k).timers ==> t in s.timers && AbortBelow(s, k).timers[t] == s.timers[t]
  {
    if k > 0 {
      AbortsOnly(s, k - 1);
    }
  }

  lemma TearDownExplained(s: State, seen: Seen)
    requires Explained(s, seen)
    ensures Explained(TearDown(s), seen)
  {
    var torn, s' := s.(tornDown := true), TearDown(s);
    AbortFrame(torn, s.next);
    AbortsOnly(torn, s.next);
    AllStillCaused(s, s', |s.settled|, seen, NOTHING);
    AndIsAssociative(seen, NOTHING, NOTHING);
  }

  /** A reply or tool result that is taken explains the target it pins. */
  lemma PinExplained(s: State, m: Message, seen: Seen)
    requires Explained(s, seen) && m in seen.messages && Pins(m, s.targets) && !Foreign(s, m.source)
    ensures Explained(s.(target := Some(m.source)), seen)
  {
    AllStillCaused(s, s.(target := Some(m.source)), |s.settled|, seen, NOTHING);
    AndIsAssociative(seen, NOTHING, NOTHING);
  }

  /** A settlement that has a cause may be added, and timers may be cleared. */
  lemma SettleExplained(s: State, s': State, x: Settlement, seen: Seen)
    requires Explained(s, seen) && Caused(s, x, seen)
    requires s' == s.(settled := s.settled + [x], timers := s'.timers, pending := s'.pending)
    requires forall t :: t in s'.timers ==> t in s.timers && s'.timers[t] == s.timers[t]
    ensures Explained(s', seen)
  {
    AllStillCaused(s, s', |s.settled|, seen, NOTHING);
    StillCaused(s, s', x, seen, NOTHING);
    AndIsAssociative(seen, NOTHING, NOTHING);
  }

  lemma ReplyExplained(s: State, m: Message, seen: Seen)
    requires Explained(s, seen) && m in seen.messages && Pins(m, s.targets) && !Foreign(s, m.source)
    requires m.id.Some? && m.response.Some? && m.id.value in s.pending
    ensures Explained(Settle(s.(target := Some(m.source)), m.id.value, if m.response.value then Rejected else Resolved),
                      seen)
  {
    var pinned := s.(target := Some(m.source));
    var x := Settlement(m.id.value, if m.response.value then Rejected else Resolved);
    PinExplained(s, m, seen);
    assert Replies(m, pinned.targets, m.source, x.id, m.response.value);
    SettleExplained(pinned, Settle(pinned, x.id, x.outcome), x, seen);
  }

  lemma FireExplained(s: State, timer: nat, seen: Seen)
    requires Explained(s, seen) && timer in seen.fired
    ensures Explained(Fire(s, timer), seen)
  {
    if timer in s.timers && s.timers[timer] in s.pending {
      SettleExplained(s, Fire(s, timer), Settlement(s.timers[timer], TimedOut), seen);
    } else {
      AllStillCaused(s, Fire(s, timer), |s.settled|, seen, NOTHING);
      AndIsAssociative(seen, NOTHING, NOTHING);
    }
  }

  /** Issuing, posting and starting a timer settle nothing. */
  lemma CallStepExplained(s: State, s': State, seen: Seen)
    requires Explained(s, seen) && Keeps(s, s') && s'.settled == s.settled && s'.target == s.target
    requires forall t :: t in s'.timers ==> t < |s'.started| && s'.started[t] == s'.timers[t]
    ensures Explained(s', seen)
  {
    AllStillCaused(s, s', |s.settled|, seen, NOTHING);
    AndIsAssociative(seen, NOTHING, NOTHING);
  }

  lemma {:induction false} PerformExplained(s: State, a: Action, seen: Seen)
    requires Explained(s, seen)
    ensures Explained(Perform(s, a), seen.And(SeenIn(a)))
    decreases a
  {
    SeeMore(s, seen, SeenIn(a));
    match a {
      case Deliver(m, inner) => DeliverExplained(s, m, inner, seen, a);
      case Call(first, second) => CallExplained(s, first, second, seen, a);
      case Expire(timer) => FireExplained(s, timer, seen.And(SeenIn(a)));
      case Quit => TearDownExplained(s, seen.And(SeenIn(a)));
    }
  }

  lemma {:induction false} DeliverExplained(s: State, m: Message, inner: seq<Action>, seen: Seen, a: Action)
    requires Explained(s, seen) && a == Deliver(m, inner)
    ensures Explained(Perform(s, a), seen.And(SeenIn(a)))
    decreases a, 0
  {
    var now := seen.And(Seen({m}, {}));
    AndIsAssociative(seen, Seen({m}, {}), SeenInAll(inner));
    SeeMore(s, seen, Seen({m}, {}));
    SeeMore(s, now, SeenInAll(inner));
    if m.source in s.targets && m.wellFormed {
      if m.method' == Teardown && m.id.Some? {
        TearDownExplained(s, now);
        PerformAllExplained(TearDown(s), inner, now);
      } else if m.id.Some? && m.response.Some? && m.id.value in s.pending {
        if !Foreign(s, m.source) {
          ReplyExplained(s, m, now);
          SeeMore(Perform(s, a), now, SeenInAll(inner));
        }
      } else if m.method' == ToolResult && !Foreign(s, m.source) {
        PinExplained(s, m, now);
        PerformAllExplained(s.(target := Some(m.source)), inner, now);
      }
    }
  }

  lemma {:induction false} CallExplained(s: State, first: seq<Action>, second: seq<Action>, seen: Seen, a: Action)
    requires Explained(s, seen) && a == Call(first, second)
    ensures Explained(Perform(s, a), seen.And(SeenIn(a)))
    decreases a, 0
  {
    SeeMore(s, seen, SeenIn(a));
    var destinations := Destinations(s);
    if !s.tornDown && destinations != [] {
      var issued := Issue(s, destinations[0]);
      CallStepExplained(s, issued, seen);
      PerformAllExplained(issued, first, seen);
      var posted, told := PerformAll(issued, first), seen.And(SeenInAll(first));
      AndIsAssociative(seen, SeenInAll(first), SeenInAll(second));
      if |destinations| == 1 {
        SeeMore(posted, told, SeenInAll(second));
        CallStepExplained(posted, StartTimer(posted, s.next), seen.And(SeenIn(a)));
      } else {
        var resent := posted.(sent := posted.sent + [(s.next, destinations[1])]);
        CallStepExplained(posted, resent, told);
        PerformAllExplained(resent, second, told);
        var again := PerformAll(resent, second);
        CallStepExplained(again, StartTimer(again, s.next), seen.And(SeenIn(a)));
      }
    }
  }

  lemma {:induction false} PerformAllExplained(s: State, actions: seq<Action>, seen: Seen)
    requires Explained(s, seen)
    ensures Explained(PerformAll(s, actions), seen.And(SeenInAll(actions)))
    decreases actions
  {
    if actions == [] {
      AndIsAssociative(seen, NOTHING, NOTHING);
    } else {
      var front, last := actions[..|actions| - 1], actions[|actions| - 1];
      PerformAllExplained(s, front, seen);
      PerformExplained(PerformAll(s, front), last, seen.And(SeenInAll(front)));
      AndIsAssociative(seen, SeenInAll(front), SeenIn(last));
    }
  }

  /**
   Nothing is settled out of thin air: a request resolves or rejects only because the pinned target, which is one of
   the hosts, sent a well-formed result or error with its id; it times out only because a timer that was started for
   it fired; it is aborted only by teardown; and the pinned target has sent a reply or a tool result.
   */
  lemma SettlementsAreCaused(targets: seq<Target>, actions: seq<Action>)
    ensures var s, seen := PerformAll(Start(targets), actions), SeenInAll(actions);
            && s.targets == targets && Pinned(s, seen.messages)
            && forall i :: 0 <= i < |s.settled| ==> Caused(s, s.settled[i], seen)
  {
    PerformAllExplained(Start(targets), actions, NOTHING);
    AndIsAssociative(SeenInAll(actions), NOTHING, NOTHING);
    PerformAllKeepsInv(Start(targets), actions, {});
  }

  // ----- what every action must do

  /** The destinations to which a request has been posted, in order. */
  function PostsOf(sent: seq<(nat, Target)>, id: nat): seq<Target> {
    if sent == [] then []
    else
      var last := sent[|sent| - 1];
      PostsOf(sent[..|sent| - 1], id) + (if last.0 == id then [last.1] else [])
  }

  lemma PostNext(sent: seq<(nat, Target)>, id: nat, to: Target, other: nat)
    ensures PostsOf(sent + [(id, to)], other) == PostsOf(sent, other) + (if id == other then [to] else [])
  {
    assert (sent + [(id, to)])[..|sent|] == sent;
  }

  /** Only issued ids have been posted. */
  ghost predicate SentBelow(s: State) {
    forall id :: s.next <= id ==> PostsOf(s.sent, id) == []
  }

  /** Older requests are not posted again, and newer ones only under new ids. */
  ghost predicate PostsKept(s: State, s': State, id: nat) {
    s.next <= s'.next && SentBelow(s') && (id < s.next ==> PostsOf(s'.sent, id) == PostsOf(s.sent, id))
  }

  lemma PostKeeps(s: State, s': State, id: nat, to: Target, req: nat)
    requires SentBelow(s) && s'.next >= s.next && id < s'.next && s'.sent == s.sent + [(id, to)]
    ensures SentBelow(s') && (req != id ==> PostsOf(s'.sent, req) == PostsOf(s.sent, req))
    ensures PostsOf(s'.sent, id) == PostsOf(s.sent, id) + [to]
  {
    forall other | s'.next <= other ensures PostsOf(s'.sent, other) == [] {
      PostNext(s.sent, id, to, other);
    }
    PostNext(s.sent, id, to, req);
    PostNext(s.sent, id, to, id);
  }

  lemma SettlingPostsNothing(s: State)
    ensures TearDown(s).sent == s.sent && TearDown(s).next == s.next
    ensures forall timer :: Fire(s, timer).sent == s.sent && Fire(s, timer).next == s.next
    ensures forall id :: StartTimer(s, id).sent == s.sent && StartTimer(s, id).next == s.next
  {
    AbortFrame(s.(tornDown := true), s.next);
  }

  lemma {:induction false} PerformPosts(s: State, a: Action, req: nat)
    requires SentBelow(s)
    ensures PostsKept(s, Perform(s, a), req)
    decreases a
  {
    SettlingPostsNothing(s);
    match a {
      case Deliver(m, inner) =>
        if m.source in s.targets && m.wellFormed {
          if m.method' == Teardown && m.id.Some? {
            PerformAllPosts(TearDown(s), inner, req);
          } else if !(m.id.Some? && m.response.Some? && m.id.value in s.pending)
                    && m.method' == ToolResult && !Foreign(s, m.source) {
            PerformAllPosts(s.(target := Some(m.source)), inner, req);
          }
        }
      case Call(first, second) =>
        if !s.tornDown && Destinations(s) != [] {
          CallPosts(s, first, second, req, a);
        }
      case _ =>
    }
  }

  lemma {:induction false} CallPosts(s: State, first: seq<Action>, second: seq<Action>, req: nat, a: Action)
    requires SentBelow(s) && a == Call(first, second) && !s.tornDown && Destinations(s) != []
    ensures PostsKept(s, Perform(s, a), req) && s.next < Perform(s, a).next
    ensures var destinations := Destinations(s);
            PostsOf(Perform(s, a).sent, s.next) == if |destinations| == 1 then destinations else destinations[..2]
    decreases a, 1
  {
    var id, destinations := s.next, Destinations(s);
    var posted := FirstPost(s, first, destinations[0], req, a);
    if |destinations| == 1 {
      SettlingPostsNothing(posted);
    } else {
      var again := SecondPost(posted, second, id, destinations[1], req, a);
      SettlingPostsNothing(again);
      assert destinations[..2] == [destinations[0]] + [destinations[1]];
    }
  }

  lemma {:induction false} FirstPost(s: State, first: seq<Action>, to: Target, req: nat, a: Action)
    returns (posted: State)
    requires SentBelow(s) && a.Call? && a.first == first
    ensures posted == PerformAll(Issue(s, to), first)
    ensures PostsKept(s, posted, req) && s.next < posted.next && PostsOf(posted.sent, s.next) == [to]
    decreases a, 0
  {
    var issued := Issue(s, to);
    PostKeeps(s, issued, s.next, to, req);
    PerformAllPosts(issued, first, req);
    PerformAllPosts(issued, first, s.next);
    posted := PerformAll(issued, first);
  }

  lemma {:induction false} SecondPost(
    posted: State, second: seq<Action>, id: nat, to: Target, req: nat, a: Action)
    returns (again: State)
    requires SentBelow(posted) && a.Call? && a.second == second && id < posted.next
    ensures again == PerformAll(posted.(sent := posted.sent + [(id, to)]), second)
    ensures posted.next <= again.next && SentBelow(again)
    ensures req != id && req < posted.next ==> PostsOf(again.sent, req) == PostsOf(posted.sent, req)
    ensures PostsOf(again.sent, id) == PostsOf(posted.sent, id) + [to]
    decreases a, 0
  {
    var resent := posted.(sent := posted.sent + [(id, to)]);
    PostKeeps(posted, resent, id, to, req);
    PerformAllPosts(resent, second, req);
    PerformAllPosts(resent, second, id);
    again := PerformAll(resent, second);
  }

  lemma {:induction false} PerformAllPosts(s: State, actions: seq<Action>, req: nat)
    requires SentBelow(s)
    ensures PostsKept(s, PerformAll(s, actions), req)
    decreases actions
  {
    if actions != [] {
      PerformAllPosts(s, actions[..|actions| - 1], req);
      PerformPosts(PerformAll(s, actions[..|actions| - 1]), actions[|actions| - 1], req);
    }
  }

  /** `s'` is `s` with request `id` settled in this way and its timer gone; the target may have been pinned. */
  ghost predicate Settles(s: State, s': State, id: nat, outcome: Outcome) {
    && id in s.pending
    && s' == s.(pending := s.pending - {id}, settled := s.settled + [Settlement(id, outcome)],
                timers := s'.timers, target := s'.target)
    && forall t :: t in s'.timers <==> t in s.timers && s.timers[t] != id
  }

  /** `s'` is `s` torn down: all pending requests are aborted, in the order in which they were issued. */
  ghost predicate Aborts(s: State, s': State) {
    && s' == s.(tornDown := true, pending := map[], timers := map[], settled := s'.settled)
    && s.settled <= s'.settled
    && var aborted := s'.settled[|s.settled|..];
    && (forall i :: 0 <= i < |aborted| ==> aborted[i].outcome == Aborted && aborted[i].id in s.pending)
    && (forall i, j :: 0 <= i < j < |aborted| ==> aborted[i].id < aborted[j].id)
    && (forall id :: id in s.pending ==> IsSettled(aborted, id))
  }

  /** A well-formed message from a host that is not kept out by the pinned target. */
  predicate Heeded(s: State, m: Message) {
    m.source in s.targets && m.wellFormed && (s.target.None? || s.target.value == m.source)
  }

  predicate IsTeardown(m: Message) {
    m.method' == Teardown && m.id.Some?
  }

  predicate IsReply(s: State, m: Message) {
    m.id.Some? && m.response.Some? && m.id.value in s.pending
  }

  /** What an action must do. */
  ghost predicate Obeys(s: State, a: Action, s': State) {
    match a
    case Deliver(m, inner) =>
      if m.source in s.targets && m.wellFormed && IsTeardown(m) then
        exists torn :: Aborts(s, torn) && s' == PerformAll(torn, inner)
      else if Heeded(s, m) && IsReply(s, m) then
        Settles(s, s', m.id.value, if m.response == Some(true) then Rejected else Resolved) && s'.target == Some(m.source)
      else if Heeded(s, m) && !IsReply(s, m) && m.method' == ToolResult then
        s' == PerformAll(s.(target := Some(m.source)), inner)
      else s' == s
    case Call(_, _) =>
      if s.tornDown || Destinations(s) == [] then s' == s
      else PostsOf(s.sent, s.next) == [] && PostsOf(s'.sent, s.next) == (if s.target.Some? then [s.target.value] else s.targets)
    case Expire(timer) =>
      if timer in s.timers then Settles(s, s', s.timers[timer], TimedOut) && s'.target == s.target else s' == s
    case Quit => Aborts(s, s')
  }

  lemma {:induction false} AbortedInOrder(s: State, k: nat)
    ensures s.settled <= AbortBelow(s, k).settled
    ensures var aborted := AbortBelow(s, k).settled[|s.settled|..];
            && (forall i :: 0 <= i < |aborted| ==> aborted[i].outcome == Aborted && aborted[i].id in s.pending && aborted[i].id < k)
            && (forall i, j :: 0 <= i < j < |aborted| ==> aborted[i].id < aborted[j].id)
            && (forall id :: id in s.pending && id < k ==> IsSettled(aborted, id))
  {
    if k > 0 {
      AbortedInOrder(s, k - 1);
      var before, now := AbortBelow(s, k - 1).settled[|s.settled|..], AbortBelow(s, k).settled[|s.settled|..];
      if k - 1 in s.pending {
        assert now == before + [Settlement(k - 1, Aborted)];
        forall id: nat ensures IsSettled(now, id) <==> IsSettled(before, id) || id == k - 1 {
          SettledNext(before, Settlement(k - 1, Aborted), id);
        }
      }
    }
  }

  lemma TearDownAborts(s: State, posting: set<nat>)
    requires Inv(s, posting)
    ensures Aborts(s, TearDown(s))
  {
    var torn := s.(tornDown := true);
    AbortFrame(torn, s.next);
    AbortedInOrder(torn, s.next);
    TearDownKeepsInv(s, posting);
    assert forall t :: t !in TearDown(s).timers;
    assert TearDown(s).timers == map[];
  }

  lemma SettleSettles(s: State, posting: set<nat>, id: nat, outcome: Outcome, target: Option<Target>)
    requires Inv(s, posting) && id in s.pending
    ensures Settles(s, Settle(s.(target := target), id, outcome), id, outcome)
  {
  }

  lemma FireSettles(s: State, posting: set<nat>, timer: nat)
    requires Inv(s, posting) && timer in s.timers
    ensures Settles(s, Fire(s, timer), s.timers[timer], TimedOut)
  {
  }

  /** On a page with at most two hosts every action does what it must, in every state that keeps the invariant. */
  lemma PerformObeys(s: State, a: Action, posting: set<nat>)
    requires Inv(s, posting) && SentBelow(s) && |s.targets| <= 2
    ensures Obeys(s, a, Perform(s, a))
  {
    match a {
      case Deliver(m, inner) =>
        if m.source in s.targets && m.wellFormed && IsTeardown(m) {
          TearDownAborts(s, posting);
        } else if Heeded(s, m) && IsReply(s, m) {
          SettleSettles(s, posting, m.id.value, if m.response.value then Rejected else Resolved, Some(m.source));
        }
      case Call(first, second) =>
        if !s.tornDown && Destinations(s) != [] {
          CallPosts(s, first, second, 0, a);
        }
      case Expire(timer) =>
        if timer in s.timers {
          FireSettles(s, posting, timer);
        }
      case Quit => TearDownAborts(s, posting);
    }
  }

  /**
   What every action must do, after any actions before it: a reply that is heeded resolves or rejects its request, clears
   its timer and pins its source; a tool result that is heeded pins its source; a timer that fires times its request out;
   teardown aborts all pending requests in the order of their issue; a request is posted once to the pinned target, or
   once to each host while none is pinned; and everything else changes nothing.
   */
  lemma EveryActionObeys(targets: seq<Target>, before: seq<Action>, a: Action)
    requires |targets| <= 2
    ensures var s := PerformAll(Start(targets), before);
            Obeys(s, a, Perform(s, a)) && PerformAll(Start(targets), before + [a]) == Perform(s, a)
  {
    PerformAllKeepsInv(Start(targets), before, {});
    PerformAllPosts(Start(targets), before, 0);
    PerformObeys(PerformAll(Start(targets), before), a, {});
    assert (before + [a])[..|before|] == before;
  }
}
