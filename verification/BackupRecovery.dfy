/**
 Pausing workers for a backup and undoing it when the backup fails, with a failure possible at every
 step.  A kubectl patch that fails or times out is taken to have had no effect.
 */
module BackupRecovery {
  import opened Basics

  /** How a command or API call ends: well, with a bad status, with an expected exception, or with another one. */
  datatype Reply = Fine | Refused | Raises | Crashes

  datatype Kind = Worker | NotWorker | Malformed

  /** A deployment as the cluster lists it. */
  datatype Item = Item(name: string, replicas: int, kind: Kind)

  datatype Receipt = Receipt(name: string, replicasBefore: int)

  datatype Event = ApprovalRead | Scaled(name: string, replicas: int)

  datatype CleanupError = ValidationFailed | ResumeFailed | ApiFailed | ReceiptInvalid | RestoreFailed(name: string) | FilesFailed
  {
    predicate IsWorkerError() {
      ReceiptInvalid? || RestoreFailed?
    }
  }

  datatype Cleanup = CleanupPassed | CleanupFailed

  /** The mode of the platform itself, whatever the operator knows of it. */
  datatype Platform = Running | InRestoreMode | ResumeApproved

  /**
   How starting the restore mode goes: how the call ends, whether a call that raises took effect all the same, and how
   the status requests end that try to confirm it until the deadline.
   */
  datatype Start = Start(answer: Reply, tookEffect: bool, polls: seq<Reply>) {
    predicate Unanswered() {
      answer == Raises || answer == Crashes
    }

    predicate TakesEffect() {
      answer == Fine || (Unanswered() && tookEffect)
    }

    /** A status request gets through before one of them fails in an unexpected way. */
    ghost predicate Confirmed() {
      exists k :: 0 <= k < |polls| && polls[k] == Fine && forall j :: 0 <= j < k ==> polls[j] != Crashes
    }

    /** The operator learns that the mode is active; only a retryable failure is looked into. */
    ghost predicate IsKnown() {
      answer == Fine || (answer == Raises && tookEffect && Confirmed())
    }
  }

  type Replicas = map<string, int>

  const WORKER_PREFIX := "foundry-lite-worker-"
  const RESTORE_ATTEMPTS := 3

  predicate ValidReceipt(r: Receipt) {
    WORKER_PREFIX <= r.name && 0 <= r.replicasBefore <= 10
  }

  // ----- what the commands of a script answer; once it is used up, all of them succeed

  function Head(script: seq<Reply>): Reply {
    if script == [] then Fine else script[0]
  }

  function Drop(script: seq<Reply>, n: nat): seq<Reply> {
    if n <= |script| then script[n..] else []
  }

  /** What the command at place `i` answers. */
  function ReplyAt(script: seq<Reply>, i: nat): Reply {
    if i < |script| then script[i] else Fine
  }

  /** The patch succeeds at attempt `j`, after attempts that ended with a bad status. */
  ghost predicate PatchedAt(script: seq<Reply>, j: nat) {
    ReplyAt(script, j) == Fine && forall i: nat :: i < j ==> ReplyAt(script, i) == Refused
  }

  /** One of three attempts to patch succeeds. */
  ghost predicate Patched(script: seq<Reply>) {
    exists j: nat :: j < 3 && PatchedAt(script, j)
  }

  /** It does, and for a positive count so does the request for the rollout status that follows. */
  ghost predicate RolledOut(script: seq<Reply>, count: int) {
    exists j: nat :: j < 3 && PatchedAt(script, j) && (count == 0 || ReplyAt(script, j + 1) == Fine)
  }

  lemma PatchedOnce(script: seq<Reply>, j: nat, k: nat)
    requires PatchedAt(script, j) && PatchedAt(script, k)
    ensures j == k
  {
    assert j < k ==> ReplyAt(script, j) == Refused;
    assert k < j ==> ReplyAt(script, k) == Refused;
  }

  lemma OnlyPatch(script: seq<Reply>, j: nat, count: int)
    requires PatchedAt(script, j) && j < 3
    ensures Patched(script) && (RolledOut(script, count) <==> count == 0 || ReplyAt(script, j + 1) == Fine)
  {
    forall k: nat | PatchedAt(script, k) ensures k == j {
      PatchedOnce(script, j, k);
    }
  }

  lemma NoPatch(script: seq<Reply>, j: nat)
    requires ReplyAt(script, j) != Fine && ReplyAt(script, j) != Refused
    requires forall i: nat :: i < j ==> ReplyAt(script, i) == Refused
    ensures !Patched(script) && forall count :: !RolledOut(script, count)
  {
    forall k: nat ensures !PatchedAt(script, k) {
      if k < j {
        assert ReplyAt(script, k) == Refused;
      } else if j < k {
        assert ReplyAt(script, j) != Refused;
      }
    }
  }

  /** How the request to resume ends: after an expected exception the status is read instead. */
  function ResumeReply(script: seq<Reply>): Reply {
    if ReplyAt(script, 1) == Raises then ReplyAt(script, 2) else ReplyAt(script, 1)
  }

  /** The first `n` commands succeed. */
  ghost predicate AllFine(script: seq<Reply>, n: nat) {
    forall i :: 0 <= i < n && i < |script| ==> script[i] == Fine
  }

  /** Of all commands only the last one in the script may fail. */
  ghost predicate OneFault(script: seq<Reply>) {
    forall i :: 0 <= i < |script| - 1 ==> script[i] == Fine
  }

  ghost predicate FailsAt(script: seq<Reply>, k: nat) {
    k < |script| && AllFine(script, k) && script[k] != Fine
  }

  /** `rest` is left of `script` after the first command that fails. */
  ghost predicate Stopped(script: seq<Reply>, rest: seq<Reply>) {
    exists k: nat :: FailsAt(script, k) && rest == Drop(script, k + 1)
  }

  lemma NextCommand(script: seq<Reply>, n: nat)
    requires AllFine(script, n)
    ensures Drop(Drop(script, n), 1) == Drop(script, n + 1)
    ensures AllFine(script, n + 1) <==> Head(Drop(script, n)) == Fine
    ensures Head(Drop(script, n)) != Fine ==> Stopped(script, Drop(script, n + 1))
  {
    if Head(Drop(script, n)) != Fine {
      assert FailsAt(script, n);
    }
  }

  /** Two commands, the second only if the first succeeds. */
  lemma TwoCommands(script: seq<Reply>, n: nat, rest: seq<Reply>)
    requires AllFine(script, n) && rest == Drop(script, n)
    ensures AllFine(script, n + 2) <==> AllFine(rest, 2)
    ensures Drop(rest, 2) == Drop(script, n + 2)
    ensures !AllFine(rest, 2) ==> Stopped(script, Drop(rest, if Head(rest) != Fine then 1 else 2))
  {
    NextCommand(script, n);
    if AllFine(script, n + 1) {
      NextCommand(script, n + 1);
    }
  }

  lemma OneFaultStops(script: seq<Reply>, rest: seq<Reply>)
    requires OneFault(script) && Stopped(script, rest)
    ensures rest == []
  {
    var k: nat :| FailsAt(script, k) && rest == Drop(script, k + 1);
  }

  lemma FewerFine(script: seq<Reply>, m: nat, n: nat)
    requires m <= n
    ensures AllFine(script, n) ==> AllFine(script, m)
  {
  }

  /** The number of workers among the first `n` deployments. */
  function Workers(items: seq<Item>, n: nat): nat
    requires n <= |items|
  {
    if n == 0 then 0 else Workers(items, n - 1) + (if items[n - 1].kind == Worker then 1 else 0)
  }

  lemma {:induction false} MoreWorkers(items: seq<Item>, m: nat, n: nat)
    requires m <= n <= |items|
    ensures Workers(items, m) <= Workers(items, n)
  {
    if m < n {
      MoreWorkers(items, m, n - 1);
    }
  }

  ghost predicate WellFormed(items: seq<Item>) {
    forall i :: 0 <= i < |items| ==> items[i].kind != Malformed
  }

  /** The number of commands of a pause that succeeds: the listing, and two for each worker. */
  function Commands(items: seq<Item>, n: nat): nat
    requires n <= |items|
  {
    1 + 2 * Workers(items, n)
  }

  /** All commands succeed, and there are workers to pause and no malformed deployments. */
  ghost predicate CanPause(items: seq<Item>, replies: seq<Reply>) {
    AllFine(replies, Commands(items, |items|)) && WellFormed(items) && Workers(items, |items|) > 0
  }

  /** What a pause leaves of the replies. */
  ghost predicate PauseReplies(items: seq<Item>, replies: seq<Reply>, rest: seq<Reply>, ok: bool) {
    && (ok <==> CanPause(items, replies))
    && (ok ==> rest == Drop(replies, Commands(items, |items|)))
    && (!ok ==> Stopped(replies, rest) || !WellFormed(items) || Workers(items, |items|) == 0)
  }

  /** The first `n` deployments have been dealt with, and all commands so far have succeeded. */
  ghost predicate Pausing(items: seq<Item>, replies: seq<Reply>, rest: seq<Reply>, workers: seq<Receipt>, n: nat)
    requires n <= |items|
  {
    && AllFine(replies, Commands(items, n)) && rest == Drop(replies, Commands(items, n))
    && AllRecorded(items, workers, n) && |workers| == Workers(items, n)
    && forall k :: 0 <= k < n ==> items[k].kind != Malformed
  }

  lemma ListingFailed(items: seq<Item>, replies: seq<Reply>)
    requires Head(replies) != Fine
    ensures PauseReplies(items, replies, Drop(replies, 1), false)
    ensures !AllFine(replies, Commands(items, |items|))
  {
    NextCommand(replies, 0);
    assert !AllFine(replies, 1);
  }

  lemma PauseFailed(items: seq<Item>, i: nat, replies: seq<Reply>, rest: seq<Reply>)
    requires i < |items| && items[i].kind == Worker
    requires AllFine(replies, Commands(items, i)) && !AllFine(replies, Commands(items, i) + 2)
    requires Stopped(replies, rest)
    ensures PauseReplies(items, replies, rest, false) && !AllFine(replies, Commands(items, |items|))
  {
    MoreWorkers(items, i + 1, |items|);
    FewerFine(replies, Commands(items, i) + 2, Commands(items, |items|));
  }

  /** What a capture leaves of the replies: it takes one command after the pause. */
  ghost predicate CaptureReplies(items: seq<Item>, replies: seq<Reply>, rest: seq<Reply>, ok: bool) {
    && (ok <==> AllFine(replies, Commands(items, |items|) + 1) && WellFormed(items) && Workers(items, |items|) > 0)
    && (!ok ==> Stopped(replies, rest) || !WellFormed(items) || Workers(items, |items|) == 0)
  }

  lemma CaptureAfterPause(items: seq<Item>, replies: seq<Reply>, rest: seq<Reply>, paused: bool)
    requires PauseReplies(items, replies, rest, paused)
    ensures !paused ==> CaptureReplies(items, replies, rest, false)
    ensures paused ==> CaptureReplies(items, replies, Drop(rest, 1), Head(rest) == Fine)
  {
    var n := Commands(items, |items|);
    FewerFine(replies, n, n + 1);
    if paused {
      NextCommand(replies, n);
    }
  }

  // ----- receipts and replica counts

  ghost predicate Recorded(workers: seq<Receipt>, name: string) {
    exists i :: 0 <= i < |workers| && workers[i].name == name
  }

  /** The receipts tell the replica counts before the backup. */
  ghost predicate Truthful(workers: seq<Receipt>, original: Replicas) {
    forall i :: 0 <= i < |workers| ==>
                  workers[i].name in original && workers[i].replicasBefore == original[workers[i].name]
  }

  /** Every worker with a receipt is scaled to zero. */
  ghost predicate AtZero(replicas: Replicas, workers: seq<Receipt>) {
    forall i :: 0 <= i < |workers| ==> workers[i].name in replicas && replicas[workers[i].name] == 0
  }

  /** Each worker among the first `n` deployments has a receipt. */
  ghost predicate AllRecorded(items: seq<Item>, workers: seq<Receipt>, n: nat) {
    forall i :: 0 <= i < n && i < |items| && items[i].kind == Worker ==> Recorded(workers, items[i].name)
  }

  /** Each of the first `n` workers with a receipt is back or has caused an error. */
  ghost predicate Accounted(
    replicas: Replicas, original: Replicas, workers: seq<Receipt>, errors: seq<CleanupError>, n: nat)
  {
    forall i :: 0 <= i < n && i < |workers| && workers[i].name in replicas && workers[i].name in original ==>
                  || replicas[workers[i].name] == original[workers[i].name]
                  || (if ValidReceipt(workers[i]) then RestoreFailed(workers[i].name) else ReceiptInvalid) in errors
  }

  /** The first `n` receipts are ones that recovery accepts. */
  ghost predicate AllValid(workers: seq<Receipt>, n: nat) {
    forall i :: 0 <= i < n && i < |workers| ==> ValidReceipt(workers[i])
  }

  /** A worker whose receipt is refused runs as before. */
  ghost predicate RefusedAlike(before: Replicas, after: Replicas, workers: seq<Receipt>) {
    forall i :: 0 <= i < |workers| && !ValidReceipt(workers[i]) && workers[i].name in before ==>
                  workers[i].name in after && after[workers[i].name] == before[workers[i].name]
  }

  /** A worker whose receipt is refused is left scaled to zero. */
  ghost predicate RefusedAtZero(replicas: Replicas, workers: seq<Receipt>) {
    forall i :: 0 <= i < |workers| && !ValidReceipt(workers[i]) ==>
                  workers[i].name in replicas && replicas[workers[i].name] == 0
  }

  /** The workers that are back are those with an accepted receipt, and those that had no replicas. */
  ghost predicate BackExactly(replicas: Replicas, original: Replicas, workers: seq<Receipt>) {
    forall i :: 0 <= i < |workers| && workers[i].name in replicas && workers[i].name in original ==>
                  (replicas[workers[i].name] == original[workers[i].name]
                   <==> ValidReceipt(workers[i]) || workers[i].replicasBefore == 0)
  }

  /** Deployments without a receipt run as before. */
  ghost predicate OthersUntouched(replicas: Replicas, original: Replicas, workers: seq<Receipt>) {
    && replicas.Keys == original.Keys
    && forall name :: name in original && !Recorded(workers, name) ==> replicas[name] == original[name]
  }

  /** The first `n` workers with a receipt are back. */
  ghost predicate Back(replicas: Replicas, original: Replicas, workers: seq<Receipt>, n: nat) {
    forall i :: 0 <= i < n && i < |workers| && workers[i].name in replicas && workers[i].name in original ==>
                  replicas[workers[i].name] == original[workers[i].name]
  }

  /** No deployment is scaled above zero before the approval to resume has been read. */
  ghost predicate ApprovedFirst(events: seq<Event>) {
    forall i :: 0 <= i < |events| && events[i].Scaled? && events[i].replicas > 0 ==>
                  exists j :: 0 <= j < i && events[j] == ApprovalRead
  }

  lemma ApprovedNext(events: seq<Event>, e: Event)
    requires ApprovedFirst(events)
    requires e.Scaled? && e.replicas > 0 ==> exists j :: 0 <= j < |events| && events[j] == ApprovalRead
    ensures ApprovedFirst(events + [e])
  {
    var after := events + [e];
    forall i | 0 <= i < |after| && after[i].Scaled? && after[i].replicas > 0
      ensures exists j :: 0 <= j < i && after[j] == ApprovalRead
    {
      if i < |events| {
        var j :| 0 <= j < i && events[j] == ApprovalRead;
        assert after[j] == ApprovalRead;
      } else {
        var j :| 0 <= j < |events| && events[j] == ApprovalRead;
        assert after[j] == ApprovalRead;
      }
    }
  }

  lemma RecordedNext(workers: seq<Receipt>, r: Receipt)
    ensures forall name :: Recorded(workers + [r], name) <==> Recorded(workers, name) || name == r.name
  {
    forall name ensures Recorded(workers + [r], name) <==> Recorded(workers, name) || name == r.name {
      if Recorded(workers, name) {
        var i :| 0 <= i < |workers| && workers[i].name == name;
        assert (workers + [r])[i].name == name;
      }
      assert (workers + [r])[|workers|] == r;
    }
  }

  lemma PausedNext(replicas: Replicas, original: Replicas, workers: seq<Receipt>, name: string)
    requires Truthful(workers, original) && OthersUntouched(replicas, original, workers) && AtZero(replicas, workers)
    requires name in original
    ensures var after, receipts := replicas[name := 0], workers + [Receipt(name, original[name])];
            Truthful(receipts, original) && OthersUntouched(after, original, receipts) && AtZero(after, receipts)
  {
    RecordedNext(workers, Receipt(name, original[name]));
  }

  // ----- putting the workers back, one receipt after the other

  predicate HasWorkerError(errors: seq<CleanupError>) {
    exists e :: e in errors && e.IsWorkerError()
  }

  /** The first `n` receipts have been dealt with, starting from the errors `before`. */
  ghost predicate Restoring(
    replicas: Replicas, original: Replicas, workers: seq<Receipt>, before: seq<CleanupError>,
    errors: seq<CleanupError>, n: nat)
  {
    && before <= errors && Accounted(replicas, original, workers, errors, n)
    && (!HasWorkerError(errors) ==> errors == before && Back(replicas, original, workers, n) && AllValid(workers, n))
  }

  lemma ReceiptRefused(
    replicas: Replicas, original: Replicas, workers: seq<Receipt>, before: seq<CleanupError>,
    errors: seq<CleanupError>, n: nat)
    requires Restoring(replicas, original, workers, before, errors, n) && n < |workers| && !ValidReceipt(workers[n])
    ensures Restoring(replicas, original, workers, before, errors + [ReceiptInvalid], n + 1)
    ensures HasWorkerError(errors + [ReceiptInvalid])
  {
    assert ReceiptInvalid in errors + [ReceiptInvalid] && ReceiptInvalid.IsWorkerError();
  }

  lemma WorkerTried(
    replicas: Replicas, after: Replicas, original: Replicas, workers: seq<Receipt>, before: seq<CleanupError>,
    errors: seq<CleanupError>, n: nat)
    requires Restoring(replicas, original, workers, before, errors, n) && n < |workers| && ValidReceipt(workers[n])
    requires Truthful(workers, original) && OthersUntouched(replicas, original, workers)
    requires after == replicas || after == replicas[workers[n].name := workers[n].replicasBefore]
    ensures OthersUntouched(after, original, workers)
    ensures var failed := RestoreFailed(workers[n].name);
            Restoring(after, original, workers, before, errors + [failed], n + 1) && HasWorkerError(errors + [failed])
    ensures after == replicas[workers[n].name := workers[n].replicasBefore] ==>
              Restoring(after, original, workers, before, errors, n + 1)
  {
    var failed := RestoreFailed(workers[n].name);
    assert failed in errors + [failed] && failed.IsWorkerError();
    assert Recorded(workers, workers[n].name);
  }

  /** Putting back a worker with an accepted receipt is not putting back one whose receipt is refused. */
  lemma RefusedNext(before: Replicas, after: Replicas, original: Replicas, workers: seq<Receipt>, n: nat, now: Replicas)
    requires RefusedAlike(before, after, workers) && Truthful(workers, original)
    requires n < |workers| && ValidReceipt(workers[n])
    requires now == after || now == after[workers[n].name := workers[n].replicasBefore]
    ensures RefusedAlike(before, now, workers)
  {
  }

  ghost predicate NoRestoreFailed(errors: seq<CleanupError>) {
    forall e :: e in errors ==> !e.RestoreFailed?
  }

  lemma ExactlyBack(
    before: Replicas, replicas: Replicas, original: Replicas, workers: seq<Receipt>, errors: seq<CleanupError>)
    requires AtZero(before, workers) && RefusedAlike(before, replicas, workers) && Truthful(workers, original)
    requires Accounted(replicas, original, workers, errors, |workers|) && NoRestoreFailed(errors)
    ensures BackExactly(replicas, original, workers)
  {
  }

  lemma AllBack(replicas: Replicas, original: Replicas, workers: seq<Receipt>)
    requires OthersUntouched(replicas, original, workers) && Truthful(workers, original)
    requires Back(replicas, original, workers, |workers|)
    ensures replicas == original
  {
    forall name | name in original ensures replicas[name] == original[name] {
      if Recorded(workers, name) {
        var i :| 0 <= i < |workers| && workers[i].name == name;
      }
    }
  }

  class Operator {
    var replicas: Replicas
    var isRestoreModeActive: bool
    var platform: Platform
    var workers: seq<Receipt>
    var errors: seq<CleanupError>
    var events: seq<Event>
    var filesDeleted: bool
    var script: seq<Reply>

    constructor (replicas: Replicas, script: seq<Reply>)
      ensures this.replicas == replicas && this.script == script
      ensures platform == Running
      ensures !isRestoreModeActive && workers == [] && errors == [] && events == [] && !filesDeleted
    {
      this.replicas := replicas;
      this.script := script;
      isRestoreModeActive, workers, errors, events, filesDeleted := false, [], [], [], false;
      platform := Running;
    }

    ghost predicate Valid(original: Replicas)
      reads this
    {
      && Truthful(workers, original) && OthersUntouched(replicas, original, workers) && ApprovedFirst(events)
      && (workers != [] ==> isRestoreModeActive)
    }

    method Next() returns (reply: Reply)
      modifies this`script
      ensures reply == Head(old(script)) && script == Drop(old(script), 1)
    {
      reply := Fine;
      if script != [] {
        reply := script[0];
        script := script[1..];
      }
    }

    /** One kubectl patch of a replica count. */
    method Patch(name: string, count: int) returns (reply: Reply)
      requires name in replicas
      modifies this`script, this`replicas, this`events
      ensures reply == Fine ==> replicas == old(replicas)[name := count] && events == old(events) + [Scaled(name, count)]
      ensures reply != Fine ==> replicas == old(replicas) && events == old(events)
      ensures reply == Head(old(script)) && script == Drop(old(script), 1)
    {
      reply := Next();
      if reply == Fine {
        replicas := replicas[name := count];
        events := events + [Scaled(name, count)];
      }
    }

    /** Scales one worker to zero, keeps a receipt for it and writes the receipts out. */
    method PauseWorker(item: Item, ghost original: Replicas) returns (ok: bool)
      requires Valid(original) && isRestoreModeActive && AtZero(replicas, workers)
      requires item.name in original && original[item.name] == item.replicas
      modifies this`script, this`replicas, this`events, this`workers
      ensures Valid(original) && AtZero(replicas, workers)
      ensures workers == old(workers) || workers == old(workers) + [Receipt(item.name, item.replicas)]
      ensures ok ==> workers == old(workers) + [Receipt(item.name, item.replicas)]
      ensures script == Drop(old(script), if Head(old(script)) != Fine then 1 else 2)
      ensures ok <==> AllFine(old(script), 2)
    {
      ApprovedNext(events, Scaled(item.name, 0));
      PausedNext(replicas, original, workers, item.name);
      var scaled := Patch(item.name, 0);
      if scaled != Fine {
        return false;
      }
      workers := workers + [Receipt(item.name, item.replicas)];
      var written := Next();
      return written == Fine;
    }

    /** One round of the loop below. */
    method PauseItem(items: seq<Item>, i: nat, ghost original: Replicas, ghost replies: seq<Reply>) returns (ok: bool)
      requires i < |items| && Valid(original) && isRestoreModeActive && AtZero(replicas, workers)
      requires items[i].kind == Worker ==> items[i].name in original && original[items[i].name] == items[i].replicas
      requires Pausing(items, replies, script, workers, i)
      modifies this`script, this`replicas, this`events, this`workers
      ensures Valid(original) && AtZero(replicas, workers)
      ensures ok ==> Pausing(items, replies, script, workers, i + 1)
      ensures !ok ==> PauseReplies(items, replies, script, false)
                      && !(AllFine(replies, Commands(items, |items|)) && WellFormed(items))
      ensures old(script) == [] ==> script == []
    {
      var item := items[i];
      if item.kind == NotWorker {
        return true;
      }
      if item.kind == Malformed {
        return false;
      }
      RecordedNext(workers, Receipt(item.name, item.replicas));
      TwoCommands(replies, Commands(items, i), script);
      ok := PauseWorker(item, original);
      if !ok {
        PauseFailed(items, i, replies, script);
      }
    }

    /** Scales every listed worker to zero and keeps a receipt for each; stops at the first failure. */
    method PauseWorkers(items: seq<Item>, ghost original: Replicas) returns (ok: bool)
      requires Valid(original) && isRestoreModeActive && workers == [] && replicas == original
      requires forall i :: 0 <= i < |items| && items[i].kind == Worker ==>
                             items[i].name in replicas && replicas[items[i].name] == items[i].replicas
      modifies this`script, this`replicas, this`events, this`workers
      ensures Valid(original) && AtZero(replicas, workers)
      ensures PauseReplies(items, old(script), script, ok)
      ensures AllFine(old(script), Commands(items, |items|)) && WellFormed(items) ==>
                AllRecorded(items, workers, |items|)
      ensures ok ==> workers != []
      ensures old(script) == [] ==> script == []
    {
      ghost var replies := script;
      NextCommand(replies, 0);
      var listed := Next();
      if listed != Fine {
        ListingFailed(items, replies);
        return false;
      }
      for i := 0 to |items|
        invariant Valid(original) && AtZero(replicas, workers) && Pausing(items, replies, script, workers, i)
      {
        var paused := PauseItem(items, i, original, replies);
        if !paused {
          return false;
        }
      }
      return workers != [];
    }

    /** Starts the restore mode; after a retryable failure its status is requested until the deadline. */
    method StartRestoreMode(start: Start) returns (known: bool)
      modifies this`platform
      ensures known <==> start.IsKnown()
      ensures platform == if start.TakesEffect() then InRestoreMode else old(platform)
    {
      if start.TakesEffect() {
        platform := InRestoreMode;
      }
      if start.answer != Raises {
        return start.answer == Fine;
      }
      for i := 0 to |start.polls|
        invariant forall j :: 0 <= j < i ==>
                    start.polls[j] != Crashes && !(start.polls[j] == Fine && start.tookEffect)
      {
        if start.polls[i] == Crashes {
          return false;
        }
        if start.polls[i] == Fine && start.tookEffect {
          assert start.Confirmed();
          return true;
        }
      }
      return false;
    }

    /**
     Asks for validation and approval; `approved` says that `resume_approved` was read.  An approval that is not read is
     taken not to have been given.
     */
    method ApproveResume() returns (crashed: bool, approved: bool)
      modifies this`script, this`errors, this`events, this`platform
      ensures platform == if approved then ResumeApproved else old(platform)
      ensures approved <==> ReplyAt(old(script), 0) == Fine && ResumeReply(old(script)) == Fine
      ensures crashed <==>
                ReplyAt(old(script), 0) == Crashes || (ReplyAt(old(script), 0) == Fine && ResumeReply(old(script)) == Crashes)
      ensures errors == old(errors) + (if approved || crashed then []
                                       else if ReplyAt(old(script), 0) == Refused then [ValidationFailed]
                                       else if ReplyAt(old(script), 0) == Fine && ResumeReply(old(script)) == Refused
                                       then [ResumeFailed] else [ApiFailed])
      ensures approved ==> events == old(events) + [ApprovalRead]
      ensures !approved ==> events == old(events)
      ensures !crashed && !approved ==> old(errors) < errors
      ensures old(script) == [] ==> script == [] && !crashed && approved
    {
      var validation := Next();
      if validation == Crashes {
        return true, false;
      }
      if validation != Fine {
        errors := errors + [if validation == Refused then ValidationFailed else ApiFailed];
        return false, false;
      }
      var resumed := Next();
      if resumed == Raises {
        resumed := Next();
      }
      if resumed == Crashes {
        return true, false;
      }
      if resumed == Raises {
        errors := errors + [ApiFailed];
        return false, false;
      }
      if resumed == Refused {
        errors := errors + [ResumeFailed];
        return false, false;
      }
      platform := ResumeApproved;
      events := events + [ApprovalRead];
      return false, true;
    }

    /** Up to three patches, then, for a positive count, the rollout status. */
    method RestoreWorkerReplicas(name: string, count: int) returns (r: Reply)
      requires name in replicas
      requires exists j :: 0 <= j < |events| && events[j] == ApprovalRead
      requires ApprovedFirst(events)
      modifies this`script, this`replicas, this`events
      ensures old(events) <= events && ApprovedFirst(events)
      ensures replicas == if Patched(old(script)) then old(replicas)[name := count] else old(replicas)
      ensures r == Fine <==> RolledOut(old(script), count)
      ensures r == Fine ==> replicas == old(replicas)[name := count]
      ensures old(script) == [] ==> script == [] && r == Fine
    {
      ghost var replies := script;
      for attempt := 0 to RESTORE_ATTEMPTS
        invariant replicas == old(replicas) && events == old(events)
        invariant script == Drop(replies, attempt) && forall i: nat :: i < attempt ==> ReplyAt(replies, i) == Refused
      {
        ApprovedNext(events, Scaled(name, count));
        var patched := Patch(name, count);
        assert patched == ReplyAt(replies, attempt) && script == Drop(replies, attempt + 1);
        if patched == Fine {
          assert PatchedAt(replies, attempt);
          OnlyPatch(replies, attempt, count);
          if count == 0 {
            return Fine;
          }
          r := Next();
          return;
        }
        if patched != Refused {
          NoPatch(replies, attempt);
          return patched;
        }
      }
      assert ReplyAt(replies, 0) == Refused;
      return Refused;
    }

    /** One round of the loop below. */
    method RestoreWorker(
      i: nat, ghost original: Replicas, ghost before: Replicas, ghost known: seq<CleanupError>)
      returns (crashed: bool)
      requires i < |workers| && Valid(original) && Restoring(replicas, original, workers, known, errors, i)
      requires exists j :: 0 <= j < |events| && events[j] == ApprovalRead
      requires RefusedAlike(before, replicas, workers)
      modifies this`script, this`replicas, this`events, this`errors
      ensures Valid(original) && old(events) <= events && old(errors) <= errors
      ensures RefusedAlike(before, replicas, workers)
      ensures !crashed ==> Restoring(replicas, original, workers, known, errors, i + 1)
      ensures old(script) == [] ==>
                && script == [] && !crashed
                && errors == old(errors) + (if ValidReceipt(workers[i]) then [] else [ReceiptInvalid])
    {
      var worker := workers[i];
      if !ValidReceipt(worker) {
        ReceiptRefused(replicas, original, workers, known, errors, i);
        errors := errors + [ReceiptInvalid];
        return false;
      }
      ghost var earlier := replicas;
      var back := RestoreWorkerReplicas(worker.name, worker.replicasBefore);
      WorkerTried(earlier, replicas, original, workers, known, errors, i);
      RefusedNext(before, earlier, original, workers, i, replicas);
      if back == Crashes {
        return true;
      }
      if back != Fine {
        errors := errors + [RestoreFailed(worker.name)];
      }
      return false;
    }

    method RestorePausedWorkers(ghost original: Replicas) returns (crashed: bool, restored: bool)
      requires Valid(original)
      requires workers != [] ==> exists j :: 0 <= j < |events| && events[j] == ApprovalRead
      requires !HasWorkerError(errors)
      modifies this`script, this`replicas, this`events, this`errors
      ensures Valid(original) && old(errors) <= errors
      ensures !crashed ==> Accounted(replicas, original, workers, errors, |workers|)
      ensures restored ==> replicas == original && AllValid(workers, |workers|) && errors == old(errors)
      ensures RefusedAlike(old(replicas), replicas, workers)
      ensures old(script) == [] ==> script == [] && !crashed && (AllValid(workers, |workers|) ==> restored)
      ensures old(script) == [] && AtZero(old(replicas), workers) ==> BackExactly(replicas, original, workers)
    {
      for i := 0 to |workers|
        invariant Valid(original) && Restoring(replicas, original, workers, old(errors), errors, i)
        invariant workers != [] ==> exists j :: 0 <= j < |events| && events[j] == ApprovalRead
        invariant RefusedAlike(old(replicas), replicas, workers)
        invariant old(script) == [] ==> script == [] && (AllValid(workers, i) ==> !HasWorkerError(errors))
        invariant old(script) == [] ==> NoRestoreFailed(errors)
      {
        crashed := RestoreWorker(i, original, old(replicas), old(errors));
        if crashed {
          return true, false;
        }
      }
      if old(script) == [] && AtZero(old(replicas), workers) {
        ExactlyBack(old(replicas), replicas, original, workers, errors);
      }
      if !HasWorkerError(errors) {
        AllBack(replicas, original, workers);
      }
      return false, !HasWorkerError(errors);
    }

    method RemovePartialBackup() returns (crashed: bool, removed: bool)
      modifies this`script, this`errors, this`filesDeleted
      ensures filesDeleted && (crashed <==> ReplyAt(old(script), 0) == Crashes)
      ensures removed <==> !crashed && ReplyAt(old(script), 1) == Fine
      ensures errors == old(errors) + (if ReplyAt(old(script), 0) == Raises then [FilesFailed] else [])
      ensures old(script) == [] ==> script == [] && !crashed && removed && errors == old(errors)
    {
      filesDeleted := true;
      var reply := Next();
      if reply == Crashes {
        return true, false;
      }
      if reply == Raises {
        errors := errors + [FilesFailed];
      }
      var gone := Next();
      return false, gone == Fine;
    }

    method RecoverFailedBackup(ghost original: Replicas) returns (crashed: bool, status: Cleanup)
      requires Valid(original) && errors == [] && !filesDeleted
      modifies this`script, this`replicas, this`events, this`errors, this`filesDeleted, this`platform
      ensures Valid(original)
      ensures !isRestoreModeActive ==> platform == old(platform)
      ensures !crashed && status == CleanupPassed && isRestoreModeActive ==> platform == ResumeApproved
      ensures filesDeleted ==> replicas == original
      ensures !crashed && status == CleanupPassed ==> replicas == original && filesDeleted && errors == []
      ensures !crashed && status == CleanupPassed ==> AllValid(workers, |workers|)
      ensures RefusedAlike(old(replicas), replicas, workers)
      ensures old(script) == [] ==> !crashed && (status == CleanupPassed <==> AllValid(workers, |workers|))
      ensures old(script) == [] && AtZero(old(replicas), workers) ==> BackExactly(replicas, original, workers)
    {
      var approved := false;
      if isRestoreModeActive {
        ghost var before := events;
        crashed, approved := ApproveResume();
        ApprovedNext(before, ApprovalRead);
        if approved {
          assert events[|before|] == ApprovalRead;
        }
        if crashed {
          return true, CleanupFailed;
        }
        if !approved {
          return false, CleanupFailed;
        }
      }
      var restored, removed := false, false;
      crashed, restored := RestorePausedWorkers(original);
      if crashed {
        return true, CleanupFailed;
      }
      if restored {
        crashed, removed := RemovePartialBackup();
        if crashed {
          return true, CleanupFailed;
        }
      }
      status := if errors == [] && restored && removed then CleanupPassed else CleanupFailed;
    }

    method SafeRecoverFailedBackup(ghost original: Replicas) returns (status: Cleanup)
      requires Valid(original) && errors == [] && !filesDeleted
      modifies this`script, this`replicas, this`events, this`errors, this`filesDeleted, this`platform
      ensures Valid(original)
      ensures !isRestoreModeActive ==> platform == old(platform)
      ensures status == CleanupPassed && isRestoreModeActive ==> platform == ResumeApproved
      ensures filesDeleted ==> replicas == original
      ensures status == CleanupPassed ==> replicas == original && filesDeleted && errors == []
      ensures status == CleanupPassed ==> AllValid(workers, |workers|)
      ensures RefusedAlike(old(replicas), replicas, workers)
      ensures old(script) == [] ==> (status == CleanupPassed <==> AllValid(workers, |workers|))
      ensures old(script) == [] && AtZero(old(replicas), workers) ==> BackExactly(replicas, original, workers)
    {
      var crashed;
      crashed, status := RecoverFailedBackup(original);
      if crashed {
        status := CleanupFailed;
        if !isRestoreModeActive {
          NoWorkersNoChange(replicas, original, workers);
          var _, _ := RemovePartialBackup();
        }
      }
    }

    /** Restore mode, the pause and everything after it; it stops at the first failure. */
    method Capture(start: Start, items: seq<Item>, ghost original: Replicas) returns (ok: bool)
      requires Valid(original) && !isRestoreModeActive && workers == [] && replicas == original
      requires forall i :: 0 <= i < |items| && items[i].kind == Worker ==>
                             items[i].name in replicas && replicas[items[i].name] == items[i].replicas
      modifies this`script, this`replicas, this`events, this`workers, this`isRestoreModeActive, this`platform
      ensures Valid(original) && AtZero(replicas, workers)
      ensures isRestoreModeActive <==> start.IsKnown()
      ensures platform == if start.TakesEffect() then InRestoreMode else old(platform)
      ensures ok ==> workers != []
      ensures if start.IsKnown() then CaptureReplies(items, old(script), script, ok) else !ok && script == old(script)
      ensures start.IsKnown() && AllFine(old(script), Commands(items, |items|)) && WellFormed(items) ==>
                AllRecorded(items, workers, |items|)
      ensures old(script) == [] ==> script == []
    {
      isRestoreModeActive := StartRestoreMode(start);
      if !isRestoreModeActive {
        return false;
      }
      ghost var replies := script;
      var paused := PauseWorkers(items, original);
      CaptureAfterPause(items, replies, script, paused);
      if !paused {
        return false;
      }
      var captured := Next();
      return captured == Fine;
    }

    /** The whole backup: `Some` is the outcome of the cleanup after a failure. */
    method Backup(start: Start, items: seq<Item>) returns (cleanup: Option<Cleanup>)
      requires !isRestoreModeActive && workers == [] && errors == [] && events == [] && !filesDeleted
      requires platform == Running
      requires forall i :: 0 <= i < |items| && items[i].kind == Worker ==>
                             items[i].name in replicas && replicas[items[i].name] == items[i].replicas
      modifies this
      ensures ApprovedFirst(events)
      ensures filesDeleted ==> replicas == old(replicas)
      ensures cleanup == Some(CleanupPassed) ==> replicas == old(replicas) && filesDeleted
      ensures cleanup == Some(CleanupPassed) ==> AllValid(workers, |workers|)
      ensures cleanup == Some(CleanupPassed) ==>
                (platform == InRestoreMode <==> start.TakesEffect() && !start.IsKnown())
      ensures cleanup == None ==> !filesDeleted && workers != [] && AtZero(replicas, workers) && platform == InRestoreMode
      ensures OthersUntouched(replicas, old(replicas), workers) && Truthful(workers, old(replicas))
      ensures RefusedAtZero(replicas, workers)
      ensures cleanup == None
              <==> && start.IsKnown() && AllFine(old(script), Commands(items, |items|) + 1)
                   && WellFormed(items) && Workers(items, |items|) > 0
      ensures start.IsKnown() && AllFine(old(script), Commands(items, |items|)) && WellFormed(items) ==>
                AllRecorded(items, workers, |items|)
      ensures cleanup.Some?
              && (old(script) == []
                  || (start.IsKnown() && OneFault(old(script)) && WellFormed(items) && Workers(items, |items|) > 0))
              ==> && (cleanup == Some(CleanupPassed) <==> AllValid(workers, |workers|))
                  && BackExactly(replicas, old(replicas), workers)
      ensures !start.IsKnown() ==> workers == []
    {
      ghost var original, replies := replicas, script;
      var captured := Capture(start, items, original);
      if captured {
        return None;
      }
      if OneFault(replies) && Stopped(replies, script) {
        OneFaultStops(replies, script);
      }
      var status := SafeRecoverFailedBackup(original);
      return Some(status);
    }
  }

  /**
   One worker with any name and any number of replicas is paused, the capture that follows fails, and every command of
   the recovery succeeds.  It is put back exactly if its name has the prefix and it ran at most 10 replicas.
   */
  method OneWorkerComesBackExactly(name: string, count: int) returns (operator: Operator, cleanup: Option<Cleanup>)
    ensures if "foundry-lite-worker-" <= name && 0 <= count <= 10
            then operator.replicas == map[name := count] && cleanup == Some(CleanupPassed)
            else operator.replicas == map[name := 0] && cleanup == Some(CleanupFailed)
  {
    var items := [Item(name, count, Worker)];
    operator := new Operator(map[name := count], [Fine, Fine, Fine, Refused]);
    assert Workers(items, 1) == 1;
    ghost var replies := operator.script;
    assert AllFine(replies, 3) && replies[3] != Fine && !AllFine(replies, 4);
    assert |items| == 1 && Commands(items, |items|) == 3;
    cleanup := operator.Backup(Start(Fine, true, []), items);
    assert cleanup != None && Recorded(operator.workers, items[0].name);
    ghost var k :| 0 <= k < |operator.workers| && operator.workers[k].name == name;
    assert operator.workers[k] == Receipt(name, count);
    forall i | 0 <= i < |operator.workers| ensures operator.workers[i] == Receipt(name, count) {
      assert operator.workers[i].name in map[name := count];
    }
    assert operator.replicas.Keys == {name};
    assert ValidReceipt(operator.workers[k]) <==> "foundry-lite-worker-" <= name && 0 <= count <= 10;
    assert cleanup.Some? && (cleanup.value == CleanupPassed || cleanup.value == CleanupFailed);
  }

  /** So one with 11 replicas is left without any. */
  method ElevenReplicasStayDown() returns (operator: Operator, cleanup: Option<Cleanup>)
    ensures operator.replicas == map["foundry-lite-worker-a" := 0] && cleanup == Some(CleanupFailed)
  {
    operator, cleanup := OneWorkerComesBackExactly("foundry-lite-worker-a", 11);
  }

  /**
   A platform that is left in restore mode: starting the mode takes effect, but neither the answer nor any of the
   status requests gets through; every other command succeeds, and cleanup reports that it passed.
   */
  method LostStartStaysInRestoreMode(items: seq<Item>, replicas: Replicas)
    returns (operator: Operator, cleanup: Option<Cleanup>)
    requires forall i :: 0 <= i < |items| && items[i].kind == Worker ==>
                           items[i].name in replicas && replicas[items[i].name] == items[i].replicas
    ensures cleanup == Some(CleanupPassed) && operator.platform == InRestoreMode && operator.replicas == replicas
  {
    operator := new Operator(replicas, []);
    cleanup := operator.Backup(Start(Raises, true, [Raises, Raises]), items);
    assert cleanup.Some? && cleanup.value == CleanupPassed;
  }

  lemma NoWorkersNoChange(replicas: Replicas, original: Replicas, workers: seq<Receipt>)
    requires OthersUntouched(replicas, original, workers) && workers == []
    ensures replicas == original
  {
    forall name | name in original ensures replicas[name] == original[name] {
      assert !Recorded(workers, name);
    }
  }
}
