/**
 The challenge, approval and generation protocol that the widget runs over the bridge, when any
 response may be lost, and what a server that applies each idempotency key at most once makes of it.
 */
module Generation {
  import opened Basics

  /** What one generation request asks for; it does not change during a user action. */
  datatype Outer = Outer(mode: string, workspace: string, plan: string, idempotencyKey: string)

  datatype ToolCall =
    | Generate(outer: Outer, receipt: Option<string>)
    | Approve(challengeId: string, token: string)

  datatype Challenge = Challenge(challengeId: string, isForGeneration: bool)

  /** The parts of a tool result that the protocol looks at; absent texts are empty. */
  datatype ToolResult = ToolResult(
    challenge: Option<Challenge>,
    isBundle: bool,
    widgetApprovalToken: string,
    confirmationReceipt: string)

  /** `Lost` is every failure to get a response; `ToolFailure` is an error that the tool itself reports. */
  datatype Answer = Lost | ToolFailure | Answered(result: ToolResult)

  datatype Exchange = Exchange(call: ToolCall, answer: Answer)

  /** There is a token and a challenge for a generation to confirm. */
  predicate Confirmable(challenge: Option<Challenge>, token: string) {
    token != "" && challenge.Some? && challenge.value.challengeId != "" && challenge.value.isForGeneration
  }

  // ----- the calls that an action makes, told from the answers

  /** A call whose response is lost is made a second time, and no call a third time. */
  function Tries(part: seq<Exchange>): nat {
    if part != [] && part[0].answer == Lost then 2 else 1
  }

  /** The calls begin with this one, made once or twice. */
  predicate Begins(part: seq<Exchange>, call: ToolCall) {
    Tries(part) <= |part| && forall i :: 0 <= i < Tries(part) ==> part[i].call == call
  }

  /** The answer to the call that comes first. */
  function FirstAnswer(part: seq<Exchange>): Answer
    requires Tries(part) <= |part|
  {
    part[Tries(part) - 1].answer
  }

  function ReceiptIn(answer: Answer): string {
    if answer.Answered? then answer.result.confirmationReceipt else ""
  }

  function Given(answer: Answer): Result<ToolResult, ()> {
    if answer.Answered? then Ok(answer.result) else Err(())
  }

  /**
   A challenge is confirmed by an approval and, if that returns a receipt, by the generation with this receipt, whose
   answer decides; without a usable challenge and a token no call is made.
   */
  ghost predicate Confirms(
    part: seq<Exchange>, outer: Outer, challenge: Option<Challenge>, token: string, r: Result<ToolResult, ()>)
  {
    if !Confirmable(challenge, token) then part == [] && r.Err?
    else
      && Begins(part, Approve(challenge.value.challengeId, token))
      && var receipt, rest := ReceiptIn(FirstAnswer(part)), part[Tries(part)..];
      if receipt == "" then rest == [] && r.Err?
      else Begins(rest, Generate(outer, Some(receipt))) && |rest| == Tries(rest) && r == Given(FirstAnswer(rest))
  }

  /** One call without receipt; its answer decides unless it asks for approval, which is then sought. */
  ghost predicate Generates(part: seq<Exchange>, outer: Outer, r: Result<ToolResult, ()>) {
    && part != [] && part[0].call == Generate(outer, None)
    && match part[0].answer
       case Answered(result) =>
         if result.challenge.None? then |part| == 1 && r == Ok(result)
         else Confirms(part[1..], outer, result.challenge, result.widgetApprovalToken, r)
       case _ => |part| == 1 && r.Err?
  }

  predicate Resumable(original: Outer, savedReceipt: string, saved: Challenge) {
    && original.idempotencyKey != "" && original.plan != "" && savedReceipt == ""
    && saved.isForGeneration && saved.challengeId != ""
  }

  /**
   A saved challenge is confirmed with the saved token; without one the request is replayed first, which ends the action
   with the application if it was made already, and with an error unless the same challenge comes back.
   */
  ghost predicate Resumes(
    part: seq<Exchange>, original: Outer, savedReceipt: string, saved: Challenge, savedToken: string,
    r: Result<ToolResult, ()>)
  {
    if !Resumable(original, savedReceipt, saved) then part == [] && r.Err?
    else if savedToken != "" then Confirms(part, original, Some(saved), savedToken, r)
    else
      && part != [] && part[0].call == Generate(original, None)
      && match part[0].answer
         case Answered(result) =>
           if result.isBundle then |part| == 1 && r == Ok(result)
           else if result.challenge.None? || result.challenge.value.challengeId != saved.challengeId then
             |part| == 1 && r.Err?
           else Confirms(part[1..], original, Some(saved), result.widgetApprovalToken, r)
         case _ => |part| == 1 && r.Err?
  }

  // ----- what follows for the calls of an action

  /** Every generation call carries the same request. */
  ghost predicate SameRequest(part: seq<Exchange>, outer: Outer) {
    forall i :: 0 <= i < |part| && part[i].call.Generate? ==> part[i].call.outer == outer
  }

  /** A receipt is sent only after an approval of this challenge returned it. */
  ghost predicate ReceiptsEarned(part: seq<Exchange>, challengeId: string) {
    forall i :: 0 <= i < |part| && part[i].call.Generate? && part[i].call.receipt.Some? ==>
                  exists j :: 0 <= j < i && Earns(part[j], challengeId, part[i].call.receipt.value)
  }

  predicate Earns(x: Exchange, challengeId: string, receipt: string) {
    && x.call.Approve? && x.call.challengeId == challengeId && x.call.token != ""
    && x.answer.Answered? && x.answer.result.confirmationReceipt == receipt && receipt != ""
  }

  ghost predicate NoReceipt(part: seq<Exchange>) {
    forall i :: 0 <= i < |part| && part[i].call.Generate? ==> part[i].call.receipt == None
  }

  /** The last call is a generation that was answered. */
  predicate EndsGenerated(part: seq<Exchange>) {
    part != [] && part[|part| - 1].call.Generate? && part[|part| - 1].answer.Answered?
  }

  function ChallengeId(challenge: Option<Challenge>): string {
    if challenge.Some? then challenge.value.challengeId else ""
  }

  /** The first `n` calls ask for approval; the others generate with the receipt that the last of them returned. */
  ghost predicate ApprovalsFirst(part: seq<Exchange>, n: nat, outer: Outer, challengeId: string, receipt: string) {
    && 0 < n <= |part| && (forall i :: 0 <= i < n ==> part[i].call.Approve?)
    && (forall i :: n <= i < |part| ==> part[i].call == Generate(outer, Some(receipt)))
    && (n < |part| ==> Earns(part[n - 1], challengeId, receipt))
  }

  lemma ConfirmationCalls(
    part: seq<Exchange>, outer: Outer, challenge: Option<Challenge>, token: string, r: Result<ToolResult, ()>)
    requires Confirmable(challenge, token) && Confirms(part, outer, challenge, token, r)
    ensures |part| <= 4
    ensures ApprovalsFirst(part, Tries(part), outer, challenge.value.challengeId, ReceiptIn(FirstAnswer(part)))
    ensures r.Ok? <==> EndsGenerated(part)
    ensures r.Ok? ==> part[|part| - 1].answer == Answered(r.value)
  {
    var n := Tries(part);
    var rest := part[n..];
    if ReceiptIn(FirstAnswer(part)) != "" {
      forall i | n <= i < |part| ensures part[i] == rest[i - n] {
      }
      assert part[|part| - 1] == rest[|rest| - 1];
    }
  }

  lemma ApprovalsAreSound(part: seq<Exchange>, n: nat, outer: Outer, challengeId: string, receipt: string)
    requires ApprovalsFirst(part, n, outer, challengeId, receipt)
    ensures SameRequest(part, outer) && ReceiptsEarned(part, challengeId)
  {
  }

  /** At most four calls, one request, only earned receipts, and success exactly if the generation was answered. */
  lemma ConfirmationIsSound(
    part: seq<Exchange>, outer: Outer, challenge: Option<Challenge>, token: string, r: Result<ToolResult, ()>)
    requires Confirms(part, outer, challenge, token, r)
    ensures |part| <= 4 && SameRequest(part, outer) && ReceiptsEarned(part, ChallengeId(challenge))
    ensures r.Ok? <==> EndsGenerated(part)
    ensures r.Ok? ==> part[|part| - 1].answer == Answered(r.value)
  {
    if Confirmable(challenge, token) {
      ConfirmationCalls(part, outer, challenge, token, r);
      ApprovalsAreSound(part, Tries(part), outer, challenge.value.challengeId, ReceiptIn(FirstAnswer(part)));
    }
  }

  /** An approval without receipt ends the confirmation. */
  lemma NotApproved(part: seq<Exchange>, outer: Outer, challenge: Option<Challenge>, token: string)
    requires Confirmable(challenge, token) && Begins(part, Approve(challenge.value.challengeId, token))
    requires |part| == Tries(part) && ReceiptIn(FirstAnswer(part)) == ""
    ensures Confirms(part, outer, challenge, token, Err(()))
  {
  }

  /** An approval with a receipt, followed by the generation, completes it. */
  lemma ApprovedThenGenerated(
    first: seq<Exchange>, rest: seq<Exchange>, outer: Outer, challenge: Option<Challenge>, token: string, receipt: string)
    requires Confirmable(challenge, token) && Begins(first, Approve(challenge.value.challengeId, token))
    requires |first| == Tries(first) && ReceiptIn(FirstAnswer(first)) == receipt != ""
    requires Begins(rest, Generate(outer, Some(receipt))) && |rest| == Tries(rest)
    ensures Confirms(first + rest, outer, challenge, token, Given(FirstAnswer(rest)))
  {
    var part := first + rest;
    assert part[0] == first[0] && Tries(part) == |first| && part[|first|..] == rest;
    assert forall i :: 0 <= i < |first| ==> part[i] == first[i];
  }

  lemma ReplayedThenConfirmed(
    x: Exchange, rest: seq<Exchange>, original: Outer, saved: Challenge, r: Result<ToolResult, ()>)
    requires Resumable(original, "", saved) && x.call == Generate(original, None) && x.answer.Answered?
    requires !x.answer.result.isBundle && x.answer.result.challenge.Some?
    requires x.answer.result.challenge.value.challengeId == saved.challengeId
    requires Confirms(rest, original, Some(saved), x.answer.result.widgetApprovalToken, r)
    ensures Resumes([x] + rest, original, "", saved, "", r)
  {
    assert ([x] + rest)[1..] == rest;
  }

  /** One call before a confirmation changes none of this, if it carries the same request and no receipt. */
  lemma OneCallBefore(part: seq<Exchange>, outer: Outer, challengeId: string)
    requires part != [] && part[0].call == Generate(outer, None)
    requires SameRequest(part[1..], outer) && ReceiptsEarned(part[1..], challengeId)
    ensures SameRequest(part, outer) && ReceiptsEarned(part, challengeId)
  {
    var rest := part[1..];
    forall i | 1 <= i < |part| && part[i].call.Generate?
      ensures part[i].call.outer == outer
      ensures part[i].call.receipt.Some? ==>
                exists j :: 0 <= j < i && Earns(part[j], challengeId, part[i].call.receipt.value)
    {
      assert part[i] == rest[i - 1];
      if part[i].call.receipt.Some? {
        var j :| 0 <= j < i - 1 && Earns(rest[j], challengeId, part[i].call.receipt.value);
        assert part[j + 1] == rest[j];
      }
    }
  }

  /** The challenge that a first answer asks to confirm. */
  function Asked(answer: Answer): Option<Challenge> {
    if answer.Answered? then answer.result.challenge else None
  }

  lemma GenerationIsSound(part: seq<Exchange>, outer: Outer, r: Result<ToolResult, ()>)
    requires Generates(part, outer, r)
    ensures |part| <= 5 && SameRequest(part, outer) && (r.Ok? <==> EndsGenerated(part) && (Asked(part[0].answer) == None || |part| > 1))
    ensures r.Ok? ==> part[|part| - 1].answer == Answered(r.value)
    ensures if Asked(part[0].answer).Some? then ReceiptsEarned(part, Asked(part[0].answer).value.challengeId)
            else NoReceipt(part)
  {
    if Asked(part[0].answer).Some? {
      var result := part[0].answer.result;
      ConfirmationIsSound(part[1..], outer, result.challenge, result.widgetApprovalToken, r);
      OneCallBefore(part, outer, result.challenge.value.challengeId);
      assert |part| > 1 ==> part[|part| - 1] == part[1..][|part| - 2];
    }
  }

  lemma ResumptionIsSound(
    part: seq<Exchange>, original: Outer, savedReceipt: string, saved: Challenge, savedToken: string,
    r: Result<ToolResult, ()>)
    requires Resumes(part, original, savedReceipt, saved, savedToken, r)
    ensures |part| <= 5 && SameRequest(part, original) && ReceiptsEarned(part, saved.challengeId)
    ensures part == [] <==> !Resumable(original, savedReceipt, saved)
    ensures r.Ok? ==> EndsGenerated(part) && part[|part| - 1].answer == Answered(r.value)
  {
    if Resumable(original, savedReceipt, saved) {
      if savedToken != "" {
        ConfirmationIsSound(part, original, Some(saved), savedToken, r);
      } else if |part| > 1 || !(part[0].answer.Answered? && part[0].answer.result.isBundle) {
        ReplayedIsSound(part, original, saved, r);
      }
    }
  }

  lemma ReplayedIsSound(part: seq<Exchange>, original: Outer, saved: Challenge, r: Result<ToolResult, ()>)
    requires Resumable(original, "", saved) && Resumes(part, original, "", saved, "", r)
    requires |part| > 1 || !(part[0].answer.Answered? && part[0].answer.result.isBundle)
    ensures |part| <= 5 && SameRequest(part, original) && ReceiptsEarned(part, saved.challengeId)
    ensures r.Ok? ==> EndsGenerated(part) && part[|part| - 1].answer == Answered(r.value)
  {
    if Asked(part[0].answer).Some? && Asked(part[0].answer).value.challengeId == saved.challengeId {
      ConfirmationIsSound(part[1..], original, Some(saved), part[0].answer.result.widgetApprovalToken, r);
      OneCallBefore(part, original, saved.challengeId);
      assert |part| > 1 ==> part[|part| - 1] == part[1..][|part| - 2];
    }
  }

  /** The tool calls of the widget, answered from a script that nothing is known about. */
  class Tools {
    var log: seq<Exchange>
    var script: seq<Answer>

    constructor (script: seq<Answer>)
      ensures log == [] && this.script == script
    {
      log := [];
      this.script := script;
    }

    method CallTool(call: ToolCall) returns (answer: Answer)
      modifies this
      ensures log == old(log) + [Exchange(call, answer)]
    {
      answer := Lost;
      if script != [] {
        answer := script[0];
        script := script[1..];
      }
      log := log + [Exchange(call, answer)];
    }

    /** Calls once, and once more exactly if the first response was lost. */
    method WithOneRecovery(call: ToolCall) returns (answer: Answer, ghost part: seq<Exchange>)
      modifies this
      ensures log == old(log) + part
      ensures Begins(part, call) && |part| == Tries(part) && FirstAnswer(part) == answer
    {
      answer := CallTool(call);
      part := [Exchange(call, answer)];
      if answer == Lost {
        answer := CallTool(call);
        part := part + [Exchange(call, answer)];
      }
    }

    method ConfirmChallenge(outer: Outer, challenge: Option<Challenge>, token: string)
      returns (r: Result<ToolResult, ()>, ghost part: seq<Exchange>)
      modifies this
      ensures log == old(log) + part && Confirms(part, outer, challenge, token, r)
      ensures |part| <= 4 && SameRequest(part, outer) && ReceiptsEarned(part, ChallengeId(challenge))
      ensures r.Ok? <==> EndsGenerated(part)
    {
      part := [];
      if token == "" || challenge.None? || challenge.value.challengeId == "" || !challenge.value.isForGeneration {
        return Err(()), part;
      }
      var approved;
      approved, part := WithOneRecovery(Approve(challenge.value.challengeId, token));
      if !approved.Answered? || approved.result.confirmationReceipt == "" {
        r := Err(());
        NotApproved(part, outer, challenge, token);
        ConfirmationIsSound(part, outer, challenge, token, r);
        return;
      }
      ghost var first := part;
      var receipt := approved.result.confirmationReceipt;
      var generated;
      generated, part := WithOneRecovery(Generate(outer, Some(receipt)));
      ApprovedThenGenerated(first, part, outer, challenge, token, receipt);
      part := first + part;
      r := if generated.Answered? then Ok(generated.result) else Err(());
      ConfirmationIsSound(part, outer, challenge, token, r);
    }

    /** A key given by the caller is used; otherwise a fresh one is drawn, once for the whole action. */
    method GenerateTestApplication(mode: string, workspace: string, plan: string, givenKey: string, freshKey: string)
      returns (r: Result<ToolResult, ()>, ghost part: seq<Exchange>)
      modifies this
      ensures var outer := Outer(mode, workspace, plan, if givenKey != "" then givenKey else freshKey);
              && log == old(log) + part && Generates(part, outer, r)
              && |part| <= 5 && SameRequest(part, outer)
              && if Asked(part[0].answer).Some? then ReceiptsEarned(part, Asked(part[0].answer).value.challengeId)
                 else NoReceipt(part)
    {
      var request := Outer(mode, workspace, plan, if givenKey != "" then givenKey else freshKey);
      var challenged := CallTool(Generate(request, None));
      ghost var first := Exchange(Generate(request, None), challenged);
      part := [first];
      if !challenged.Answered? {
        return Err(()), part;
      }
      if challenged.result.challenge.None? {
        return Ok(challenged.result), part;
      }
      r, part := ConfirmChallenge(request, challenged.result.challenge, challenged.result.widgetApprovalToken);
      part := [first] + part;
      GenerationIsSound(part, request, r);
    }

    method ResumePendingGeneration(original: Outer, savedReceipt: string, saved: Challenge, savedToken: string)
      returns (r: Result<ToolResult, ()>, ghost part: seq<Exchange>)
      modifies this
      ensures log == old(log) + part && Resumes(part, original, savedReceipt, saved, savedToken, r)
      ensures |part| <= 5 && SameRequest(part, original) && ReceiptsEarned(part, saved.challengeId)
      ensures part == [] <==> !Resumable(original, savedReceipt, saved)
    {
      part := [];
      if original.idempotencyKey == "" || original.plan == "" || savedReceipt != "" {
        return Err(()), part;
      }
      if !saved.isForGeneration || saved.challengeId == "" {
        return Err(()), part;
      }
      if savedToken != "" {
        r, part := ConfirmChallenge(original, Some(saved), savedToken);
        ResumptionIsSound(part, original, savedReceipt, saved, savedToken, r);
        return;
      }
      var replayed := CallTool(Generate(original, None));
      ghost var first := Exchange(Generate(original, None), replayed);
      part := [first];
      if !replayed.Answered? {
        return Err(()), part;
      }
      if replayed.result.isBundle {
        return Ok(replayed.result), part;
      }
      if replayed.result.challenge.None? || replayed.result.challenge.value.challengeId != saved.challengeId {
        return Err(()), part;
      }
      r, part := ConfirmChallenge(original, Some(saved), replayed.result.widgetApprovalToken);
      ReplayedThenConfirmed(first, part, original, saved, r);
      part := [first] + part;
      ResumptionIsSound(part, original, savedReceipt, saved, savedToken, r);
    }
  }

  // ----- the server

  /** The applications made so far; a key makes at most one. */
  type Applications = map<string, Outer>

  /** A generation call that reaches the server may make an application, if its key has made none. */
  function Serve(apps: Applications, call: ToolCall, makes: bool): Applications {
    if call.Generate? && makes && call.outer.idempotencyKey !in apps
    then apps[call.outer.idempotencyKey := call.outer] else apps
  }

  /** `makes` says for each call whether it reaches the server and the server is willing to act on it. */
  function ServeAll(apps: Applications, log: seq<Exchange>, makes: seq<bool>): Applications
    requires |makes| == |log|
  {
    if log == [] then apps
    else Serve(ServeAll(apps, log[..|log| - 1], makes[..|log| - 1]), log[|log| - 1].call, makes[|log| - 1])
  }

  /**
   At most one application: whichever calls and responses are lost, and however many actions resume the same
   request, the server makes at most one application for it, and it is the one that was asked for.
   */
  lemma {:induction false} AtMostOneApplication(apps: Applications, log: seq<Exchange>, makes: seq<bool>, outer: Outer)
    requires |makes| == |log| && SameRequest(log, outer)
    ensures AtMostOne(apps, ServeAll(apps, log, makes), outer)
  {
    if log != [] {
      var front := log[..|log| - 1];
      forall i | 0 <= i < |front| && front[i].call.Generate? ensures front[i].call.outer == outer {
        assert front[i] == log[i];
      }
      AtMostOneApplication(apps, front, makes[..|log| - 1], outer);
      assert log[|log| - 1].call.Generate? ==> log[|log| - 1].call.outer == outer;
    }
  }

  /** What the widget finds saved when it resumes: a receipt, a challenge and an approval token. */
  datatype Saved = Saved(receipt: string, challenge: Challenge, token: string)

  ghost predicate AtMostOne(apps: Applications, after: Applications, outer: Outer) {
    after == apps || (outer.idempotencyKey !in apps && after == apps[outer.idempotencyKey := outer])
  }

  /**
   A first attempt followed by any number of resumed ones: all generation calls carry the one request, so a server
   that sees any of them makes at most one application, whatever it had made before.
   */
  method GenerateThenResume(
    tools: Tools, mode: string, workspace: string, plan: string, freshKey: string, resumes: seq<Saved>)
    returns (ghost part: seq<Exchange>)
    modifies tools
    ensures tools.log == old(tools.log) + part && part != []
    ensures SameRequest(part, Outer(mode, workspace, plan, freshKey))
    ensures forall apps: Applications, makes: seq<bool> :: |makes| == |part| ==>
              AtMostOne(apps, ServeAll(apps, part, makes), Outer(mode, workspace, plan, freshKey))
  {
    var original := Outer(mode, workspace, plan, freshKey);
    var r;
    r, part := tools.GenerateTestApplication(mode, workspace, plan, "", freshKey);
    for i := 0 to |resumes|
      invariant tools.log == old(tools.log) + part && part != [] && SameRequest(part, original)
    {
      ghost var before, more := part, [];
      r, more := tools.ResumePendingGeneration(original, resumes[i].receipt, resumes[i].challenge, resumes[i].token);
      part := before + more;
    }
    forall apps: Applications, makes: seq<bool> | |makes| == |part|
      ensures AtMostOne(apps, ServeAll(apps, part, makes), original)
    {
      AtMostOneApplication(apps, part, makes, original);
    }
  }
}
