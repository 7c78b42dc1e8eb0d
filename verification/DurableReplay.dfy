/**
  Replay and commit together: a fresh host answers the first calls with the responses that
  were committed for those turns.
 */
module DurableReplay {
  import opened Common
  import opened DurableProtocol
  import C = ProviderCodec
  import R = ProviderRecord
  import F = ProviderFields

  /** The step is what the commit of this accepted response stores for the turn. */
  ghost predicate StoredFrom(j: C.JsonText, turn: nat, step: Stored, envelope: C.Json, request: C.Json) {
    && R.Accepted(j, envelope, request)
    && var committed := R.Commit(j, turn, C.CanonicalFromEnvelope(j, envelope, request).value);
    committed.Ok? && committed.value.0 == step
  }

  // ----- The machine with the responses themselves -----

  /** A step of the machine; the inner provider answers with an envelope. */
  datatype Event =
    | Inner(envelope: C.Json, request: C.Json, retryable: bool)
    | Step(action: Action)

  /**
    What the host makes of an envelope: a failure, of the given class, unless it is a success
    whose response is canonical and valid.
   */
  function AnswerTo(j: C.JsonText, turn: nat, envelope: C.Json, request: C.Json, retryable: bool): Answer {
    var step := C.CanonicalFromEnvelope(j, envelope, request);
    if C.AsBool(C.Get(envelope, "ok")) != Some(true) || step.Err? || C.Validate(j, step.value.blocks).Some?
    then Failure(retryable)
    else
      var committed := R.Commit(j, turn, step.value);
      if committed.Ok? then Success(committed.value.0) else Failure(retryable)
  }

  function NextEvent(j: C.JsonText, s: State, e: Event): Option<State> {
    match e
    case Inner(envelope, request, retryable) => Next(s, CallInner(AnswerTo(j, s.turn, envelope, request, retryable)))
    case Step(a) => if a.CallInner? then None else Next(s, a)
  }

  function RunEvents(j: C.JsonText, s: State, events: seq<Event>): Option<State> {
    if events == [] then Some(s)
    else
      var before :- RunEvents(j, s, events[..|events| - 1]);
      NextEvent(j, before, events[|events| - 1])
  }

  /** A run with responses is a run of the machine. */
  lemma {:induction false} EventsAreActions(j: C.JsonText, s: State, events: seq<Event>) returns (actions: seq<Action>)
    requires RunEvents(j, s, events).Some?
    ensures Run(s, actions) == RunEvents(j, s, events) && (Step(Crash) !in events ==> Crash !in actions)
    decreases |events|
  {
    hide Next, AnswerTo;
    if events == [] {
      actions := [];
    } else {
      var init, last := events[..|events| - 1], events[|events| - 1];
      var before := EventsAreActions(j, s, init);
      var a := if last.Step? then last.action else CallInner(AnswerTo(j, Run(s, before).value.turn, last.envelope, last.request, last.retryable));
      actions := before + [a];
      assert actions[..|before|] == before;
    }
  }

  /** The later steps of a commit cannot fail: every accepted response is a success. */
  lemma AcceptedIsSuccess(j: C.JsonText, turn: nat, envelope: C.Json, request: C.Json, retryable: bool)
    ensures var answer := AnswerTo(j, turn, envelope, request, retryable);
            && (answer.Success? <==> C.AsBool(C.Get(envelope, "ok")) == Some(true) && R.Accepted(j, envelope, request))
            && (answer.Success? ==> StoredFrom(j, turn, answer.step, envelope, request))
  {
    hide C.CanonicalFromEnvelope, C.Validate, R.Commit, C.Get;
    if R.Accepted(j, envelope, request) {
      R.ReplayMatchesCommit(j, envelope, request, turn);
    }
  }

  /** The step is what the commit of a response received in these events stores for the turn. */
  ghost predicate Received(j: C.JsonText, events: seq<Event>, turn: nat, step: Stored) {
    exists i :: 0 <= i < |events| && events[i].Inner? && StoredFrom(j, turn, step, events[i].envelope, events[i].request)
  }

  lemma ReceivedLater(j: C.JsonText, events: seq<Event>, e: Event, turn: nat, step: Stored)
    requires Received(j, events, turn, step)
    ensures Received(j, events + [e], turn, step)
  {
    hide StoredFrom;
    var i :| 0 <= i < |events| && events[i].Inner? && StoredFrom(j, turn, step, events[i].envelope, events[i].request);
    assert (events + [e])[i] == events[i];
  }

  /** Every stored step, and the one that is about to be stored, comes from a received response. */
  ghost predicate Traced(j: C.JsonText, events: seq<Event>, s: State) {
    && (forall i :: 0 <= i < |s.log| && s.log[i].Completed? ==> Received(j, events, s.log[i].turn, s.log[i].step))
    && (s.pc.Answered? && s.pc.answer.Success? ==> Received(j, events, s.turn, s.pc.answer.step))
  }

  lemma TracedStep(j: C.JsonText, events: seq<Event>, s: State, a: Action)
    requires Traced(j, events, s) && Next(s, a).Some?
    requires a.CallInner? && a.answer.Success? ==> Received(j, events, s.turn, a.answer.step)
    ensures Traced(j, events, Next(s, a).value)
  {
    hide Received, FindCompleted, Decide, MaxAttempt, HasRequest, HasFailure;
  }

  lemma TracedLater(j: C.JsonText, events: seq<Event>, e: Event, s: State)
    requires Traced(j, events, s)
    ensures Traced(j, events + [e], s)
  {
    hide Received;
    forall turn, step | Received(j, events, turn, step)
      ensures Received(j, events + [e], turn, step)
    {
      ReceivedLater(j, events, e, turn, step);
    }
  }

  lemma TracedNext(j: C.JsonText, events: seq<Event>, s: State, e: Event)
    requires Traced(j, events, s) && NextEvent(j, s, e).Some?
    ensures Traced(j, events + [e], NextEvent(j, s, e).value)
  {
    hide Next, AnswerTo, StoredFrom;
    TracedLater(j, events, e, s);
    if e.Inner? {
      var answer := AnswerTo(j, s.turn, e.envelope, e.request, e.retryable);
      AcceptedIsSuccess(j, s.turn, e.envelope, e.request, e.retryable);
      assert (events + [e])[|events|] == e;
      hide Traced;
      TracedStep(j, events + [e], s, CallInner(answer));
    } else {
      hide Traced, Received;
      TracedStep(j, events + [e], s, e.action);
    }
  }

  lemma {:induction false} TracedRun(j: C.JsonText, events: seq<Event>)
    requires RunEvents(j, Start, events).Some?
    ensures Traced(j, events, RunEvents(j, Start, events).value)
    decreases |events|
  {
    hide NextEvent;
    if events != [] {
      var init, last := events[..|events| - 1], events[|events| - 1];
      TracedRun(j, init);
      assert events == init + [last];
      hide Traced;
      TracedNext(j, init, RunEvents(j, Start, init).value, last);
    }
  }

  // ----- Replay -----

  /** The envelope has everything of the response that is kept, and nothing else. */
  ghost predicate Carries(j: C.JsonText, e: C.Json, envelope: C.Json, request: C.Json) {
    var out, response := F.ResponseOf(e), F.Entry(envelope, "response");
    var finish := F.FinishOf(response);
    && F.Wrapped(e, out) && F.KeepsContent(j, out, response) && F.KeepsMetadata(out, response, request)
    && F.KeepsFinish(out, if finish.Str? then Some(finish) else Some(C.Str("")))
  }

  lemma ReplayCarries(j: C.JsonText, turn: nat, step: Stored, envelope: C.Json, request: C.Json)
    requires StoredFrom(j, turn, step, envelope, request)
    ensures R.ReplayEnvelope(j, step).Ok? && Carries(j, R.ReplayEnvelope(j, step).value, envelope, request)
  {
    hide R.Accepted, C.CanonicalFromEnvelope, R.Commit, R.ReplayEnvelope, F.ResponseOf, F.Entry, F.FinishOf, F.Wrapped, F.KeepsContent,
      F.KeepsMetadata, F.KeepsFinish;
    var _, replayed := F.EnvelopesKeepResponse(j, envelope, request, turn);
  }

  lemma {:induction false} StepEntry(log: Log, i: nat)
    requires i < CompletedCount(log)
    ensures Completed(CompletedTurns(log)[i], CompletedSteps(log)[i]) in log
    decreases |log|
  {
    var init := log[..|log| - 1];
    if i < CompletedCount(init) {
      StepEntry(init, i);
    } else {
      assert log[|log| - 1] in log;
    }
  }

  /** A reply that replays a response received in these events for the turn. */
  ghost predicate ReplaysResponse(j: C.JsonText, events: seq<Event>, turn: nat, reply: Reply) {
    && reply.Replayed? && R.ReplayEnvelope(j, reply.step).Ok?
    && exists i ::
         && 0 <= i < |events| && events[i].Inner?
         && StoredFrom(j, turn, reply.step, events[i].envelope, events[i].request)
         && Carries(j, R.ReplayEnvelope(j, reply.step).value, events[i].envelope, events[i].request)
  }

  lemma StepReceived(j: C.JsonText, events: seq<Event>, s: State, i: nat)
    requires WellNumbered(s.log) && Traced(j, events, s) && i < CompletedCount(s.log)
    ensures Received(j, events, i + 1, CompletedSteps(s.log)[i])
  {
    hide Received;
    StepEntry(s.log, i);
    assert CompletedTurns(s.log)[i] == i + 1;
    hide WellNumbered;
    var at :| 0 <= at < |s.log| && s.log[at] == Completed(i + 1, CompletedSteps(s.log)[i]);
  }

  lemma ResponseReplays(j: C.JsonText, events: seq<Event>, turn: nat, step: Stored)
    requires Received(j, events, turn, step)
    ensures ReplaysResponse(j, events, turn, Replayed(step))
  {
    hide StoredFrom, Carries, R.ReplayEnvelope;
    var i :| 0 <= i < |events| && events[i].Inner? && StoredFrom(j, turn, step, events[i].envelope, events[i].request);
    ReplayCarries(j, turn, step, events[i].envelope, events[i].request);
  }

  /**
    Whatever happened before, and however the rest of the program interferes, a fresh host
    answers its first k calls, k the number of completed turns, by replaying for each turn
    the response that was received and committed for it: its text, tool calls, usage, model,
    provider, truncation and reasoning.
   */
  lemma FreshHostReplaysResponses(j: C.JsonText, before: seq<Event>, after: seq<Event>)
    requires RunEvents(j, Start, before).Some?
    requires var s := RunEvents(j, Start, before).value;
             s.turn == 1 && s.pc == Idle && s.replies == [] && RunEvents(j, s, after).Some? && Step(Crash) !in after
    ensures var s := RunEvents(j, Start, before).value;
            var replies := RunEvents(j, s, after).value.replies;
            forall i :: 0 <= i < |replies| && i < CompletedCount(s.log) ==> ReplaysResponse(j, before, i + 1, replies[i])
  {
    hide Run, RunEvents, Next, Received, ReplaysResponse, Traced, WellNumbered, Placed, ReplaysFirst, CompletedSteps;
    var s := RunEvents(j, Start, before).value;
    var actions := EventsAreActions(j, Start, before);
    RunKeeps(actions);
    TracedRun(j, before);
    var rest := EventsAreActions(j, s, after);
    FreshHostReplays(s, rest);
    var s', steps := RunEvents(j, s, after).value, CompletedSteps(s.log);
    forall i | 0 <= i < |s'.replies| && i < CompletedCount(s.log)
      ensures ReplaysResponse(j, before, i + 1, s'.replies[i])
    {
      StepReceived(j, before, s, i);
      ResponseReplays(j, before, i + 1, steps[i]);
      FirstReply(s', steps, i);
    }
  }

  lemma FirstReply(s: State, steps: seq<Stored>, i: nat)
    requires ReplaysFirst(s, steps) && i < |s.replies| && i < |steps|
    ensures s.replies[i] == Replayed(steps[i])
  {
    if |s.replies| <= |steps| {
      assert s.replies[i] == Replays(steps)[..|s.replies|][i];
    }
    hide CompletedSteps;
  }
}
