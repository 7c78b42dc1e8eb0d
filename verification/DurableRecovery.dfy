/**
  When a request that a crash or a failure left open may be sent again, and that what is
  sent is what the log says was requested.
 */
module DurableRecovery {
  import opened Common
  import opened DurableProtocol

  // ----- The decision, read off the entries of the log -----

  ghost predicate RequestedAs(log: Log, i: int, turn: nat, fp: Fingerprint) {
    0 <= i < |log| && log[i].Requested? && log[i].turn == turn && log[i].fingerprint == fp && log[i].retrySafe
  }

  /** The turn was requested as this very request, and no tool has run since. */
  ghost predicate WithoutEffect(log: Log, turn: nat, fp: Fingerprint) {
    exists i :: RequestedAs(log, i, turn, fp) && forall j :: i < j < |log| ==> !log[j].ToolEvent?
  }

  ghost predicate FailedForGood(log: Log, turn: nat) {
    exists i :: 0 <= i < |log| && ((log[i].Interrupted? && log[i].turn == turn)
                                   || (log[i].Failed? && log[i].turn == turn && !log[i].retryable))
  }

  /** The places of the turn's failures that allow another attempt. */
  function RetryableAt(log: Log, turn: nat): set<nat> {
    set i: nat | i < |log| && log[i].Failed? && log[i].turn == turn && log[i].retryable
  }

  ghost predicate RequestedOnce(log: Log, turn: nat) {
    forall i, j :: 0 <= i < j < |log| && log[i].Requested? && log[j].Requested? ==> log[i].turn != turn || log[j].turn != turn
  }

  lemma {:induction false} RetryableCounted(log: Log, turn: nat)
    ensures RetryableFailures(log, turn) == |RetryableAt(log, turn)|
    decreases |log|
  {
    if log == [] {
      assert RetryableAt(log, turn) == {};
    } else {
      var n := |log| - 1;
      RetryableCounted(log[..n], turn);
      var more := if log[n].Failed? && log[n].turn == turn && log[n].retryable then {n} else {};
      assert RetryableAt(log, turn) == RetryableAt(log[..n], turn) + more;
      assert RetryableAt(log[..n], turn) !! more;
    }
  }

  lemma RequestIsTheOne(log: Log, turn: nat, i: nat)
    requires RequestedOnce(log, turn) && i < |log| && log[i].Requested? && log[i].turn == turn
    ensures RequestIndex(log, turn) == i
  {
    assert HasRequest(log, turn);
    var k := RequestIndex(log, turn);
    assert log[k].Requested? && log[k].turn == turn;
  }

  lemma EffectDecided(log: Log, turn: nat, fp: Fingerprint)
    requires RequestedOnce(log, turn)
    ensures var i := RequestIndex(log, turn);
            WithoutEffect(log, turn, fp) <==>
            i < |log| && log[i].retrySafe && log[i].fingerprint == fp && !exists j :: i < j < |log| && log[j] == ToolEvent
  {
    if WithoutEffect(log, turn, fp) {
      var k :| RequestedAs(log, k, turn, fp) && forall j :: k < j < |log| ==> !log[j].ToolEvent?;
      RequestIsTheOne(log, turn, k);
    }
    var i := RequestIndex(log, turn);
    if i < |log| && log[i].retrySafe && log[i].fingerprint == fp && !exists j :: i < j < |log| && log[j] == ToolEvent {
      assert RequestedAs(log, i, turn, fp);
      forall j | i < j < |log|
        ensures !log[j].ToolEvent?
      {
        assert log[j] != ToolEvent;
      }
    }
  }

  /**
    What the recovery of an open request does, in every state whose turn was not requested
    twice.  It is sent again if and only if the turn is not completed, has not failed for
    good, the run still runs, the very same request is durable and marked safe, no tool event
    stands behind it, and its retryable failures are within the budget.
   */
  lemma RecoveryDecides(s: State)
    requires s.pc.Recovering? && RequestedOnce(s.log, s.turn)
    ensures var done := exists step :: Completed(s.turn, step) in s.log;
            var failed := FailedForGood(s.log, s.turn);
            var safe := WithoutEffect(s.log, s.turn, s.pc.fp) && |RetryableAt(s.log, s.turn)| <= 2;
            Next(s, Recover) ==
            Some(if done then s.(pc := Replaying)
                 else if failed then s.(pc := Interrupting)
                 else if s.status != Running then s.(pc := Idle, replies := s.replies + [RunCancelled])
                 else if safe then s.(pc := Ready(s.pc.attempt))
                 else s.(pc := Interrupting))
  {
    CompletedListed(s.log, s.turn);
    assert HasCompleted(s.log, s.turn) <==> exists step :: Completed(s.turn, step) in s.log;
    assert FailedForGood(s.log, s.turn) <==> Blocked(s.log, s.turn);
    EffectDecided(s.log, s.turn, s.pc.fp);
    RetryableCounted(s.log, s.turn);
    hide WithoutEffect, RetryableAt, RetryableFailures, FailedForGood, Blocked, HasCompleted, RequestIndex;
  }

  /** In a run the turn under recovery is never completed, so nothing is left to replay. */
  lemma OpenRequestIsResentExactly(s: State)
    requires Reachable(s) && s.pc.Recovering?
    ensures var s' := Next(s, Recover).value;
            var failed := FailedForGood(s.log, s.turn);
            var safe := WithoutEffect(s.log, s.turn, s.pc.fp) && |RetryableAt(s.log, s.turn)| <= 2;
            && (s' == s.(pc := Ready(s.pc.attempt)) <==> !failed && s.status == Running && safe)
            && (s' == s.(pc := Idle, replies := s.replies + [RunCancelled]) <==> !failed && s.status != Running)
            && (s' == s.(pc := Interrupting) <==> failed || (s.status == Running && !safe))
  {
    LogIsWellNumbered(s);
    ReachableInvariant(s);
    CompletedListed(s.log, s.turn);
    hide WithoutEffect, RetryableAt, FailedForGood, WellNumbered, Next;
    RecoveryDecides(s);
    assert !HasCompleted(s.log, s.turn);
  }

  // ----- What is sent is what was requested -----

  /** The request of the call that is under way after these actions. */
  function CallOf(actions: seq<Action>): Option<Fingerprint> {
    if actions == [] then None
    else
      var last := actions[|actions| - 1];
      if last.Begin? then Some(last.fp) else CallOf(actions[..|actions| - 1])
  }

  ghost predicate Carried(s: State, call: Option<Fingerprint>) {
    match s.pc
    case Idle => true
    case Interrupting => true
    case Replaying => true
    case Looking(fp) => call == Some(fp)
    case Numbering(fp) => call == Some(fp)
    case Probing(fp, _) => call == Some(fp)
    case Recovering(fp, _) => call == Some(fp)
    case Requesting(fp, _) => call == Some(fp)
    case Ready(_) => call.Some? && exists i :: RequestedAs(s.log, i, s.turn, call.value)
    case Answered(_, _) => call.Some? && exists i :: RequestedAs(s.log, i, s.turn, call.value)
  }

  lemma RequestedLater(log: Log, e: Entry, turn: nat, fp: Fingerprint)
    requires exists i :: RequestedAs(log, i, turn, fp)
    ensures exists i :: RequestedAs(log + [e], i, turn, fp)
  {
    var i :| RequestedAs(log, i, turn, fp);
    assert RequestedAs(log + [e], i, turn, fp);
  }

  lemma CarriedRecover(s: State, call: Option<Fingerprint>)
    requires Invariant(s) && s.pc.Recovering? && Carried(s, call)
    ensures Carried(Next(s, Recover).value, call)
  {
    RequestsOrdered(s.log);
    hide WellNumbered, Next;
    RecoveryDecides(s);
    if WithoutEffect(s.log, s.turn, s.pc.fp) {
      var i :| RequestedAs(s.log, i, s.turn, s.pc.fp);
    }
  }

  lemma CarriedCommit(s: State, call: Option<Fingerprint>, ok: bool)
    requires Invariant(s) && s.pc.Requesting? && Carried(s, call)
    ensures Carried(Next(s, CommitRequest(ok)).value, call)
  {
    assert !HasRequest(s.log, s.turn) by {
      RequestListed(s.log, s.turn);
      CountToHas(RequestCount(s.log), s.turn);
    }
    hide WellNumbered, HasRequest;
    var e := Requested(s.turn, s.pc.attempt, s.pc.fp, true);
    assert RequestedAs(s.log + [e], |s.log|, s.turn, s.pc.fp);
  }

  lemma CarriedNext(s: State, a: Action, call: Option<Fingerprint>)
    requires Invariant(s) && Carried(s, call) && Next(s, a).Some?
    ensures Carried(Next(s, a).value, if a.Begin? then Some(a.fp) else call)
  {
    match a
    case Recover => CarriedRecover(s, call);
    case CommitRequest(ok) => CarriedCommit(s, call, ok);
    case Outside(e) =>
      if s.pc.Ready? || s.pc.Answered? {
        RequestedLater(s.log, e, s.turn, call.value);
      }
    case _ => hide Invariant, Decide, FindCompleted, HasRequest, MaxAttempt, HasFailure;
  }

  lemma {:induction false} CarriedRun(actions: seq<Action>)
    requires Run(Start, actions).Some?
    ensures Carried(Run(Start, actions).value, CallOf(actions))
    decreases |actions|
  {
    assert Carried(Start, None);
    hide Next, Invariant, Carried;
    if actions != [] {
      var init, last := actions[..|actions| - 1], actions[|actions| - 1];
      CarriedRun(init);
      RunKeeps(init);
      CarriedNext(Run(Start, init).value, last, CallOf(init));
    }
  }

  /**
    In every run, with any crashes and interference, the inner provider only gets a request
    that stands in the log for this turn, as the only one, with the fingerprint of the call.
   */
  lemma InnerCallSendsWhatWasRequested(actions: seq<Action>, answer: Answer)
    requires Run(Start, actions + [CallInner(answer)]).Some?
    ensures var s := Run(Start, actions).value;
            && CallOf(actions).Some? && RequestedOnce(s.log, s.turn)
            && exists i :: RequestedAs(s.log, i, s.turn, CallOf(actions).value)
  {
    var all := actions + [CallInner(answer)];
    assert all[..|all| - 1] == actions;
    CarriedRun(actions);
    RunKeeps(actions);
    RequestsOrdered(Run(Start, actions).value.log);
    hide Run, WellNumbered, CallOf;
  }
}
