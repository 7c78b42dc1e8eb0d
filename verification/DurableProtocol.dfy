/**
  The durable provider protocol of one run, as a state machine.

  Every service operation that the host calls is one atomic step on the durable log.
  Between any two steps other parts of the program may append their own events or
  change the run's status, and the process may crash: the log and the status survive,
  the host's turn counter and its position inside `call` do not.
 */
module DurableProtocol {
  import opened Common
  import ProviderRecord

  /** `Terminal` stands for every status, other than cancelled, that refuses provider events. */
  datatype Status = Running | Cancelled | Terminal

  type Fingerprint = string

  /** What is stored for a completed turn. */
  type Stored = ProviderRecord.StoredStep

  datatype Entry =
    | Requested(turn: nat, attempt: nat, fingerprint: Fingerprint, retrySafe: bool)
    | Failed(turn: nat, attempt: nat, retryable: bool)
    | Interrupted(turn: nat)
    | Completed(turn: nat, step: Stored)
    | ToolEvent
    | OtherEvent

  type Log = seq<Entry>

  const RETRY_BUDGET: nat := 2

  datatype Decision = Retry | Replay | Interrupt | RefusedTerminal

  /** Outcome of the inner provider, after canonicalization and validation of its answer. */
  datatype Answer = Success(step: Stored) | Failure(retryable: bool)

  datatype Reply =
    | Replayed(step: Stored)
    | Inserted(step: Stored)
    | Existing(step: Stored)
    | ProviderFailed
    | RunCancelled
    | RunTerminal
    | PersistFailed
    | InterruptedProvider
    | Corrupt

  /** Where the host is inside one `call`. */
  datatype Pc =
    | Idle
    | Looking(fp: Fingerprint)
    | Numbering(fp: Fingerprint)
    | Probing(fp: Fingerprint, attempt: nat)
    | Recovering(fp: Fingerprint, attempt: nat)
    | Interrupting
    | Replaying
    | Requesting(fp: Fingerprint, attempt: nat)
    | Ready(attempt: nat)
    | Answered(attempt: nat, answer: Answer)

  datatype State = State(log: Log, status: Status, turn: nat, pc: Pc, replies: seq<Reply>)

  const Start := State([], Running, 1, Idle, [])

  // ----- Reading the log -----

  function FindCompleted(log: Log, turn: nat): (r: Option<Stored>)
    ensures r.Some? ==> Completed(turn, r.value) in log
    ensures r.None? ==> forall s :: Completed(turn, s) !in log
  {
    if log == [] then None
    else if log[0].Completed? && log[0].turn == turn then Some(log[0].step)
    else FindCompleted(log[1..], turn)
  }

  predicate HasRequest(log: Log, turn: nat) {
    exists i :: 0 <= i < |log| && log[i].Requested? && log[i].turn == turn
  }

  predicate HasCompleted(log: Log, turn: nat) {
    exists i :: 0 <= i < |log| && log[i].Completed? && log[i].turn == turn
  }

  /** A failure after which the turn must not be sent again. */
  predicate Blocks(e: Entry, turn: nat) {
    (e.Interrupted? && e.turn == turn) || (e.Failed? && e.turn == turn && !e.retryable)
  }

  predicate Blocked(log: Log, turn: nat) {
    exists i :: 0 <= i < |log| && Blocks(log[i], turn)
  }

  function MaxAttempt(log: Log, turn: nat): nat {
    if log == [] then 0
    else
      var e := log[|log| - 1];
      var before := MaxAttempt(log[..|log| - 1], turn);
      if e.Failed? && e.turn == turn then Max(before, e.attempt) else before
  }

  function RetryableFailures(log: Log, turn: nat): nat {
    if log == [] then 0
    else
      var e := log[|log| - 1];
      RetryableFailures(log[..|log| - 1], turn) + (if e.Failed? && e.turn == turn && e.retryable then 1 else 0)
  }

  /** Index of the turn's request; the log's length when there is none. */
  function RequestIndex(log: Log, turn: nat): (i: nat)
    ensures i <= |log|
    ensures i < |log| ==> log[i].Requested? && log[i].turn == turn
    ensures i == |log| <==> !HasRequest(log, turn)
  {
    if log == [] then 0
    else if log[0].Requested? && log[0].turn == turn then 0
    else
      var rest := RequestIndex(log[1..], turn);
      assert forall i :: 0 < i < |log| ==> log[i] == log[1..][i - 1];
      1 + rest
  }

  predicate MayRetry(hasResponse: bool, idempotent: bool, hasEffect: bool) {
    !hasResponse && idempotent && !hasEffect
  }

  function Decide(log: Log, status: Status, turn: nat, fp: Fingerprint): Decision {
    if HasCompleted(log, turn) then Replay
    else if Blocked(log, turn) then Interrupt
    else if status != Running then RefusedTerminal
    else
      var i := RequestIndex(log, turn);
      if i == |log| then Interrupt
      else if !log[i].retrySafe || log[i].fingerprint != fp then Interrupt
      else
        var hasEffect := exists j :: i < j < |log| && log[j] == ToolEvent;
        if MayRetry(false, true, hasEffect) && RetryableFailures(log, turn) <= RETRY_BUDGET then Retry
        else Interrupt
  }

  // ----- Writing the log -----

  /** An append is refused by the run's status, or the storage may fail. */
  function Append(s: State, e: Entry, storageOk: bool): Result<State, Reply> {
    match s.status
    case Cancelled => Err(RunCancelled)
    case Terminal => Err(RunTerminal)
    case Running => if storageOk then Ok(s.(log := s.log + [e])) else Err(PersistFailed)
  }

  function Return(s: State, r: Reply): State { s.(pc := Idle, replies := s.replies + [r]) }

  /** An append whose event id is already in the log succeeds and changes nothing. */
  function AppendOnce(s: State, e: Entry, present: bool, storageOk: bool): Result<State, Reply> {
    if present then Ok(s) else Append(s, e, storageOk)
  }

  datatype Action =
    | Begin(fp: Fingerprint)
    | Look
    | Number
    | Probe
    | Recover
    | MarkInterrupted(storageOk: bool)
    | ReplayAgain
    | CommitRequest(storageOk: bool)
    | CallInner(answer: Answer)
    | RecordFailure(storageOk: bool)
    | CommitStep(storageOk: bool)
    | Crash
    | SetStatus(status: Status)
    | Outside(entry: Entry)

  function Next(s: State, a: Action): Option<State> {
    match (a, s.pc)
    case (Begin(fp), Idle) => Some(s.(pc := Looking(fp)))
    case (Look, Looking(fp)) =>
      (match FindCompleted(s.log, s.turn)
       case Some(step) => Some(Return(s.(turn := s.turn + 1), Replayed(step)))
       case None => Some(s.(pc := Numbering(fp))))
    case (Number, Numbering(fp)) => Some(s.(pc := Probing(fp, MaxAttempt(s.log, s.turn) + 1)))
    case (Probe, Probing(fp, attempt)) =>
      Some(s.(pc := if HasRequest(s.log, s.turn) then Recovering(fp, attempt) else Requesting(fp, attempt)))
    case (Recover, Recovering(fp, attempt)) =>
      (match Decide(s.log, s.status, s.turn, fp)
       case Replay => Some(s.(pc := Replaying))
       case Retry => Some(s.(pc := Ready(attempt)))
       case Interrupt => Some(s.(pc := Interrupting))
       case RefusedTerminal => Some(Return(s, RunCancelled)))
    case (ReplayAgain, Replaying) =>
      (match FindCompleted(s.log, s.turn)
       case Some(step) => Some(Return(s.(turn := s.turn + 1), Replayed(step)))
       case None => Some(Return(s, Corrupt)))
    case (MarkInterrupted(ok), Interrupting) =>
      (match AppendOnce(s, Interrupted(s.turn), Interrupted(s.turn) in s.log, ok)
       case Ok(s') => Some(Return(s', InterruptedProvider))
       case Err(r) => Some(Return(s, r)))
    case (CommitRequest(ok), Requesting(fp, attempt)) =>
      (match AppendOnce(s, Requested(s.turn, attempt, fp, true), HasRequest(s.log, s.turn), ok)
       case Ok(s') => Some(s'.(pc := Ready(attempt)))
       case Err(r) => Some(Return(s, r)))
    case (CallInner(answer), Ready(attempt)) => Some(s.(pc := Answered(attempt, answer)))
    case (RecordFailure(ok), Answered(attempt, Failure(retryable))) =>
      (match AppendOnce(s, Failed(s.turn, attempt, retryable), HasFailure(s.log, s.turn, attempt), ok)
       case Ok(s') => Some(Return(s', ProviderFailed))
       case Err(r) => Some(Return(s, r)))
    case (CommitStep(ok), Answered(attempt, Success(step))) =>
      (match FindCompleted(s.log, s.turn)
       case Some(stored) => Some(Return(s.(turn := s.turn + 1), Existing(stored)))
       case None =>
         match Append(s, Completed(s.turn, step), ok)
         case Ok(s') => Some(Return(s'.(turn := s.turn + 1), Inserted(step)))
         case Err(r) => Some(Return(s, r)))
    case (Crash, _) => Some(State(s.log, s.status, 1, Idle, []))
    case (SetStatus(status), _) => Some(s.(status := status))
    case (Outside(entry), _) =>
      if entry.ToolEvent? || entry.OtherEvent? then Some(s.(log := s.log + [entry])) else None
    case _ => None
  }

  predicate HasFailure(log: Log, turn: nat, attempt: nat) {
    exists i :: 0 <= i < |log| && log[i].Failed? && log[i].turn == turn && log[i].attempt == attempt
  }

  /** Runs of the machine: each action applied to the state the previous one left. */
  function Run(s: State, actions: seq<Action>): Option<State> {
    if actions == [] then Some(s)
    else
      var before :- Run(s, actions[..|actions| - 1]);
      Next(before, actions[|actions| - 1])
  }

  // ----- Invariant -----

  function CountTo(n: nat): (c: seq<nat>)
    ensures |c| == n && forall i :: 0 <= i < n ==> c[i] == i + 1
  {
    seq(n, i => i + 1)
  }

  function RequestedTurns(log: Log): seq<nat> {
    if log == [] then []
    else RequestedTurns(log[..|log| - 1]) + (if log[|log| - 1].Requested? then [log[|log| - 1].turn] else [])
  }

  function CompletedTurns(log: Log): seq<nat> {
    if log == [] then []
    else CompletedTurns(log[..|log| - 1]) + (if log[|log| - 1].Completed? then [log[|log| - 1].turn] else [])
  }

  function CompletedSteps(log: Log): (c: seq<Stored>)
    ensures |c| == |CompletedTurns(log)|
  {
    if log == [] then []
    else CompletedSteps(log[..|log| - 1]) + (if log[|log| - 1].Completed? then [log[|log| - 1].step] else [])
  }

  function FailureAttempts(log: Log, turn: nat): seq<nat> {
    if log == [] then []
    else
      var e := log[|log| - 1];
      FailureAttempts(log[..|log| - 1], turn) + (if e.Failed? && e.turn == turn then [e.attempt] else [])
  }

  function CompletedCount(log: Log): nat { |CompletedTurns(log)| }

  function RequestCount(log: Log): nat { |RequestedTurns(log)| }

  function FailureCount(log: Log, turn: nat): nat { |FailureAttempts(log, turn)| }

  /**
    The shape of the durable log: requests and completions are numbered 1, 2, 3, ... in
    order, at most one request is open, and the failures of each turn are numbered
    1, 2, 3, ... and bounded by the retry budget.
   */
  ghost predicate WellNumbered(log: Log) {
    && CompletedTurns(log) == CountTo(CompletedCount(log))
    && RequestedTurns(log) == CountTo(RequestCount(log))
    && CompletedCount(log) <= RequestCount(log) <= CompletedCount(log) + 1
    && (forall t: nat :: FailureAttempts(log, t) == CountTo(FailureCount(log, t)))
    && (forall t: nat :: FailureCount(log, t) <= RETRY_BUDGET + 1)
    && (forall i :: 0 <= i < |log| && (log[i].Failed? || log[i].Interrupted?) ==> log[i].turn <= RequestCount(log))
  }

  /** Inside a call the host works on the one turn that is not completed. */
  ghost predicate Placed(s: State) {
    var done, asked := CompletedCount(s.log), RequestCount(s.log);
    && 1 <= s.turn <= done + 1
    && (match s.pc
        case Idle => true
        case Looking(_) => true
        case Numbering(_) => s.turn == done + 1
        case Probing(_, attempt) => s.turn == done + 1 && attempt == FailureCount(s.log, s.turn) + 1
        case Recovering(_, attempt) => s.turn == asked == done + 1 && attempt == FailureCount(s.log, s.turn) + 1
        case Interrupting => s.turn == asked == done + 1
        case Replaying => false
        case Requesting(_, attempt) => s.turn == done + 1 == asked + 1 && attempt == FailureCount(s.log, s.turn) + 1
        case Ready(attempt) => Sendable(s, attempt)
        case Answered(attempt, _) => Sendable(s, attempt))
  }

  /** The open turn, requested and neither completed nor blocked, within its retry budget. */
  ghost predicate Sendable(s: State, attempt: nat) {
    && s.turn == RequestCount(s.log) == CompletedCount(s.log) + 1
    && attempt == FailureCount(s.log, s.turn) + 1
    && FailureCount(s.log, s.turn) <= RETRY_BUDGET
    && !Blocked(s.log, s.turn)
  }

  ghost predicate Invariant(s: State) { WellNumbered(s.log) && Placed(s) }

  // ----- Reading functions and turn lists agree -----

  lemma {:induction false} CompletedListed(log: Log, turn: nat)
    ensures HasCompleted(log, turn) <==> turn in CompletedTurns(log)
    ensures FindCompleted(log, turn).Some? <==> HasCompleted(log, turn)
    decreases |log|
  {
    if log != [] {
      var init := log[..|log| - 1];
      CompletedListed(init, turn);
      assert forall i :: 0 <= i < |init| ==> log[i] == init[i];
    }
    if HasCompleted(log, turn) {
      var i :| 0 <= i < |log| && log[i].Completed? && log[i].turn == turn;
      assert log[i] == Completed(turn, log[i].step);
    }
  }

  lemma {:induction false} RequestListed(log: Log, turn: nat)
    ensures HasRequest(log, turn) <==> turn in RequestedTurns(log)
    decreases |log|
  {
    if log != [] {
      var init := log[..|log| - 1];
      RequestListed(init, turn);
      assert forall i :: 0 <= i < |init| ==> log[i] == init[i];
    }
  }

  /** When failures are numbered from 1, the next attempt is one more than their number. */
  lemma {:induction false} MaxAttemptIsCount(log: Log, turn: nat)
    requires FailureAttempts(log, turn) == CountTo(FailureCount(log, turn))
    ensures MaxAttempt(log, turn) == FailureCount(log, turn)
    decreases |log|
  {
    if log != [] {
      var init, e := log[..|log| - 1], log[|log| - 1];
      var n := FailureCount(init, turn);
      assert FailureAttempts(init, turn) == FailureAttempts(log, turn)[..n] == CountTo(n);
      MaxAttemptIsCount(init, turn);
      if e.Failed? && e.turn == turn {
        assert e.attempt == FailureAttempts(log, turn)[n] == n + 1;
      }
    }
  }

  lemma {:induction false} UnblockedFailuresRetryable(log: Log, turn: nat)
    requires !Blocked(log, turn)
    ensures RetryableFailures(log, turn) == FailureCount(log, turn)
    decreases |log|
  {
    if log != [] {
      var init, e := log[..|log| - 1], log[|log| - 1];
      assert forall i :: 0 <= i < |init| ==> log[i] == init[i];
      assert !Blocks(e, turn);
      UnblockedFailuresRetryable(init, turn);
    }
  }

  lemma {:induction false} NoFailureBeyond(log: Log, turn: nat)
    requires forall i :: 0 <= i < |log| && (log[i].Failed? || log[i].Interrupted?) ==> log[i].turn < turn
    ensures FailureCount(log, turn) == 0 && !Blocked(log, turn)
    decreases |log|
  {
    if log != [] {
      var init := log[..|log| - 1];
      assert forall i :: 0 <= i < |init| ==> log[i] == init[i];
      NoFailureBeyond(init, turn);
    }
  }

  lemma HasFailureListed(log: Log, turn: nat, attempt: nat)
    ensures HasFailure(log, turn, attempt) <==> attempt in FailureAttempts(log, turn)
    decreases |log|
  {
    if log != [] {
      var init := log[..|log| - 1];
      HasFailureListed(init, turn, attempt);
      assert forall i :: 0 <= i < |init| ==> log[i] == init[i];
    }
  }

  /** What one more entry changes. */
  lemma Appended(log: Log, e: Entry)
    ensures RequestedTurns(log + [e]) == RequestedTurns(log) + (if e.Requested? then [e.turn] else [])
    ensures CompletedTurns(log + [e]) == CompletedTurns(log) + (if e.Completed? then [e.turn] else [])
    ensures CompletedSteps(log + [e]) == CompletedSteps(log) + (if e.Completed? then [e.step] else [])
    ensures forall t: nat :: FailureAttempts(log + [e], t) ==
                             FailureAttempts(log, t) + (if e.Failed? && e.turn == t then [e.attempt] else [])
    ensures forall t: nat :: Blocked(log + [e], t) <==> Blocked(log, t) || Blocks(e, t)
  {
    var more := log + [e];
    assert more[..|log|] == log && more[|log|] == e;
    forall t: nat
      ensures Blocked(more, t) <==> Blocked(log, t) || Blocks(e, t)
    {
      if Blocked(log, t) {
        var i :| 0 <= i < |log| && Blocks(log[i], t);
        assert Blocks(more[i], t);
      }
      if Blocks(e, t) {
        assert Blocks(more[|log|], t);
      }
    }
  }

  // ----- Every step keeps the invariant -----

  lemma OutsideKeeps(s: State, e: Entry)
    requires Invariant(s) && (e.ToolEvent? || e.OtherEvent?)
    ensures Invariant(s.(log := s.log + [e]))
  {
    EntryKeeps(s.log, e);
    assert Blocked(s.log + [e], s.turn) == Blocked(s.log, s.turn) by {
      Appended(s.log, e);
    }
    hide WellNumbered, RequestCount, CompletedCount, FailureCount, Blocked;
  }

  lemma LookKeeps(s: State, a: Action)
    requires Invariant(s) && Next(s, a).Some? && (a.Look? || a.Number? || a.Probe?)
    ensures Invariant(Next(s, a).value)
  {
    CompletedListed(s.log, s.turn);
    RequestListed(s.log, s.turn);
    MaxAttemptIsCount(s.log, s.turn);
    assert s.turn in CountTo(CompletedCount(s.log)) <==> s.turn <= CompletedCount(s.log) by {
      if s.turn <= CompletedCount(s.log) {
        assert CountTo(CompletedCount(s.log))[s.turn - 1] == s.turn;
      }
    }
    assert s.turn in CountTo(RequestCount(s.log)) <==> s.turn <= RequestCount(s.log) by {
      if s.turn <= RequestCount(s.log) {
        assert CountTo(RequestCount(s.log))[s.turn - 1] == s.turn;
      }
    }
  }

  lemma RecoverKeeps(s: State)
    requires Invariant(s) && s.pc.Recovering?
    ensures Invariant(Next(s, Recover).value)
  {
    CompletedListed(s.log, s.turn);
    if !Blocked(s.log, s.turn) {
      UnblockedFailuresRetryable(s.log, s.turn);
    }
  }

  /** One more entry keeps the log well numbered when the entry is the next of its kind. */
  lemma EntryKeeps(log: Log, e: Entry)
    requires WellNumbered(log)
    requires e.Requested? ==> e.turn == RequestCount(log) + 1 == CompletedCount(log) + 1
    requires e.Completed? ==> e.turn == CompletedCount(log) + 1 == RequestCount(log)
    requires e.Interrupted? ==> e.turn <= RequestCount(log)
    requires e.Failed? ==> e.turn <= RequestCount(log) && e.attempt == FailureCount(log, e.turn) + 1 <= RETRY_BUDGET + 1
    ensures WellNumbered(log + [e])
    ensures RequestCount(log + [e]) == RequestCount(log) + (if e.Requested? then 1 else 0)
    ensures CompletedCount(log + [e]) == CompletedCount(log) + (if e.Completed? then 1 else 0)
    ensures !e.Failed? ==> forall t: nat :: FailureCount(log + [e], t) == FailureCount(log, t)
  {
    Appended(log, e);
    hide RequestedTurns, CompletedTurns, FailureAttempts, Blocked;
    CountToNext(RequestCount(log));
    CountToNext(CompletedCount(log));
    forall t: nat
      ensures FailureAttempts(log + [e], t) == CountTo(FailureCount(log + [e], t))
      ensures FailureCount(log + [e], t) <= RETRY_BUDGET + 1
    {
      CountToNext(FailureCount(log, t));
    }
    hide CountTo, FailureCount;
  }

  lemma CountToNext(n: nat)
    ensures CountTo(n) + [n + 1] == CountTo(n + 1)
  {
  }

  lemma MarkInterruptedKeeps(s: State, ok: bool)
    requires Invariant(s) && s.pc.Interrupting?
    ensures Invariant(Next(s, MarkInterrupted(ok)).value)
  {
    EntryKeeps(s.log, Interrupted(s.turn));
    hide WellNumbered, RequestCount, CompletedCount, FailureCount, Blocked;
  }

  lemma CommitRequestKeeps(s: State, ok: bool)
    requires Invariant(s) && s.pc.Requesting?
    ensures Invariant(Next(s, CommitRequest(ok)).value)
  {
    var e := Requested(s.turn, s.pc.attempt, s.pc.fp, true);
    assert !HasRequest(s.log, s.turn) by {
      RequestListed(s.log, s.turn);
    }
    assert FailureCount(s.log, s.turn) == 0 && !Blocked(s.log + [e], s.turn) by {
      NoFailureBeyond(s.log, s.turn);
      Appended(s.log, e);
    }
    EntryKeeps(s.log, e);
    hide WellNumbered, RequestCount, CompletedCount, FailureCount, Blocked, HasRequest;
  }

  lemma RecordFailureKeeps(s: State, ok: bool)
    requires Invariant(s) && s.pc.Answered? && s.pc.answer.Failure?
    ensures Invariant(Next(s, RecordFailure(ok)).value)
  {
    hide WellNumbered, RequestCount, CompletedCount, FailureCount, Blocked, HasFailure;
    EntryKeeps(s.log, Failed(s.turn, s.pc.attempt, s.pc.answer.retryable));
  }

  lemma CommitStepKeeps(s: State, ok: bool)
    requires Invariant(s) && s.pc.Answered? && s.pc.answer.Success?
    ensures Invariant(Next(s, CommitStep(ok)).value)
  {
    assert FindCompleted(s.log, s.turn).None? by {
      CompletedListed(s.log, s.turn);
      CountToHas(CompletedCount(s.log), s.turn);
    }
    hide WellNumbered, RequestCount, CompletedCount, FailureCount, Blocked, FindCompleted;
    EntryKeeps(s.log, Completed(s.turn, s.pc.answer.step));
  }

  lemma NextKeeps(s: State, a: Action)
    requires Invariant(s) && Next(s, a).Some?
    ensures Invariant(Next(s, a).value)
  {
    match a
    case Look => LookKeeps(s, a);
    case Number => LookKeeps(s, a);
    case Probe => LookKeeps(s, a);
    case Recover => RecoverKeeps(s);
    case MarkInterrupted(ok) => MarkInterruptedKeeps(s, ok);
    case CommitRequest(ok) => CommitRequestKeeps(s, ok);
    case RecordFailure(ok) => RecordFailureKeeps(s, ok);
    case CommitStep(ok) => CommitStepKeeps(s, ok);
    case Outside(e) => OutsideKeeps(s, e);
    case _ =>
  }

  lemma {:induction false} RunKeeps(actions: seq<Action>)
    requires Run(Start, actions).Some?
    ensures Invariant(Run(Start, actions).value)
    decreases |actions|
  {
    hide Next;
    if actions != [] {
      RunKeeps(actions[..|actions| - 1]);
      NextKeeps(Run(Start, actions[..|actions| - 1]).value, actions[|actions| - 1]);
    }
  }

  // ----- What holds in every run -----

  ghost predicate Reachable(s: State) { exists actions :: Run(Start, actions) == Some(s) }

  lemma ReachableInvariant(s: State)
    requires Reachable(s)
    ensures Invariant(s)
  {
    var actions :| Run(Start, actions) == Some(s);
    RunKeeps(actions);
  }

  lemma CountToHas(n: nat, t: nat)
    ensures t in CountTo(n) <==> 1 <= t <= n
  {
    if 1 <= t <= n {
      assert CountTo(n)[t - 1] == t;
    }
  }

  /**
    Whenever the inner provider is about to be called, the request of that turn is
    durable, no completion of it is, and no failure forbids sending it again.
   */
  lemma InnerCallIsGuarded(s: State, answer: Answer)
    requires Reachable(s) && Next(s, CallInner(answer)).Some?
    ensures HasRequest(s.log, s.turn) && !HasCompleted(s.log, s.turn) && !Blocked(s.log, s.turn)
  {
    ReachableInvariant(s);
    RequestListed(s.log, s.turn);
    CompletedListed(s.log, s.turn);
    CountToHas(RequestCount(s.log), s.turn);
    CountToHas(CompletedCount(s.log), s.turn);
  }

  lemma {:induction false} RequestsOrdered(log: Log)
    requires RequestedTurns(log) == CountTo(RequestCount(log))
    ensures forall i, j :: 0 <= i < j < |log| && log[i].Requested? && log[j].Requested? ==> log[i].turn < log[j].turn
    decreases |log|
  {
    if log != [] {
      var init, e := log[..|log| - 1], log[|log| - 1];
      assert RequestedTurns(init) == RequestedTurns(log)[..RequestCount(init)] == CountTo(RequestCount(init));
      RequestsOrdered(init);
      forall i | 0 <= i < |init| && log[i].Requested? && e.Requested?
        ensures log[i].turn < e.turn
      {
        assert init[i] == log[i];
        assert HasRequest(init, log[i].turn);
        RequestListed(init, log[i].turn);
        assert e.turn == RequestedTurns(log)[RequestCount(init)];
      }
    }
  }

  lemma {:induction false} CompletionsOrdered(log: Log)
    requires CompletedTurns(log) == CountTo(CompletedCount(log))
    ensures forall i, j :: 0 <= i < j < |log| && log[i].Completed? && log[j].Completed? ==> log[i].turn < log[j].turn
    decreases |log|
  {
    if log != [] {
      var init, e := log[..|log| - 1], log[|log| - 1];
      assert CompletedTurns(init) == CompletedTurns(log)[..CompletedCount(init)] == CountTo(CompletedCount(init));
      CompletionsOrdered(init);
      forall i | 0 <= i < |init| && log[i].Completed? && e.Completed?
        ensures log[i].turn < e.turn
      {
        assert init[i] == log[i];
        assert HasCompleted(init, log[i].turn);
        CompletedListed(init, log[i].turn);
        assert e.turn == CompletedTurns(log)[CompletedCount(init)];
      }
    }
  }

  /**
    In every run each turn has at most one request and one completion, the completed
    turns are 1..k, and the recorded failures of a turn are attempts 1, 2, 3, ...,
    never more than the retry budget and one.
   */
  lemma LogIsWellNumbered(s: State)
    requires Reachable(s)
    ensures forall i, j :: 0 <= i < j < |s.log| && s.log[i].Requested? && s.log[j].Requested?
                           ==> s.log[i].turn != s.log[j].turn
    ensures forall i, j :: 0 <= i < j < |s.log| && s.log[i].Completed? && s.log[j].Completed?
                           ==> s.log[i].turn != s.log[j].turn
    ensures forall t: nat :: HasCompleted(s.log, t) <==> 1 <= t <= CompletedCount(s.log)
    ensures forall t: nat :: FailureAttempts(s.log, t) == CountTo(FailureCount(s.log, t))
                             && FailureCount(s.log, t) <= 3
  {
    ReachableInvariant(s);
    RequestsOrdered(s.log);
    CompletionsOrdered(s.log);
    forall t: nat
      ensures HasCompleted(s.log, t) <==> 1 <= t <= CompletedCount(s.log)
    {
      CompletedListed(s.log, t);
      CountToHas(CompletedCount(s.log), t);
    }
  }

  /**
    A failure that is to be recorded is never taken for one that is there already: while the
    run is running and the storage works, exactly this failure is appended.
   */
  lemma FailureIsRecorded(s: State)
    requires Reachable(s) && s.pc.Answered? && s.pc.answer.Failure? && s.status == Running
    ensures var s' := Next(s, RecordFailure(true)).value;
            && s'.log == s.log + [Failed(s.turn, s.pc.attempt, s.pc.answer.retryable)]
            && s'.replies == s.replies + [ProviderFailed]
  {
    ReachableInvariant(s);
    HasFailureListed(s.log, s.turn, s.pc.attempt);
    CountToHas(FailureCount(s.log, s.turn), s.pc.attempt);
    assert FailureAttempts(s.log, s.turn) == CountTo(FailureCount(s.log, s.turn));
    hide WellNumbered, Placed, FailureAttempts, CountTo;
  }

  /** The same for a success: the step is appended as the next completed turn. */
  lemma StepIsInserted(s: State)
    requires Reachable(s) && s.pc.Answered? && s.pc.answer.Success? && s.status == Running
    ensures var s' := Next(s, CommitStep(true)).value;
            && s'.log == s.log + [Completed(s.turn, s.pc.answer.step)] && s'.turn == s.turn + 1
            && s'.replies == s.replies + [Inserted(s.pc.answer.step)]
  {
    ReachableInvariant(s);
    NotCompletedInside(s);
    hide WellNumbered, Placed, FindCompleted;
  }

  lemma NotCompletedInside(s: State)
    requires Invariant(s) && (s.pc.Ready? || s.pc.Answered?)
    ensures FindCompleted(s.log, s.turn).None?
  {
    CompletedListed(s.log, s.turn);
    CountToHas(CompletedCount(s.log), s.turn);
  }

  predicate Defensive(r: Reply) { r.Existing? || r.Corrupt? }

  lemma {:induction false} DefensiveStep(s: State, a: Action)
    requires Invariant(s) && Next(s, a).Some? && (forall i :: 0 <= i < |s.replies| ==> !Defensive(s.replies[i]))
    ensures var s' := Next(s, a).value; forall i :: 0 <= i < |s'.replies| ==> !Defensive(s'.replies[i])
  {
    if s.pc.Ready? || s.pc.Answered? {
      NotCompletedInside(s);
    }
    hide WellNumbered, FindCompleted, Decide, HasRequest, MaxAttempt, HasFailure;
  }

  lemma {:induction false} DefensiveRun(actions: seq<Action>)
    requires Run(Start, actions).Some?
    ensures var s := Run(Start, actions).value; forall i :: 0 <= i < |s.replies| ==> !Defensive(s.replies[i])
    decreases |actions|
  {
    if actions != [] {
      var init := actions[..|actions| - 1];
      DefensiveRun(init);
      RunKeeps(init);
      hide Next, Invariant, Defensive;
      DefensiveStep(Run(Start, init).value, actions[|actions| - 1]);
    }
  }

  /**
    With one host per run two of the answers are only defensive: no run ever finds its own
    step committed already, or a decision to replay with nothing to replay.
   */
  lemma DefensiveRepliesNeverHappen(s: State)
    requires Reachable(s)
    ensures forall i :: 0 <= i < |s.replies| ==> !s.replies[i].Existing? && !s.replies[i].Corrupt?
  {
    var actions :| Run(Start, actions) == Some(s);
    DefensiveRun(actions);
    assert forall i :: 0 <= i < |s.replies| ==> !Defensive(s.replies[i]);
  }

  /** The log only grows, and a completed turn keeps its stored step. */
  lemma NextExtends(s: State, a: Action)
    requires Next(s, a).Some?
    ensures s.log <= Next(s, a).value.log
    ensures CompletedSteps(s.log) <= CompletedSteps(Next(s, a).value.log)
  {
    var more := Next(s, a).value.log;
    if more != s.log {
      assert more == s.log + [more[|s.log|]];
      Appended(s.log, more[|s.log|]);
    }
  }

  /** The turn that is open cannot be sent again. */
  ghost predicate Stuck(s: State) { Blocked(s.log, CompletedCount(s.log) + 1) }

  lemma StuckStep(s: State, a: Action)
    requires Invariant(s) && Stuck(s) && Next(s, a).Some?
    ensures Stuck(Next(s, a).value) && CompletedCount(Next(s, a).value.log) == CompletedCount(s.log)
  {
    var s' := Next(s, a).value;
    if s'.log != s.log {
      var e := s'.log[|s.log|];
      assert s'.log == s.log + [e];
      assert !e.Completed?;
      Appended(s.log, e);
    }
  }

  /**
    Once the open turn is blocked, no continuation of the run calls the inner provider
    again or completes another turn.
   */
  lemma {:induction false} StuckForever(s: State, actions: seq<Action>)
    requires Invariant(s) && Stuck(s) && Run(s, actions).Some?
    ensures var s' := Run(s, actions).value;
            && Invariant(s') && Stuck(s')
            && CompletedCount(s'.log) == CompletedCount(s.log)
            && forall answer :: Next(s', CallInner(answer)).None?
    decreases |actions|
  {
    if actions != [] {
      hide Next, Invariant;
      var before, last := actions[..|actions| - 1], actions[|actions| - 1];
      StuckForever(s, before);
      var mid := Run(s, before).value;
      NextKeeps(mid, last);
      StuckStep(mid, last);
    }
    StuckSendsNothing(Run(s, actions).value);
  }

  lemma StuckSendsNothing(s: State)
    requires Invariant(s) && Stuck(s)
    ensures forall answer :: Next(s, CallInner(answer)).None?
  {
  }

  // ----- Replay by a fresh host -----

  lemma {:induction false} StepOfTurn(log: Log, turn: nat, step: Stored)
    requires CompletedTurns(log) == CountTo(CompletedCount(log)) && Completed(turn, step) in log
    ensures 1 <= turn <= CompletedCount(log) && CompletedSteps(log)[turn - 1] == step
    decreases |log|
  {
    var init, e := log[..|log| - 1], log[|log| - 1];
    assert CompletedTurns(init) == CompletedTurns(log)[..CompletedCount(init)] == CountTo(CompletedCount(init));
    if Completed(turn, step) in init {
      StepOfTurn(init, turn, step);
    } else {
      assert e == Completed(turn, step);
      assert CompletedTurns(log)[CompletedCount(init)] == turn;
    }
  }

  lemma FindCompletedIsStep(log: Log, turn: nat)
    requires WellNumbered(log) && 1 <= turn <= CompletedCount(log)
    ensures FindCompleted(log, turn) == Some(CompletedSteps(log)[turn - 1])
  {
    CompletedListed(log, turn);
    CountToHas(CompletedCount(log), turn);
    StepOfTurn(log, turn, FindCompleted(log, turn).value);
  }

  function Replays(steps: seq<Stored>): (r: seq<Reply>)
    ensures |r| == |steps|
  {
    seq(|steps|, i requires 0 <= i < |steps| => Replayed(steps[i]))
  }

  /** The host answers the first calls from `steps`, and has sent nothing while it does. */
  ghost predicate ReplaysFirst(s: State, steps: seq<Stored>) {
    && steps <= CompletedSteps(s.log)
    && (|s.replies| < |steps| ==> s.turn == |s.replies| + 1 && (s.pc.Idle? || s.pc.Looking?))
    && (|s.replies| <= |steps| ==> s.replies == Replays(steps)[..|s.replies|])
    && (|s.replies| == |steps| ==> s.turn == |steps| + 1)
    && (|s.replies| >= |steps| ==> Replays(steps) <= s.replies)
  }

  lemma ReplayStep(s: State, a: Action, steps: seq<Stored>)
    requires Invariant(s) && ReplaysFirst(s, steps) && Next(s, a).Some? && a != Crash
    ensures ReplaysFirst(Next(s, a).value, steps)
  {
    var s' := Next(s, a).value;
    NextExtends(s, a);
    NextReplies(s, a);
    if |s.replies| < |steps| {
      if a == Look {
        FindCompletedIsStep(s.log, s.turn);
        assert s'.replies == s.replies + [Replays(steps)[|s.replies|]];
      }
      hide FindCompleted, CompletedSteps, Invariant, Decide, HasRequest, MaxAttempt;
    }
    hide Next, FindCompleted, CompletedSteps, Invariant;
  }

  /** Only the end of a call adds a reply, and only a call answered from the log moves the turn. */
  lemma NextReplies(s: State, a: Action)
    requires Next(s, a).Some? && a != Crash
    ensures var s' := Next(s, a).value; s.replies <= s'.replies && |s'.replies| <= |s.replies| + 1
    ensures var s' := Next(s, a).value; s'.replies == s.replies ==> s'.turn == s.turn
    ensures s.pc.Idle? ==> var s' := Next(s, a).value;
                           s'.replies == s.replies && (s'.pc.Idle? || s'.pc.Looking?)
    ensures s.pc.Looking? && a != Look ==> var s' := Next(s, a).value; s'.replies == s.replies && s'.pc == s.pc
  {
    hide FindCompleted, Decide, HasRequest, MaxAttempt, HasFailure;
  }

  /**
    A fresh host, under any interleaving without a further crash, first answers exactly
    the completed steps in order, one per call, with no inner call; then it is at turn
    k + 1.
   */
  lemma {:induction false} FreshHostReplays(s: State, actions: seq<Action>)
    requires Invariant(s) && s.turn == 1 && s.pc == Idle && s.replies == []
    requires Run(s, actions).Some? && Crash !in actions
    ensures Invariant(Run(s, actions).value)
    ensures ReplaysFirst(Run(s, actions).value, CompletedSteps(s.log))
    decreases |actions|
  {
    if actions != [] {
      var before, last := actions[..|actions| - 1], actions[|actions| - 1];
      FreshHostReplays(s, before);
      NextKeeps(Run(s, before).value, last);
      hide Next, Invariant, ReplaysFirst;
      ReplayStep(Run(s, before).value, last, CompletedSteps(s.log));
    }
  }

  // ----- The host object -----

  /** Storage outcomes of the writes that one call can make. */
  datatype Storage = Storage(request: bool, interrupted: bool, failure: bool, step: bool)

  /** The host's next own step; the answer of the inner provider comes from outside. */
  function HostAction(pc: Pc, answer: Answer, st: Storage): Action
    requires !pc.Idle?
  {
    match pc
    case Looking(_) => Look
    case Numbering(_) => Number
    case Probing(_, _) => Probe
    case Recovering(_, _) => Recover
    case Interrupting => MarkInterrupted(st.interrupted)
    case Replaying => ReplayAgain
    case Requesting(_, _) => CommitRequest(st.request)
    case Ready(_) => CallInner(answer)
    case Answered(_, Failure(_)) => RecordFailure(st.failure)
    case Answered(_, Success(_)) => CommitStep(st.step)
  }

  function StepsLeft(pc: Pc): nat {
    match pc
    case Idle => 0
    case Answered(_, _) => 1
    case Interrupting => 1
    case Replaying => 1
    case Ready(_) => 2
    case Requesting(_, _) => 3
    case Recovering(_, _) => 3
    case Probing(_, _) => 4
    case Numbering(_) => 5
    case Looking(_) => 6
  }

  /** The host's steps, one after another, until the call returns. */
  function Drive(s: State, answer: Answer, st: Storage): State
    decreases StepsLeft(s.pc)
  {
    if s.pc.Idle? then s else Drive(Next(s, HostAction(s.pc, answer, st)).value, answer, st)
  }

  lemma DriveReturns(s: State, answer: Answer, st: Storage)
    requires !s.pc.Idle? && Next(s, HostAction(s.pc, answer, st)).value.pc.Idle?
    ensures Drive(s, answer, st) == Next(s, HostAction(s.pc, answer, st)).value
  {
  }

  lemma DriveLookup(s: State, fp: Fingerprint, answer: Answer, st: Storage)
    requires s.pc == Looking(fp)
    ensures var found := FindCompleted(s.log, s.turn);
            var attempt := MaxAttempt(s.log, s.turn) + 1;
            Drive(s, answer, st) ==
            if found.Some? then Return(s.(turn := s.turn + 1), Replayed(found.value))
            else if HasRequest(s.log, s.turn) then Drive(s.(pc := Recovering(fp, attempt)), answer, st)
            else Drive(s.(pc := Requesting(fp, attempt)), answer, st)
  {
    hide FindCompleted, MaxAttempt, HasRequest;
    if FindCompleted(s.log, s.turn).Some? {
      DriveReturns(s, answer, st);
    } else {
      assert Drive(s, answer, st) == Drive(s.(pc := Numbering(fp)), answer, st);
      assert Drive(s, answer, st) == Drive(s.(pc := Probing(fp, MaxAttempt(s.log, s.turn) + 1)), answer, st);
    }
  }

  lemma DriveRequest(s: State, fp: Fingerprint, attempt: nat, answer: Answer, st: Storage)
    requires s.pc == Requesting(fp, attempt) && !HasRequest(s.log, s.turn)
    ensures var done := Append(s, Requested(s.turn, attempt, fp, true), st.request);
            Drive(s, answer, st) == if done.Ok? then Drive(done.value.(pc := Ready(attempt)), answer, st) else Return(s, done.error)
  {
    hide HasRequest;
    if Append(s, Requested(s.turn, attempt, fp, true), st.request).Err? {
      DriveReturns(s, answer, st);
    }
  }

  lemma DriveSend(s: State, attempt: nat, answer: Answer, st: Storage)
    requires s.pc == Ready(attempt)
    ensures Drive(s, answer, st) == Drive(s.(pc := Answered(attempt, answer)), answer, st)
  {
  }

  /** A call without interference is a run of the machine. */
  lemma {:induction false} DriveIsRun(s: State, answer: Answer, st: Storage) returns (actions: seq<Action>)
    ensures Run(s, actions) == Some(Drive(s, answer, st)) && Crash !in actions
    ensures Drive(s, answer, st).pc.Idle?
    decreases StepsLeft(s.pc)
  {
    if s.pc.Idle? {
      actions := [];
    } else {
      var a := HostAction(s.pc, answer, st);
      var rest := DriveIsRun(Next(s, a).value, answer, st);
      actions := [a] + rest;
      RunCons(s, a, rest);
    }
  }

  lemma {:induction false} RunCons(s: State, a: Action, rest: seq<Action>)
    requires Next(s, a).Some?
    ensures Run(s, [a] + rest) == Run(Next(s, a).value, rest)
    decreases |rest|
  {
    hide Next;
    if rest == [] {
      assert [a] + rest == [a] && [a][..0] == [];
      assert Run(s, [a][..0]) == Some(s);
    } else {
      var init := rest[..|rest| - 1];
      RunCons(s, a, init);
      assert ([a] + rest)[..|rest|] == [a] + init;
    }
  }

  /** The run's durable record, with the operations that the host calls. */
  class AgentService {
    var log: Log
    var status: Status

    constructor ()
      ensures log == [] && status == Running
    {
      log, status := [], Running;
    }

    /** `present` tells that the event id is already recorded. */
    method Persist(e: Entry, present: bool, storageOk: bool) returns (r: Result<(), Reply>)
      modifies this`log
      ensures var s := State(old(log), status, 1, Idle, []);
              var done := AppendOnce(s, e, present, storageOk);
              if done.Ok? then r == Ok(()) && log == done.value.log else r == Err(done.error) && log == old(log)
    {
      if present {
        return Ok(());
      }
      if status == Cancelled {
        return Err(RunCancelled);
      }
      if status == Terminal {
        return Err(RunTerminal);
      }
      if !storageOk {
        return Err(PersistFailed);
      }
      log := log + [e];
      return Ok(());
    }
  }

  class DurableProviderHost {
    const service: AgentService
    var turn: nat

    constructor (service: AgentService)
      ensures this.service == service && turn == 1
    {
      this.service := service;
      turn := 1;
    }

    ghost function View(pc: Pc): State
      reads this, service
    {
      State(service.log, service.status, turn, pc, [])
    }

    /** A request of this turn is already durable: decide whether to send it again. */
    method RecoverPending(fp: Fingerprint, attempt: nat, answer: Answer, st: Storage) returns (reply: Option<Reply>)
      modifies this`turn, service`log
      ensures var end := Drive(old(View(Recovering(fp, attempt))), answer, st);
              if reply.Some? then end.log == service.log && end.turn == turn && end.replies == [reply.value]
              else turn == old(turn) && service.log == old(service.log) && end == Drive(View(Ready(attempt)), answer, st)
    {
      hide Decide, FindCompleted;
      ghost var end := Drive(View(Recovering(fp, attempt)), answer, st);
      match Decide(service.log, service.status, turn, fp) {
        case Replay =>
          assert end == Drive(View(Replaying), answer, st);
          DriveReturns(View(Replaying), answer, st);
          var completed := FindCompleted(service.log, turn);
          if completed.None? {
            return Some(Corrupt);
          }
          turn := turn + 1;
          return Some(Replayed(completed.value));
        case Interrupt =>
          assert end == Drive(View(Interrupting), answer, st);
          DriveReturns(View(Interrupting), answer, st);
          var marked := service.Persist(Interrupted(turn), Interrupted(turn) in service.log, st.interrupted);
          return Some(if marked.Ok? then InterruptedProvider else marked.error);
        case RefusedTerminal =>
          DriveReturns(View(Recovering(fp, attempt)), answer, st);
          return Some(RunCancelled);
        case Retry =>
          return None;
      }
    }

    /** The inner provider has answered: record the failure or commit the step. */
    method Settle(attempt: nat, answer: Answer, st: Storage) returns (reply: Reply)
      modifies this`turn, service`log
      ensures var end := Drive(old(View(Answered(attempt, answer))), answer, st);
              end.log == service.log && end.turn == turn && end.replies == [reply]
    {
      hide FindCompleted;
      DriveReturns(View(Answered(attempt, answer)), answer, st);
      match answer {
        case Failure(retryable) =>
          var recorded := service.Persist(
            Failed(turn, attempt, retryable), HasFailure(service.log, turn, attempt), st.failure);
          return if recorded.Ok? then ProviderFailed else recorded.error;
        case Success(step) =>
          var completed := FindCompleted(service.log, turn);
          if completed.Some? {
            turn := turn + 1;
            return Existing(completed.value);
          }
          var committed := service.Persist(Completed(turn, step), false, st.step);
          if committed.Err? {
            return committed.error;
          }
          turn := turn + 1;
          return Inserted(step);
      }
    }

    method Call(fp: Fingerprint, answer: Answer, st: Storage) returns (reply: Reply)
      modifies this`turn, service`log
      ensures var end := Drive(old(View(Looking(fp))), answer, st);
              end.log == service.log && end.turn == turn && end.replies == [reply]
    {
      hide FindCompleted, MaxAttempt, HasRequest, Drive;
      DriveLookup(View(Looking(fp)), fp, answer, st);
      var completed := FindCompleted(service.log, turn);
      if completed.Some? {
        turn := turn + 1;
        return Replayed(completed.value);
      }
      var attempt := MaxAttempt(service.log, turn) + 1;
      if HasRequest(service.log, turn) {
        var recovered := RecoverPending(fp, attempt, answer, st);
        if recovered.Some? {
          return recovered.value;
        }
      } else {
        DriveRequest(View(Requesting(fp, attempt)), fp, attempt, answer, st);
        var requested := service.Persist(Requested(turn, attempt, fp, true), false, st.request);
        if requested.Err? {
          return requested.error;
        }
      }
      DriveSend(View(Ready(attempt)), attempt, answer, st);
      reply := Settle(attempt, answer, st);
    }
  }
}
