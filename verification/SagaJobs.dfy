/** The jobs that drive a saga on: what each call leaves in the queue, and when nothing drives it any more. */
module SagaJobs {
  import opened Numbers
  import opened Options
  import opened SagaCalls
  import opened SagaInvariants
  import opened SagaMachine
  import opened SagaModel

  /** A delayed `advance`, named after the version of the document that asked for it. */
  datatype Job = Job(version: nat, delay: int)

  /** The job a worker leaves with a document it wrote: at the deadline of the step, or when it may be retried. */
  function WorkerJob(after: Saga, now: int): Option<Job> {
    if after.status == WaitingExternal && after.stepDeadlineAt.Some? then
      Some(Job(after.version, if after.stepDeadlineAt.value > now then after.stepDeadlineAt.value - now else 0))
    else if after.status == WaitingRetry && after.nextAttemptAt.Some? then
      Some(Job(after.version, after.nextAttemptAt.value - now))
    else None
  }

  /** The job a call leaves, by what it found and what it wrote. */
  function NextJob(before: Saga, call: Call, after: Saga): Option<Job> {
    if after.version == before.version then None
    else
      match call
      case AdvanceOp(now, _) => WorkerJob(after, now)
      case SignalOp(_, _, _) =>
        var driven := if before.awaitingCompensation then after.status == Compensating
                      else after.status in {Pending, WaitingRetry};
        if driven then Some(Job(after.version, 0)) else None
      case CancelOp => Some(Job(after.version, 0))
  }

  predicate Finished(s: Saga) { s.status in {Completed, Cancelled, ManualIntervention} }

  /** The call finds what makes it begin, or begin again, the recovery. */
  predicate BeginsRecovery(definition: Definition, s: Saga, call: Call) {
    match call
    case AdvanceOp(now, appendFails) =>
      && !Finished(s)
      && (|| s.timeoutAt <= now || s.cancellationRequested
          || (s.status == WaitingExternal && s.stepDeadlineAt.Some? && s.stepDeadlineAt.value <= now)
          || (appendFails && s.status in {Pending, Running, WaitingRetry} && LastAttempt(definition, s)
              && (s.status == WaitingRetry && s.nextAttemptAt.Some? ==> s.nextAttemptAt.value <= now)))
    case SignalOp(name, success, _) =>
      && s.status == WaitingExternal && s.currentStep == Some(name) && !s.awaitingCompensation && !success
      && |s.completedSteps| < |definition.steps|
      && var step := definition.steps[|s.completedSteps|];
      Counter(s.attempts, step.name, 1) >= step.maxAttempts
    case CancelOp => false
  }

  /** The next start of the current step is the last the step is allowed. */
  predicate LastAttempt(definition: Definition, s: Saga) {
    && |s.completedSteps| < |definition.steps|
    && var step := definition.steps[|s.completedSteps|];
    Counter(s.attempts, step.name, 0) + 1 >= step.maxAttempts
  }

  lemma RecoverLeavesNoJob(definition: Definition, s: Saga)
    ensures Recover(definition, s).status in {Compensating, ManualIntervention, Cancelled}
    ensures Recover(definition, s).version == s.version + 1
  {
    hide NextUndo;
  }

  lemma StartedCallJob(definition: Definition, s: Saga, outbox: seq<Command>, now: int, appendFails: bool)
    requires WellFormed(definition) && Sound(definition, s) && !Recovering(s)
    requires s.status in {Pending, Running, WaitingRetry}
    ensures var step := definition.steps[|s.completedSteps|];
            var t := DispatchCall(definition, Stored(StartStep(s, step), outbox), step, false, now, appendFails).saga;
            && t.version == s.version + 2
            && if !appendFails then t.status == WaitingExternal && t.stepDeadlineAt.Some?
               else if LastAttempt(definition, s) then t.status in {Compensating, ManualIntervention, Cancelled}
               else t.status == WaitingRetry && t.nextAttemptAt.Some?
  {
    var step := definition.steps[|s.completedSteps|];
    var t := StartStep(s, step);
    StartStepKeeps(definition, s);
    DispatchedHaveCommands(definition, t, step, false);
    RecoverLeavesNoJob(definition, t);
    hide WellFormed, FindStep, Sound, Recover, CommandName, MayDispatch;
  }

  lemma UndoneCallJob(definition: Definition, s: Saga, outbox: seq<Command>, now: int, appendFails: bool)
    requires WellFormed(definition) && Sound(definition, s)
    requires s.status == Compensating && !s.cancellationRequested && s.timeoutAt > now
    ensures var t := AdvanceCall(definition, Stored(s, outbox), now, appendFails).saga;
            Finished(t) || (t.version == s.version + 2 && t.status == WaitingExternal && t.stepDeadlineAt.Some?)
  {
    DecideUndoKeeps(definition, s);
    var d := Decide(definition, s, now);
    assert d == DecideUndo(definition, s);
    if d.Begin? {
      assert d.saga.version == s.version + 1;
      DispatchedHaveCommands(definition, d.saga, d.step, d.compensation);
    }
    hide WellFormed, Sound, FindStep, NextUndo, UndoOrder, CommandName, MayDispatch;
  }

  lemma AdvanceJob(definition: Definition, s: Stored, now: int, appendFails: bool)
    requires WellFormed(definition) && Sound(definition, s.saga)
    ensures var call := AdvanceOp(now, appendFails);
            var t := AdvanceCall(definition, s, now, appendFails).saga;
            t.version != s.saga.version && !Finished(t) ==>
              (NextJob(s.saga, call, t).None? <==> BeginsRecovery(definition, s.saga, call))
  {
    RecoverLeavesNoJob(definition, s.saga);
    var d := Decide(definition, s.saga, now);
    if s.saga.status == Compensating && !s.saga.cancellationRequested && s.saga.timeoutAt > now {
      UndoneCallJob(definition, s.saga, s.outbox, now, appendFails);
      hide AdvanceCall, WellFormed, Sound, LastAttempt;
    } else if d.Begin? {
      StartStepKeeps(definition, s.saga);
      StartedCallJob(definition, s.saga, s.outbox, now, appendFails);
      hide DispatchCall, WellFormed, Sound, LastAttempt, FindStep;
    } else {
      assert d.Leave? || d == Put(Recover(definition, s.saga)) by { NoOtherPut(definition, s.saga, now); }
      hide Recover, WellFormed, Sound, LastAttempt, FindStep, NextUndo;
    }
  }

  lemma NoOtherPut(definition: Definition, s: Saga, now: int)
    requires WellFormed(definition) && Sound(definition, s)
    requires s.status == Compensating ==> s.cancellationRequested || s.timeoutAt <= now
    requires !Decide(definition, s, now).Begin?
    ensures Decide(definition, s, now).Leave? || Decide(definition, s, now) == Put(Recover(definition, s))
  {
    if !Recovering(s) && s.status != Completed { StartStepKeeps(definition, s); }
    hide WellFormed, FindStep, Recover;
  }

  lemma SignalJob(definition: Definition, s: Saga, name: string, success: bool, now: int)
    requires WellFormed(definition) && Sound(definition, s)
    requires s.status == WaitingExternal && s.currentStep == Some(name)
    ensures var call := SignalOp(name, success, now);
            var t := Signal(definition, s, name, success, now).value;
            !Finished(t) ==> (NextJob(s, call, t).None? <==> BeginsRecovery(definition, s, call))
  {
    SignalKeeps(definition, s, name, success, now);
    var t := Signal(definition, s, name, success, now).value;
    if s.awaitingCompensation {
      hide WellFormed, Sound, FindStep;
    } else {
      StepAt(definition, |s.completedSteps|);
      RecoverLeavesNoJob(definition, s);
      hide WellFormed, FindStep, Recover, IndexOfStep;
    }
  }

  /** An uninterrupted call that writes and leaves the saga unfinished leaves a job to drive it on, unless it is the
      call that begins the recovery. */
  lemma JobUnlessRecoveryBegins(definition: Definition, s: Stored, call: Call)
    requires WellFormed(definition) && Sound(definition, s.saga)
    requires var t := Perform(definition, s, call).saga; t.version != s.saga.version && !Finished(t)
    ensures NextJob(s.saga, call, Perform(definition, s, call).saga).None? <==> BeginsRecovery(definition, s.saga, call)
  {
    match call
    case AdvanceOp(now, appendFails) =>
      AdvanceJob(definition, s, now, appendFails);
      hide AdvanceCall, BeginsRecovery, WellFormed, Sound;
    case SignalOp(name, success, now) =>
      SignalJob(definition, s.saga, name, success, now);
      hide WellFormed, Sound, BeginsRecovery, FindStep, Recover, Succeed;
    case CancelOp =>
  }

  // ---- a saga driven by its jobs ----------------------------------------------------------------------------------

  /** The stored saga and the jobs waiting for it. */
  datatype Driven = Driven(stored: Stored, jobs: multiset<Job>)

  datatype Turn =
    | RunJob(job: Job, now: int, appendFails: bool)
    | Deliver(name: string, success: bool, now: int)

  function CallOf(turn: Turn): Call {
    match turn
    case RunJob(_, now, appendFails) => AdvanceOp(now, appendFails)
    case Deliver(name, success, now) => SignalOp(name, success, now)
  }

  /** A job runs once, while it is there; a signal may come at any time. */
  function TakeTurn(definition: Definition, d: Driven, turn: Turn): Driven {
    if turn.RunJob? && turn.job !in d.jobs then d
    else
      var call := CallOf(turn);
      var after := Perform(definition, d.stored, call);
      var left := if turn.RunJob? then d.jobs - multiset{turn.job} else d.jobs;
      match NextJob(d.stored.saga, call, after.saga)
      case None => Driven(after, left)
      case Some(job) => Driven(after, left + multiset{job})
  }

  function TakeTurns(definition: Definition, d: Driven, turns: seq<Turn>): Driven
    decreases |turns|
  {
    if |turns| == 0 then d else TakeTurns(definition, TakeTurn(definition, d, turns[0]), turns[1..])
  }

  /** Nothing but a cancellation can move the saga on. */
  predicate Stalled(d: Driven) { d.jobs == multiset{} && d.stored.saga.status != WaitingExternal }

  /** No job and no signal ever changes the saga again exactly when it awaits no signal and, unless it is finished, has
      no job. */
  lemma NothingChangesIff(definition: Definition, d: Driven)
    requires Sound(definition, d.stored.saga)
    ensures (forall turns :: TakeTurns(definition, d, turns).stored == d.stored) <==>
            d.stored.saga.status != WaitingExternal && (d.jobs == multiset{} || Finished(d.stored.saga))
  {
    var s := d.stored.saga;
    if s.status == WaitingExternal {
      assert s.currentStep.Some?;
      SignalTurnCounts(definition, d, s.currentStep.value);
      OneTurn(definition, d, Deliver(s.currentStep.value, false, 0));
    } else if Finished(s) {
      forall turns ensures TakeTurns(definition, d, turns).stored == d.stored { FinishedStays(definition, d, turns); }
    } else if d.jobs == multiset{} {
      forall turns ensures TakeTurns(definition, d, turns) == d { StalledStays(definition, d, turns); }
    } else {
      var job :| job in d.jobs;
      JobTurnCounts(definition, d, job, s.timeoutAt, false);
      OneTurn(definition, d, RunJob(job, s.timeoutAt, false));
    }
  }

  lemma OneTurn(definition: Definition, d: Driven, turn: Turn)
    ensures TakeTurns(definition, d, [turn]) == TakeTurn(definition, d, turn)
  {
    hide TakeTurn;
    assert [turn][1..] == [];
  }

  /** A job of an unfinished saga does something, at the latest when the saga times out. */
  lemma JobTurnCounts(definition: Definition, d: Driven, job: Job, now: int, appendFails: bool)
    requires job in d.jobs && !Finished(d.stored.saga) && d.stored.saga.timeoutAt <= now
    ensures TakeTurn(definition, d, RunJob(job, now, appendFails)).stored.saga == Recover(definition, d.stored.saga)
    ensures TakeTurn(definition, d, RunJob(job, now, appendFails)).stored != d.stored
  {
    RecoverLeavesNoJob(definition, d.stored.saga);
    hide Recover;
  }

  lemma SignalTurnCounts(definition: Definition, d: Driven, name: string)
    requires d.stored.saga.status == WaitingExternal && d.stored.saga.currentStep == Some(name)
    ensures TakeTurn(definition, d, Deliver(name, false, 0)).stored != d.stored
  {
    RecoverLeavesNoJob(definition, d.stored.saga);
    hide Recover, FindStep, Succeed, NextJob;
  }

  lemma {:induction false} FinishedStays(definition: Definition, d: Driven, turns: seq<Turn>)
    requires Finished(d.stored.saga)
    ensures TakeTurns(definition, d, turns).stored == d.stored
    decreases |turns|
  {
    if |turns| > 0 {
      assert TakeTurn(definition, d, turns[0]).stored == d.stored;
      hide TakeTurn;
      FinishedStays(definition, TakeTurn(definition, d, turns[0]), turns[1..]);
    }
  }

  lemma {:induction false} StalledStays(definition: Definition, d: Driven, turns: seq<Turn>)
    requires Stalled(d)
    ensures TakeTurns(definition, d, turns) == d
    decreases |turns|
  {
    if |turns| > 0 {
      assert TakeTurn(definition, d, turns[0]) == d;
      StalledStays(definition, d, turns[1..]);
    }
  }

  /** When the last job of a saga finds its step overdue, what it completed is never undone: the recovery it begins
      leaves no job, and no signal is awaited. */
  lemma OverdueStepStalls(definition: Definition, d: Driven, job: Job, now: int, appendFails: bool, turns: seq<Turn>)
    requires d.jobs == multiset{job} && d.stored.saga.status == WaitingExternal
    requires d.stored.saga.stepDeadlineAt.Some? && d.stored.saga.stepDeadlineAt.value <= now
    ensures var begun := TakeTurn(definition, d, RunJob(job, now, appendFails));
            && begun.stored.saga == Recover(definition, d.stored.saga)
            && TakeTurns(definition, begun, turns) == begun
            && begun.stored.saga.compensationSteps == d.stored.saga.compensationSteps
  {
    RecoverLeavesNoJob(definition, d.stored.saga);
    var begun := TakeTurn(definition, d, RunJob(job, now, appendFails));
    assert begun.stored.saga == Recover(definition, d.stored.saga);
    assert begun.jobs == multiset{};
    assert begun.stored.saga.compensationSteps == d.stored.saga.compensationSteps by { hide NextUndo; }
    hide TakeTurn, Recover;
    StalledStays(definition, begun, turns);
  }
}
