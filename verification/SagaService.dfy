/** The saga service over one stored saga document and the outbox rows it writes. */
module SagaService {
  import opened Numbers
  import opened Options
  import opened SagaCalls
  import opened SagaDefinitions
  import opened SagaInvariants
  import opened SagaJobs
  import opened SagaMachine
  import opened SagaModel
  import opened SagaTheorems

  datatype Outcome = Finished | AwaitSignal | AppendFailed

  class Service {
    const definition: Definition
    var saga: Saga
    var outbox: seq<Command>
    var jobs: seq<Job>

    ghost function State(): Stored
      reads this
    {
      Stored(saga, outbox)
    }

    ghost predicate Valid()
      reads this
    {
      && WellFormed(definition)
      && SoundWorld(definition, AtRest(State()))
      && WithinAttempts(definition.steps, saga)
    }

    constructor (definition: Definition, now: int)
      requires WellFormed(definition)
      ensures Valid() && this.definition == definition && State() == Stored(NewSaga(definition, now), []) && jobs == []
    {
      this.definition := definition;
      saga := NewSaga(definition, now);
      outbox, jobs := [], [];
      new;
      StartedIsSound(definition, now);
      NewSagaIsWithinAttempts(definition, now);
    }

    /** A job for the version just written. */
    method Enqueue(delay: int)
      modifies this`jobs
      ensures jobs == old(jobs) + [Job(saga.version, delay)]
    {
      jobs := jobs + [Job(saga.version, delay)];
    }

    /** The repository's compare-and-set on the version the caller read, which it increments. */
    method Transition(seen: Saga, next: Saga) returns (written: bool)
      modifies this`saga
      ensures written <==> old(saga.version) == seen.version
      ensures saga == if written then Incremented(seen, next) else old(saga)
    {
      written := saga.version == seen.version;
      if written {
        saga := next.(version := saga.version + 1);
      }
    }

    method WaitForExternal(step: Step, compensation: bool, now: int)
      modifies this`saga, this`jobs
      ensures saga == Wait(old(saga), step, compensation, now)
      ensures jobs == old(jobs) + AsSeq(WorkerJob(saga, now))
    {
      var deadline := Min(saga.timeoutAt, now + step.timeoutMs);
      var written := Transition(saga, Wait(saga, step, compensation, now));
      hide Incremented;
      Enqueue(if deadline > now then deadline - now else 0);
    }

    method AfterFailure(step: Step, compensation: bool, now: int)
      modifies this`saga, this`jobs
      ensures saga == DispatchFailed(definition, old(saga), step, compensation, now)
      ensures jobs == old(jobs) + AsSeq(WorkerJob(saga, now))
    {
      RecoverLeavesNoJob(definition, saga);
      hide Recover, Incremented;
      var next := DispatchFailed(definition, saga, step, compensation, now);
      var written := Transition(saga, next);
      if next.status == WaitingRetry {
        Enqueue(next.nextAttemptAt.value - now);
      }
    }

    /** The executor: appends the command under its event id, and takes a duplicate for success. */
    method Execute(step: Step, compensation: bool, appendFails: bool) returns (outcome: Outcome)
      modifies this`outbox
      ensures outcome == if CommandName(step, compensation) == "" then Finished
                         else if appendFails then AppendFailed else AwaitSignal
      ensures outbox == if outcome.AwaitSignal? then Append(old(outbox), Command(step.name, compensation)) else old(outbox)
    {
      if CommandName(step, compensation) == "" {
        return Finished;
      }
      if appendFails {
        return AppendFailed;
      }
      var command := Command(step.name, compensation);
      if command !in outbox {
        outbox := outbox + [command];
      }
      return AwaitSignal;
    }

    method Dispatch(step: Step, compensation: bool, now: int, appendFails: bool)
      modifies this
      ensures State() == DispatchCall(definition, old(State()), step, compensation, now, appendFails)
      ensures jobs == old(jobs) + AsSeq(WorkerJob(saga, now))
    {
      hide Incremented, IndexOfStep, Wait, DispatchFailed, CommandName, Append;
      var outcome := Execute(step, compensation, appendFails);
      var written;
      match outcome {
        case AwaitSignal => WaitForExternal(step, compensation, now);
        case Finished =>
          if compensation {
            written := Transition(saga, UndoInline(saga, step));
          } else {
            written := Transition(saga, Succeed(definition, saga, step));
          }
        case AppendFailed => AfterFailure(step, compensation, now);
      }
    }

    method Compensate(now: int, appendFails: bool)
      requires saga.status == Compensating && saga.timeoutAt > now && !saga.cancellationRequested
      modifies this
      ensures State() == AdvanceCall(definition, old(State()), now, appendFails)
      ensures jobs == old(jobs) + AsSeq(NextJob(old(saga), AdvanceOp(now, appendFails), saga))
    {
      DispatchMoves(definition, now, appendFails);
      hide Incremented, DispatchCall, FindStep, NextUndo, Recover, Counter;
      var s := saga;
      var pending := NextUndo(definition.steps, s.completedSteps, s.compensationSteps);
      var written;
      if pending.None? {
        written := Transition(s, FinishUndo(s));
        return;
      }
      var step := FindStep(definition.steps, pending.value);
      if step.None? || step.value.compensation.None? {
        written := Transition(s, SagaModel.Manual(s));
        return;
      }
      written := Transition(s, StartUndo(s, step.value));
      Dispatch(step.value, true, now, appendFails);
    }

    /** One uninterrupted `advance`. */
    method Advance(now: int, appendFails: bool)
      requires Valid()
      modifies this
      ensures Valid() && State() == Perform(definition, old(State()), AdvanceOp(now, appendFails))
      ensures jobs == old(jobs) + AsSeq(NextJob(old(saga), AdvanceOp(now, appendFails), saga))
    {
      PerformKeeps(definition, State(), AdvanceOp(now, appendFails));
      AdvanceUnchecked(now, appendFails);
    }

    method AdvanceUnchecked(now: int, appendFails: bool)
      modifies this
      ensures State() == AdvanceCall(definition, old(State()), now, appendFails)
      ensures jobs == old(jobs) + AsSeq(NextJob(old(saga), AdvanceOp(now, appendFails), saga))
    {
      RecoverLeavesNoJob(definition, saga);
      DispatchMoves(definition, now, appendFails);
      hide Incremented, DispatchCall, FindStep, DecideUndo, Recover, Counter, Signal;
      var s := saga;
      var written;
      if s.status in {Completed, Cancelled, ManualIntervention} {
        return;
      }
      if s.timeoutAt <= now || s.cancellationRequested {
        written := Transition(s, Recover(definition, s));
        return;
      }
      if s.status == WaitingRetry && s.nextAttemptAt.Some? && s.nextAttemptAt.value > now {
        return;
      }
      if s.status == WaitingExternal {
        if s.stepDeadlineAt.Some? && s.stepDeadlineAt.value <= now {
          written := Transition(s, Recover(definition, s));
        }
        return;
      }
      if s.status == Compensating {
        Compensate(now, appendFails);
        return;
      }
      var step := if s.currentStep.None? then None else FindStep(definition.steps, s.currentStep.value);
      if step.None? {
        written := Transition(s, Complete(s));
        return;
      }
      written := Transition(s, StartStep(s, step.value));
      Dispatch(step.value, false, now, appendFails);
    }

    /** `signal`; a conflict changes nothing. */
    method Signalled(name: string, success: bool, now: int) returns (accepted: bool)
      requires Valid()
      modifies this
      ensures Valid() && State() == Perform(definition, old(State()), SignalOp(name, success, now))
      ensures jobs == old(jobs) + AsSeq(NextJob(old(saga), SignalOp(name, success, now), saga))
      ensures accepted <==> old(saga).status == WaitingExternal && old(saga).currentStep == Some(name)
      ensures accepted && success && !old(saga).awaitingCompensation ==>
                saga.completedSteps == old(saga).completedSteps + [name]
      ensures accepted && success && old(saga).awaitingCompensation ==>
                saga.compensationSteps == old(saga).compensationSteps + [name]
      ensures accepted && success ==> saga.stepDeadlineAt == None
      ensures accepted && success && !old(saga).awaitingCompensation ==> saga.nextAttemptAt == None
    {
      PerformKeeps(definition, State(), SignalOp(name, success, now));
      SignalAdds(definition, saga, name, success, now);
      hide WithinAttempts, SoundWorld, FindStep, WellFormed, Recover, Succeed, IndexOfStep;
      accepted := SignalUnchecked(name, success, now);
    }

    method SignalUnchecked(name: string, success: bool, now: int) returns (accepted: bool)
      modifies this
      ensures accepted == Signal(definition, old(saga), name, success, now).Some?
      ensures saga == if accepted then Signal(definition, old(saga), name, success, now).value else old(saga)
      ensures outbox == old(outbox)
      ensures jobs == old(jobs) + AsSeq(NextJob(old(saga), SignalOp(name, success, now), saga))
    {
      RecoverLeavesNoJob(definition, saga);
      hide Incremented, FindStep, Recover, IndexOfStep, Counter, AddToSet, WorkerJob;
      var s := saga;
      var written;
      if s.status != WaitingExternal || s.currentStep != Some(name) {
        return false;
      }
      accepted := true;
      var found := FindStep(definition.steps, name);
      if found.None? {
        written := Transition(s, SagaModel.Manual(s));
        return;
      }
      var step := found.value;
      FoundHasTheName(definition.steps, name);
      if s.awaitingCompensation {
        UndoSignalled(step, success, now);
        return;
      }
      if !success {
        if Counter(s.attempts, step.name, 1) >= step.maxAttempts {
          written := Transition(s, Recover(definition, s));
          return;
        }
        written := Transition(s, s.(status := WaitingRetry, nextAttemptAt := Some(now), stepDeadlineAt := None,
                                    version := s.version + 1));
        Enqueue(0);
        return;
      }
      written := Transition(s, Succeed(definition, s, step));
      if saga.status !in {Completed, ManualIntervention} {
        Enqueue(0);
      }
    }

    /** `signal` for the compensation of a step. */
    method UndoSignalled(step: Step, success: bool, now: int)
      requires saga.status == WaitingExternal && saga.awaitingCompensation && saga.currentStep == Some(step.name)
      requires FindStep(definition.steps, step.name) == Some(step)
      modifies this`saga, this`jobs
      ensures Some(saga) == Signal(definition, old(saga), step.name, success, now)
      ensures jobs == old(jobs) + AsSeq(NextJob(old(saga), SignalOp(step.name, success, now), saga))
    {
      hide Incremented, FindStep, Recover, Succeed, Counter, AddToSet, WorkerJob;
      var s := saga;
      var written;
      if !success {
        if Counter(s.attempts, "compensate." + step.name, 1) >= step.maxAttempts {
          written := Transition(s, SagaModel.Manual(s));
          return;
        }
        written := Transition(s, s.(status := Compensating, awaitingCompensation := false,
                                    nextAttemptAt := Some(now), stepDeadlineAt := None, version := s.version + 1));
        Enqueue(0);
        return;
      }
      written := Transition(s, s.(compensationSteps := AddToSet(s.compensationSteps, step.name),
                                  status := Compensating, awaitingCompensation := false,
                                  stepDeadlineAt := None, version := s.version + 1));
      Enqueue(0);
    }

    /** `cancel`; refused once the saga is terminal. */
    method CancelRequested() returns (accepted: bool)
      requires Valid()
      modifies this
      ensures Valid() && State() == Perform(definition, old(State()), CancelOp)
      ensures jobs == old(jobs) + AsSeq(NextJob(old(saga), CancelOp, saga))
      ensures accepted <==> old(saga).status !in {Completed, Cancelled}
      ensures accepted ==> Recovering(saga) && saga.completedSteps == old(saga).completedSteps
    {
      hide WithinAttempts, SoundWorld, WellFormed, AdvanceCall, Signal;
      PerformKeeps(definition, State(), CancelOp);
      var s := saga;
      if s.status in {Completed, Cancelled} {
        return false;
      }
      var written := Transition(s, s.(cancellationRequested := true, status := Pending, version := s.version + 1));
      Enqueue(0);
      return true;
    }
  }

  /** The stored sagas under the unique index on workspace and correlation id. */
  class Sagas {
    var sagas: map<(string, string), Service>

    ghost predicate Valid()
      reads this, sagas.Values
    {
      && (forall key <- sagas :: sagas[key].Valid())
      && (forall a <- sagas, b <- sagas :: sagas[a] == sagas[b] ==> a == b)
    }

    constructor ()
      ensures Valid() && sagas == map[]
    {
      sagas := map[];
    }

    /** `start`: an unknown type is refused; a correlation id already in use yields its saga, of whatever type, and
        queues nothing; else a new saga is stored and queued. */
    method Start(workspaceId: string, sagaType: string, correlationId: string, now: int)
        returns (service: Service?, duplicate: bool)
      requires Valid()
      modifies this
      ensures Valid()
      ensures service == null <==> SagaDefinition(sagaType).None?
      ensures duplicate <==> service != null && (workspaceId, correlationId) in old(sagas)
      ensures sagas == if service == null then old(sagas) else old(sagas)[(workspaceId, correlationId) := service]
      ensures duplicate ==> sagas == old(sagas)
      ensures service != null && !duplicate ==>
                && fresh(service) && Some(service.definition) == SagaDefinition(sagaType)
                && service.State() == Stored(NewSaga(service.definition, now), []) && service.jobs == [Job(0, 0)]
    {
      hide SagaDefinition, SoundWorld, WellFormed, WithinAttempts, NewSaga;
      var key, found := (workspaceId, correlationId), SagaDefinition(sagaType);
      if found.None? {
        return null, false;
      }
      if key in sagas {
        return sagas[key], true;
      }
      EveryDefinitionIsWellFormed(sagaType);
      service := Create(key, found.value, now);
      duplicate := false;
    }

    method Create(key: (string, string), definition: Definition, now: int) returns (service: Service)
      requires Valid() && key !in sagas && WellFormed(definition)
      modifies this
      ensures Valid() && sagas == old(sagas)[key := service] && fresh(service) && service.definition == definition
      ensures service.State() == Stored(NewSaga(definition, now), []) && service.jobs == [Job(0, 0)]
    {
      hide SoundWorld, WellFormed, WithinAttempts;
      service := new Service(definition, now);
      service.Enqueue(0);
      assert forall other <- sagas :: sagas[other].Valid();
      sagas := sagas[key := service];
    }
  }

  lemma FoundHasTheName(steps: seq<Step>, name: string)
    ensures FindStep(steps, name).Some? ==> FindStep(steps, name).value.name == name
  {
  }

  /** The document a transition writes. */
  function Incremented(seen: Saga, next: Saga): (r: Saga)
    ensures next.version == seen.version + 1 ==> r == next
  {
    next.(version := seen.version + 1)
  }

  function AsSeq(job: Option<Job>): seq<Job> { if job.Some? then [job.value] else [] }

  /** A dispatch writes a later version. */
  lemma DispatchMoves(definition: Definition, now: int, appendFails: bool)
    ensures forall s, step, compensation ::
              DispatchCall(definition, s, step, compensation, now, appendFails).saga.version == s.saga.version + 1
  {
    forall s, step, compensation
      ensures DispatchCall(definition, s, step, compensation, now, appendFails).saga.version == s.saga.version + 1
    {
      hide NextUndo, IndexOfStep, CommandName, Append;
    }
  }

  lemma SignalAdds(definition: Definition, s: Saga, name: string, success: bool, now: int)
    requires WellFormed(definition) && Sound(definition, s)
    ensures var t := Signal(definition, s, name, success, now);
            && (t.Some? <==> s.status == WaitingExternal && s.currentStep == Some(name))
            && (t.Some? ==> t.value.version != s.version)
            && (t.Some? && success ==> t.value.stepDeadlineAt == None)
            && (t.Some? && success && !s.awaitingCompensation ==> t.value.nextAttemptAt == None)
            && (t.Some? && success && !s.awaitingCompensation ==> t.value.completedSteps == s.completedSteps + [name])
            && (t.Some? && success && s.awaitingCompensation ==> t.value.compensationSteps == s.compensationSteps + [name])
  {
    SignalKeeps(definition, s, name, success, now);
    if s.status == WaitingExternal && s.currentStep == Some(name) && success {
      if s.awaitingCompensation {
        CompletedAreDistinct(definition, s);
        ConfirmUndoKeeps(definition.steps, s.completedSteps, s.compensationSteps, name);
      } else {
        StepAt(definition, |s.completedSteps|);
        SucceedKeeps(definition, s, definition.steps[|s.completedSteps|]);
      }
    }
    hide Recover, FindStep, StepsInOrder, UndoInOrder, KnownSteps;
  }
}
