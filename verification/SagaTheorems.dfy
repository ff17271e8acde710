/** What holds of every run of the saga orchestrator. */
module SagaTheorems {
  import opened Options
  import opened SagaInvariants
  import opened SagaMachine
  import opened SagaModel

  predicate Automatic(events: seq<Event>) {
    forall e <- events :: IsAutomatic(e)
  }

  // ---- order -----------------------------------------------------------------------------------------

  /** Under every interleaving of advances, signals, cancellations and crashes: the forward commands are
      issued in definition order and the compensations in exactly reverse completion order; neither is
      skipped or repeated, and at most one of each is issued ahead of what is completed or confirmed. */
  lemma DispatchOrder(definition: Definition, now: int, events: seq<Event>)
    requires WellFormed(definition) && Automatic(events)
    ensures var w := Run(definition, Started(definition, now), events);
            var order := UndoOrder(definition.steps, w.saga.completedSteps);
            && w.saga.completedSteps <= Names(definition.steps)
            && w.saga.completedSteps <= Issued(w.outbox, false) <= Names(definition.steps)
            && |Issued(w.outbox, false)| <= |w.saga.completedSteps| + 1
            && w.saga.compensationSteps <= Issued(w.outbox, true) <= order
            && |Issued(w.outbox, true)| <= |w.saga.compensationSteps| + 1
            && (!Recovering(w.saga) ==> Issued(w.outbox, true) == [])
  {
    hide Issued, UndoOrder, Run, WellFormed;
    NewSagaIsSound(definition, now);
    StartedIsSound(definition, now);
    RunKeeps(definition, Started(definition, now), events);
  }

  lemma StartedIsSound(definition: Definition, now: int)
    requires WellFormed(definition)
    ensures SoundWorld(definition, Started(definition, now))
  {
    NewSagaIsSound(definition, now);
  }

  /** In every such run: before recovery the saga stands at its first uncompleted step and nothing is undone;
      `completed` means that all steps are; `cancelled` means that none was and so none is left to undo; and a
      saga that waits for an operation carries a deadline no later than its own, for an operation that is in the
      outbox: the current step before recovery, the next compensation due during it. */
  lemma StatusesMeanWhatTheySay(definition: Definition, now: int, events: seq<Event>)
    requires WellFormed(definition) && Automatic(events)
    ensures var w := Run(definition, Started(definition, now), events);
            var s, steps := w.saga, definition.steps;
            && (!Recovering(s) && s.status != Completed ==>
                  |s.completedSteps| < |steps| && s.currentStep == Some(steps[|s.completedSteps|].name))
            && (!Recovering(s) ==> s.compensationSteps == [])
            && (s.status == Completed ==> s.completedSteps == Names(steps))
            && (s.status == Cancelled ==> s.completedSteps == [] && UndoOrder(steps, s.completedSteps) == [])
            && (s.status == WaitingExternal ==>
                  && s.stepDeadlineAt.Some? && s.stepDeadlineAt.value <= s.timeoutAt
                  && s.currentStep.Some? && Command(s.currentStep.value, s.awaitingCompensation) in w.outbox
                  && (s.awaitingCompensation ==>
                        UndoesNext(steps, s.completedSteps, s.compensationSteps, s.currentStep.value)))
  {
    hide Run, WellFormed, OutboxInOrder, SoundWorker;
    StartedIsSound(definition, now);
    RunKeeps(definition, Started(definition, now), events);
  }

  /** Recovery is final, progress is never lost, and completed steps stop changing once it began. */
  lemma {:induction false} RunEvolves(definition: Definition, world: World, events: seq<Event>)
    requires WellFormed(definition) && SoundWorld(definition, world) && Automatic(events)
    ensures Evolves(world.saga, Run(definition, world, events).saga)
    decreases |events|
  {
    if |events| != 0 {
      var next := Apply(definition, world, events[0]);
      ApplyKeeps(definition, world, events[0]);
      ApplyEvolves(definition, world, events[0]);
      RunEvolves(definition, next, events[1..]);
      EvolvesIsTransitive(world.saga, next.saga, Run(definition, next, events[1..]).saga);
    }
  }

  lemma EvolvesIsTransitive(a: Saga, b: Saga, c: Saga)
    requires Evolves(a, b) && Evolves(b, c)
    ensures Evolves(a, c)
  {}

  lemma ApplyEvolves(definition: Definition, world: World, e: Event)
    requires WellFormed(definition) && SoundWorld(definition, world) && IsAutomatic(e)
    ensures Evolves(world.saga, Apply(definition, world, e).saga)
  {
    hide OutboxInOrder, AwaitedIsIssued, WellFormed, Decide, Signal, Cancel, Wait, DispatchFailed;
    hide Sound, MayDispatch, Recovering, Succeed, UndoInline, CommandName;
    if e.Act? && e.id in world.workers {
      var s := world.workers[e.id].seen;
      var stage := world.workers[e.id].stage;
      match stage {
        case Advancing => DecideKeeps(definition, s, e.now);
        case Signalling(name, success) => SignalKeeps(definition, s, name, success, e.now);
        case Cancelling => CancelKeeps(definition, s);
        case Dispatching(step, compensation) => DispatchedHaveCommands(definition, s, step, compensation);
        case WaitWrite(step, compensation) => WaitKeeps(definition, s, step, compensation, e.now);
        case FailureWrite(step, compensation) => DispatchFailedKeeps(definition, s, step, compensation, e.now);
        case _ =>
      }
    }
  }

  lemma TerminalRefuses(definition: Definition, s: Saga, e: Event, stage: Stage)
    requires s.status in {Completed, Cancelled} && e.Act?
    ensures Decide(definition, s, e.now) == Leave && Cancel(s) == None
    ensures stage.Signalling? ==> Signal(definition, s, stage.name, stage.success, e.now) == None
    ensures stage.Dispatching? || stage.WaitWrite? || stage.FailureWrite? ==>
              !MayDispatch(definition, s, stage.step, stage.compensation)
  {
    hide Recover, FindStep, UndoesNext;
  }

  lemma TerminalStep(definition: Definition, world: World, e: Event)
    requires SoundWorld(definition, world) && IsAutomatic(e)
    requires world.saga.status in {Completed, Cancelled}
    ensures Apply(definition, world, e).saga == world.saga
  {
    hide Sound, OutboxInOrder, AwaitedIsIssued, Evolves, MayDispatch, Decide, Signal, Cancel;
    if e.Act? && e.id in world.workers {
      TerminalRefuses(definition, world.saga, e, world.workers[e.id].stage);
    }
  }

  /** `completed` and `cancelled` are absorbing. */
  lemma {:induction false} TerminalIsAbsorbing(definition: Definition, world: World, events: seq<Event>)
    requires WellFormed(definition) && SoundWorld(definition, world) && Automatic(events)
    requires world.saga.status in {Completed, Cancelled}
    ensures Run(definition, world, events).saga == world.saga
    decreases |events|
  {
    hide SoundWorld, WellFormed, Apply;
    if |events| != 0 {
      ApplyKeeps(definition, world, events[0]);
      TerminalStep(definition, world, events[0]);
      TerminalIsAbsorbing(definition, Apply(definition, world, events[0]), events[1..]);
    }
  }

  // ---- what can still be dispatched --------------------------------------------------------------------

  /** A worker that decided to dispatch a command which the outbox does not hold yet. */
  predicate PendingDispatch(world: World, id: nat, compensation: bool) {
    && id in world.workers
    && world.workers[id].stage.Dispatching?
    && world.workers[id].stage.compensation == compensation
    && Command(world.workers[id].stage.step.name, compensation) !in world.outbox
  }

  predicate Pending(world: World, compensation: bool) {
    exists id <- world.workers :: PendingDispatch(world, id, compensation)
  }

  /** No advance can start a dispatch: a cancellation was requested, or every clock reading left is past
      the saga's deadline. */
  predicate Closing(world: World, events: seq<Event>) {
    || world.saga.cancellationRequested
    || forall e <- events :: e.Act? ==> world.saga.timeoutAt <= e.now
  }

  lemma ClosedDecidesNothing(definition: Definition, s: Saga, now: int)
    requires s.cancellationRequested || s.timeoutAt <= now
    ensures !Decide(definition, s, now).Begin?
  {
    hide Recover;
  }

  lemma RecoveringDecidesNoStep(definition: Definition, s: Saga, now: int)
    requires WellFormed(definition) && Sound(definition, s) && Recovering(s)
    ensures Decide(definition, s, now).Begin? ==> Decide(definition, s, now).compensation
  {
    DecideKeeps(definition, s, now);
    hide Decide, Sound, WellFormed, UndoesNext;
  }

  /** One step without a pending dispatch appends nothing and, unless an advance may begin a dispatch,
      leaves none pending. */
  lemma StepAppendsNothing(definition: Definition, world: World, e: Event, compensation: bool)
    requires WellFormed(definition) && SoundWorld(definition, world) && IsAutomatic(e)
    requires !Pending(world, compensation)
    requires world.saga.cancellationRequested
             || (e.Act? ==> world.saga.timeoutAt <= e.now)
             || (Recovering(world.saga) && !compensation)
    ensures Issued(Apply(definition, world, e).outbox, compensation) == Issued(world.outbox, compensation)
    ensures !Pending(Apply(definition, world, e), compensation)
  {
    var next := Apply(definition, world, e);
    hide Sound, OutboxInOrder, AwaitedIsIssued, WellFormed, Evolves, MayDispatch;
    hide Decide, Signal, Cancel, Wait, DispatchFailed, Recovering, Issued;
    if e.Act? && e.id in world.workers {
      var w := world.workers[e.id];
      if w.stage.Advancing? {
        if w.seen == world.saga {
          if world.saga.cancellationRequested || world.saga.timeoutAt <= e.now {
            ClosedDecidesNothing(definition, w.seen, e.now);
          } else {
            RecoveringDecidesNoStep(definition, w.seen, e.now);
          }
        }
      } else if w.stage.Dispatching? {
        assert !PendingDispatch(world, e.id, compensation);
        IssuedAppend(world.outbox, Command(w.stage.step.name, w.stage.compensation), compensation);
      }
    }
    forall id <- next.workers ensures !PendingDispatch(next, id, compensation) {
      assert id in world.workers ==> !PendingDispatch(world, id, compensation);
    }
  }

  lemma {:induction false} ClosedRunAppendsNothing(
      definition: Definition, world: World, events: seq<Event>, compensation: bool)
    requires WellFormed(definition) && SoundWorld(definition, world) && Automatic(events)
    requires Closing(world, events) && !Pending(world, compensation)
    ensures Issued(Run(definition, world, events).outbox, compensation) == Issued(world.outbox, compensation)
    decreases |events|
  {
    hide SoundWorld, WellFormed, Apply, Pending, Issued, Recovering;
    if |events| != 0 {
      ApplyKeeps(definition, world, events[0]);
      ApplyEvolves(definition, world, events[0]);
      StepAppendsNothing(definition, world, events[0], compensation);
      ClosedRunAppendsNothing(definition, Apply(definition, world, events[0]), events[1..], compensation);
    }
  }

  lemma {:induction false} RecoveringRunAppendsNoStep(definition: Definition, world: World, events: seq<Event>)
    requires WellFormed(definition) && SoundWorld(definition, world) && Automatic(events)
    requires Recovering(world.saga) && !Pending(world, false)
    ensures Issued(Run(definition, world, events).outbox, false) == Issued(world.outbox, false)
    decreases |events|
  {
    hide SoundWorld, WellFormed, Apply, Pending, Issued, Recovering;
    if |events| != 0 {
      ApplyKeeps(definition, world, events[0]);
      ApplyEvolves(definition, world, events[0]);
      StepAppendsNothing(definition, world, events[0], false);
      RecoveringRunAppendsNoStep(definition, Apply(definition, world, events[0]), events[1..]);
    }
  }

  lemma PendingAppends(definition: Definition, world: World, id: nat, now: int, compensation: bool)
    requires WellFormed(definition) && SoundWorld(definition, world) && PendingDispatch(world, id, compensation)
    ensures Issued(Run(definition, world, [Act(id, now, false)]).outbox, compensation) != Issued(world.outbox, compensation)
  {
    hide Sound, OutboxInOrder, AwaitedIsIssued, WellFormed, Evolves, MayDispatch, CommandName, Issued;
    var w := world.workers[id];
    DispatchedHaveCommands(definition, w.seen, w.stage.step, w.stage.compensation);
    IssuedAppend(world.outbox, Command(w.stage.step.name, compensation), compensation);
    var after := Apply(definition, world, Act(id, now, false));
    assert Run(definition, after, []) == after;
    assert [Act(id, now, false)][1..] == [];
  }

  /** Once recovery or cancellation has begun, no forward command is ever issued again, exactly when no
      worker was caught between deciding to dispatch one and appending it. */
  lemma NoStepAfterRecovery(definition: Definition, world: World)
    requires WellFormed(definition) && SoundWorld(definition, world) && Recovering(world.saga)
    ensures (forall events: seq<Event> | Automatic(events) ::
              Issued(Run(definition, world, events).outbox, false) == Issued(world.outbox, false))
            <==> !Pending(world, false)
  {
    hide SoundWorld, WellFormed, Recovering, Issued, Run;
    if Pending(world, false) {
      var id :| PendingDispatch(world, id, false);
      PendingAppends(definition, world, id, 0, false);
      assert Automatic([Act(id, 0, false)]);
    } else {
      forall events: seq<Event> | Automatic(events)
        ensures Issued(Run(definition, world, events).outbox, false) == Issued(world.outbox, false)
      {
        RecoveringRunAppendsNoStep(definition, world, events);
      }
    }
  }

  /** A cancelled or timed-out saga issues no command of either kind any more, compensations included,
      exactly when none was caught in flight: `advance` restarts the recovery before it reaches the branch
      that compensates. */
  lemma ClosedSagaDispatchesNothing(definition: Definition, world: World, compensation: bool)
    requires WellFormed(definition) && SoundWorld(definition, world)
    ensures (forall events: seq<Event> | Automatic(events) && Closing(world, events) ::
              Issued(Run(definition, world, events).outbox, compensation) == Issued(world.outbox, compensation))
            <==> !Pending(world, compensation)
  {
    hide SoundWorld, WellFormed, Issued, Run;
    if Pending(world, compensation) {
      var id :| PendingDispatch(world, id, compensation);
      PendingAppends(definition, world, id, world.saga.timeoutAt, compensation);
      assert Automatic([Act(id, world.saga.timeoutAt, false)]);
      assert Closing(world, [Act(id, world.saga.timeoutAt, false)]);
    } else {
      forall events: seq<Event> | Automatic(events) && Closing(world, events)
        ensures Issued(Run(definition, world, events).outbox, compensation) == Issued(world.outbox, compensation)
      {
        ClosedRunAppendsNothing(definition, world, events, compensation);
      }
    }
  }

  /** Such a worker exists in some run of every definition: a cancellation between the first write of an
      advance and its append. */
  lemma CancelCanRaceADispatch(definition: Definition, now: int)
    requires WellFormed(definition) && definition.timeoutMs > 0
    ensures exists events: seq<Event> | Automatic(events) ::
              var w := Run(definition, Started(definition, now), events);
              Recovering(w.saga) && Pending(w, false)
  {
    hide NextUndo, Recover, Counter;
    StepAt(definition, 0);
    hide FindStep, WellFormed;
    var events := [Call(0, Advancing), Act(0, now, false), Call(1, Cancelling), Act(1, now, false)];
    var w0 := Started(definition, now);
    var w1 := Apply(definition, w0, events[0]);
    var w2 := Apply(definition, w1, events[1]);
    var w3 := Apply(definition, w2, events[2]);
    var w4 := Apply(definition, w3, events[3]);
    assert events[1..][1..][1..][1..] == [];
    assert Run(definition, w0, events) == Run(definition, w1, events[1..]) == Run(definition, w2, events[1..][1..]);
    assert Run(definition, w2, events[1..][1..]) == Run(definition, w3, events[1..][1..][1..]) == w4;
    assert PendingDispatch(w4, 0, false);
    assert Automatic(events);
  }

  // ---- cancellation ----------------------------------------------------------------------------------------

  lemma CancelledStep(definition: Definition, world: World, e: Event)
    requires WellFormed(definition) && SoundWorld(definition, world) && IsAutomatic(e)
    requires world.saga.cancellationRequested
    ensures Apply(definition, world, e).saga.compensationSteps == world.saga.compensationSteps
  {
    hide OutboxInOrder, AwaitedIsIssued, WellFormed, Evolves, MayDispatch, StepsInOrder, UndoInOrder, KnownSteps;
    hide Decide, NextUndo, FindStep, CommandName, AtFirstUncompleted, UndoesNext;
    if e.Act? && e.id in world.workers && world.workers[e.id].seen == world.saga {
      var w := world.workers[e.id];
      if w.stage.Advancing? {
        DecideWritesPlainly(definition, w.seen, e.now);
      } else if w.stage.Dispatching? {
        DispatchedHaveCommands(definition, w.seen, w.stage.step, w.stage.compensation);
      }
    }
  }

  /** What a saga had undone when it was cancelled is all that will ever be undone. */
  lemma {:induction false} CancellationUndoesNothing(definition: Definition, world: World, events: seq<Event>)
    requires WellFormed(definition) && SoundWorld(definition, world) && Automatic(events)
    requires world.saga.cancellationRequested
    ensures var s := Run(definition, world, events).saga;
            && s.completedSteps == world.saga.completedSteps
            && s.compensationSteps == world.saga.compensationSteps
    decreases |events|
  {
    hide SoundWorld, WellFormed, Apply;
    if |events| != 0 {
      ApplyKeeps(definition, world, events[0]);
      ApplyEvolves(definition, world, events[0]);
      CancelledStep(definition, world, events[0]);
      CancellationUndoesNothing(definition, Apply(definition, world, events[0]), events[1..]);
    }
  }

  /** A cancellation can end in `cancelled` exactly when no step was completed before it. */
  lemma CancelledIffNothingCompleted(definition: Definition, world: World)
    requires WellFormed(definition) && SoundWorld(definition, world) && world.saga.cancellationRequested
    ensures (exists events: seq<Event> | Automatic(events) :: Run(definition, world, events).saga.status == Cancelled)
            <==> world.saga.completedSteps == []
  {
    hide WellFormed, Run, UndoOrder, FindStep, Issued;
    if world.saga.completedSteps == [] {
      if world.saga.status == Cancelled {
        RunNothing(definition, world);
      } else {
        ReachCancelled(definition, world);
      }
    }
    forall events: seq<Event> | Automatic(events) && Run(definition, world, events).saga.status == Cancelled
      ensures world.saga.completedSteps == []
    {
      CancellationUndoesNothing(definition, world, events);
      RunKeeps(definition, world, events);
    }
  }

  lemma RunNothing(definition: Definition, world: World)
    ensures Run(definition, world, []) == world && Automatic([])
  {}

  lemma ReachCancelled(definition: Definition, world: World)
    requires world.saga.cancellationRequested && world.saga.completedSteps == []
    requires world.saga.status !in {Completed, Cancelled}
    ensures exists events: seq<Event> | Automatic(events) :: Run(definition, world, events).saga.status == Cancelled
  {
    var events := [Crash(0), Call(0, Cancelling), Act(0, 0, false), Call(0, Advancing), Act(0, 0, false)];
    var w1 := Apply(definition, world, events[0]);
    var w2 := Apply(definition, w1, events[1]);
    var w3 := Apply(definition, w2, events[2]);
    var w4 := Apply(definition, w3, events[3]);
    var w5 := Apply(definition, w4, events[4]);
    assert events[1..][1..][1..][1..][1..] == [];
    assert Run(definition, world, events) == Run(definition, w1, events[1..]) == Run(definition, w2, events[1..][1..]);
    assert Run(definition, w2, events[1..][1..]) == Run(definition, w3, events[1..][1..][1..])
        == Run(definition, w4, events[1..][1..][1..][1..]) == w5;
    assert Automatic(events);
  }
}
