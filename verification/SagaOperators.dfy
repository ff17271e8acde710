/** What holds of every run, operator retries and resumptions included, whatever the definition. */
module SagaOperators {
  import opened Options
  import opened SagaInvariants
  import opened SagaMachine
  import opened SagaModel

  predicate NoCommandTwice(outbox: seq<Command>) {
    forall i, j :: 0 <= i < j < |outbox| ==> outbox[i] != outbox[j]
  }

  predicate TrackedWorker(saga: Saga, outbox: seq<Command>, w: Worker) {
    && w.seen.version <= saga.version
    && (w.seen.version == saga.version ==> w.seen == saga)
    && (w.stage.WaitWrite? ==> Command(w.stage.step.name, w.stage.compensation) in outbox)
  }

  predicate Tracked(world: World) {
    && NoCommandTwice(world.outbox)
    && AwaitedIsIssued(world.saga, world.outbox)
    && (forall id <- world.workers :: TrackedWorker(world.saga, world.outbox, world.workers[id]))
  }

  /** A write after which the saga is not waiting for an external step. */
  predicate NextVersion(s: Saga, t: Saga) {
    t.version == s.version + 1 && t.status != WaitingExternal
  }

  lemma DecideIsNext(definition: Definition, s: Saga, now: int)
    ensures var d := Decide(definition, s, now); !d.Leave? ==> NextVersion(s, d.saga)
  {
    hide FindStep, NextUndo;
  }

  lemma SignalIsNext(definition: Definition, s: Saga, name: string, success: bool, now: int)
    ensures var t := Signal(definition, s, name, success, now); t.Some? ==> NextVersion(s, t.value)
  {
    hide FindStep, NextUndo, IndexOfStep;
  }

  lemma CommitTracks(world: World, id: nat, t: Saga, next: Option<Stage>)
    requires Tracked(world) && id in world.workers
    requires t.version == world.workers[id].seen.version + 1
    requires AwaitedIsIssued(t, world.outbox)
    requires next.Some? ==> !next.value.WaitWrite?
    ensures Tracked(Commit(world, id, t, next))
  {
    hide AwaitedIsIssued, NoCommandTwice;
  }

  lemma NextTracks(world: World, id: nat, t: Saga, next: Option<Stage>)
    requires Tracked(world) && id in world.workers && NextVersion(world.workers[id].seen, t)
    requires next.Some? ==> !next.value.WaitWrite?
    ensures Tracked(Commit(world, id, t, next))
  {
    hide NoCommandTwice, Commit;
    CommitTracks(world, id, t, next);
  }

  lemma WaitTracks(world: World, id: nat, step: Step, compensation: bool, now: int)
    requires Tracked(world) && id in world.workers && world.workers[id].stage == WaitWrite(step, compensation)
    ensures Tracked(Commit(world, id, Wait(world.workers[id].seen, step, compensation, now), None))
  {
    hide NoCommandTwice, Commit;
    CommitTracks(world, id, Wait(world.workers[id].seen, step, compensation, now), None);
  }

  lemma ActTracks(definition: Definition, world: World, id: nat, now: int, appendFails: bool)
    requires Tracked(world) && id in world.workers
    ensures Tracked(ActOf(definition, world, id, now, appendFails))
  {
    hide NoCommandTwice, AwaitedIsIssued, Commit, Decide, Signal, FindStep, NextUndo, IndexOfStep, Append;
    var w := world.workers[id];
    var s := w.seen;
    match w.stage {
      case Advancing =>
        var d := Decide(definition, s, now);
        DecideIsNext(definition, s, now);
        if !d.Leave? {
          NextTracks(world, id, d.saga, if d.Begin? then Some(Dispatching(d.step, d.compensation)) else None);
        }
      case Signalling(name, success) =>
        var t := Signal(definition, s, name, success, now);
        SignalIsNext(definition, s, name, success, now);
        if t.Some? { NextTracks(world, id, t.value, None); }
      case Cancelling =>
        if Cancel(s).Some? { NextTracks(world, id, Cancel(s).value, None); }
      case OperatorRetrying =>
        if OperatorRetry(s, now).Some? { NextTracks(world, id, OperatorRetry(s, now).value, None); }
      case OperatorResuming(resumeAt) =>
        var t := OperatorResume(definition, s, resumeAt);
        if t.Some? { NextTracks(world, id, t.value, None); }
      case Dispatching(step, compensation) =>
        if CommandName(step, compensation) == "" {
          var t := if compensation then UndoInline(s, step) else Succeed(definition, s, step);
          NextTracks(world, id, t, None);
        } else if !appendFails {
          AppendTracks(world, id, step, compensation);
        }
      case WaitWrite(step, compensation) =>
        WaitTracks(world, id, step, compensation, now);
      case FailureWrite(step, compensation) =>
        NextTracks(world, id, DispatchFailed(definition, s, step, compensation, now), None);
    }
  }

  lemma AppendTracks(world: World, id: nat, step: Step, compensation: bool)
    requires Tracked(world) && id in world.workers
    ensures var w := Worker(world.workers[id].seen, WaitWrite(step, compensation));
            Tracked(World(world.saga, Append(world.outbox, Command(step.name, compensation)), world.workers[id := w]))
  {
    var after := Append(world.outbox, Command(step.name, compensation));
    assert NoCommandTwice(after);
    assert forall c <- world.outbox :: c in after;
    hide NoCommandTwice, Append;
  }

  /** Over all runs each operation has at most one outbox row, however often it is retried, and a saga
      that waits for an operation has that operation's row in the outbox. */
  lemma {:induction false} EveryRunTracksItsCommands(definition: Definition, world: World, events: seq<Event>)
    requires Tracked(world)
    ensures Tracked(Run(definition, world, events))
    decreases |events|
  {
    hide NoCommandTwice, AwaitedIsIssued, ActOf;
    if |events| != 0 {
      var e := events[0];
      if e.Act? && e.id in world.workers {
        ActTracks(definition, world, e.id, e.now, e.appendFails);
      }
      EveryRunTracksItsCommands(definition, Apply(definition, world, e), events[1..]);
    }
  }

  lemma StartedIsTracked(definition: Definition, now: int)
    ensures Tracked(Started(definition, now))
  {}

  /** So from the start of a saga on: no operation has two outbox rows, and the operation a saga waits for has one. */
  lemma EveryCommandOnce(definition: Definition, now: int, events: seq<Event>)
    ensures var w := Run(definition, Started(definition, now), events);
            && (forall i, j :: 0 <= i < j < |w.outbox| ==> w.outbox[i] != w.outbox[j])
            && (w.saga.status == WaitingExternal ==>
                  w.saga.currentStep.Some? && Command(w.saga.currentStep.value, w.saga.awaitingCompensation) in w.outbox)
  {
    StartedIsTracked(definition, now);
    EveryRunTracksItsCommands(definition, Started(definition, now), events);
    hide Run, TrackedWorker;
  }

  // ---- event ids -------------------------------------------------------------------------------------------

  /** The deterministic event id under which an operation is appended. */
  function EventId(sagaId: string, step: StepName, compensation: bool): string {
    "saga:" + (sagaId + ":" + ((if compensation then "compensate:" else "") + step))
  }

  lemma SameUpToColon(a: string, b: string, x: string, y: string)
    requires a + ":" + x == b + ":" + y && ':' !in a && ':' !in b
    ensures a == b && x == y
  {
    var s := a + ":" + x;
    assert s == b + ":" + y;
    assert s[|a|] == ':' && s[|b|] == ':';
    assert forall i :: 0 <= i < |a| ==> s[i] == a[i] != ':';
    assert forall i :: 0 <= i < |b| ==> s[i] == b[i] != ':';
    assert a == s[..|a|] && x == s[|a| + 1..];
    assert b == s[..|b|] && y == s[|b| + 1..];
  }

  /** Distinct operations, of one saga or of two, have distinct event ids, so the unique index on the
      event id admits each operation once and never confuses two. */
  lemma EventIdsAreDistinct(saga1: string, step1: StepName, undo1: bool, saga2: string, step2: StepName, undo2: bool)
    requires ':' !in saga1 && ':' !in saga2
    requires EventId(saga1, step1, undo1) == EventId(saga2, step2, undo2)
    ensures saga1 == saga2 && step1 == step2 && undo1 == undo2
  {
    var name1 := (if undo1 then "compensate:" else "") + step1;
    var name2 := (if undo2 then "compensate:" else "") + step2;
    assert saga1 + ":" + name1 == EventId(saga1, step1, undo1)[5..];
    assert saga2 + ":" + name2 == EventId(saga2, step2, undo2)[5..];
    SameUpToColon(saga1, saga2, name1, name2);
    assert undo1 ==> name1[10] == ':' && step1 == name1[11..];
    assert undo2 ==> name2[10] == ':' && step2 == name2[11..];
    assert !undo1 ==> name1 == step1;
    assert !undo2 ==> name2 == step2;
  }

  // ---- what an operator's action leads to -------------------------------------------------------------------------

  predicate IsStep(definition: Definition, name: string) { exists step <- definition.steps :: step.name == name }

  lemma {:induction false} FindsStep(steps: seq<Step>, name: string)
    ensures FindStep(steps, name).Some? <==> exists step <- steps :: step.name == name
    ensures FindStep(steps, name).Some? ==> FindStep(steps, name).value.name == name
  {
    if steps != [] {
      FindsStep(steps[1..], name);
      assert steps == [steps[0]] + steps[1..];
    }
  }

  /** A retry is accepted for a saga that waits to retry or for intervention, and leaves its progress alone. The next
      `advance`, in time and without a cancellation, goes on undoing if some compensation was confirmed, and otherwise
      starts the current step. */
  lemma OperatorRetryGoesOn(definition: Definition, s: Saga, now: int, t: int)
    ensures OperatorRetry(s, now).Some? <==> s.status in {WaitingRetry, ManualIntervention}
    ensures OperatorRetry(s, now).Some? ==>
              var after := OperatorRetry(s, now).value;
              && after == s.(status := after.status, nextAttemptAt := Some(now), version := s.version + 1)
              && (now <= t < s.timeoutAt && !s.cancellationRequested ==>
                    if s.compensationSteps != [] then Decide(definition, after, t) == DecideUndo(definition, after)
                    else if s.currentStep.Some? && IsStep(definition, s.currentStep.value) then
                      && Decide(definition, after, t).Begin? && !Decide(definition, after, t).compensation
                      && Decide(definition, after, t).step.name == s.currentStep.value
                    else Decide(definition, after, t) == Put(Complete(after)))
  {
    if s.currentStep.Some? { FindsStep(definition.steps, s.currentStep.value); }
    hide FindStep, NextUndo, Recover;
  }

  lemma {:induction false} NextUndoIsCompensable(steps: seq<Step>, completed: seq<string>, done: seq<string>)
    ensures var next := NextUndo(steps, completed, done);
            next.Some? ==> FindStep(steps, next.value).Some? && FindStep(steps, next.value).value.compensation.Some?
  {
    if completed != [] { NextUndoIsCompensable(steps, completed[..|completed| - 1], done); }
  }

  /** A recovery names the step it undoes first, which the next `advance`, in time and without a cancellation, does. */
  lemma RecoveryUndoesItsStep(definition: Definition, s: Saga, t: int)
    requires Recover(definition, s).status == Compensating && s.compensationSteps == []
    requires !s.cancellationRequested && t < s.timeoutAt
    ensures var after := Recover(definition, s);
            var d := Decide(definition, after, t);
            && after.currentStep.Some? && d.Begin? && d.compensation
            && FindStep(definition.steps, after.currentStep.value) == Some(d.step)
  {
    NextUndoIsCompensable(definition.steps, s.completedSteps, []);
    hide FindStep, NextUndo;
  }

  /** But if the command of that first compensation cannot be appended, an operator's retry does not repeat it: it
      starts the step that was to be undone, although it is completed. */
  lemma RetryAfterFailedUndoStartsTheStep(definition: Definition, s: Saga, now: int, retried: int, t: int)
    requires Recover(definition, s).status == Compensating && s.compensationSteps == []
    requires !s.cancellationRequested && now < s.timeoutAt && retried <= t < s.timeoutAt
    ensures var d := Decide(definition, Recover(definition, s), now);
            && d.Begin? && d.compensation
            && var failed := DispatchFailed(definition, d.saga, d.step, true, now);
            && OperatorRetry(failed, retried).Some?
            && var again := Decide(definition, OperatorRetry(failed, retried).value, t);
            again.Begin? && !again.compensation && again.step == d.step
  {
    RecoveryUndoesItsStep(definition, s, now);
    hide FindStep, NextUndo;
  }

  /** Every start of a step and of a compensation is counted, each with its own counter. */
  lemma EveryStartIsCounted(definition: Definition, s: Saga, now: int)
    requires Decide(definition, s, now).Begin?
    ensures var d := Decide(definition, s, now);
            if d.compensation then
              && d.saga.attempts == s.attempts
              && d.saga.undoAttempts == s.undoAttempts[d.step.name := Counter(s.undoAttempts, d.step.name, 0) + 1]
            else
              && d.saga.undoAttempts == s.undoAttempts
              && d.saga.attempts == s.attempts[d.step.name := Counter(s.attempts, d.step.name, 0) + 1]
  {
    hide FindStep, NextUndo, Recover, Counter;
  }

  /** A resumption is accepted for a saga that waits for intervention and a step of its definition, or no step or an
      empty name. The next `advance`, in time, starts the step named, or the current one; it completes a saga resumed
      at the empty name, and begins the recovery of a cancelled one again. */
  lemma OperatorResumeGoesOn(definition: Definition, s: Saga, resumeAt: Option<string>, t: int)
    ensures OperatorResume(definition, s, resumeAt).Some? <==>
              && s.status == ManualIntervention
              && (resumeAt.Some? ==> resumeAt.value == "" || IsStep(definition, resumeAt.value))
    ensures OperatorResume(definition, s, resumeAt).Some? && t < s.timeoutAt ==>
              var after, at := OperatorResume(definition, s, resumeAt).value,
                               if resumeAt.Some? then resumeAt else s.currentStep;
              if s.cancellationRequested then Decide(definition, after, t) == Put(Recover(definition, after))
              else if at.Some? && IsStep(definition, at.value) then
                && Decide(definition, after, t).Begin? && !Decide(definition, after, t).compensation
                && Decide(definition, after, t).step.name == at.value
              else Decide(definition, after, t) == Put(Complete(after))
  {
    if resumeAt.Some? { FindsStep(definition.steps, resumeAt.value); }
    if s.currentStep.Some? { FindsStep(definition.steps, s.currentStep.value); }
    hide FindStep, NextUndo, Recover;
  }
}
