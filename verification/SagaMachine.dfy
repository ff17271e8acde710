/** The orchestrator under concurrency: any number of workers, each between a read of the saga
    document and its compare-and-set on the version it read, sharing the document and the outbox. */
module SagaMachine {
  import opened Options
  import opened SagaInvariants
  import opened SagaModel

  /** Where a worker stands. The first five are the service methods, before their first write. */
  datatype Stage =
    | Advancing
    | Signalling(name: string, success: bool)
    | Cancelling
    | OperatorRetrying
    | OperatorResuming(resumeAt: Option<string>)
    | Dispatching(step: Step, compensation: bool)
    | WaitWrite(step: Step, compensation: bool)
    | FailureWrite(step: Step, compensation: bool)

  /** A worker and the version of the document it last read or wrote. */
  datatype Worker = Worker(seen: Saga, stage: Stage)

  datatype World = World(saga: Saga, outbox: seq<Command>, workers: map<nat, Worker>)

  /** One atomic step: a method call reads the document, a worker performs its next store operation,
      or a worker dies. */
  datatype Event =
    | Call(id: nat, stage: Stage)
    | Act(id: nat, now: int, appendFails: bool)
    | Crash(id: nat)

  predicate IsMethod(stage: Stage) {
    stage.Advancing? || stage.Signalling? || stage.Cancelling? || stage.OperatorRetrying? || stage.OperatorResuming?
  }

  predicate IsAutomatic(e: Event) {
    e.Call? ==> !e.stage.OperatorRetrying? && !e.stage.OperatorResuming?
  }

  /** The compare-and-set of `SagaRepository.transition`. A worker whose version is stale gets the
      conflict and stops; otherwise it goes on to `next`, if it has more to do. */
  function Commit(world: World, id: nat, t: Saga, next: Option<Stage>): World
    requires id in world.workers
  {
    if world.workers[id].seen.version != world.saga.version then world.(workers := world.workers - {id})
    else World(t, world.outbox,
               if next.Some? then world.workers[id := Worker(t, next.value)] else world.workers - {id})
  }

  function Stop(world: World, id: nat): World {
    world.(workers := world.workers - {id})
  }

  function ActOf(definition: Definition, world: World, id: nat, now: int, appendFails: bool): World
    requires id in world.workers
  {
    var s := world.workers[id].seen;
    match world.workers[id].stage
    case Advancing =>
      (match Decide(definition, s, now)
       case Leave => Stop(world, id)
       case Put(t) => Commit(world, id, t, None)
       case Begin(t, step, compensation) => Commit(world, id, t, Some(Dispatching(step, compensation))))
    case Signalling(name, success) =>
      (match Signal(definition, s, name, success, now)
       case None => Stop(world, id)
       case Some(t) => Commit(world, id, t, None))
    case Cancelling =>
      (match Cancel(s) case None => Stop(world, id) case Some(t) => Commit(world, id, t, None))
    case OperatorRetrying =>
      (match OperatorRetry(s, now) case None => Stop(world, id) case Some(t) => Commit(world, id, t, None))
    case OperatorResuming(resumeAt) =>
      (match OperatorResume(definition, s, resumeAt)
       case None => Stop(world, id)
       case Some(t) => Commit(world, id, t, None))
    case Dispatching(step, compensation) =>
      if CommandName(step, compensation) == "" then
        Commit(world, id, if compensation then UndoInline(s, step) else Succeed(definition, s, step), None)
      else if appendFails then
        world.(workers := world.workers[id := Worker(s, FailureWrite(step, compensation))])
      else
        World(world.saga, Append(world.outbox, Command(step.name, compensation)),
              world.workers[id := Worker(s, WaitWrite(step, compensation))])
    case WaitWrite(step, compensation) => Commit(world, id, Wait(s, step, compensation, now), None)
    case FailureWrite(step, compensation) =>
      Commit(world, id, DispatchFailed(definition, s, step, compensation, now), None)
  }

  function Apply(definition: Definition, world: World, e: Event): World {
    match e
    case Call(id, stage) =>
      if id in world.workers || !IsMethod(stage) then world
      else world.(workers := world.workers[id := Worker(world.saga, stage)])
    case Act(id, now, appendFails) =>
      if id in world.workers then ActOf(definition, world, id, now, appendFails) else world
    case Crash(id) => Stop(world, id)
  }

  function Run(definition: Definition, world: World, events: seq<Event>): World
    decreases |events|
  {
    if |events| == 0 then world
    else Run(definition, Apply(definition, world, events[0]), events[1..])
  }

  function Started(definition: Definition, now: int): World {
    World(NewSaga(definition, now), [], map[])
  }

  // ---- what the outbox holds -----------------------------------------------------------------------

  /** The steps whose forward commands, or whose compensations, were appended, oldest first. */
  function Issued(outbox: seq<Command>, compensation: bool): seq<string> {
    if outbox == [] then []
    else
      var last := outbox[|outbox| - 1];
      Issued(outbox[..|outbox| - 1], compensation) + (if last.compensation == compensation then [last.step] else [])
  }

  lemma {:induction false} IssuedMembers(outbox: seq<Command>, compensation: bool)
    ensures forall name :: name in Issued(outbox, compensation) <==> Command(name, compensation) in outbox
  {
    if outbox != [] {
      var init := outbox[..|outbox| - 1];
      IssuedMembers(init, compensation);
      assert outbox == init + [outbox[|outbox| - 1]];
    }
  }

  lemma IssuedAppend(outbox: seq<Command>, command: Command, compensation: bool)
    ensures Issued(outbox + [command], compensation) ==
            Issued(outbox, compensation) + (if command.compensation == compensation then [command.step] else [])
  {
    assert (outbox + [command])[..|outbox|] == outbox;
  }

  /** The forward commands are the completed steps and at most one more; the compensations are the
      confirmed ones and at most one more. Both lie in the order they must. */
  predicate OutboxInOrder(steps: seq<Step>, s: Saga, outbox: seq<Command>) {
    && Issued(outbox, false) <= Names(steps)
    && |s.completedSteps| <= |Issued(outbox, false)| <= |s.completedSteps| + 1
    && Issued(outbox, true) <= UndoOrder(steps, s.completedSteps)
    && |s.compensationSteps| <= |Issued(outbox, true)| <= |s.compensationSteps| + 1
    && (!Recovering(s) ==> Issued(outbox, true) == [])
  }

  predicate AwaitedIsIssued(s: Saga, outbox: seq<Command>) {
    s.status == WaitingExternal ==>
      s.currentStep.Some? && Command(s.currentStep.value, s.awaitingCompensation) in outbox
  }

  predicate SoundWorker(definition: Definition, saga: Saga, outbox: seq<Command>, w: Worker) {
    && Sound(definition, w.seen)
    && Evolves(w.seen, saga)
    && w.seen.version <= saga.version
    && (w.seen.version == saga.version ==> w.seen == saga)
    && (w.stage.Dispatching? || w.stage.WaitWrite? || w.stage.FailureWrite? ==>
          MayDispatch(definition, w.seen, w.stage.step, w.stage.compensation))
    && (w.stage.WaitWrite? ==> Command(w.stage.step.name, w.stage.compensation) in outbox)
    && !w.stage.OperatorRetrying? && !w.stage.OperatorResuming?
  }

  predicate SoundWorld(definition: Definition, world: World) {
    && Sound(definition, world.saga)
    && OutboxInOrder(definition.steps, world.saga, world.outbox)
    && AwaitedIsIssued(world.saga, world.outbox)
    && (forall id <- world.workers :: SoundWorker(definition, world.saga, world.outbox, world.workers[id]))
  }

  // ---- one write ---------------------------------------------------------------------------------------

  lemma CommitKeeps(definition: Definition, world: World, id: nat, t: Saga, next: Option<Stage>)
    requires SoundWorld(definition, world) && id in world.workers
    requires var s := world.workers[id].seen;
             s == world.saga ==>
               && SoundWrite(definition, s, t)
               && OutboxInOrder(definition.steps, t, world.outbox)
               && AwaitedIsIssued(t, world.outbox)
    requires next.Some? ==> next.value.Dispatching? && MayDispatch(definition, t, next.value.step, next.value.compensation)
    ensures SoundWorld(definition, Commit(world, id, t, next))
  {
    hide Sound, MayDispatch, OutboxInOrder, AwaitedIsIssued, Recovering;
  }

  lemma PlainWriteKeepsOutbox(definition: Definition, s: Saga, t: Saga, outbox: seq<Command>)
    requires OutboxInOrder(definition.steps, s, outbox) && Evolves(s, t) && PlainWrite(s, t)
    ensures OutboxInOrder(definition.steps, t, outbox) && AwaitedIsIssued(t, outbox)
  {
    hide Issued, UndoOrder, Names;
  }

  /** If the first uncompleted step has been issued, exactly one step is issued beyond the completed ones. */
  lemma IssuedBeyondCompleted(definition: Definition, s: Saga, outbox: seq<Command>, step: Step)
    requires WellFormed(definition) && OutboxInOrder(definition.steps, s, outbox)
    requires |s.completedSteps| < |definition.steps| && step == definition.steps[|s.completedSteps|]
    requires Command(step.name, false) in outbox
    ensures |Issued(outbox, false)| == |s.completedSteps| + 1
  {
    IssuedMembers(outbox, false);
    NamesAreDistinct(definition, |definition.steps|);
    var i :| 0 <= i < |Issued(outbox, false)| && Issued(outbox, false)[i] == step.name;
    assert Names(definition.steps)[i] == step.name;
  }

  lemma IssuedBeyondUndone(definition: Definition, s: Saga, outbox: seq<Command>, name: string)
    requires WellFormed(definition) && Sound(definition, s) && OutboxInOrder(definition.steps, s, outbox)
    requires UndoesNext(definition.steps, s.completedSteps, s.compensationSteps, name)
    requires Command(name, true) in outbox
    ensures |Issued(outbox, true)| == |s.compensationSteps| + 1
  {
    IssuedMembers(outbox, true);
    CompletedAreDistinct(definition, s);
    UndoOrderMembers(definition.steps, s.completedSteps);
    var order := UndoOrder(definition.steps, s.completedSteps);
    var i :| 0 <= i < |Issued(outbox, true)| && Issued(outbox, true)[i] == name;
    assert order[i] == name;
  }

  lemma SignalKeepsOutbox(definition: Definition, s: Saga, name: string, success: bool, now: int, outbox: seq<Command>)
    requires WellFormed(definition) && Sound(definition, s)
    requires OutboxInOrder(definition.steps, s, outbox) && AwaitedIsIssued(s, outbox)
    requires Signal(definition, s, name, success, now).Some?
    ensures var t := Signal(definition, s, name, success, now).value;
            OutboxInOrder(definition.steps, t, outbox) && AwaitedIsIssued(t, outbox)
  {
    hide FindStep, UndoOrder, Issued, WellFormed;
    var t := Signal(definition, s, name, success, now).value;
    SignalKeeps(definition, s, name, success, now);
    if !success {
      PlainWriteKeepsOutbox(definition, s, t, outbox);
    } else if s.awaitingCompensation {
      IssuedBeyondUndone(definition, s, outbox, name);
      CompletedAreDistinct(definition, s);
      ConfirmUndoKeeps(definition.steps, s.completedSteps, s.compensationSteps, name);
    } else {
      StepAt(definition, |s.completedSteps|);
      IssuedBeyondCompleted(definition, s, outbox, definition.steps[|s.completedSteps|]);
      SucceedKeeps(definition, s, definition.steps[|s.completedSteps|]);
    }
  }

  // ---- the append, which is not guarded by the version ---------------------------------------------------

  lemma ExtendPrefix(issued: seq<string>, order: seq<string>, i: nat)
    requires issued <= order && i < |order| && i <= |issued| && order[i] !in issued
    ensures i == |issued| && issued + [order[i]] <= order
  {
    if i < |issued| {
      assert false;
    }
  }

  lemma AppendForwardKeeps(steps: seq<Step>, saga: Saga, outbox: seq<Command>, i: nat)
    requires OutboxInOrder(steps, saga, outbox)
    requires i < |steps| && i <= |saga.completedSteps| && Command(steps[i].name, false) !in outbox
    ensures OutboxInOrder(steps, saga, outbox + [Command(steps[i].name, false)])
  {
    hide Issued, UndoOrder, Recovering;
    IssuedMembers(outbox, false);
    IssuedAppend(outbox, Command(steps[i].name, false), true);
    IssuedAppend(outbox, Command(steps[i].name, false), false);
    ExtendPrefix(Issued(outbox, false), Names(steps), i);
  }

  lemma AppendUndoKeeps(steps: seq<Step>, saga: Saga, outbox: seq<Command>, i: nat)
    requires OutboxInOrder(steps, saga, outbox) && Recovering(saga)
    requires i < |UndoOrder(steps, saga.completedSteps)| && i <= |saga.compensationSteps|
    requires Command(UndoOrder(steps, saga.completedSteps)[i], true) !in outbox
    ensures OutboxInOrder(steps, saga, outbox + [Command(UndoOrder(steps, saga.completedSteps)[i], true)])
  {
    hide Issued, UndoOrder, Recovering, Names;
    var order := UndoOrder(steps, saga.completedSteps);
    IssuedMembers(outbox, true);
    IssuedAppend(outbox, Command(order[i], true), true);
    IssuedAppend(outbox, Command(order[i], true), false);
    ExtendPrefix(Issued(outbox, true), order, i);
  }

  /** Whatever happened since the worker read the document, its append keeps the outbox in order: the
      command is there already, or it is the one command that may come next. */
  lemma AppendKeeps(definition: Definition, s: Saga, saga: Saga, outbox: seq<Command>, step: Step, compensation: bool)
    requires Evolves(s, saga) && MayDispatch(definition, s, step, compensation)
    requires OutboxInOrder(definition.steps, saga, outbox) && AwaitedIsIssued(saga, outbox)
    ensures var after := Append(outbox, Command(step.name, compensation));
            OutboxInOrder(definition.steps, saga, after) && AwaitedIsIssued(saga, after)
  {
    hide OutboxInOrder, UndoOrder;
    if Command(step.name, compensation) !in outbox {
      if compensation {
        AppendUndoKeeps(definition.steps, saga, outbox, |s.compensationSteps|);
      } else {
        AppendForwardKeeps(definition.steps, saga, outbox, |s.completedSteps|);
      }
    }
  }

  lemma DispatchedHaveCommands(definition: Definition, s: Saga, step: Step, compensation: bool)
    requires WellFormed(definition) && MayDispatch(definition, s, step, compensation)
    ensures CommandName(step, compensation) != ""
  {
    hide UndoesNext;
    assert step in definition.steps;
    assert WellFormedStep(step);
  }

  lemma WaitKeepsOutbox(definition: Definition, s: Saga, step: Step, compensation: bool, now: int, outbox: seq<Command>)
    requires MayDispatch(definition, s, step, compensation)
    requires OutboxInOrder(definition.steps, s, outbox) && Command(step.name, compensation) in outbox
    ensures var t := Wait(s, step, compensation, now);
            OutboxInOrder(definition.steps, t, outbox) && AwaitedIsIssued(t, outbox)
  {
    hide Issued, UndoOrder, Names, UndoesNext;
  }

  // ---- every step ------------------------------------------------------------------------------------------

  lemma AdvanceKeeps(definition: Definition, world: World, id: nat, now: int, appendFails: bool)
    requires WellFormed(definition) && SoundWorld(definition, world)
    requires id in world.workers && world.workers[id].stage.Advancing?
    ensures SoundWorld(definition, ActOf(definition, world, id, now, appendFails))
  {
    hide Sound, MayDispatch, OutboxInOrder, AwaitedIsIssued, WellFormed, Decide, PlainWrite, Recovering;
    var s := world.workers[id].seen;
    var d := Decide(definition, s, now);
    DecideKeeps(definition, s, now);
    DecideWritesPlainly(definition, s, now);
    if !d.Leave? {
      if s == world.saga {
        PlainWriteKeepsOutbox(definition, s, d.saga, world.outbox);
      }
      CommitKeeps(definition, world, id, d.saga, if d.Begin? then Some(Dispatching(d.step, d.compensation)) else None);
    }
  }

  lemma DispatchKeeps(definition: Definition, world: World, id: nat, now: int, appendFails: bool)
    requires WellFormed(definition) && SoundWorld(definition, world)
    requires id in world.workers && world.workers[id].stage.Dispatching?
    ensures SoundWorld(definition, ActOf(definition, world, id, now, appendFails))
  {
    hide Sound, OutboxInOrder, AwaitedIsIssued, MayDispatch, WellFormed, Evolves, CommandName;
    var s := world.workers[id].seen;
    var stage := world.workers[id].stage;
    DispatchedHaveCommands(definition, s, stage.step, stage.compensation);
    AppendKeeps(definition, s, world.saga, world.outbox, stage.step, stage.compensation);
  }

  lemma WriteBackKeeps(definition: Definition, world: World, id: nat, now: int, appendFails: bool)
    requires SoundWorld(definition, world)
    requires id in world.workers && (world.workers[id].stage.WaitWrite? || world.workers[id].stage.FailureWrite?)
    ensures SoundWorld(definition, ActOf(definition, world, id, now, appendFails))
  {
    hide Sound, OutboxInOrder, AwaitedIsIssued, Recovering;
    var s := world.workers[id].seen;
    var stage := world.workers[id].stage;
    if stage.WaitWrite? {
      hide MayDispatch;
      WaitKeeps(definition, s, stage.step, stage.compensation, now);
      if s == world.saga {
        WaitKeepsOutbox(definition, s, stage.step, stage.compensation, now, world.outbox);
      }
      CommitKeeps(definition, world, id, Wait(s, stage.step, stage.compensation, now), None);
    } else {
      var t := DispatchFailed(definition, s, stage.step, stage.compensation, now);
      DispatchFailedKeeps(definition, s, stage.step, stage.compensation, now);
      if s == world.saga {
        PlainWriteKeepsOutbox(definition, s, t, world.outbox);
      }
      CommitKeeps(definition, world, id, t, None);
    }
  }

  lemma CallerKeeps(definition: Definition, world: World, id: nat, now: int, appendFails: bool)
    requires WellFormed(definition) && SoundWorld(definition, world)
    requires id in world.workers && (world.workers[id].stage.Signalling? || world.workers[id].stage.Cancelling?)
    ensures SoundWorld(definition, ActOf(definition, world, id, now, appendFails))
  {
    hide Sound, OutboxInOrder, AwaitedIsIssued, WellFormed, MayDispatch, Recovering;
    var s := world.workers[id].seen;
    var stage := world.workers[id].stage;
    if stage.Signalling? {
      var t := Signal(definition, s, stage.name, stage.success, now);
      SignalKeeps(definition, s, stage.name, stage.success, now);
      if t.Some? {
        if s == world.saga {
          SignalKeepsOutbox(definition, s, stage.name, stage.success, now, world.outbox);
        }
        CommitKeeps(definition, world, id, t.value, None);
      }
    } else {
      CancelKeeps(definition, s);
      if Cancel(s).Some? {
        if s == world.saga {
          PlainWriteKeepsOutbox(definition, s, Cancel(s).value, world.outbox);
        }
        CommitKeeps(definition, world, id, Cancel(s).value, None);
      }
    }
  }

  lemma CallKeeps(definition: Definition, world: World, id: nat, stage: Stage)
    requires SoundWorld(definition, world) && id !in world.workers
    requires IsMethod(stage) && IsAutomatic(Call(id, stage))
    ensures SoundWorld(definition, world.(workers := world.workers[id := Worker(world.saga, stage)]))
  {
    hide Sound, OutboxInOrder, AwaitedIsIssued, MayDispatch, Recovering;
  }

  lemma ApplyKeeps(definition: Definition, world: World, e: Event)
    requires WellFormed(definition) && SoundWorld(definition, world) && IsAutomatic(e)
    ensures SoundWorld(definition, Apply(definition, world, e))
  {
    if e.Act? {
      if e.id in world.workers {
        hide Sound, OutboxInOrder, AwaitedIsIssued, WellFormed, ActOf, MayDispatch, Evolves;
        var stage := world.workers[e.id].stage;
        if stage.Advancing? {
          AdvanceKeeps(definition, world, e.id, e.now, e.appendFails);
        } else if stage.Dispatching? {
          DispatchKeeps(definition, world, e.id, e.now, e.appendFails);
        } else if stage.WaitWrite? || stage.FailureWrite? {
          WriteBackKeeps(definition, world, e.id, e.now, e.appendFails);
        } else {
          CallerKeeps(definition, world, e.id, e.now, e.appendFails);
        }
      }
    } else if e.Call? {
      hide SoundWorld, WellFormed;
      if e.id !in world.workers && IsMethod(e.stage) {
        CallKeeps(definition, world, e.id, e.stage);
      }
    } else {
      hide Sound, OutboxInOrder, AwaitedIsIssued, WellFormed, SoundWorker;
    }
  }

  lemma {:induction false} RunKeeps(definition: Definition, world: World, events: seq<Event>)
    requires WellFormed(definition) && SoundWorld(definition, world)
    requires forall e <- events :: IsAutomatic(e)
    ensures SoundWorld(definition, Run(definition, world, events))
    decreases |events|
  {
    hide SoundWorld, WellFormed, Apply;
    if |events| != 0 {
      ApplyKeeps(definition, world, events[0]);
      RunKeeps(definition, Apply(definition, world, events[0]), events[1..]);
    }
  }
}
