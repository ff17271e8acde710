/** The service methods as functions of the stored state, each run without interleaving, and what such
    runs bound. */
module SagaCalls {
  import opened Options
  import opened SagaAttempts
  import opened SagaDefinitions
  import opened SagaInvariants
  import opened SagaMachine
  import opened SagaModel
  import opened SagaOperators
  import opened SagaTheorems

  // ---- what one call does -------------------------------------------------------------------------------

  datatype Stored = Stored(saga: Saga, outbox: seq<Command>)

  function DispatchCall(
      definition: Definition, s: Stored, step: Step, compensation: bool, now: int, appendFails: bool): Stored {
    if CommandName(step, compensation) == "" then
      Stored(if compensation then UndoInline(s.saga, step) else Succeed(definition, s.saga, step), s.outbox)
    else if appendFails then
      Stored(DispatchFailed(definition, s.saga, step, compensation, now), s.outbox)
    else
      Stored(Wait(s.saga, step, compensation, now), Append(s.outbox, Command(step.name, compensation)))
  }

  function AdvanceCall(definition: Definition, s: Stored, now: int, appendFails: bool): Stored {
    match Decide(definition, s.saga, now)
    case Leave => s
    case Put(t) => Stored(t, s.outbox)
    case Begin(t, step, compensation) =>
      DispatchCall(definition, Stored(t, s.outbox), step, compensation, now, appendFails)
  }

  datatype Call =
    | AdvanceOp(now: int, appendFails: bool)
    | SignalOp(name: string, success: bool, now: int)
    | CancelOp

  function Perform(definition: Definition, s: Stored, call: Call): Stored {
    match call
    case AdvanceOp(now, appendFails) => AdvanceCall(definition, s, now, appendFails)
    case SignalOp(name, success, now) =>
      var t := Signal(definition, s.saga, name, success, now);
      if t.Some? then Stored(t.value, s.outbox) else s
    case CancelOp =>
      if Cancel(s.saga).Some? then Stored(Cancel(s.saga).value, s.outbox) else s
  }

  function PerformAll(definition: Definition, s: Stored, calls: seq<Call>): Stored
    decreases |calls|
  {
    if |calls| == 0 then s else PerformAll(definition, Perform(definition, s, calls[0]), calls[1..])
  }

  function StageOf(call: Call): Stage {
    match call
    case AdvanceOp(_, _) => Advancing
    case SignalOp(name, success, _) => Signalling(name, success)
    case CancelOp => Cancelling
  }

  function ClockOf(call: Call): int {
    match call case AdvanceOp(now, _) => now case SignalOp(_, _, now) => now case CancelOp => 0
  }

  /** The worker's steps of a call that nothing interrupts. */
  function EventsOf(call: Call): seq<Event> {
    var act := Act(0, ClockOf(call), call.AdvanceOp? && call.appendFails);
    [Event.Call(0, StageOf(call)), act, act, act]
  }

  function AtRest(s: Stored): World { World(s.saga, s.outbox, map[]) }

  /** A call is one of the runs of the concurrent machine. */
  lemma CallIsARun(definition: Definition, s: Stored, call: Call)
    ensures Run(definition, AtRest(s), EventsOf(call)) == AtRest(Perform(definition, s, call))
    ensures Automatic(EventsOf(call))
  {
    var events := EventsOf(call);
    var act := events[1];
    var w1 := Apply(definition, AtRest(s), events[0]);
    var w2 := Apply(definition, w1, act);
    var w3 := Apply(definition, w2, act);
    var w4 := Apply(definition, w3, act);
    assert w1.workers == map[0 := Worker(s.saga, StageOf(call))];
    assert events[1..][1..][1..][1..] == [];
    RunCons(definition, AtRest(s), events);
    RunCons(definition, w1, events[1..]);
    RunCons(definition, w2, events[1..][1..]);
    RunCons(definition, w3, events[1..][1..][1..]);
    assert w4 == AtRest(Perform(definition, s, call)) by {
      hide Decide, Signal, Cancel, Succeed, UndoInline, DispatchFailed, Wait, CommandName, Run, Append;
      CallSteps(definition, s, call);
    }
  }

  lemma RunCons(definition: Definition, world: World, events: seq<Event>)
    requires |events| > 0
    ensures Run(definition, world, events) == Run(definition, Apply(definition, world, events[0]), events[1..])
  {}

  lemma CallSteps(definition: Definition, s: Stored, call: Call)
    ensures var act := EventsOf(call)[1];
            var w1 := World(s.saga, s.outbox, map[0 := Worker(s.saga, StageOf(call))]);
            Apply(definition, Apply(definition, Apply(definition, w1, act), act), act)
            == AtRest(Perform(definition, s, call))
  {
    hide Decide, Signal, Cancel, Succeed, UndoInline, DispatchFailed, Wait, CommandName, Append;
    var act := EventsOf(call)[1];
    var w1 := World(s.saga, s.outbox, map[0 := Worker(s.saga, StageOf(call))]);
    var w2 := Apply(definition, w1, act);
    var w3 := Apply(definition, w2, act);
    if call.AdvanceOp? && Decide(definition, s.saga, call.now).Begin? {
      var d := Decide(definition, s.saga, call.now);
      assert w2 == World(d.saga, s.outbox, map[0 := Worker(d.saga, Dispatching(d.step, d.compensation))]);
    } else {
      assert w2.workers == map[];
      assert w3 == w2;
    }
  }

  // ---- attempts ---------------------------------------------------------------------------------------------

  /** Between uninterrupted calls no step is running, and every step is within its limit. */
  predicate WithinAttempts(steps: seq<Step>, s: Saga) {
    s.status != Running && forall i :: 0 <= i < |steps| ==> Within(steps, s, i, 0)
  }

  predicate NoAdvancer(w: World) {
    forall id <- w.workers :: !w.workers[id].stage.Advancing?
  }

  lemma ActKeepsNoAdvancer(definition: Definition, w: World, e: Event)
    requires NoAdvancer(w) && e.Act?
    ensures NoAdvancer(Apply(definition, w, e))
  {
    hide Signal, Cancel, OperatorRetry, OperatorResume, CommandName, Append, Wait, DispatchFailed, Succeed, UndoInline;
  }

  lemma AdvanceLeavesNoAdvancer(definition: Definition, s: Stored, call: Call)
    ensures var started := World(s.saga, s.outbox, map[0 := Worker(s.saga, StageOf(call))]);
            NoAdvancer(Apply(definition, started, EventsOf(call)[1]))
  {
    hide Decide, Signal, Cancel;
  }

  /** Only the first step of an uninterrupted call can start a step, and it finds the document at rest. */
  lemma CallsDoNotOverlap(definition: Definition, s: Stored, call: Call, i: nat)
    requires i < |definition.steps| && s.saga.status != Running
    ensures Overlaps(definition, AtRest(s), EventsOf(call), i) == 0
  {
    var events := EventsOf(call);
    var act := events[1];
    var w1 := Apply(definition, AtRest(s), events[0]);
    assert w1 == World(s.saga, s.outbox, map[0 := Worker(s.saga, StageOf(call))]);
    var w2 := Apply(definition, w1, act);
    AdvanceLeavesNoAdvancer(definition, s, call);
    ActKeepsNoAdvancer(definition, w2, act);
    hide Apply, Decide;
    OverlapsUnfold(definition, AtRest(s), events, i);
    OverlapsUnfold(definition, w1, events[1..], i);
    OverlapsUnfold(definition, w2, events[1..][1..], i);
    OverlapsUnfold(definition, Apply(definition, w2, act), events[1..][1..][1..], i);
    hide Overlaps;
    assert events[1..][1..][1..][1..] == [];
  }

  lemma OverlapsUnfold(definition: Definition, w: World, events: seq<Event>, i: nat)
    requires i < |definition.steps| && |events| > 0
    ensures Overlaps(definition, w, events, i)
            == (if IsOverlap(definition, w, events[0], i) then 1 else 0)
               + Overlaps(definition, Apply(definition, w, events[0]), events[1..], i)
    ensures Overlaps(definition, w, [], i) == 0
  {}

  lemma DispatchEndsAtRest(definition: Definition, s: Stored, step: Step, compensation: bool, now: int, appendFails: bool)
    ensures DispatchCall(definition, s, step, compensation, now, appendFails).saga.status != Running
  {
    hide NextUndo, IndexOfStep, CommandName, Append;
  }

  lemma CallsEndAtRest(definition: Definition, s: Stored, call: Call)
    requires s.saga.status != Running
    ensures Perform(definition, s, call).saga.status != Running
  {
    if call.AdvanceOp? {
      var d := Decide(definition, s.saga, call.now);
      if d.Begin? {
        DispatchEndsAtRest(definition, Stored(d.saga, s.outbox), d.step, d.compensation, call.now, call.appendFails);
        hide Decide;
      } else {
        hide FindStep, NextUndo;
      }
      hide DispatchCall;
    } else {
      hide FindStep, NextUndo, IndexOfStep;
    }
  }

  lemma PerformStaysWithin(definition: Definition, s: Stored, call: Call, i: nat)
    requires WellFormed(definition) && SoundWorld(definition, AtRest(s)) && s.saga.status != Running
    requires i < |definition.steps| && Within(definition.steps, s.saga, i, 0)
    ensures Within(definition.steps, Perform(definition, s, call).saga, i, 0)
  {
    hide Perform, SoundWorld, WellFormed, Run, EventsOf, Within, Overlaps, IsAutomatic;
    CallIsARun(definition, s, call);
    CallsDoNotOverlap(definition, s, call, i);
    RunStaysWithin(definition, AtRest(s), EventsOf(call), i, 0);
  }

  lemma PerformKeeps(definition: Definition, s: Stored, call: Call)
    requires WellFormed(definition) && SoundWorld(definition, AtRest(s)) && WithinAttempts(definition.steps, s.saga)
    ensures SoundWorld(definition, AtRest(Perform(definition, s, call)))
    ensures WithinAttempts(definition.steps, Perform(definition, s, call).saga)
  {
    hide Perform, SoundWorld, WellFormed, Run, EventsOf, Within, IsAutomatic;
    CallsEndAtRest(definition, s, call);
    CallIsARun(definition, s, call);
    RunKeeps(definition, AtRest(s), EventsOf(call));
    forall i | 0 <= i < |definition.steps| ensures Within(definition.steps, Perform(definition, s, call).saga, i, 0) {
      PerformStaysWithin(definition, s, call, i);
    }
  }

  lemma {:induction false} PerformAllKeeps(definition: Definition, s: Stored, calls: seq<Call>)
    requires WellFormed(definition) && SoundWorld(definition, AtRest(s)) && WithinAttempts(definition.steps, s.saga)
    ensures SoundWorld(definition, AtRest(PerformAll(definition, s, calls)))
    ensures WithinAttempts(definition.steps, PerformAll(definition, s, calls).saga)
    decreases |calls|
  {
    hide SoundWorld, WellFormed, WithinAttempts, Perform, AtRest;
    if |calls| != 0 {
      PerformKeeps(definition, s, calls[0]);
      PerformAllKeeps(definition, Perform(definition, s, calls[0]), calls[1..]);
    }
  }

  lemma NewSagaIsWithinAttempts(definition: Definition, now: int)
    requires WellFormed(definition)
    ensures WithinAttempts(definition.steps, NewSaga(definition, now))
  {
    hide WellFormed, Within;
    forall i | 0 <= i < |definition.steps| ensures Within(definition.steps, NewSaga(definition, now), i, 0) {
      NewSagaIsWithin(definition, now, i);
    }
  }

  lemma {:induction false} SumOfLimits(steps: seq<Step>, s: Saga)
    requires forall i :: 0 <= i < |steps| ==> AttemptsOf(s, steps[i]) <= steps[i].maxAttempts
    ensures TotalAttempts(steps, s) <= TotalAllowed(steps)
  {
    if steps != [] { SumOfLimits(steps[1..], s); }
  }

  /** However uninterrupted calls and signals fail, no step is started more often than its limit, so all
      dispatches together are bounded by the sum of the limits. */
  lemma AttemptsAreBounded(definition: Definition, now: int, calls: seq<Call>)
    requires WellFormed(definition)
    ensures var s := PerformAll(definition, Stored(NewSaga(definition, now), []), calls).saga;
            && (forall i :: 0 <= i < |definition.steps| ==>
                  AttemptsOf(s, definition.steps[i]) <= definition.steps[i].maxAttempts)
            && TotalAttempts(definition.steps, s) <= TotalAllowed(definition.steps)
  {
    var start := Stored(NewSaga(definition, now), []);
    StartedIsSound(definition, now);
    NewSagaIsWithinAttempts(definition, now);
    PerformAllKeeps(definition, start, calls);
    hide PerformAll, WellFormed;
    forall i | 0 <= i < |definition.steps|
      ensures AttemptsOf(PerformAll(definition, start, calls).saga, definition.steps[i]) <= definition.steps[i].maxAttempts
    {
      assert Within(definition.steps, PerformAll(definition, start, calls).saga, i, 0);
    }
    SumOfLimits(definition.steps, PerformAll(definition, start, calls).saga);
  }

  /** The first `n` workers each load the saga and start its current step. */
  function Storm(n: nat, now: int): seq<Event> {
    if n == 0 then [] else Storm(n - 1, now) + [Event.Call(n - 1, Advancing), Act(n - 1, now, false)]
  }

  lemma {:induction false} RunAppended(definition: Definition, world: World, first: seq<Event>, rest: seq<Event>)
    ensures Run(definition, world, first + rest) == Run(definition, Run(definition, world, first), rest)
    decreases |first|
  {
    if |first| == 0 {
      assert first + rest == rest;
    } else {
      assert (first + rest)[0] == first[0] && (first + rest)[1..] == first[1..] + rest;
      RunAppended(definition, Apply(definition, world, first[0]), first[1..], rest);
    }
  }

  /** A new worker loads the saga and starts its current step once more. */
  lemma StormRound(definition: Definition, w: World, id: nat, now: int)
    requires WellFormed(definition) && id !in w.workers
    requires w.saga.status in {Pending, Running} && w.saga.currentStep == Some(definition.steps[0].name)
    requires !w.saga.cancellationRequested && w.saga.timeoutAt > now
    ensures var v := Apply(definition, Apply(definition, w, Event.Call(id, Advancing)), Act(id, now, false));
            && AttemptsOf(v.saga, definition.steps[0]) == AttemptsOf(w.saga, definition.steps[0]) + 1
            && v.saga.status in {Pending, Running} && v.saga.currentStep == w.saga.currentStep
            && !v.saga.cancellationRequested && v.saga.timeoutAt > now
            && (forall other <- v.workers :: other in w.workers || other == id)
  {
    StepAt(definition, 0);
    hide FindStep, WellFormed;
  }

  /** The overlaps do count: workers that all find the step running start it once each, so interleaved advances
      reach any number of attempts. */
  lemma {:induction false} InterleavedAdvancesAreUnbounded(definition: Definition, now: int, n: nat)
    requires WellFormed(definition) && definition.timeoutMs > 0
    ensures Automatic(Storm(n, now))
    ensures var w := Run(definition, Started(definition, now), Storm(n, now));
            && AttemptsOf(w.saga, definition.steps[0]) == n
            && w.saga.status in {Pending, Running} && w.saga.currentStep == Some(definition.steps[0].name)
            && !w.saga.cancellationRequested && w.saga.timeoutAt > now
            && (forall id <- w.workers :: id < n)
  {
    if n > 0 {
      InterleavedAdvancesAreUnbounded(definition, now, n - 1);
      var w := Run(definition, Started(definition, now), Storm(n - 1, now));
      var events := [Event.Call(n - 1, Advancing), Act(n - 1, now, false)];
      RunAppended(definition, Started(definition, now), Storm(n - 1, now), events);
      RunCons(definition, w, events);
      RunCons(definition, Apply(definition, w, events[0]), events[1..]);
      StormRound(definition, w, n - 1, now);
      hide Run, Apply, WellFormed, AttemptsOf;
      assert events[1..] == [events[1]] && [events[1]][1..] == [];
      RunNothing(definition, Apply(definition, Apply(definition, w, events[0]), events[1]));
    }
  }

  /** A failed compensation is retried without end unless its step allows a single attempt: the counter is
      written under a nested path and read under a flat key that nothing fills. */
  lemma FailedCompensationIsRetried(definition: Definition, s: Saga, now: int)
    requires WellFormed(definition) && Sound(definition, s)
    requires s.status == WaitingExternal && s.awaitingCompensation
    ensures var name := s.currentStep.value;
            var t := Signal(definition, s, name, false, now).value;
            && FindStep(definition.steps, name).Some?
            && t.status in {Compensating, ManualIntervention}
            && (t.status == ManualIntervention <==> FindStep(definition.steps, name).value.maxAttempts <= 1)
  {
    CompletedAreDistinct(definition, s);
    ConfirmUndoKeeps(definition.steps, s.completedSteps, s.compensationSteps, s.currentStep.value);
    var step := FindStep(definition.steps, s.currentStep.value).value;
    if "compensate." + step.name in s.attempts {
      AttemptKeysAreFlat(definition.steps, "compensate." + step.name, step.name);
    }
  }
}
