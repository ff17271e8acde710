/** How often interleaved workers can start a step. */
module SagaAttempts {
  import opened Options
  import opened SagaInvariants
  import opened SagaMachine
  import opened SagaModel

  function AttemptsOf(s: Saga, step: Step): nat { Counter(s.attempts, step.name, 0) }

  /** The i-th step was started no more often than it may be and `spare` times besides; it was not started
      before its turn; and when it is about to be started an attempt is left. */
  predicate Within(steps: seq<Step>, s: Saga, i: nat, spare: nat)
    requires i < |steps|
  {
    var step := steps[i];
    && AttemptsOf(s, step) <= step.maxAttempts + spare
    && (|s.completedSteps| < i ==> step.name !in s.attempts)
    && (!Recovering(s) && s.status in {Pending, WaitingRetry} && |s.completedSteps| == i ==>
          AttemptsOf(s, step) < step.maxAttempts + spare)
  }

  /** The event is a committed start of the i-th step that finds the document already running: `advance` has no
      guard for that status. */
  predicate IsOverlap(definition: Definition, w: World, e: Event, i: nat)
    requires i < |definition.steps|
  {
    && e.Act? && e.id in w.workers && w.workers[e.id].stage.Advancing?
    && w.workers[e.id].seen.version == w.saga.version && w.saga.status == Running
    && var d := Decide(definition, w.workers[e.id].seen, e.now);
    d.Begin? && !d.compensation && d.step == definition.steps[i]
  }

  /** How many starts of the i-th step overlap another in a run. */
  function Overlaps(definition: Definition, w: World, events: seq<Event>, i: nat): nat
    requires i < |definition.steps|
    decreases |events|
  {
    if |events| == 0 then 0
    else (if IsOverlap(definition, w, events[0], i) then 1 else 0)
         + Overlaps(definition, Apply(definition, w, events[0]), events[1..], i)
  }

  // ---- one write -----------------------------------------------------------------------------------------------

  /** A write that starts nothing, completes nothing, and leaves nothing about to be started. */
  predicate Quiet(s: Saga, t: Saga) {
    && t.attempts == s.attempts && t.completedSteps == s.completedSteps
    && (Recovering(t) || t.status !in {Pending, WaitingRetry})
  }

  lemma QuietStaysWithin(steps: seq<Step>, s: Saga, t: Saga, i: nat, spare: nat)
    requires i < |steps| && Within(steps, s, i, spare) && Quiet(s, t)
    ensures Within(steps, t, i, spare)
  {}

  lemma RecoverIsQuiet(definition: Definition, s: Saga)
    ensures Quiet(s, Recover(definition, s))
  {
    hide NextUndo;
  }

  /** Starting the current step: one more than allowed only where another start is under way. */
  lemma StartStaysWithin(definition: Definition, s: Saga, i: nat, spare: nat)
    requires WellFormed(definition) && i < |definition.steps| && Within(definition.steps, s, i, spare)
    requires !Recovering(s) && s.status in {Pending, Running, WaitingRetry}
    requires |s.completedSteps| < |definition.steps|
    ensures var k := |s.completedSteps|;
            Within(definition.steps, StartStep(s, definition.steps[k]), i,
                   spare + if i == k && s.status == Running then 1 else 0)
  {
    var k := |s.completedSteps|;
    assert i != k ==> definition.steps[i].name != definition.steps[k].name;
    hide WellFormed;
  }

  /** A failed start goes back to waiting only with an attempt left. */
  lemma RetryStaysWithin(definition: Definition, s: Saga, t: Saga, i: nat, spare: nat)
    requires i < |definition.steps| && Within(definition.steps, s, i, spare)
    requires |s.completedSteps| < |definition.steps|
    requires var step := definition.steps[|s.completedSteps|]; Counter(s.attempts, step.name, 1) < step.maxAttempts
    requires t.attempts == s.attempts && t.completedSteps == s.completedSteps
    ensures Within(definition.steps, t, i, spare)
  {}

  lemma SucceedStaysWithin(definition: Definition, s: Saga, i: nat, spare: nat)
    requires WellFormed(definition) && Sound(definition, s) && !Recovering(s) && s.status != Completed
    requires i < |definition.steps| && Within(definition.steps, s, i, spare)
    ensures Within(definition.steps, Succeed(definition, s, definition.steps[|s.completedSteps|]), i, spare)
  {
    SucceedKeeps(definition, s, definition.steps[|s.completedSteps|]);
    assert WellFormedStep(definition.steps[i]);
    hide Sound, WellFormed, IndexOfStep, Evolves;
  }

  lemma DecideStaysWithin(definition: Definition, s: Saga, now: int, i: nat, spare: nat)
    requires WellFormed(definition) && Sound(definition, s)
    requires i < |definition.steps| && Within(definition.steps, s, i, spare)
    ensures var d := Decide(definition, s, now);
            var again := s.status == Running && d.Begin? && !d.compensation && d.step == definition.steps[i];
            !d.Leave? ==> Within(definition.steps, d.saga, i, spare + if again then 1 else 0)
  {
    var d := Decide(definition, s, now);
    if d.Leave? {
    } else if d == Put(Recover(definition, s)) {
      RecoverIsQuiet(definition, s);
      QuietStaysWithin(definition.steps, s, d.saga, i, spare);
    } else if s.status == Compensating {
      assert Quiet(s, d.saga) by { hide NextUndo, FindStep; }
      hide Decide, Within, Quiet;
      QuietStaysWithin(definition.steps, s, d.saga, i, spare);
    } else {
      StartStepKeeps(definition, s);
      assert |s.completedSteps| != i ==> definition.steps[|s.completedSteps|] != definition.steps[i];
      hide Within, WellFormed, Sound, FindStep;
      StartStaysWithin(definition, s, i, spare);
    }
  }

  lemma SignalStaysWithin(definition: Definition, s: Saga, name: string, success: bool, now: int, i: nat, spare: nat)
    requires WellFormed(definition) && Sound(definition, s)
    requires i < |definition.steps| && Within(definition.steps, s, i, spare)
    ensures var t := Signal(definition, s, name, success, now); t.Some? ==> Within(definition.steps, t.value, i, spare)
  {
    if s.status == WaitingExternal && s.currentStep == Some(name) {
      var t := Signal(definition, s, name, success, now).value;
      if s.awaitingCompensation {
        assert Quiet(s, t) by { hide FindStep, UndoOrder, Names; }
        QuietStaysWithin(definition.steps, s, t, i, spare);
      } else {
        StepAt(definition, |s.completedSteps|);
        RecoverIsQuiet(definition, s);
        if success {
          SucceedStaysWithin(definition, s, i, spare);
        } else if t == Recover(definition, s) {
          QuietStaysWithin(definition.steps, s, t, i, spare);
        } else {
          RetryStaysWithin(definition, s, t, i, spare);
        }
      }
    }
  }

  lemma FailureStaysWithin(definition: Definition, s: Saga, step: Step, compensation: bool, now: int, i: nat, spare: nat)
    requires MayDispatch(definition, s, step, compensation)
    requires i < |definition.steps| && Within(definition.steps, s, i, spare)
    ensures Within(definition.steps, DispatchFailed(definition, s, step, compensation, now), i, spare)
  {
    var t := DispatchFailed(definition, s, step, compensation, now);
    RecoverIsQuiet(definition, s);
    if compensation || t == Recover(definition, s) {
      QuietStaysWithin(definition.steps, s, t, i, spare);
    } else {
      RetryStaysWithin(definition, s, t, i, spare);
    }
  }

  // ---- every step ------------------------------------------------------------------------------------------------

  lemma CallerStaysWithin(definition: Definition, w: World, e: Event, i: nat, spare: nat)
    requires WellFormed(definition) && SoundWorld(definition, w)
    requires e.Act? && e.id in w.workers && w.workers[e.id].seen == w.saga
    requires var stage := w.workers[e.id].stage; stage.Advancing? || stage.Signalling? || stage.Cancelling?
    requires i < |definition.steps| && Within(definition.steps, w.saga, i, spare)
    ensures Within(definition.steps, Apply(definition, w, e).saga, i,
                   spare + if IsOverlap(definition, w, e, i) then 1 else 0)
  {
    var s, stage := w.workers[e.id].seen, w.workers[e.id].stage;
    assert Sound(definition, s);
    hide Within, Sound, WellFormed, SoundWorld, Decide, Signal;
    if stage.Advancing? {
      DecideStaysWithin(definition, s, e.now, i, spare);
    } else if stage.Signalling? {
      SignalStaysWithin(definition, s, stage.name, stage.success, e.now, i, spare);
    } else if Cancel(s).Some? {
      QuietStaysWithin(definition.steps, s, Cancel(s).value, i, spare);
    }
  }

  lemma DispatcherStaysWithin(definition: Definition, w: World, e: Event, i: nat, spare: nat)
    requires WellFormed(definition) && SoundWorld(definition, w)
    requires e.Act? && e.id in w.workers && w.workers[e.id].seen == w.saga
    requires var stage := w.workers[e.id].stage; stage.Dispatching? || stage.WaitWrite? || stage.FailureWrite?
    requires i < |definition.steps| && Within(definition.steps, w.saga, i, spare)
    ensures Within(definition.steps, Apply(definition, w, e).saga, i, spare)
  {
    hide Within, WellFormed, Append, MayDispatch, CommandName, Sound, Evolves, OutboxInOrder, AwaitedIsIssued;
    var s, stage := w.workers[e.id].seen, w.workers[e.id].stage;
    assert MayDispatch(definition, s, stage.step, stage.compensation);
    DispatchedHaveCommands(definition, s, stage.step, stage.compensation);
    hide SoundWorld;
    if stage.WaitWrite? {
      QuietStaysWithin(definition.steps, s, Wait(s, stage.step, stage.compensation, e.now), i, spare);
    } else if stage.FailureWrite? {
      FailureStaysWithin(definition, s, stage.step, stage.compensation, e.now, i, spare);
      hide DispatchFailed;
    }
  }

  /** A worker whose version is stale leaves the document as it is. */
  lemma StaleChangesNothing(definition: Definition, w: World, e: Event)
    requires WellFormed(definition) && SoundWorld(definition, w)
    requires e.Act? && e.id in w.workers && w.workers[e.id].seen.version != w.saga.version
    ensures Apply(definition, w, e).saga == w.saga
  {
    hide WellFormed, SoundWorld, Append, Decide, Signal, Cancel, OperatorRetry, OperatorResume, CommandName;
  }

  lemma ApplyStaysWithin(definition: Definition, w: World, e: Event, i: nat, spare: nat)
    requires WellFormed(definition) && SoundWorld(definition, w) && IsAutomatic(e)
    requires i < |definition.steps| && Within(definition.steps, w.saga, i, spare)
    ensures Within(definition.steps, Apply(definition, w, e).saga, i,
                   spare + if IsOverlap(definition, w, e, i) then 1 else 0)
  {
    if e.Act? && e.id in w.workers {
      var worker := w.workers[e.id];
      assert SoundWorker(definition, w.saga, w.outbox, worker);
      hide Within, WellFormed, Apply, SoundWorld, Sound, Evolves, MayDispatch;
      if worker.seen.version != w.saga.version {
        StaleChangesNothing(definition, w, e);
        hide SoundWorker;
      } else if worker.stage.Advancing? || worker.stage.Signalling? || worker.stage.Cancelling? {
        CallerStaysWithin(definition, w, e, i, spare);
      } else {
        DispatcherStaysWithin(definition, w, e, i, spare);
      }
    } else {
      hide SoundWorld, Within, WellFormed;
    }
  }

  lemma {:induction false} RunStaysWithin(definition: Definition, w: World, events: seq<Event>, i: nat, spare: nat)
    requires WellFormed(definition) && SoundWorld(definition, w) && forall e <- events :: IsAutomatic(e)
    requires i < |definition.steps| && Within(definition.steps, w.saga, i, spare)
    ensures Within(definition.steps, Run(definition, w, events).saga, i, spare + Overlaps(definition, w, events, i))
    decreases |events|
  {
    hide SoundWorld, WellFormed, Within, Apply, IsOverlap;
    if |events| != 0 {
      var next := Apply(definition, w, events[0]);
      ApplyKeeps(definition, w, events[0]);
      ApplyStaysWithin(definition, w, events[0], i, spare);
      RunStaysWithin(definition, next, events[1..], i, spare + if IsOverlap(definition, w, events[0], i) then 1 else 0);
    }
  }

  lemma NewSagaIsWithin(definition: Definition, now: int, i: nat)
    requires WellFormed(definition) && i < |definition.steps|
    ensures Within(definition.steps, NewSaga(definition, now), i, 0)
  {
    assert WellFormedStep(definition.steps[i]);
  }

  // ---- whole runs -------------------------------------------------------------------------------------------------

  function TotalAttempts(steps: seq<Step>, s: Saga): nat {
    if steps == [] then 0 else AttemptsOf(s, steps[0]) + TotalAttempts(steps[1..], s)
  }

  function TotalAllowed(steps: seq<Step>): nat {
    if steps == [] then 0 else steps[0].maxAttempts + TotalAllowed(steps[1..])
  }

  /** How many starts overlap another, of the steps from the i-th on. */
  function OverlapsFrom(definition: Definition, w: World, events: seq<Event>, i: nat): nat
    requires i <= |definition.steps|
    decreases |definition.steps| - i
  {
    if i == |definition.steps| then 0
    else Overlaps(definition, w, events, i) + OverlapsFrom(definition, w, events, i + 1)
  }

  lemma {:induction false} SumOfBounds(definition: Definition, s: Saga, w: World, events: seq<Event>, i: nat)
    requires i <= |definition.steps|
    requires forall j :: i <= j < |definition.steps| ==>
               AttemptsOf(s, definition.steps[j]) <= definition.steps[j].maxAttempts + Overlaps(definition, w, events, j)
    ensures TotalAttempts(definition.steps[i..], s)
            <= TotalAllowed(definition.steps[i..]) + OverlapsFrom(definition, w, events, i)
    decreases |definition.steps| - i
  {
    hide AttemptsOf, Overlaps;
    if i < |definition.steps| {
      assert definition.steps[i..][1..] == definition.steps[i + 1..];
      SumOfBounds(definition, s, w, events, i + 1);
    }
  }

  /** In every automatic run of the orchestrator, interleaved and crashing as it may be, a step is started no
      more often than its limit and once more for each start that overlaps another; and all steps together no more
      often than the sum. */
  lemma StartsAreBounded(definition: Definition, now: int, events: seq<Event>)
    requires WellFormed(definition) && forall e <- events :: IsAutomatic(e)
    ensures var w := Started(definition, now);
            var s := Run(definition, w, events).saga;
            && (forall i :: 0 <= i < |definition.steps| ==>
                  AttemptsOf(s, definition.steps[i])
                  <= definition.steps[i].maxAttempts + Overlaps(definition, w, events, i))
            && TotalAttempts(definition.steps, s)
               <= TotalAllowed(definition.steps) + OverlapsFrom(definition, w, events, 0)
  {
    var w := Started(definition, now);
    NewSagaIsSound(definition, now);
    assert SoundWorld(definition, w);
    hide SoundWorld, WellFormed, Run;
    forall i | 0 <= i < |definition.steps|
      ensures AttemptsOf(Run(definition, w, events).saga, definition.steps[i])
              <= definition.steps[i].maxAttempts + Overlaps(definition, w, events, i)
    {
      NewSagaIsWithin(definition, now, i);
      RunStaysWithin(definition, w, events, i, 0);
    }
    SumOfBounds(definition, Run(definition, w, events).saga, w, events, 0);
    assert definition.steps[0..] == definition.steps;
  }

  /** Some start in the run finds the document already running. */
  predicate SomeOverlap(definition: Definition, w: World, events: seq<Event>)
    decreases |events|
  {
    |events| > 0 &&
    ((exists i :: 0 <= i < |definition.steps| && IsOverlap(definition, w, events[0], i))
     || SomeOverlap(definition, Apply(definition, w, events[0]), events[1..]))
  }

  lemma {:induction false} NoOverlaps(definition: Definition, w: World, events: seq<Event>, i: nat)
    requires i < |definition.steps| && !SomeOverlap(definition, w, events)
    ensures Overlaps(definition, w, events, i) == 0
    decreases |events|
  {
    if |events| > 0 { NoOverlaps(definition, Apply(definition, w, events[0]), events[1..], i); }
  }

  lemma {:induction false} NoOverlapsFrom(definition: Definition, w: World, events: seq<Event>, i: nat)
    requires i <= |definition.steps| && !SomeOverlap(definition, w, events)
    ensures OverlapsFrom(definition, w, events, i) == 0
    decreases |definition.steps| - i
  {
    hide SomeOverlap;
    if i < |definition.steps| {
      NoOverlaps(definition, w, events, i);
      NoOverlapsFrom(definition, w, events, i + 1);
    }
  }

  /** So a run in which no start finds the document running respects every limit, crashes or not. */
  lemma WithoutOverlapLimitsHold(definition: Definition, now: int, events: seq<Event>)
    requires WellFormed(definition) && forall e <- events :: IsAutomatic(e)
    requires !SomeOverlap(definition, Started(definition, now), events)
    ensures var s := Run(definition, Started(definition, now), events).saga;
            && (forall i :: 0 <= i < |definition.steps| ==>
                  AttemptsOf(s, definition.steps[i]) <= definition.steps[i].maxAttempts)
            && TotalAttempts(definition.steps, s) <= TotalAllowed(definition.steps)
  {
    var w := Started(definition, now);
    StartsAreBounded(definition, now, events);
    hide Run, SomeOverlap, WellFormed;
    forall i | 0 <= i < |definition.steps| ensures Overlaps(definition, w, events, i) == 0 {
      NoOverlaps(definition, w, events, i);
    }
    NoOverlapsFrom(definition, w, events, 0);
  }
}
