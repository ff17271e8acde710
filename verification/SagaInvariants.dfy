/** What every transition keeps of one saga document. */
module SagaInvariants {
  import opened Options
  import opened SagaModel

  /** The compensable steps of `completed`, last completed first: the order in which a rollback must
      undo them. */
  function UndoOrder(steps: seq<Step>, completed: seq<string>): seq<string> {
    if completed == [] then []
    else
      var last := completed[|completed| - 1];
      (if Compensable(steps, last) then [last] else []) + UndoOrder(steps, completed[..|completed| - 1])
  }

  /** Recovery or cancellation has begun. */
  predicate Recovering(s: Saga) {
    || s.cancellationRequested
    || s.status in {Compensating, Cancelled, ManualIntervention}
    || (s.status == WaitingExternal && s.awaitingCompensation)
  }

  predicate StepsInOrder(steps: seq<Step>, completed: seq<string>) {
    |completed| <= |steps| && completed == Names(steps)[..|completed|]
  }

  predicate UndoInOrder(steps: seq<Step>, completed: seq<string>, undone: seq<string>) {
    undone <= UndoOrder(steps, completed)
  }

  /** `name` is the next step to compensate. */
  predicate UndoesNext(steps: seq<Step>, completed: seq<string>, undone: seq<string>, name: string) {
    |undone| < |UndoOrder(steps, completed)| && name == UndoOrder(steps, completed)[|undone|]
  }

  /** Before recovery the saga stands at its first uncompleted step. */
  predicate AtFirstUncompleted(steps: seq<Step>, completed: seq<string>, current: Option<string>) {
    |completed| < |steps| && current == Some(steps[|completed|].name)
  }

  predicate KnownSteps(steps: seq<Step>, attempts: map<string, nat>) {
    forall name <- attempts :: FindStep(steps, name).Some?
  }

  predicate Sound(definition: Definition, s: Saga) {
    var steps := definition.steps;
    && StepsInOrder(steps, s.completedSteps)
    && UndoInOrder(steps, s.completedSteps, s.compensationSteps)
    && KnownSteps(steps, s.attempts)
    && (!Recovering(s) ==> s.compensationSteps == [])
    && (!Recovering(s) && s.status != Completed ==> AtFirstUncompleted(steps, s.completedSteps, s.currentStep))
    && (s.status == Completed ==> |s.completedSteps| == |steps|)
    && (s.status == WaitingExternal && s.awaitingCompensation ==>
          s.currentStep.Some? && UndoesNext(steps, s.completedSteps, s.compensationSteps, s.currentStep.value))
    && (s.status == WaitingExternal ==> s.stepDeadlineAt.Some? && s.stepDeadlineAt.value <= s.timeoutAt)
    && (s.status == Cancelled ==> s.cancellationRequested && s.completedSteps == [])
    && (s.cancellationRequested ==> s.status in {Pending, Compensating, Cancelled, ManualIntervention})
  }

  /** How a document may differ from an earlier version of itself. */
  predicate Evolves(earlier: Saga, later: Saga) {
    && earlier.completedSteps <= later.completedSteps
    && earlier.compensationSteps <= later.compensationSteps
    && (Recovering(earlier) ==> Recovering(later) && later.completedSteps == earlier.completedSteps)
    && (earlier.cancellationRequested ==> later.cancellationRequested)
    && later.timeoutAt == earlier.timeoutAt
  }

  // ---- lookups --------------------------------------------------------------------------------

  lemma {:induction false} FindStepAt(steps: seq<Step>, i: nat)
    requires i < |steps|
    requires forall i, j :: 0 <= i < j < |steps| ==> steps[i].name != steps[j].name
    ensures FindStep(steps, steps[i].name) == Some(steps[i])
    ensures IndexOfStep(steps, steps[i].name) == i
  {
    if i > 0 {
      assert steps[0].name != steps[i].name;
      FindStepAt(steps[1..], i - 1);
    }
  }

  lemma StepAt(definition: Definition, i: nat)
    requires WellFormed(definition) && i < |definition.steps|
    ensures FindStep(definition.steps, definition.steps[i].name) == Some(definition.steps[i])
    ensures IndexOfStep(definition.steps, definition.steps[i].name) == i
  {
    FindStepAt(definition.steps, i);
  }

  lemma {:induction false} FoundStep(steps: seq<Step>, name: string)
    requires FindStep(steps, name).Some?
    ensures FindStep(steps, name).value in steps && FindStep(steps, name).value.name == name
  {
    if steps[0].name != name { FoundStep(steps[1..], name); }
  }

  lemma {:induction false} NamesAreDistinct(definition: Definition, k: nat)
    requires WellFormed(definition) && k <= |definition.steps|
    ensures forall i, j :: 0 <= i < j < k ==> Names(definition.steps)[i] != Names(definition.steps)[j]
  {
    forall i, j | 0 <= i < j < k ensures Names(definition.steps)[i] != Names(definition.steps)[j] {
      assert definition.steps[i].name != definition.steps[j].name;
    }
  }

  predicate Distinct(names: seq<string>) {
    forall i, j :: 0 <= i < j < |names| ==> names[i] != names[j]
  }

  lemma {:induction false} UndoOrderMembers(steps: seq<Step>, completed: seq<string>)
    requires Distinct(completed)
    ensures Distinct(UndoOrder(steps, completed))
    ensures forall name :: name in UndoOrder(steps, completed) <==> name in completed && Compensable(steps, name)
  {
    if completed != [] {
      UndoOrderMembers(steps, completed[..|completed| - 1]);
      assert completed == completed[..|completed| - 1] + [completed[|completed| - 1]];
    }
  }

  /** The scan `find` over the reversed completed steps yields exactly the next element of the undo
      order when a prefix of that order is already confirmed. */
  lemma {:induction false} NextUndoIsNextInOrder(steps: seq<Step>, completed: seq<string>, done: seq<string>)
    requires Distinct(completed)
    requires done <= UndoOrder(steps, completed)
    ensures var order := UndoOrder(steps, completed);
            NextUndo(steps, completed, done) == if |done| < |order| then Some(order[|done|]) else None
  {
    if completed != [] {
      var last := completed[|completed| - 1];
      var init := completed[..|completed| - 1];
      UndoOrderMembers(steps, init);
      if !Compensable(steps, last) {
        NextUndoIsNextInOrder(steps, init, done);
      } else if done != [] {
        assert done[0] == last;
        NextUndoIsNextInOrder(steps, init, done[1..]);
        NextUndoIgnores(steps, init, done, last);
      }
    }
  }

  lemma {:induction false} NextUndoIgnores(steps: seq<Step>, completed: seq<string>, done: seq<string>, name: string)
    requires name !in completed && done != [] && done[0] == name
    ensures NextUndo(steps, completed, done) == NextUndo(steps, completed, done[1..])
  {
    if completed != [] {
      NextUndoIgnores(steps, completed[..|completed| - 1], done, name);
    }
  }

  /** What the scan finds, whatever is passed as already undone. */
  lemma {:induction false} NextUndoFound(steps: seq<Step>, completed: seq<string>, done: seq<string>)
    requires NextUndo(steps, completed, done).Some?
    ensures var name := NextUndo(steps, completed, done).value;
            name in completed && name !in done && Compensable(steps, name)
  {
    var last := completed[|completed| - 1];
    if last in done || !Compensable(steps, last) {
      NextUndoFound(steps, completed[..|completed| - 1], done);
    }
  }

  lemma CompletedAreDistinct(definition: Definition, s: Saga)
    requires WellFormed(definition) && StepsInOrder(definition.steps, s.completedSteps)
    ensures Distinct(s.completedSteps)
    ensures forall i :: |s.completedSteps| <= i < |definition.steps| ==> definition.steps[i].name !in s.completedSteps
  {
    NamesAreDistinct(definition, |definition.steps|);
  }

  lemma {:induction false} AttemptKeysAreFlat(steps: seq<Step>, name: string, step: StepName)
    requires FindStep(steps, name).Some?
    ensures name != "compensate." + step
  {
    FoundStep(steps, name);
    var found: StepName := FindStep(steps, name).value.name;
    assert ("compensate." + step)[10] == '.';
  }

  // ---- every transition keeps soundness ----------------------------------------------------------

  lemma NewSagaIsSound(definition: Definition, now: int)
    requires WellFormed(definition)
    ensures Sound(definition, NewSaga(definition, now))
  {}

  /** A write that may follow `s`. */
  predicate SoundWrite(definition: Definition, s: Saga, t: Saga) {
    Sound(definition, t) && Evolves(s, t) && t.version == s.version + 1
  }

  lemma RecoverKeeps(definition: Definition, s: Saga)
    requires Sound(definition, s) && s.status !in {Completed, Cancelled}
    ensures SoundWrite(definition, s, Recover(definition, s))
    ensures Recovering(Recover(definition, s))
  {
    hide UndoOrder, FindStep, Names;
  }

  lemma SucceedKeeps(definition: Definition, s: Saga, step: Step)
    requires WellFormed(definition) && Sound(definition, s) && !Recovering(s)
    requires s.status != Completed && step == definition.steps[|s.completedSteps|]
    ensures var t := Succeed(definition, s, step);
            SoundWrite(definition, s, t) && t.completedSteps == s.completedSteps + [step.name]
  {
    StepAt(definition, |s.completedSteps|);
    CompletedAreDistinct(definition, s);
    assert Names(definition.steps)[..|s.completedSteps| + 1] == s.completedSteps + [step.name];
  }

  lemma ConfirmUndoKeeps(steps: seq<Step>, completed: seq<string>, undone: seq<string>, name: string)
    requires Distinct(completed)
    requires UndoInOrder(steps, completed, undone) && UndoesNext(steps, completed, undone, name)
    ensures AddToSet(undone, name) == undone + [name]
    ensures UndoInOrder(steps, completed, undone + [name])
    ensures FindStep(steps, name).Some? && FindStep(steps, name).value.name == name
  {
    UndoOrderMembers(steps, completed);
    assert name in UndoOrder(steps, completed);
    FoundStep(steps, name);
  }

  lemma DecideUndoKeeps(definition: Definition, s: Saga)
    requires WellFormed(definition) && Sound(definition, s)
    requires s.status == Compensating && !s.cancellationRequested
    ensures SoundDecision(definition, s, DecideUndo(definition, s))
    ensures DecideUndo(definition, s).Begin? <==>
            |s.compensationSteps| < |UndoOrder(definition.steps, s.completedSteps)|
  {
    CompletedAreDistinct(definition, s);
    NextUndoIsNextInOrder(definition.steps, s.completedSteps, s.compensationSteps);
    if NextUndo(definition.steps, s.completedSteps, s.compensationSteps).Some? {
      NextUndoFound(definition.steps, s.completedSteps, s.compensationSteps);
      FoundStep(definition.steps, NextUndo(definition.steps, s.completedSteps, s.compensationSteps).value);
    }
  }

  /** A decision writes a sound successor, and dispatches either the first uncompleted step before
      recovery or the next compensation due during it. */
  predicate SoundDecision(definition: Definition, s: Saga, d: Decision) {
    match d
    case Leave => true
    case Put(t) => SoundWrite(definition, s, t)
    case Begin(t, step, compensation) =>
      && SoundWrite(definition, s, t)
      && MayDispatch(definition, t, step, compensation)
  }

  predicate MayDispatch(definition: Definition, t: Saga, step: Step, compensation: bool) {
    if compensation then
      && t.status == Compensating && !t.cancellationRequested
      && step in definition.steps && step.compensation.Some?
      && UndoesNext(definition.steps, t.completedSteps, t.compensationSteps, step.name)
    else
      && t.status == Running && !t.cancellationRequested
      && |t.completedSteps| < |definition.steps| && step == definition.steps[|t.completedSteps|]
  }

  /** A write that neither completes nor confirms a step, and does not start waiting. */
  predicate PlainWrite(s: Saga, t: Saga) {
    && t.completedSteps == s.completedSteps
    && t.compensationSteps == s.compensationSteps
    && t.status != WaitingExternal
  }

  lemma DecideWritesPlainly(definition: Definition, s: Saga, now: int)
    ensures var d := Decide(definition, s, now); !d.Leave? ==> PlainWrite(s, d.saga)
  {
    hide FindStep, NextUndo;
  }

  lemma DecideKeeps(definition: Definition, s: Saga, now: int)
    requires WellFormed(definition) && Sound(definition, s)
    ensures SoundDecision(definition, s, Decide(definition, s, now))
  {
    var d := Decide(definition, s, now);
    if d == Leave {
    } else if d == Put(Recover(definition, s)) {
      RecoverKeeps(definition, s);
    } else if s.status == Compensating {
      DecideUndoKeeps(definition, s);
    } else {
      StartStepKeeps(definition, s);
    }
  }

  lemma StartStepKeeps(definition: Definition, s: Saga)
    requires WellFormed(definition) && Sound(definition, s) && !Recovering(s) && s.status != Completed
    ensures FindStep(definition.steps, s.currentStep.value) == Some(definition.steps[|s.completedSteps|])
    ensures var step := definition.steps[|s.completedSteps|];
            SoundDecision(definition, s, Begin(StartStep(s, step), step, false))
  {
    StepAt(definition, |s.completedSteps|);
  }

  lemma WaitKeeps(definition: Definition, s: Saga, step: Step, compensation: bool, now: int)
    requires Sound(definition, s)
    requires MayDispatch(definition, s, step, compensation)
    ensures SoundWrite(definition, s, Wait(s, step, compensation, now))
  {}

  lemma DispatchFailedKeeps(definition: Definition, s: Saga, step: Step, compensation: bool, now: int)
    requires Sound(definition, s) && MayDispatch(definition, s, step, compensation)
    ensures SoundWrite(definition, s, DispatchFailed(definition, s, step, compensation, now))
  {
    RecoverKeeps(definition, s);
  }

  lemma SignalUndoKeeps(definition: Definition, s: Saga, success: bool, now: int)
    requires WellFormed(definition) && Sound(definition, s)
    requires s.status == WaitingExternal && s.awaitingCompensation
    ensures var t := Signal(definition, s, s.currentStep.value, success, now);
            t.Some? && SoundWrite(definition, s, t.value)
  {
    CompletedAreDistinct(definition, s);
    ConfirmUndoKeeps(definition.steps, s.completedSteps, s.compensationSteps, s.currentStep.value);
  }

  lemma SignalForwardKeeps(definition: Definition, s: Saga, success: bool, now: int)
    requires WellFormed(definition) && Sound(definition, s)
    requires s.status == WaitingExternal && !s.awaitingCompensation
    ensures var t := Signal(definition, s, s.currentStep.value, success, now);
            t.Some? && SoundWrite(definition, s, t.value)
  {
    StepAt(definition, |s.completedSteps|);
    if success {
      SucceedKeeps(definition, s, definition.steps[|s.completedSteps|]);
    } else {
      RecoverKeeps(definition, s);
    }
  }

  lemma SignalKeeps(definition: Definition, s: Saga, name: string, success: bool, now: int)
    requires WellFormed(definition) && Sound(definition, s)
    ensures var t := Signal(definition, s, name, success, now);
            t.Some? ==> SoundWrite(definition, s, t.value)
  {
    if s.status == WaitingExternal && s.currentStep == Some(name) {
      if s.awaitingCompensation {
        SignalUndoKeeps(definition, s, success, now);
      } else {
        SignalForwardKeeps(definition, s, success, now);
      }
    }
  }

  lemma CancelKeeps(definition: Definition, s: Saga)
    requires Sound(definition, s)
    ensures var t := Cancel(s);
            t.Some? ==> SoundWrite(definition, s, t.value)
  {}
}
