/** One saga document, its definition, and every transition the orchestrator can write to it. */
module SagaModel {
  import opened Numbers
  import opened Options

  datatype Compensation = Compensation(name: string, command: string)

  /** Names that neither split an event id nor nest in a dotted update path. */
  type StepName = name: string | forall i :: 0 <= i < |name| ==> name[i] != ':' && name[i] != '.' witness ""

  datatype Step = Step(
    name: StepName,
    command: string,
    maxAttempts: nat,
    timeoutMs: nat,
    compensation: Option<Compensation>,
    irreversible: bool)

  datatype Definition = Definition(sagaType: string, timeoutMs: nat, steps: seq<Step>)

  datatype Status =
    | Pending | Running | WaitingExternal | WaitingRetry
    | Compensating | Completed | Cancelled | ManualIntervention

  /** `attempts` holds the top-level numeric entries of the stored `stepAttempts` object, and
      `undoAttempts` the nested object that the dotted update path `stepAttempts.compensate.<step>`
      creates under its `compensate` key. */
  datatype Saga = Saga(
    status: Status,
    currentStep: Option<string>,
    completedSteps: seq<string>,
    compensationSteps: seq<string>,
    attempts: map<string, nat>,
    undoAttempts: map<string, nat>,
    version: nat,
    timeoutAt: int,
    nextAttemptAt: Option<int>,
    stepDeadlineAt: Option<int>,
    cancellationRequested: bool,
    awaitingCompensation: bool)

  /** What identifies an outbox row written for a saga. */
  datatype Command = Command(step: string, compensation: bool)

  predicate WellFormedStep(step: Step) {
    && step.command != ""
    && step.maxAttempts >= 1
    && (step.compensation.Some? ==> step.compensation.value.command != "")
  }

  /** What the definition table guarantees of every definition in it. */
  predicate WellFormed(definition: Definition) {
    && definition.steps != []
    && (forall i :: 0 <= i < |definition.steps| ==> WellFormedStep(definition.steps[i]))
    && (forall i, j :: 0 <= i < j < |definition.steps| ==> definition.steps[i].name != definition.steps[j].name)
  }

  // ---- lookups --------------------------------------------------------------------------------

  function FindStep(steps: seq<Step>, name: string): Option<Step> {
    if steps == [] then None
    else if steps[0].name == name then Some(steps[0])
    else FindStep(steps[1..], name)
  }

  function IndexOfStep(steps: seq<Step>, name: string): int {
    if steps == [] then -1
    else if steps[0].name == name then 0
    else var i := IndexOfStep(steps[1..], name); if i < 0 then -1 else i + 1
  }

  function Names(steps: seq<Step>): (names: seq<string>)
    ensures |names| == |steps|
    ensures forall i :: 0 <= i < |steps| ==> names[i] == steps[i].name
  {
    seq(|steps|, i requires 0 <= i < |steps| => steps[i].name)
  }

  predicate Compensable(steps: seq<Step>, name: string) {
    var step := FindStep(steps, name);
    step.Some? && step.value.compensation.Some?
  }

  /** The last completed step that can be compensated and is not in `done`. */
  function NextUndo(steps: seq<Step>, completed: seq<string>, done: seq<string>): Option<string> {
    if completed == [] then None
    else
      var last := completed[|completed| - 1];
      if last !in done && Compensable(steps, last) then Some(last)
      else NextUndo(steps, completed[..|completed| - 1], done)
  }

  function AddToSet(names: seq<string>, name: string): seq<string> {
    if name in names then names else names + [name]
  }

  function Counter(counters: map<string, nat>, key: string, default: nat): nat {
    if key in counters then counters[key] else default
  }

  // ---- transitions: each is one compare-and-set that increments the version ---------------------

  function NewSaga(definition: Definition, now: int): Saga {
    Saga(Pending,
         Some(if definition.steps == [] then "" else definition.steps[0].name),
         [], [], map[], map[], 0, now + definition.timeoutMs, None, None, false, false)
  }

  function Manual(s: Saga): Saga {
    s.(status := ManualIntervention, version := s.version + 1)
  }

  function Complete(s: Saga): Saga {
    s.(status := Completed, currentStep := None, version := s.version + 1)
  }

  /** `beginRecovery` */
  function Recover(definition: Definition, s: Saga): Saga {
    match NextUndo(definition.steps, s.completedSteps, [])
    case None =>
      if s.cancellationRequested && s.completedSteps == []
      then s.(status := Cancelled, version := s.version + 1)
      else Manual(s)
    case Some(name) =>
      s.(status := Compensating, currentStep := Some(name), version := s.version + 1)
  }

  function StartStep(s: Saga, step: Step): Saga {
    s.(status := Running,
       attempts := s.attempts[step.name := Counter(s.attempts, step.name, 0) + 1],
       version := s.version + 1)
  }

  function StartUndo(s: Saga, step: Step): Saga {
    s.(undoAttempts := s.undoAttempts[step.name := Counter(s.undoAttempts, step.name, 0) + 1],
       version := s.version + 1)
  }

  /** `stepSucceeded` */
  function Succeed(definition: Definition, s: Saga, step: Step): Saga {
    var next := IndexOfStep(definition.steps, step.name) + 1;
    var more := 0 <= next < |definition.steps|;
    s.(status := if more then Pending else Completed,
       currentStep := if more then Some(definition.steps[next].name) else None,
       awaitingCompensation := false,
       nextAttemptAt := None,
       stepDeadlineAt := None,
       completedSteps := AddToSet(s.completedSteps, step.name),
       version := s.version + 1)
  }

  /** A compensation that completed without waiting for an external signal. */
  function UndoInline(s: Saga, step: Step): Saga {
    s.(compensationSteps := AddToSet(s.compensationSteps, step.name),
       status := Compensating,
       version := s.version + 1)
  }

  function FinishUndo(s: Saga): Saga {
    s.(status := if s.cancellationRequested then Cancelled else ManualIntervention,
       version := s.version + 1)
  }

  /** `waitForExternal` */
  function Wait(s: Saga, step: Step, compensation: bool, now: int): Saga {
    s.(currentStep := Some(step.name),
       status := WaitingExternal,
       awaitingCompensation := compensation,
       stepDeadlineAt := Some(Min(s.timeoutAt, now + step.timeoutMs)),
       version := s.version + 1)
  }

  /** The write after a dispatch threw. The attempt count is the one the step was started with. */
  function DispatchFailed(definition: Definition, s: Saga, step: Step, compensation: bool, now: int): Saga {
    if compensation then Manual(s)
    else
      var attempts := Counter(s.attempts, step.name, 1);
      if attempts >= step.maxAttempts then Recover(definition, s)
      else
        var delay := Min(60_000, 1000 * Pow2(if attempts == 0 then 0 else attempts - 1));
        s.(status := WaitingRetry, nextAttemptAt := Some(now + delay), version := s.version + 1)
  }

  // ---- the decisions of the service methods ----------------------------------------------------

  datatype Decision =
    | Leave
    | Put(saga: Saga)
    | Begin(saga: Saga, step: Step, compensation: bool)

  function DecideUndo(definition: Definition, s: Saga): Decision {
    match NextUndo(definition.steps, s.completedSteps, s.compensationSteps)
    case None => Put(FinishUndo(s))
    case Some(name) =>
      var step := FindStep(definition.steps, name);
      if step.None? || step.value.compensation.None? then Put(Manual(s))
      else Begin(StartUndo(s, step.value), step.value, true)
  }

  /** `advance`, up to and including its first write. */
  function Decide(definition: Definition, s: Saga, now: int): Decision {
    if s.status in {Completed, Cancelled, ManualIntervention} then Leave
    else if s.timeoutAt <= now then Put(Recover(definition, s))
    else if s.cancellationRequested then Put(Recover(definition, s))
    else if s.status == WaitingRetry && s.nextAttemptAt.Some? && s.nextAttemptAt.value > now then Leave
    else if s.status == WaitingExternal then
      if s.stepDeadlineAt.Some? && s.stepDeadlineAt.value <= now then Put(Recover(definition, s))
      else Leave
    else if s.status == Compensating then DecideUndo(definition, s)
    else
      var step := if s.currentStep.None? then None else FindStep(definition.steps, s.currentStep.value);
      if step.None? then Put(Complete(s)) else Begin(StartStep(s, step.value), step.value, false)
  }

  /** `signal`; `None` is the conflict raised when the saga is not waiting for the step. The attempt
      count of a compensation is read under the flat key, which the dotted write never fills. */
  function Signal(definition: Definition, s: Saga, name: string, success: bool, now: int): Option<Saga> {
    if s.status != WaitingExternal || s.currentStep != Some(name) then None
    else
      var found := FindStep(definition.steps, name);
      if found.None? then Some(Manual(s))
      else
        var step := found.value;
        if s.awaitingCompensation then
          if !success then
            if Counter(s.attempts, "compensate." + step.name, 1) >= step.maxAttempts then Some(Manual(s))
            else Some(s.(status := Compensating, awaitingCompensation := false,
                         nextAttemptAt := Some(now), stepDeadlineAt := None, version := s.version + 1))
          else
            Some(s.(compensationSteps := AddToSet(s.compensationSteps, step.name),
                    status := Compensating, awaitingCompensation := false,
                    stepDeadlineAt := None, version := s.version + 1))
        else if !success then
          if Counter(s.attempts, step.name, 1) >= step.maxAttempts then Some(Recover(definition, s))
          else Some(s.(status := WaitingRetry, nextAttemptAt := Some(now), stepDeadlineAt := None,
                       version := s.version + 1))
        else Some(Succeed(definition, s, step))
  }

  function Cancel(s: Saga): Option<Saga> {
    if s.status in {Completed, Cancelled} then None
    else Some(s.(cancellationRequested := true, status := Pending, version := s.version + 1))
  }

  function OperatorRetry(s: Saga, now: int): Option<Saga> {
    if s.status !in {WaitingRetry, ManualIntervention} then None
    else Some(s.(status := if s.compensationSteps != [] then Compensating else Pending,
                 nextAttemptAt := Some(now), version := s.version + 1))
  }

  function OperatorResume(definition: Definition, s: Saga, step: Option<string>): Option<Saga> {
    if s.status != ManualIntervention then None
    else if step.Some? && step.value != "" && FindStep(definition.steps, step.value).None? then None
    else Some(s.(status := if s.cancellationRequested then Compensating else Pending,
                 currentStep := if step.Some? then step else s.currentStep, version := s.version + 1))
  }

  /** The outbox command of a step; empty where the definition names none. */
  function CommandName(step: Step, compensation: bool): string {
    if !compensation then step.command
    else if step.compensation.Some? then step.compensation.value.command
    else ""
  }

  /** Appending under the unique event id: a duplicate key leaves the store as it is. */
  function Append(outbox: seq<Command>, command: Command): seq<Command> {
    if command in outbox then outbox else outbox + [command]
  }
}
