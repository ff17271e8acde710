/** How long a saga's steps wait: for an external signal, for a retry, and for the saga's own end; and when the jobs
    that a call leaves fall due. */
module SagaTimes {
  import opened Numbers
  import opened Options
  import opened SagaCalls
  import opened SagaInvariants
  import opened SagaJobs
  import opened SagaMachine
  import opened SagaModel
  import opened SagaTheorems

  // ---- a dispatched step ------------------------------------------------------------------------------------------

  /** A step or compensation that an `advance` dispatches has its time and the saga's: until the first of them runs
      out a later `advance` leaves the document alone, from then on it begins the recovery, and the job that the call
      queued falls due at just that instant. */
  lemma DispatchedStepHasItsTime(definition: Definition, s: Stored, now: int, t: int)
    requires var d := Decide(definition, s.saga, now); d.Begin? && CommandName(d.step, d.compensation) != ""
    ensures var step, after := Decide(definition, s.saga, now).step, AdvanceCall(definition, s, now, false).saga;
            var job := NextJob(s.saga, AdvanceOp(now, false), after);
            && (Decide(definition, after, t) == Leave <==> t < s.saga.timeoutAt && t < now + step.timeoutMs)
            && (Decide(definition, after, t) != Leave ==> Decide(definition, after, t) == Put(Recover(definition, after)))
            && job.Some? && job.value.delay >= 0
            && (Decide(definition, after, t) != Leave <==> t >= now + job.value.delay)
  {
    var d := Decide(definition, s.saga, now);
    BeginKeepsTimes(definition, s.saga, now);
    hide Recover, FindStep, NextUndo, Append, CommandName, DecideUndo;
    var after := AdvanceCall(definition, s, now, false).saga;
    assert after == Wait(d.saga, d.step, d.compensation, now);
  }

  lemma BeginKeepsTimes(definition: Definition, s: Saga, now: int)
    requires Decide(definition, s, now).Begin?
    ensures var d := Decide(definition, s, now);
            && s.timeoutAt > now && !s.cancellationRequested
            && d.saga.timeoutAt == s.timeoutAt && !d.saga.cancellationRequested
            && d.saga.currentStep == s.currentStep
            && (!d.compensation ==>
                  && s.currentStep.Some? && FindStep(definition.steps, s.currentStep.value) == Some(d.step)
                  && d.saga == StartStep(s, d.step))
            && d.saga.version == s.version + 1
  {
    hide Recover, FindStep, NextUndo;
  }

  // ---- a step that could not be dispatched ------------------------------------------------------------------------

  /** A step whose command could not be appended waits, before its last attempt, a second after the first failure and
      twice as long after each further one, up to a minute: until then an `advance` leaves the document alone, unless
      the saga times out, and then starts the step again. The job that the call queued falls due at just that time. */
  lemma FailedStepIsRetried(definition: Definition, s: Stored, now: int, t: int)
    requires var d := Decide(definition, s.saga, now);
             && d.Begin? && !d.compensation && d.step.command != ""
             && Counter(s.saga.attempts, d.step.name, 0) + 1 < d.step.maxAttempts
    ensures var step, after := Decide(definition, s.saga, now).step, AdvanceCall(definition, s, now, true).saga;
            var failures := Counter(s.saga.attempts, step.name, 0) + 1;
            var wait := if failures <= 6 then [1_000, 2_000, 4_000, 8_000, 16_000, 32_000][failures - 1] else 60_000;
            && Decide(definition, after, t) == (if t >= s.saga.timeoutAt then Put(Recover(definition, after))
                                                else if t < now + wait then Leave
                                                else Begin(StartStep(after, step), step, false))
            && NextJob(s.saga, AdvanceOp(now, true), after) == Some(Job(after.version, wait))
  {
    var d := Decide(definition, s.saga, now);
    BeginKeepsTimes(definition, s.saga, now);
    hide Decide;
    RetryWaits(Counter(d.saga.attempts, d.step.name, 1) - 1);
    var after := AdvanceCall(definition, s, now, true).saga;
    assert after == DispatchFailed(definition, d.saga, d.step, false, now);
    assert Decide(definition, after, t) == DecideRetry(definition, after, d.step, t) by {
      RetryDecision(definition, after, d.step, t);
    }
    hide Recover, FindStep, NextUndo, Append, CommandName, Pow2, Min;
  }

  function DecideRetry(definition: Definition, s: Saga, step: Step, now: int): Decision {
    if s.timeoutAt <= now then Put(Recover(definition, s))
    else if s.nextAttemptAt.Some? && s.nextAttemptAt.value > now then Leave
    else Begin(StartStep(s, step), step, false)
  }

  lemma RetryDecision(definition: Definition, s: Saga, step: Step, now: int)
    requires s.status == WaitingRetry && !s.cancellationRequested
    requires s.currentStep.Some? && FindStep(definition.steps, s.currentStep.value) == Some(step)
    ensures Decide(definition, s, now) == DecideRetry(definition, s, step, now)
  {
    hide Recover, FindStep;
  }

  lemma RetryWaits(n: nat)
    ensures Min(60_000, 1000 * Pow2(n)) == if n < 6 then [1_000, 2_000, 4_000, 8_000, 16_000, 32_000][n] else 60_000
  {
    if n >= 6 { PowerAtLeast(n); } else if n > 0 { RetryWaits(n - 1); }
  }

  lemma {:induction false} PowerAtLeast(n: nat)
    requires n >= 6
    ensures Pow2(n) >= 64
  {
    if n == 6 {
      assert Pow2(3) == 8;
      assert Pow2(6) == 8 * Pow2(3);
    } else {
      PowerAtLeast(n - 1);
    }
  }

  // ---- the saga itself --------------------------------------------------------------------------------------------

  /** Whatever happens to an unfinished saga, an `advance` begins its recovery once the saga's time has run out, counted
      from its creation; before that it starts the step of a saga that is neither waiting nor recovering. */
  lemma SagaHasItsTime(definition: Definition, created: int, events: seq<Event>, t: int)
    requires WellFormed(definition) && forall e <- events :: IsAutomatic(e)
    ensures var s := Run(definition, Started(definition, created), events).saga;
            && (!Finished(s) && t >= created + definition.timeoutMs ==>
                  Decide(definition, s, t) == Put(Recover(definition, s)))
            && (s.status in {Pending, Running} && !s.cancellationRequested && t < created + definition.timeoutMs ==>
                  Decide(definition, s, t).Begin?)
  {
    var w := Started(definition, created);
    StartedIsSound(definition, created);
    RunEvolves(definition, w, events);
    RunKeeps(definition, w, events);
    var s := Run(definition, w, events).saga;
    hide Run, Recover;
    assert Sound(definition, s);
    if s.status in {Pending, Running} && !Recovering(s) { StartStepKeeps(definition, s); }
    hide Sound, WellFormed, SoundWorld, FindStep;
  }

  // ---- the job of any call ----------------------------------------------------------------------------------------

  /** The time of a call that reads its clock; a cancellation does not. */
  predicate At(call: Call, now: int) {
    match call
    case AdvanceOp(at, _) => at == now
    case SignalOp(_, _, at) => at == now
    case CancelOp => true
  }

  /** A job falls due neither too early nor too late: from the call that leaves it on, an `advance` has something to do
      exactly from the time the job falls due, or from the saga's own time if that comes first. */
  lemma JobFallsDue(definition: Definition, s: Stored, call: Call, now: int, t: int)
    requires WellFormed(definition) && Sound(definition, s.saga) && At(call, now) && now <= t
    requires NextJob(s.saga, call, Perform(definition, s, call).saga).Some?
    ensures var after := Perform(definition, s, call).saga;
            var job := NextJob(s.saga, call, after).value;
            && job.version == after.version > s.saga.version
            && (Decide(definition, after, t) != Leave <==> t >= now + job.delay || t >= after.timeoutAt)
  {
    match call
    case AdvanceOp(_, appendFails) => AdvanceJobFallsDue(definition, s, now, appendFails, t);
    case SignalOp(name, success, _) =>
      SignalJobFallsDue(definition, s.saga, name, success, now, t);
      hide Decide, Signal, AdvanceCall;
    case CancelOp => hide Recover, AdvanceCall, Signal, WellFormed, Sound;
  }

  lemma SignalJobFallsDue(definition: Definition, s: Saga, name: string, success: bool, now: int, t: int)
    requires now <= t && Signal(definition, s, name, success, now).Some?
    ensures var after := Signal(definition, s, name, success, now).value;
            var job := NextJob(s, SignalOp(name, success, now), after);
            job.Some? ==>
              && job.value == Job(after.version, 0) && after.version == s.version + 1
              && Decide(definition, after, t) != Leave
  {
    RecoverLeavesNoJob(definition, s);
    hide Recover, FindStep, NextUndo, IndexOfStep, Counter, AddToSet;
  }

  lemma AdvanceJobFallsDue(definition: Definition, s: Stored, now: int, appendFails: bool, t: int)
    requires now <= t
    requires NextJob(s.saga, AdvanceOp(now, appendFails), AdvanceCall(definition, s, now, appendFails).saga).Some?
    ensures var after := AdvanceCall(definition, s, now, appendFails).saga;
            var job := NextJob(s.saga, AdvanceOp(now, appendFails), after).value;
            && job.version == after.version > s.saga.version
            && (Decide(definition, after, t) != Leave <==> t >= now + job.delay || t >= after.timeoutAt)
  {
    var d := Decide(definition, s.saga, now);
    RecoverLeavesNoJob(definition, s.saga);
    if d.Begin? {
      BeginKeepsTimes(definition, s.saga, now);
      RecoverLeavesNoJob(definition, d.saga);
      var after := AdvanceCall(definition, s, now, appendFails).saga;
      assert after == DispatchCall(definition, Stored(d.saga, s.outbox), d.step, d.compensation, now, appendFails).saga;
      WorkerJobFallsDue(definition, d, now, appendFails, t);
      hide Decide, DispatchCall;
    } else {
      hide Recover, FindStep, NextUndo;
    }
  }

  lemma WorkerJobFallsDue(definition: Definition, d: Decision, now: int, appendFails: bool, t: int)
    requires d.Begin? && !d.saga.cancellationRequested && now <= t
    ensures forall outbox ::
              var before := Stored(d.saga, outbox);
              var after := DispatchCall(definition, before, d.step, d.compensation, now, appendFails).saga;
              && after.version > d.saga.version
              && var job := WorkerJob(after, now);
              job.Some? ==>
                && job.value.version == after.version
                && (Decide(definition, after, t) != Leave <==> t >= now + job.value.delay || t >= after.timeoutAt)
  {
    RecoverLeavesNoJob(definition, d.saga);
    hide Recover, FindStep, NextUndo, IndexOfStep, Append, CommandName, Pow2;
  }
}
