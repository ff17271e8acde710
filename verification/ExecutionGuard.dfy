/** The worker's execution guard: a lock per job and a counter per workspace, shared by interleaved executions. */
module GuardProtocol {
  import opened Numbers

  /** What one execution is about. */
  datatype Job = Job(workspaceId: string, idempotencyKey: string)

  /** Executions have names of their own, which serve as their lock tokens. */
  type Id = nat

  /** How far an execution has come: the step it takes next, or how it ended. */
  datatype Stage =
    | CheckDone
    | AcquireLock
    | Increment
    | SetExpiry(active: int)
    | CompareLimit(active: int)
    | Working
    | MarkDone
    | Decrement(refused: bool)
    | Release(refused: bool)
    | Duplicate
    | Refused
    | Finished

  datatype Execution = Execution(job: Job, stage: Stage)

  /** The keys in Redis, and the executions. */
  datatype World = World(done: set<Job>, locks: map<Job, Id>, active: map<string, int>, executions: map<Id, Execution>)

  /** A step of an execution; `succeeds` says how its work ends. The rest is what Redis does of its own accord. */
  datatype Event =
    | Start(id: Id, job: Job)
    | Step(id: Id, succeeds: bool)
    | LockExpires(job: Job)
    | CounterExpires(workspaceId: string)
    | DoneExpires(job: Job)

  const Nothing := World({}, map[], map[], map[])

  /** A missing counter counts from zero. */
  function Counter(w: World, workspaceId: string): int {
    if workspaceId in w.active then w.active[workspaceId] else 0
  }

  function Add(w: World, workspaceId: string, n: int): World {
    w.(active := w.active[workspaceId := Counter(w, workspaceId) + n])
  }

  /** Deletes the lock if it still holds this token. */
  function Unlock(w: World, job: Job, token: Id): World {
    if job in w.locks && w.locks[job] == token then w.(locks := w.locks - {job}) else w
  }

  function Move(w: World, id: Id, stage: Stage): World
    requires id in w.executions
  {
    w.(executions := w.executions[id := w.executions[id].(stage := stage)])
  }

  predicate Ended(stage: Stage) { stage.Duplicate? || stage.Refused? || stage.Finished? }

  /** What a step does to the keys. */
  function Effect(w: World, id: Id, job: Job, stage: Stage): World {
    match stage
    case AcquireLock => if job in w.locks then w else w.(locks := w.locks[job := id])
    case Increment => Add(w, job.workspaceId, 1)
    case MarkDone => w.(done := w.done + {job})
    case Decrement(_) => Add(w, job.workspaceId, -1)
    case Release(_) => Unlock(w, job, id)
    case _ => w
  }

  /** Where a step leads, given what it finds. */
  function NextStage(w: World, job: Job, stage: Stage, succeeds: bool, limit: int): Stage {
    match stage
    case CheckDone => if job in w.done then Duplicate else AcquireLock
    case AcquireLock => if job in w.locks then Duplicate else Increment
    case Increment => SetExpiry(Counter(w, job.workspaceId) + 1)
    case SetExpiry(active) => CompareLimit(active)
    case CompareLimit(active) => if active > limit then Decrement(true) else Working
    case Working => if succeeds then MarkDone else Decrement(false)
    case MarkDone => Decrement(false)
    case Decrement(refused) => Release(refused)
    case Release(refused) => if refused then Refused else Finished
    case _ => stage
  }

  function Advance(w: World, id: Id, succeeds: bool, limit: int): World
    requires id in w.executions
  {
    var r := w.executions[id];
    if Ended(r.stage) then w
    else Move(Effect(w, id, r.job, r.stage), id, NextStage(w, r.job, r.stage, succeeds, limit))
  }

  function Apply(w: World, e: Event, limit: int): World {
    match e
    case Start(id, job) =>
      if id in w.executions then w else w.(executions := w.executions[id := Execution(job, CheckDone)])
    case Step(id, succeeds) => if id in w.executions then Advance(w, id, succeeds, limit) else w
    case LockExpires(job) => w.(locks := w.locks - {job})
    case CounterExpires(workspaceId) => w.(active := w.active - {workspaceId})
    case DoneExpires(job) => w.(done := w.done - {job})
  }

  function Run(w: World, events: seq<Event>, limit: int): World
    decreases |events|
  {
    if |events| == 0 then w else Run(Apply(w, events[0], limit), events[1..], limit)
  }

  // ---- who holds and who counts --------------------------------------------------------------------------------

  /** Between taking the lock and giving it back. */
  predicate Holds(stage: Stage) {
    !(stage.CheckDone? || stage.AcquireLock? || stage.Duplicate? || stage.Refused? || stage.Finished?)
  }

  /** Between the increment and the decrement. */
  predicate Counts(stage: Stage) {
    Holds(stage) && !stage.Increment? && !stage.Release?
  }

  /** Counted and let in, or about to be. */
  predicate Admitted(stage: Stage, limit: int) {
    && Counts(stage)
    && (stage.SetExpiry? || stage.CompareLimit? ==> stage.active <= limit)
    && stage != Decrement(true)
  }

  function Counted(w: World, workspaceId: string): set<Id> {
    set id | id in w.executions && w.executions[id].job.workspaceId == workspaceId && Counts(w.executions[id].stage)
  }

  function AdmittedTo(w: World, workspaceId: string, limit: int): set<Id> {
    set id | id in w.executions && w.executions[id].job.workspaceId == workspaceId
             && Admitted(w.executions[id].stage, limit)
  }

  function AtWork(w: World, workspaceId: string): set<Id> {
    set id | id in w.executions && w.executions[id].job.workspaceId == workspaceId && w.executions[id].stage.Working?
  }

  /** Every execution of a job between taking and giving back the lock still has it. */
  predicate HoldersHaveLock(w: World, job: Job) {
    forall id <- w.executions :: w.executions[id].job == job && Holds(w.executions[id].stage) ==>
      job in w.locks && w.locks[job] == id
  }

  /** A lock present belongs to an execution of its job that has yet to give it back. */
  predicate LocksBelong(w: World) {
    forall job <- w.locks :: w.locks[job] in w.executions && w.executions[w.locks[job]].job == job
                             && Holds(w.executions[w.locks[job]].stage)
  }

  predicate CounterIsExact(w: World, workspaceId: string) {
    Counter(w, workspaceId) == |Counted(w, workspaceId)|
  }

  predicate WithinLimit(w: World, workspaceId: string, limit: int) {
    |AdmittedTo(w, workspaceId, limit)| <= limit
  }

  // ---- one step --------------------------------------------------------------------------------------------------

  function With(s: set<Id>, id: Id, member: bool): set<Id> { if member then s + {id} else s - {id} }

  lemma Updated(w: World, v: World, id: Id, workspaceId: string, limit: int)
    requires id in v.executions && v.executions == w.executions[id := v.executions[id]]
    ensures var r := v.executions[id];
            && Counted(v, workspaceId)
               == With(Counted(w, workspaceId), id, r.job.workspaceId == workspaceId && Counts(r.stage))
            && AdmittedTo(v, workspaceId, limit)
               == With(AdmittedTo(w, workspaceId, limit), id, r.job.workspaceId == workspaceId && Admitted(r.stage, limit))
  {
    hide Counts, Admitted;
  }

  lemma AdmittedCount(w: World, workspaceId: string, limit: int)
    ensures AdmittedTo(w, workspaceId, limit) <= Counted(w, workspaceId)
    ensures |AdmittedTo(w, workspaceId, limit)| <= |Counted(w, workspaceId)|
  {
    SubsetSize(AdmittedTo(w, workspaceId, limit), Counted(w, workspaceId));
  }

  function Bit(b: bool): int { if b then 1 else 0 }

  /** A step moves one execution, and its workspace's counter along with whether it is counted. */
  lemma AdvanceMovesCounter(w: World, id: Id, succeeds: bool, limit: int, workspaceId: string)
    requires id in w.executions
    ensures var v, r := Advance(w, id, succeeds, limit), w.executions[id];
            && v.executions == w.executions[id := v.executions[id]] && v.executions[id].job == r.job
            && Counter(v, workspaceId) == Counter(w, workspaceId)
               + if workspaceId == r.job.workspaceId then Bit(Counts(v.executions[id].stage)) - Bit(Counts(r.stage)) else 0
  {
    var r := w.executions[id];
    EffectOnCounter(w, id, r.job, r.stage, workspaceId);
    NextCounts(w, r.job, r.stage, succeeds, limit);
    hide Effect, NextStage, Counts;
  }

  lemma EffectOnCounter(w: World, id: Id, job: Job, stage: Stage, workspaceId: string)
    ensures Counter(Effect(w, id, job, stage), workspaceId) == Counter(w, workspaceId)
            + if workspaceId == job.workspaceId then Bit(stage.Increment?) - Bit(stage.Decrement?) else 0
    ensures Effect(w, id, job, stage).executions == w.executions
  {}

  lemma NextCounts(w: World, job: Job, stage: Stage, succeeds: bool, limit: int)
    ensures var next := NextStage(w, job, stage, succeeds, limit);
            Bit(Counts(next)) - Bit(Counts(stage)) == Bit(stage.Increment?) - Bit(stage.Decrement?)
  {}

  /** Only an increment lets an execution in, and only when it finds the counter within the limit. */
  lemma AdmittedByIncrement(w: World, id: Id, succeeds: bool, limit: int)
    requires id in w.executions
    ensures var v, r := Advance(w, id, succeeds, limit), w.executions[id];
            Admitted(v.executions[id].stage, limit) && !Admitted(r.stage, limit) ==>
              Counter(v, r.job.workspaceId) <= limit
  {}

  /** A step changes the lock of its own job only. */
  lemma AdvanceMovesLock(w: World, id: Id, succeeds: bool, limit: int)
    requires id in w.executions
    ensures var v, r := Advance(w, id, succeeds, limit), w.executions[id];
            && v.executions == w.executions[id := v.executions[id]] && v.executions[id].job == r.job
            && (if r.stage.AcquireLock? && r.job !in w.locks then
                  v.locks == w.locks[r.job := id] && Holds(v.executions[id].stage)
                else if r.stage.Release? then v.locks == Unlock(w, r.job, id).locks && !Holds(v.executions[id].stage)
                else v.locks == w.locks && Holds(v.executions[id].stage) == Holds(r.stage))
  {
    var r := w.executions[id];
    EffectOnLocks(w, id, r.job, r.stage);
    NextHolds(w, r.job, r.stage, succeeds, limit);
    hide Effect, NextStage, Holds, Unlock;
  }

  lemma EffectOnLocks(w: World, id: Id, job: Job, stage: Stage)
    ensures Effect(w, id, job, stage).executions == w.executions
    ensures Effect(w, id, job, stage).locks
            == if stage.AcquireLock? && job !in w.locks then w.locks[job := id]
               else if stage.Release? then Unlock(w, job, id).locks else w.locks
  {}

  lemma NextHolds(w: World, job: Job, stage: Stage, succeeds: bool, limit: int)
    ensures Holds(NextStage(w, job, stage, succeeds, limit))
            <==> if stage.AcquireLock? then job !in w.locks else Holds(stage) && !stage.Release?
  {}

  lemma AdvanceKeepsHolders(w: World, id: Id, succeeds: bool, limit: int, job: Job)
    requires HoldersHaveLock(w, job) && id in w.executions
    ensures HoldersHaveLock(Advance(w, id, succeeds, limit), job)
  {
    AdvanceMovesLock(w, id, succeeds, limit);
    assert w.executions[id].stage.Release? ==> Holds(w.executions[id].stage);
    assert w.executions[id].stage.AcquireLock? ==> !Holds(w.executions[id].stage);
    hide Advance, Holds;
  }

  /** The counter and the counted executions move together. */
  lemma AdvanceKeepsCounter(w: World, id: Id, succeeds: bool, limit: int, workspaceId: string)
    requires id in w.executions && CounterIsExact(w, workspaceId)
    ensures CounterIsExact(Advance(w, id, succeeds, limit), workspaceId)
  {
    var v := Advance(w, id, succeeds, limit);
    AdvanceMovesCounter(w, id, succeeds, limit, workspaceId);
    hide Advance, Counts, Counter;
    Updated(w, v, id, workspaceId, limit);
    assert id in Counted(w, workspaceId) <==>
           w.executions[id].job.workspaceId == workspaceId && Counts(w.executions[id].stage);
    hide Counted, AdmittedTo;
  }

  /** Whoever the increment lets in finds at most `limit` counted, itself among them. */
  lemma AdvanceKeepsLimit(w: World, id: Id, succeeds: bool, limit: int, workspaceId: string)
    requires id in w.executions && CounterIsExact(w, workspaceId) && WithinLimit(w, workspaceId, limit)
    ensures WithinLimit(Advance(w, id, succeeds, limit), workspaceId, limit)
  {
    var v := Advance(w, id, succeeds, limit);
    AdvanceMovesCounter(w, id, succeeds, limit, workspaceId);
    AdvanceKeepsCounter(w, id, succeeds, limit, workspaceId);
    AdmittedByIncrement(w, id, succeeds, limit);
    hide Advance, Counts, Counter, Admitted;
    Updated(w, v, id, workspaceId, limit);
    AdmittedCount(v, workspaceId, limit);
    assert id in AdmittedTo(w, workspaceId, limit) <==>
           w.executions[id].job.workspaceId == workspaceId && Admitted(w.executions[id].stage, limit);
    hide Counted, AdmittedTo;
  }

  lemma ApplyKeepsHolders(w: World, e: Event, limit: int, job: Job)
    requires HoldersHaveLock(w, job) && e != LockExpires(job)
    ensures HoldersHaveLock(Apply(w, e, limit), job)
  {
    if e.Step? && e.id in w.executions {
      AdvanceKeepsHolders(w, e.id, e.succeeds, limit, job);
      hide Advance;
    }
  }

  lemma ApplyKeepsCounter(w: World, e: Event, limit: int, workspaceId: string)
    requires CounterIsExact(w, workspaceId) && WithinLimit(w, workspaceId, limit) && e != CounterExpires(workspaceId)
    ensures CounterIsExact(Apply(w, e, limit), workspaceId) && WithinLimit(Apply(w, e, limit), workspaceId, limit)
  {
    var v := Apply(w, e, limit);
    match e
    case Start(id, job) =>
      if id !in w.executions {
        Updated(w, v, id, workspaceId, limit);
        assert id !in Counted(w, workspaceId) && id !in AdmittedTo(w, workspaceId, limit);
      }
    case Step(id, succeeds) =>
      if id in w.executions {
        AdvanceKeepsCounter(w, id, succeeds, limit, workspaceId);
        AdvanceKeepsLimit(w, id, succeeds, limit, workspaceId);
        hide Advance;
      }
    case _ =>
      assert Counted(v, workspaceId) == Counted(w, workspaceId);
      assert AdmittedTo(v, workspaceId, limit) == AdmittedTo(w, workspaceId, limit);
  }

  lemma {:induction false} RunKeepsHolders(w: World, events: seq<Event>, limit: int, job: Job)
    requires HoldersHaveLock(w, job) && LockExpires(job) !in events
    ensures HoldersHaveLock(Run(w, events, limit), job)
    decreases |events|
  {
    if |events| > 0 {
      ApplyKeepsHolders(w, events[0], limit, job);
      hide HoldersHaveLock, Apply;
      RunKeepsHolders(Apply(w, events[0], limit), events[1..], limit, job);
    }
  }

  lemma {:induction false} RunKeepsCounter(w: World, events: seq<Event>, limit: int, workspaceId: string)
    requires CounterIsExact(w, workspaceId) && WithinLimit(w, workspaceId, limit)
    requires CounterExpires(workspaceId) !in events
    ensures CounterIsExact(Run(w, events, limit), workspaceId) && WithinLimit(Run(w, events, limit), workspaceId, limit)
    decreases |events|
  {
    if |events| > 0 {
      ApplyKeepsCounter(w, events[0], limit, workspaceId);
      hide CounterIsExact, WithinLimit, Apply;
      RunKeepsCounter(Apply(w, events[0], limit), events[1..], limit, workspaceId);
    }
  }

  // ---- whole runs -------------------------------------------------------------------------------------------------

  /** However executions interleave, and whatever else expires: while a workspace's counter does not, it is the
      number of executions between their increment and their decrement, and at most `limit` works run at once. */
  lemma WorkIsBounded(events: seq<Event>, limit: int, workspaceId: string)
    requires limit >= 0 && CounterExpires(workspaceId) !in events
    ensures var w := Run(Nothing, events, limit);
            |AtWork(w, workspaceId)| <= limit && Counter(w, workspaceId) == |Counted(w, workspaceId)|
  {
    assert Counted(Nothing, workspaceId) == {} && AdmittedTo(Nothing, workspaceId, limit) == {};
    RunKeepsCounter(Nothing, events, limit, workspaceId);
    var w := Run(Nothing, events, limit);
    hide Run;
    SubsetSize(AtWork(w, workspaceId), AdmittedTo(w, workspaceId, limit));
  }

  /** However executions interleave, and whatever else expires: while a job's lock does not, no two executions
      work on the job at once. */
  lemma WorkIsExclusive(events: seq<Event>, limit: int, a: Id, b: Id)
    requires var w := Run(Nothing, events, limit);
             && a in w.executions && b in w.executions && w.executions[a].job == w.executions[b].job
             && w.executions[a].stage.Working? && w.executions[b].stage.Working?
    requires LockExpires(Run(Nothing, events, limit).executions[a].job) !in events
    ensures a == b
  {
    RunKeepsHolders(Nothing, events, limit, Run(Nothing, events, limit).executions[a].job);
  }

  /** A counter that expires is exact again only if nobody is counted. */
  lemma ExpiredCounterIsExactIff(w: World, workspaceId: string, limit: int)
    ensures CounterIsExact(Apply(w, CounterExpires(workspaceId), limit), workspaceId) <==> Counted(w, workspaceId) == {}
  {
    assert Counted(Apply(w, CounterExpires(workspaceId), limit), workspaceId) == Counted(w, workspaceId);
  }

  lemma ApplyKeepsBelonging(w: World, e: Event, limit: int)
    requires LocksBelong(w)
    ensures LocksBelong(Apply(w, e, limit))
  {
    if e.Step? && e.id in w.executions {
      AdvanceMovesLock(w, e.id, e.succeeds, limit);
      var r := w.executions[e.id];
      assert r.job in w.locks && w.locks[r.job] == e.id ==> Holds(r.stage);
      hide Advance, Holds;
    }
  }

  /** Whatever expires: in a world any run leads to, a lock is lost to its own expiry or to the release of the
      execution it belongs to, and to nothing else. */
  lemma {:induction false} LocksAreReleasedByTheirHolders(w: World, events: seq<Event>, e: Event, limit: int, job: Job)
    requires LocksBelong(w)
    requires job in Run(w, events, limit).locks
    ensures var v, after := Run(w, events, limit), Apply(Run(w, events, limit), e, limit);
            && v.locks[job] in v.executions && v.executions[v.locks[job]].job == job
            && (job in after.locks ==> after.locks[job] == v.locks[job])
            && (job !in after.locks ==>
                e == LockExpires(job) || (e.Step? && e.id == v.locks[job] && v.executions[e.id].stage.Release?))
    decreases |events|
  {
    if |events| > 0 {
      ApplyKeepsBelonging(w, events[0], limit);
      hide Apply, LocksBelong;
      LocksAreReleasedByTheirHolders(Apply(w, events[0], limit), events[1..], e, limit, job);
    } else {
      if e.Step? && e.id in w.executions {
        AdvanceMovesLock(w, e.id, e.succeeds, limit);
        hide Advance;
      }
    }
  }

  // ---- one execution on its own -----------------------------------------------------------------------------------

  function Steps(id: Id, succeeds: bool, n: nat): seq<Event> {
    if n == 0 then [] else [Step(id, succeeds)] + Steps(id, succeeds, n - 1)
  }

  lemma RunOne(w: World, e: Event, rest: seq<Event>, limit: int)
    ensures Run(w, [e] + rest, limit) == Run(Apply(w, e, limit), rest, limit)
  {
    assert ([e] + rest)[1..] == rest;
  }

  lemma {:induction false} RunOn(w: World, first: seq<Event>, rest: seq<Event>, limit: int)
    ensures Run(w, first + rest, limit) == Run(Run(w, first, limit), rest, limit)
    decreases |first|
  {
    if |first| == 0 {
      assert first + rest == rest;
    } else {
      assert first + rest == [first[0]] + (first[1..] + rest);
      RunOne(w, first[0], first[1..] + rest, limit);
      RunOn(Apply(w, first[0], limit), first[1..], rest, limit);
    }
  }

  lemma StepsOne(w: World, id: Id, succeeds: bool, n: nat, limit: int)
    requires id in w.executions
    ensures Run(w, Steps(id, succeeds, n + 1), limit) == Run(Advance(w, id, succeeds, limit), Steps(id, succeeds, n), limit)
  {
    RunOne(w, Step(id, succeeds), Steps(id, succeeds, n), limit);
  }

  lemma {:induction false} StepsAtEnd(w: World, id: Id, succeeds: bool, n: nat, limit: int)
    requires id in w.executions
    requires var stage := w.executions[id].stage; stage.Duplicate? || stage.Refused? || stage.Finished?
    ensures Run(w, Steps(id, succeeds, n), limit) == w
  {
    if n > 0 {
      StepsOne(w, id, succeeds, n - 1, limit);
      StepsAtEnd(w, id, succeeds, n - 1, limit);
    }
  }

  /** What an execution leaves behind when nothing comes between its steps. */
  function Uninterrupted(w: World, id: Id, succeeds: bool, limit: int): World
    requires id in w.executions
  {
    var job := w.executions[id].job;
    if job in w.done || job in w.locks then Move(w, id, Duplicate)
    else if Counter(w, job.workspaceId) >= limit then Move(Add(w, job.workspaceId, 0), id, Refused)
    else Move(Add(w, job.workspaceId, 0).(done := if succeeds then w.done + {job} else w.done), id, Finished)
  }

  lemma MoveTwice(w: World, id: Id, first: Stage, second: Stage)
    requires id in w.executions
    ensures Move(Move(w, id, first), id, second) == Move(w, id, second)
  {
    var job := w.executions[id].job;
    assert w.executions[id := Execution(job, first)][id := Execution(job, second)]
           == w.executions[id := Execution(job, second)];
  }

  /** One more step of an execution put at a stage. */
  lemma StepFrom(w: World, id: Id, stage: Stage, succeeds: bool, n: nat, limit: int)
    requires id in w.executions && !Ended(stage)
    ensures var job := w.executions[id].job;
            Run(Move(w, id, stage), Steps(id, succeeds, n + 1), limit)
            == Run(Move(Effect(w, id, job, stage), id, NextStage(w, job, stage, succeeds, limit)),
                   Steps(id, succeeds, n), limit)
  {
    var at := Move(w, id, stage);
    var job := w.executions[id].job;
    StepsOne(at, id, succeeds, n, limit);
    assert Effect(at, id, job, stage) == Move(Effect(w, id, job, stage), id, stage);
    assert NextStage(at, job, stage, succeeds, limit) == NextStage(w, job, stage, succeeds, limit);
    MoveTwice(Effect(w, id, job, stage), id, stage, NextStage(w, job, stage, succeeds, limit));
    hide NextStage, Steps, Run, Effect;
  }

  lemma EndsAt(w: World, id: Id, stage: Stage, succeeds: bool, n: nat, limit: int)
    requires id in w.executions && Ended(stage)
    ensures Run(Move(w, id, stage), Steps(id, succeeds, n), limit) == Move(w, id, stage)
  {
    StepsAtEnd(Move(w, id, stage), id, succeeds, n, limit);
  }

  /** Increment, expiry and comparison. */
  lemma ThreeStepsCount(w: World, id: Id, succeeds: bool, n: nat, limit: int)
    requires id in w.executions
    ensures var ws := w.executions[id].job.workspaceId;
            Run(Move(w, id, Increment), Steps(id, succeeds, n + 3), limit)
            == Run(Move(Add(w, ws, 1), id, if Counter(w, ws) + 1 > limit then Decrement(true) else Working),
                   Steps(id, succeeds, n), limit)
  {
    hide Run, Steps, Move;
    var job := w.executions[id].job;
    var counted := Add(w, job.workspaceId, 1);
    var active := Counter(w, job.workspaceId) + 1;
    StepFrom(w, id, Increment, succeeds, n + 2, limit);
    StepFrom(counted, id, SetExpiry(active), succeeds, n + 1, limit);
    StepFrom(counted, id, CompareLimit(active), succeeds, n, limit);
  }

  lemma TakesLock(w: World, id: Id, succeeds: bool, n: nat, limit: int)
    requires id in w.executions && w.executions[id].job !in w.locks
    ensures Run(Move(w, id, AcquireLock), Steps(id, succeeds, n + 1), limit)
            == Run(Move(w.(locks := w.locks[w.executions[id].job := id]), id, Increment), Steps(id, succeeds, n), limit)
  {
    hide Run, Steps, Move;
    StepFrom(w, id, AcquireLock, succeeds, n, limit);
  }

  /** Nine steps see any execution to its end, with every lock and counter as it found them. */
  lemma NineStepsFinish(w: World, id: Id, succeeds: bool, limit: int)
    requires id in w.executions && w.executions[id].stage.CheckDone?
    ensures Run(w, Steps(id, succeeds, 9), limit) == Uninterrupted(w, id, succeeds, limit)
  {
    var job := w.executions[id].job;
    assert w == Move(w, id, CheckDone);
    hide Run, Steps, Move, Add;
    StepFrom(w, id, CheckDone, succeeds, 8, limit);
    if job in w.done {
      EndsAt(w, id, Duplicate, succeeds, 8, limit);
    } else if job in w.locks {
      StepFrom(w, id, AcquireLock, succeeds, 7, limit);
      EndsAt(w, id, Duplicate, succeeds, 7, limit);
    } else {
      TakesLock(w, id, succeeds, 7, limit);
      hide Effect, NextStage;
      FreeStepsFinish(w, id, succeeds, limit);
    }
  }

  lemma FreeStepsFinish(w: World, id: Id, succeeds: bool, limit: int)
    requires id in w.executions && w.executions[id].job !in w.done && w.executions[id].job !in w.locks
    ensures Run(Move(w.(locks := w.locks[w.executions[id].job := id]), id, Increment), Steps(id, succeeds, 7), limit)
            == Uninterrupted(w, id, succeeds, limit)
  {
    var job := w.executions[id].job;
    var locked := w.(locks := w.locks[job := id]);
    LockedStepsFinish(locked, id, succeeds, limit);
    hide Run, Steps, Move;
    assert w.locks[job := id] - {job} == w.locks;
    assert Add(locked, job.workspaceId, 0).(locks := w.locks) == Add(w, job.workspaceId, 0);
  }

  lemma LockedStepsFinish(w: World, id: Id, succeeds: bool, limit: int)
    requires id in w.executions && w.executions[id].job in w.locks && w.locks[w.executions[id].job] == id
    ensures var job := w.executions[id].job;
            var v := Add(w, job.workspaceId, 0).(locks := w.locks - {job});
            Run(Move(w, id, Increment), Steps(id, succeeds, 7), limit)
            == if Counter(w, job.workspaceId) >= limit then Move(v, id, Refused)
               else Move(v.(done := if succeeds then w.done + {job} else w.done), id, Finished)
  {
    hide Run, Steps, Move;
    var job := w.executions[id].job;
    var counted := Add(w, job.workspaceId, 1);
    ThreeStepsCount(w, id, succeeds, 4, limit);
    if Counter(w, job.workspaceId) >= limit {
      CleaningUp(w, counted, id, true, succeeds, 2, limit);
    } else {
      StepFrom(counted, id, Working, succeeds, 3, limit);
      if succeeds {
        StepFrom(counted, id, MarkDone, succeeds, 2, limit);
        CleaningUp(w.(done := w.done + {job}), counted.(done := w.done + {job}), id, false, succeeds, 0, limit);
      } else {
        CleaningUp(w, counted, id, false, succeeds, 1, limit);
      }
    }
  }

  lemma CleaningUp(w: World, counted: World, id: Id, refused: bool, succeeds: bool, spare: nat, limit: int)
    requires id in w.executions && w.executions[id].job in w.locks && w.locks[w.executions[id].job] == id
    requires counted == Add(w, w.executions[id].job.workspaceId, 1)
    ensures var job := w.executions[id].job;
            Run(Move(counted, id, Decrement(refused)), Steps(id, succeeds, 2 + spare), limit)
            == Move(Add(w, job.workspaceId, 0).(locks := w.locks - {job}), id, if refused then Refused else Finished)
  {
    var job := w.executions[id].job;
    var back := Add(w, job.workspaceId, 0);
    assert Add(counted, job.workspaceId, -1) == back;
    hide Run, Steps, Move, Add;
    StepFrom(counted, id, Decrement(refused), succeeds, 1 + spare, limit);
    StepFrom(back, id, Release(refused), succeeds, spare, limit);
    EndsAt(Unlock(back, job, id), id, if refused then Refused else Finished, succeeds, spare, limit);
  }

  /** From behind the done check, four steps lead to work while the lock is free and the counter below its limit. */
  lemma ReachesWork(w: World, id: Id, limit: int)
    requires id in w.executions && w.executions[id].stage.AcquireLock?
    requires var job := w.executions[id].job; job !in w.locks && Counter(w, job.workspaceId) < limit
    ensures var v := Run(w, Steps(id, true, 4), limit);
            && v.done == w.done && v.executions == w.executions[id := Execution(w.executions[id].job, Working)]
  {
    var job := w.executions[id].job;
    assert w == Move(w, id, AcquireLock);
    var locked := w.(locks := w.locks[job := id]);
    var counted := Add(locked, job.workspaceId, 1);
    assert Move(counted, id, Working).executions == w.executions[id := Execution(job, Working)];
    hide Run, Steps, Move, Add;
    TakesLock(w, id, true, 3, limit);
    ThreeStepsCount(locked, id, true, 0, limit);
    NoSteps(Move(counted, id, Working), id, limit);
  }

  lemma NoSteps(w: World, id: Id, limit: int)
    ensures Run(w, Steps(id, true, 0), limit) == w
  {}

  // ---- when a job already done is worked on again -----------------------------------------------------------------

  /** Past the check of the done key, short of work, and not turned away by the limit. */
  predicate Late(stage: Stage, limit: int) {
    || stage.AcquireLock? || stage.Increment?
    || ((stage.SetExpiry? || stage.CompareLimit?) && stage.active <= limit)
  }

  predicate SomeLate(w: World, job: Job, limit: int) {
    exists id <- w.executions :: w.executions[id].job == job && Late(w.executions[id].stage, limit)
  }

  predicate WorksOn(w: World, id: Id, job: Job) {
    id in w.executions && w.executions[id] == Execution(job, Working)
  }

  /** The job is done, nobody is late for it, and those at work on it are the ones named. */
  predicate Spent(w: World, job: Job, limit: int, working: set<Id>) {
    && job in w.done && !SomeLate(w, job, limit)
    && forall id <- w.executions :: WorksOn(w, id, job) ==> id in working
  }

  lemma ApplyKeepsSpent(w: World, e: Event, job: Job, limit: int, working: set<Id>)
    requires Spent(w, job, limit, working) && e != DoneExpires(job)
    ensures Spent(Apply(w, e, limit), job, limit, working)
  {
    var v := Apply(w, e, limit);
    if e.Step? && e.id in w.executions {
      SpentStep(w, e.id, e.succeeds, job, limit);
      hide Advance, Late;
      forall id | id in v.executions && v.executions[id].job == job
        ensures !Late(v.executions[id].stage, limit) && (WorksOn(v, id, job) ==> id in working)
      {
        if id != e.id { assert v.executions[id] == w.executions[id]; }
      }
    }
  }

  /** A step of an execution that is not late does not make it so, and does not bring it to work. */
  lemma SpentStep(w: World, id: Id, succeeds: bool, job: Job, limit: int)
    requires id in w.executions && job in w.done
    ensures var v, r := Advance(w, id, succeeds, limit), w.executions[id];
            && job in v.done && v.executions == w.executions[id := v.executions[id]] && v.executions[id].job == r.job
            && (r.job == job && !Late(r.stage, limit) ==>
                  !Late(v.executions[id].stage, limit) && !v.executions[id].stage.Working?)
  {
    AdvanceMovesLock(w, id, succeeds, limit);
  }

  lemma {:induction false} RunKeepsSpent(w: World, events: seq<Event>, job: Job, limit: int, working: set<Id>)
    requires Spent(w, job, limit, working) && DoneExpires(job) !in events
    ensures Spent(Run(w, events, limit), job, limit, working)
    decreases |events|
  {
    hide Spent, Apply;
    if |events| > 0 {
      ApplyKeepsSpent(w, events[0], job, limit, working);
      RunKeepsSpent(Apply(w, events[0], limit), events[1..], job, limit, working);
    }
  }

  lemma {:induction false} StepsAreSteps(id: Id, n: nat, e: Event)
    ensures e in Steps(id, true, n) ==> e.Step?
  {
    if n > 0 { StepsAreSteps(id, n - 1, e); }
  }

  /** A late execution comes to work once lock and counter make way. */
  lemma LateReachesWork(w: World, id: Id, limit: int) returns (events: seq<Event>)
    requires limit >= 1 && id in w.executions && Late(w.executions[id].stage, limit)
    ensures DoneExpires(w.executions[id].job) !in events
    ensures WorksOn(Run(w, events, limit), id, w.executions[id].job)
  {
    var job, stage := w.executions[id].job, w.executions[id].stage;
    assert w == Move(w, id, stage);
    assert Move(w, id, Working).executions[id] == Execution(job, Working);
    match stage
    case AcquireLock =>
      var w1 := Apply(w, LockExpires(job), limit);
      var w2 := Apply(w1, CounterExpires(job.workspaceId), limit);
      events := [LockExpires(job)] + ([CounterExpires(job.workspaceId)] + Steps(id, true, 4));
      RunOne(w, LockExpires(job), [CounterExpires(job.workspaceId)] + Steps(id, true, 4), limit);
      RunOne(w1, CounterExpires(job.workspaceId), Steps(id, true, 4), limit);
      ReachesWork(w2, id, limit);
      StepsAreSteps(id, 4, DoneExpires(job));
      hide Run, Steps;
    case Increment =>
      var w1 := Apply(w, CounterExpires(job.workspaceId), limit);
      var counted := Add(w1, job.workspaceId, 1);
      events := [CounterExpires(job.workspaceId)] + Steps(id, true, 3);
      RunOne(w, CounterExpires(job.workspaceId), Steps(id, true, 3), limit);
      assert w1 == Move(w1, id, Increment);
      ThreeStepsCount(w1, id, true, 0, limit);
      NoSteps(Move(counted, id, Working), id, limit);
      StepsAreSteps(id, 3, DoneExpires(job));
      hide Run, Steps;
    case SetExpiry(active) =>
      events := Steps(id, true, 2);
      StepFrom(w, id, SetExpiry(active), true, 1, limit);
      StepFrom(w, id, CompareLimit(active), true, 0, limit);
      NoSteps(Move(w, id, Working), id, limit);
      StepsAreSteps(id, 2, DoneExpires(job));
      hide Run, Steps;
    case CompareLimit(active) =>
      events := Steps(id, true, 1);
      StepFrom(w, id, CompareLimit(active), true, 0, limit);
      NoSteps(Move(w, id, Working), id, limit);
      StepsAreSteps(id, 1, DoneExpires(job));
      hide Run, Steps;
  }

  /** A run brings an execution to work on the job that was not at it before. */
  ghost predicate WorkedOnAnew(w: World, events: seq<Event>, job: Job, limit: int) {
    exists id :: WorksOn(Run(w, events, limit), id, job) && !WorksOn(w, id, job)
  }

  /** A job that is done, and whose done key lasts, is worked on again exactly when some execution of it stands past
      the check of the done key, short of work, and not over the limit. */
  lemma DoneJobIsWorkedOnAgainIffLate(w: World, job: Job, limit: int)
    requires limit >= 1 && job in w.done
    ensures (exists events :: DoneExpires(job) !in events && WorkedOnAnew(w, events, job, limit))
            <==> SomeLate(w, job, limit)
  {
    if SomeLate(w, job, limit) {
      var id :| id in w.executions && w.executions[id].job == job && Late(w.executions[id].stage, limit);
      var events := LateReachesWork(w, id, limit);
      assert WorkedOnAnew(w, events, job, limit);
    } else {
      var working := set id | id in w.executions && w.executions[id] == Execution(job, Working);
      assert Spent(w, job, limit, working);
      forall events | DoneExpires(job) !in events ensures !WorkedOnAnew(w, events, job, limit) {
        RunKeepsSpent(w, events, job, limit, working);
        hide Run;
      }
    }
  }

  /** One execution looks for the done key and waits; another runs the job through; the first goes on to work. */
  function Overtaking(job: Job): seq<Event> {
    [Start(1, job)] + ([Step(1, true)] + ([Start(0, job)] + (Steps(0, true, 9) + Steps(1, true, 4))))
  }

  /** A run from the start in which that happens: the done key is read before the lock is taken. */
  lemma WorkCanRunTwice(job: Job)
    ensures var w := Run(Nothing, Overtaking(job), 1);
            && job in w.done
            && 0 in w.executions && w.executions[0] == Execution(job, Finished)
            && 1 in w.executions && w.executions[1] == Execution(job, Working)
  {
    var rest := Steps(0, true, 9) + Steps(1, true, 4);
    var w1 := Apply(Nothing, Start(1, job), 1);
    RunOne(Nothing, Start(1, job), [Step(1, true)] + ([Start(0, job)] + rest), 1);
    var w2 := Apply(w1, Step(1, true), 1);
    RunOne(w1, Step(1, true), [Start(0, job)] + rest, 1);
    var w3 := Apply(w2, Start(0, job), 1);
    RunOne(w2, Start(0, job), rest, 1);
    RunOn(w3, Steps(0, true, 9), Steps(1, true, 4), 1);
    NineStepsFinish(w3, 0, true, 1);
    ReachesWork(Uninterrupted(w3, 0, true, 1), 1, 1);
    hide Run, Steps;
  }
}

/** The guard as the worker calls it. */
module GuardService {
  import opened GuardProtocol

  datatype Outcome = IsDuplicate | ConcurrencyLimit | WorkFailed | WorkDone

  lemma UninterruptedKeys(w: World, id: Id, succeeds: bool, limit: int)
    requires id in w.executions
    ensures var v, job := Uninterrupted(w, id, succeeds, limit), w.executions[id].job;
            var count := Counter(w, job.workspaceId);
            && v.locks == w.locks
            && (job in w.done || job in w.locks ==> v.done == w.done && v.active == w.active)
            && (job !in w.done && job !in w.locks ==> v.active == w.active[job.workspaceId := count])
            && (job !in w.done && job !in w.locks ==>
                  v.done == if count < limit && succeeds then w.done + {job} else w.done)
  {}

  class DistributedLock {
    var locks: map<Job, Id>

    constructor ()
      ensures locks == map[]
    {
      locks := map[];
    }

    /** Takes the lock if it is free. */
    method Acquire(job: Job, token: Id) returns (acquired: bool)
      modifies this
      ensures acquired <==> job !in old(locks)
      ensures locks == if acquired then old(locks)[job := token] else old(locks)
    {
      acquired := job !in locks;
      if acquired { locks := locks[job := token]; }
    }

    /** Gives the lock back if it is still the caller's. */
    method Release(job: Job, token: Id)
      modifies this
      ensures locks == if job in old(locks) && old(locks)[job] == token then old(locks) - {job} else old(locks)
    {
      if job in locks && locks[job] == token { locks := locks - {job}; }
    }
  }

  class ExecutionGuard {
    const workspaceLimit: int
    const locks: DistributedLock
    var done: set<Job>
    var active: map<string, int>

    constructor (workspaceLimit: int)
      ensures this.workspaceLimit == workspaceLimit && done == {} && active == map[]
      ensures fresh(locks) && locks.locks == map[]
    {
      this.workspaceLimit := workspaceLimit;
      done, active := {}, map[];
      locks := new DistributedLock();
    }

    function Active(workspaceId: string): int
      reads this
    {
      if workspaceId in active then active[workspaceId] else 0
    }

    /** Whether the keys are those of a state of the protocol. */
    predicate HasKeysOf(w: World)
      reads this, locks
    {
      done == w.done && locks.locks == w.locks && active == w.active
    }

    /** One execution with nothing between its steps: it ends as nine steps of the protocol do. */
    method Execute(job: Job, token: Id, workSucceeds: bool, ghost w: World) returns (outcome: Outcome)
      requires HasKeysOf(w) && token in w.executions && w.executions[token] == Execution(job, CheckDone)
      modifies this, locks
      ensures HasKeysOf(Run(w, Steps(token, workSucceeds, 9), workspaceLimit))
      ensures outcome == if job in old(done) || job in old(locks.locks) then IsDuplicate
                         else if old(Active(job.workspaceId)) >= workspaceLimit then ConcurrencyLimit
                         else if workSucceeds then WorkDone else WorkFailed
      ensures locks.locks == old(locks.locks)
      ensures active == if outcome.IsDuplicate? then old(active)
                        else old(active)[job.workspaceId := old(Active(job.workspaceId))]
      ensures done == if outcome == WorkDone then old(done) + {job} else old(done)
    {
      NineStepsFinish(w, token, workSucceeds, workspaceLimit);
      UninterruptedKeys(w, token, workSucceeds, workspaceLimit);
      hide Run, Steps, Uninterrupted;
      if job in done { return IsDuplicate; }
      var acquired := locks.Acquire(job, token);
      if !acquired { return IsDuplicate; }
      outcome := WorkWithinLimit(job, workSucceeds);
      assert w.locks[job := token] - {job} == w.locks;
      locks.Release(job, token);
    }

    /** What happens while the lock is held: the counter goes up and comes down again. */
    method WorkWithinLimit(job: Job, workSucceeds: bool) returns (outcome: Outcome)
      modifies this
      ensures outcome == if old(Active(job.workspaceId)) >= workspaceLimit then ConcurrencyLimit
                         else if workSucceeds then WorkDone else WorkFailed
      ensures active == old(active)[job.workspaceId := old(Active(job.workspaceId))]
      ensures done == if outcome == WorkDone then old(done) + {job} else old(done)
    {
      var count := Active(job.workspaceId) + 1;
      active := active[job.workspaceId := count];
      if count > workspaceLimit {
        active := active[job.workspaceId := Active(job.workspaceId) - 1];
        return ConcurrencyLimit;
      }
      if workSucceeds {
        done := done + {job};
      }
      outcome := if workSucceeds then WorkDone else WorkFailed;
      active := active[job.workspaceId := Active(job.workspaceId) - 1];
    }
  }
}
