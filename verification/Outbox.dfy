/** The outbox: claiming, publishing, retrying, quarantining and replaying events, with any number of
    concurrent publishers. */
module OutboxProtocol {
  import opened Numbers

  const MAX_ATTEMPTS := 10
  const BATCH := 100

  datatype Status = Pending | Publishing | Processed | Failed | Quarantined

  datatype Row = Row(status: Status, attempts: nat, availableAt: int, occurredAt: int)

  function Backoff(attempts: nat): (delay: int)
    ensures 0 < delay <= 3_600_000
  {
    Min(3_600_000, 1000 * Pow2(Min(attempts, 12)))
  }

  predicate Due(row: Row, now: int) {
    row.status in {Pending, Failed} && row.availableAt <= now
  }

  /** `claim` takes an oldest due event. */
  predicate Claimable(rows: map<string, Row>, now: int, eventId: string) {
    && eventId in rows && Due(rows[eventId], now)
    && forall other <- rows :: Due(rows[other], now) ==> rows[eventId].occurredAt <= rows[other].occurredAt
  }

  function Claimed(row: Row): Row { row.(status := Publishing, attempts := row.attempts + 1) }

  function MarkProcessed(row: Row): Row { if row.status == Publishing then row.(status := Processed) else row }

  /** `failed` writes whatever the row's status is, and judges by the attempt count of the claim. */
  function MarkFailed(row: Row, attempts: nat, now: int): Row {
    row.(status := if attempts >= MAX_ATTEMPTS then Quarantined else Failed, availableAt := now + Backoff(attempts))
  }

  predicate Replayable(row: Row) { row.status in {Processed, Quarantined, Failed} }

  /** `replay` keeps the attempt count: the reset it names applies to inserts only. */
  function Replayed(row: Row, now: int): Row { row.(status := Pending, availableAt := now) }

  // ---- publishers ----------------------------------------------------------------------------------------

  /** Where a publisher's pass stands. `claim` holds the event and the attempt count it was claimed with. */
  datatype Stage =
    | Claiming(index: nat)
    | Adding(index: nat, eventId: string, attempts: nat)
    | Confirming(index: nat, eventId: string, attempts: nat)
    | Failing(index: nat, eventId: string, attempts: nat)

  /** The stored rows, the job ids in the queue, the publishers, and two histories: how often each event was
      claimed and how often it was replayed. */
  datatype World = World(
    rows: map<string, Row>,
    queue: set<string>,
    publishers: map<nat, Stage>,
    claims: map<string, nat>,
    replays: map<string, nat>)

  datatype Event =
    | AppendRow(eventId: string, occurredAt: int, availableAt: int)
    | Begin(id: nat)
    | Step(id: nat, now: int, pick: string, succeeds: bool)
    | Crash(id: nat)
    | Replay(eventId: string, now: int)

  const START := World(map[], {}, map[], map[], map[])

  function Move(w: World, id: nat, stage: Stage): World { w.(publishers := w.publishers[id := stage]) }

  function SetRow(w: World, eventId: string, row: Row): World { w.(rows := w.rows[eventId := row]) }

  function Count(counts: map<string, nat>, eventId: string): nat {
    if eventId in counts then counts[eventId] else 0
  }

  function Increment(counts: map<string, nat>, eventId: string): map<string, nat> {
    counts[eventId := Count(counts, eventId) + 1]
  }

  function StepOf(w: World, id: nat, now: int, pick: string, succeeds: bool): World
    requires id in w.publishers
  {
    match w.publishers[id]
    case Claiming(index) =>
      if index >= BATCH then w.(publishers := w.publishers - {id})
      else if Claimable(w.rows, now, pick) then
        SetRow(Move(w, id, Adding(index, pick, w.rows[pick].attempts + 1)), pick, Claimed(w.rows[pick]))
          .(claims := Increment(w.claims, pick))
      else if forall e <- w.rows :: !Due(w.rows[e], now) then w.(publishers := w.publishers - {id})
      else w
    case Adding(index, eventId, attempts) =>
      if succeeds then Move(w, id, Confirming(index, eventId, attempts)).(queue := w.queue + {eventId})
      else Move(w, id, Failing(index, eventId, attempts))
    case Confirming(index, eventId, attempts) =>
      if !succeeds then Move(w, id, Failing(index, eventId, attempts))
      else if eventId in w.rows then SetRow(Move(w, id, Claiming(index + 1)), eventId, MarkProcessed(w.rows[eventId]))
      else Move(w, id, Claiming(index + 1))
    case Failing(index, eventId, attempts) =>
      if !succeeds then w.(publishers := w.publishers - {id})
      else if eventId in w.rows then
        SetRow(Move(w, id, Claiming(index + 1)), eventId, MarkFailed(w.rows[eventId], attempts, now))
      else Move(w, id, Claiming(index + 1))
  }

  function Apply(w: World, e: Event): World {
    match e
    case AppendRow(eventId, occurredAt, availableAt) =>
      if eventId in w.rows then w else SetRow(w, eventId, Row(Pending, 0, availableAt, occurredAt))
    case Begin(id) => if id in w.publishers then w else Move(w, id, Claiming(0))
    case Step(id, now, pick, succeeds) => if id in w.publishers then StepOf(w, id, now, pick, succeeds) else w
    case Crash(id) => w.(publishers := w.publishers - {id})
    case Replay(eventId, now) =>
      if eventId in w.rows && Replayable(w.rows[eventId]) then
        SetRow(w, eventId, Replayed(w.rows[eventId], now)).(replays := Increment(w.replays, eventId))
      else w
  }

  function Run(w: World, events: seq<Event>): World
    decreases |events|
  {
    if |events| == 0 then w else Run(Apply(w, events[0]), events[1..])
  }

  // ---- the invariant ---------------------------------------------------------------------------------------

  predicate Holds(stage: Stage, eventId: string) {
    !stage.Claiming? && stage.eventId == eventId
  }

  predicate SoundRow(w: World, eventId: string)
    requires eventId in w.rows
  {
    var row := w.rows[eventId];
    && row.attempts == Count(w.claims, eventId)
    && row.attempts <= MAX_ATTEMPTS + Count(w.replays, eventId)
    && (row.status == Pending && row.attempts > 0 ==> row.attempts < MAX_ATTEMPTS + Count(w.replays, eventId))
    && (row.status == Failed ==> 0 < row.attempts < MAX_ATTEMPTS)
    && (row.status == Quarantined ==> row.attempts >= MAX_ATTEMPTS)
    && (row.status == Processed ==> eventId in w.queue)
    && (row.status == Pending && Count(w.replays, eventId) == 0 ==> row.attempts == 0)
  }

  predicate SoundPublisher(w: World, stage: Stage) {
    !stage.Claiming? ==>
      && stage.eventId in w.rows
      && w.rows[stage.eventId].status == Publishing
      && w.rows[stage.eventId].attempts == stage.attempts > 0
      && (stage.Confirming? ==> stage.eventId in w.queue)
  }

  predicate OneHolder(w: World) {
    forall i <- w.publishers, j <- w.publishers ::
      !w.publishers[i].Claiming? && !w.publishers[j].Claiming? && w.publishers[i].eventId == w.publishers[j].eventId ==>
        i == j
  }

  predicate Sound(w: World) {
    && (forall e <- w.rows :: SoundRow(w, e))
    && (forall i <- w.publishers :: SoundPublisher(w, w.publishers[i]))
    && OneHolder(w)
    && (forall e <- w.queue :: e in w.rows)
    && (forall e <- w.claims :: e in w.rows)
    && (forall e <- w.replays :: e in w.rows)
  }

  lemma TakeKeepsRows(w: World, id: nat, index: nat, pick: string)
    requires Sound(w) && pick in w.rows && w.rows[pick].status in {Pending, Failed}
    ensures var t := SetRow(Move(w, id, Adding(index, pick, w.rows[pick].attempts + 1)), pick, Claimed(w.rows[pick]))
                       .(claims := Increment(w.claims, pick));
            forall e <- t.rows :: SoundRow(t, e)
  {
    hide SoundPublisher, OneHolder;
    assert forall e <- w.rows :: SoundRow(w, e);
  }

  lemma TakeKeepsPublishers(w: World, id: nat, index: nat, pick: string)
    requires Sound(w) && pick in w.rows && w.rows[pick].status in {Pending, Failed}
    ensures var t := SetRow(Move(w, id, Adding(index, pick, w.rows[pick].attempts + 1)), pick, Claimed(w.rows[pick]))
                       .(claims := Increment(w.claims, pick));
            OneHolder(t) && forall i <- t.publishers :: SoundPublisher(t, t.publishers[i])
  {
    hide SoundRow, Count;
    assert forall i <- w.publishers :: SoundPublisher(w, w.publishers[i]);
  }

  lemma StopKeeps(w: World, id: nat)
    requires Sound(w)
    ensures Sound(w.(publishers := w.publishers - {id}))
  {
    hide Count;
  }

  lemma TakeKeeps(w: World, id: nat, index: nat, pick: string)
    requires Sound(w) && id in w.publishers && pick in w.rows && w.rows[pick].status in {Pending, Failed}
    ensures Sound(SetRow(Move(w, id, Adding(index, pick, w.rows[pick].attempts + 1)), pick, Claimed(w.rows[pick]))
                    .(claims := Increment(w.claims, pick)))
  {
    TakeKeepsRows(w, id, index, pick);
    TakeKeepsPublishers(w, id, index, pick);
    hide SoundRow, SoundPublisher, OneHolder, Count, Claimed;
  }

  lemma ClaimKeeps(w: World, id: nat, now: int, pick: string, succeeds: bool)
    requires Sound(w) && id in w.publishers && w.publishers[id].Claiming?
    ensures Sound(StepOf(w, id, now, pick, succeeds))
  {
    hide Sound;
    StopKeeps(w, id);
    if w.publishers[id].index < BATCH && Claimable(w.rows, now, pick) {
      TakeKeeps(w, id, w.publishers[id].index, pick);
    }
  }

  /** A holder may settle its event with `row`. */
  predicate Settles(w: World, stage: Stage, row: Row) {
    && !stage.Claiming?
    && row.attempts == stage.attempts && row.status !in {Publishing, Pending}
    && (row.status == Processed ==> stage.eventId in w.queue)
    && (row.status == Failed <==> row.status != Processed && row.attempts < MAX_ATTEMPTS)
  }

  lemma ReleaseKeepsRows(w: World, eventId: string, stage: Stage, row: Row)
    requires Sound(w) && SoundPublisher(w, stage) && Settles(w, stage, row) && stage.eventId == eventId
    ensures var t := SetRow(w, eventId, row); forall e <- t.rows :: SoundRow(t, e)
  {
    hide OneHolder, Count;
    assert SoundRow(w, eventId);
    assert forall e <- w.rows :: SoundRow(w, e);
  }

  lemma ReleaseKeepsPublishers(w: World, id: nat, row: Row)
    requires Sound(w) && id in w.publishers && !w.publishers[id].Claiming?
    ensures var stage := w.publishers[id];
            var t := SetRow(Move(w, id, Claiming(stage.index + 1)), stage.eventId, row);
            OneHolder(t) && forall i <- t.publishers :: SoundPublisher(t, t.publishers[i])
  {
    hide SoundRow;
    assert forall i <- w.publishers :: SoundPublisher(w, w.publishers[i]);
  }

  /** A holder settles its event and goes on. */
  lemma ReleaseKeeps(w: World, id: nat, row: Row)
    requires Sound(w) && id in w.publishers && Settles(w, w.publishers[id], row)
    ensures var stage := w.publishers[id];
            Sound(SetRow(Move(w, id, Claiming(stage.index + 1)), stage.eventId, row))
  {
    var stage := w.publishers[id];
    assert SoundPublisher(w, stage);
    ReleaseKeepsRows(w, stage.eventId, stage, row);
    ReleaseKeepsPublishers(w, id, row);
    hide SoundPublisher, OneHolder, Settles, Count;
    var t := SetRow(Move(w, id, Claiming(stage.index + 1)), stage.eventId, row);
    assert forall e <- t.rows :: SoundRow(t, e) by {
      assert forall e <- t.rows :: SoundRow(SetRow(w, stage.eventId, row), e);
    }
  }

  lemma ConfirmFailedKeeps(w: World, id: nat)
    requires Sound(w) && id in w.publishers && w.publishers[id].Confirming?
    ensures var stage := w.publishers[id];
            Sound(Move(w, id, Failing(stage.index, stage.eventId, stage.attempts)))
  {
    hide Count;
  }

  lemma AddKeeps(w: World, id: nat, now: int, pick: string, succeeds: bool)
    requires Sound(w) && id in w.publishers && w.publishers[id].Adding?
    ensures Sound(StepOf(w, id, now, pick, succeeds))
  {}

  lemma HolderFacts(w: World, id: nat, now: int)
    requires Sound(w) && id in w.publishers && (w.publishers[id].Confirming? || w.publishers[id].Failing?)
    ensures var stage := w.publishers[id];
            && stage.eventId in w.rows
            && (stage.Confirming? ==> Settles(w, stage, MarkProcessed(w.rows[stage.eventId])))
            && Settles(w, stage, MarkFailed(w.rows[stage.eventId], stage.attempts, now))
  {
    assert SoundPublisher(w, w.publishers[id]);
    hide SoundRow, Backoff;
  }

  lemma SettleKeeps(w: World, id: nat, now: int, pick: string, succeeds: bool)
    requires Sound(w) && id in w.publishers && (w.publishers[id].Confirming? || w.publishers[id].Failing?)
    ensures Sound(StepOf(w, id, now, pick, succeeds))
  {
    hide Sound, Settles, MarkProcessed, MarkFailed;
    var stage := w.publishers[id];
    HolderFacts(w, id, now);
    if succeeds {
      ReleaseKeeps(w, id, if stage.Confirming? then MarkProcessed(w.rows[stage.eventId])
                          else MarkFailed(w.rows[stage.eventId], stage.attempts, now));
    } else if stage.Failing? {
      StopKeeps(w, id);
    } else {
      ConfirmFailedKeeps(w, id);
    }
  }

  lemma ReplayKeeps(w: World, eventId: string, now: int)
    requires Sound(w)
    ensures Sound(Apply(w, Replay(eventId, now)))
  {}

  lemma ArriveKeeps(w: World, e: Event)
    requires Sound(w) && (e.AppendRow? || e.Begin?)
    ensures Sound(Apply(w, e))
  {}

  lemma ApplyKeeps(w: World, e: Event)
    requires Sound(w)
    ensures Sound(Apply(w, e))
  {
    hide Sound, StepOf;
    match e {
      case Step(id, now, pick, succeeds) =>
        if id in w.publishers {
          match w.publishers[id] {
            case Claiming(_) => ClaimKeeps(w, id, now, pick, succeeds);
            case Adding(_, _, _) => AddKeeps(w, id, now, pick, succeeds);
            case _ => SettleKeeps(w, id, now, pick, succeeds);
          }
        }
      case Replay(eventId, now) => ReplayKeeps(w, eventId, now);
      case Crash(id) => StopKeeps(w, id);
      case _ => ArriveKeeps(w, e);
    }
  }

  lemma {:induction false} RunKeeps(w: World, events: seq<Event>)
    requires Sound(w)
    ensures Sound(Run(w, events))
    decreases |events|
  {
    hide Sound, Apply;
    if |events| != 0 {
      ApplyKeeps(w, events[0]);
      RunKeeps(Apply(w, events[0]), events[1..]);
    }
  }

  /** With any number of publishers, crashes and replays: an event has at most one holder and only while it
      is publishing; it is claimed at most ten times plus once per replay; it is quarantined only with at
      least ten claims and retryable only with fewer; and it is processed only if it was enqueued. */
  lemma PublishingIsSafe(events: seq<Event>)
    ensures var w := Run(START, events);
            && (forall i <- w.publishers, j <- w.publishers, e <- w.rows ::
                  Holds(w.publishers[i], e) && Holds(w.publishers[j], e) ==> i == j && w.rows[e].status == Publishing)
            && (forall e <- w.rows ::
                  && w.rows[e].attempts == Count(w.claims, e) <= 10 + Count(w.replays, e)
                  && (w.rows[e].status == Quarantined ==> Count(w.claims, e) >= 10)
                  && (w.rows[e].status == Failed ==> Count(w.claims, e) < 10)
                  && (w.rows[e].status == Processed ==> e in w.queue))
  {
    RunKeeps(START, events);
  }

  /** Never replayed, an event that is not being published and not processed is quarantined exactly when it
      has been claimed ten times. */
  lemma QuarantinedOnTheTenthFailure(events: seq<Event>, eventId: string)
    requires var w := Run(START, events);
             eventId in w.rows && Count(w.replays, eventId) == 0 && w.rows[eventId].status !in {Publishing, Processed}
    ensures var w := Run(START, events);
            w.rows[eventId].status == Quarantined <==> Count(w.claims, eventId) == 10
  {
    RunKeeps(START, events);
    assert SoundRow(Run(START, events), eventId);
  }

  // ---- termination of publishing -------------------------------------------------------------------------------

  /** How many claims an event can still take without another replay. */
  function ClaimsLeft(row: Row): nat {
    if row.attempts < MAX_ATTEMPTS then MAX_ATTEMPTS - row.attempts
    else if row.status == Pending then 1
    else 0
  }

  ghost function Pick(ids: set<string>): (id: string)
    requires ids != {}
    ensures id in ids
  {
    var id :| id in ids; id
  }

  ghost function TotalLeft(rows: map<string, Row>, ids: set<string>): nat
    requires ids <= rows.Keys
  {
    if ids == {} then 0
    else var id := Pick(ids); ClaimsLeft(rows[id]) + TotalLeft(rows, ids - {id})
  }

  lemma {:induction false} TotalLeftChanges(rows: map<string, Row>, ids: set<string>, eventId: string, row: Row)
    requires ids <= rows.Keys && eventId in rows
    ensures TotalLeft(rows[eventId := row], ids) - TotalLeft(rows, ids)
            == if eventId in ids then ClaimsLeft(row) - ClaimsLeft(rows[eventId]) else 0
  {
    if ids != {} {
      TotalLeftChanges(rows, ids - {Pick(ids)}, eventId, row);
    }
  }

  predicate Claims(w: World, e: Event) {
    && e.Step? && e.id in w.publishers
    && w.publishers[e.id].Claiming? && w.publishers[e.id].index < BATCH
    && Claimable(w.rows, e.now, e.pick)
  }

  function ClaimCount(w: World, events: seq<Event>): nat
    decreases |events|
  {
    if |events| == 0 then 0
    else (if Claims(w, events[0]) then 1 else 0) + ClaimCount(Apply(w, events[0]), events[1..])
  }

  lemma StepUsesClaims(w: World, e: Event)
    requires Sound(w) && !e.AppendRow? && !e.Replay?
    ensures Apply(w, e).rows.Keys == w.rows.Keys
    ensures (if Claims(w, e) then 1 else 0) + TotalLeft(Apply(w, e).rows, w.rows.Keys) <= TotalLeft(w.rows, w.rows.Keys)
  {
    hide Backoff, TotalLeft, OneHolder;
    if Claims(w, e) {
      TotalLeftChanges(w.rows, w.rows.Keys, e.pick, Claimed(w.rows[e.pick]));
    } else if e.Step? && e.id in w.publishers && !w.publishers[e.id].Claiming? {
      var stage := w.publishers[e.id];
      assert SoundPublisher(w, stage);
      TotalLeftChanges(w.rows, w.rows.Keys, stage.eventId, MarkProcessed(w.rows[stage.eventId]));
      TotalLeftChanges(w.rows, w.rows.Keys, stage.eventId, MarkFailed(w.rows[stage.eventId], stage.attempts, e.now));
    }
  }

  /** Publishing terminates: until the next append or replay, all publishers together make no more claims
      than the events have left. */
  lemma {:induction false} PublishingTerminates(w: World, events: seq<Event>)
    requires Sound(w) && forall e <- events :: !e.AppendRow? && !e.Replay?
    ensures ClaimCount(w, events) <= TotalLeft(w.rows, w.rows.Keys)
    decreases |events|
  {
    hide Sound, Apply, Claims, TotalLeft;
    if |events| != 0 {
      ApplyKeeps(w, events[0]);
      StepUsesClaims(w, events[0]);
      PublishingTerminates(Apply(w, events[0]), events[1..]);
    }
  }

  /** The row after being claimed and failed at each of the times. */
  function Failures(row: Row, times: seq<int>): Row
    decreases |times|
  {
    if |times| == 0 then row
    else
      var claimed := Claimed(row);
      Failures(MarkFailed(claimed, claimed.attempts, times[0]), times[1..])
  }

  lemma {:induction false} FailuresCount(row: Row, times: seq<int>)
    requires |times| >= 1
    ensures Failures(row, times).status == if row.attempts + |times| >= MAX_ATTEMPTS then Quarantined else Failed
    decreases |times|
  {
    var failed := MarkFailed(Claimed(row), row.attempts + 1, times[0]);
    assert Failures(row, times) == Failures(failed, times[1..]);
    if |times| > 1 { FailuresCount(failed, times[1..]); }
  }

  // ---- the schedule of retries ------------------------------------------------------------------------------

  /** A failure of a claim with this attempt count keeps the event from being claimed for exactly this long. */
  ghost predicate Rests(attempts: nat, delay: int) {
    forall row, now, t :: Due(MarkFailed(row, attempts, now), t) <==> t >= now + delay
  }

  /** A failed first attempt rests two seconds, and each failure up to the ninth twice as long as the one before. */
  lemma EachRestIsTwiceTheLast(attempts: nat)
    requires 1 <= attempts < 9
    ensures Rests(1, 2000)
    ensures forall delay :: Rests(attempts, delay) ==> Rests(attempts + 1, 2 * delay)
  {
    assert Rests(1, 2000) by { assert Pow2(1) == 2; }
    assert Pow2(attempts + 1) == 2 * Pow2(attempts);
    PowersUpToNine(attempts);
    forall delay | Rests(attempts, delay) ensures Rests(attempts + 1, 2 * delay) {
      var row := Row(Pending, 0, 0, 0);
      assert Due(MarkFailed(row, attempts, 0), delay);
      var rest := 1000 * Pow2(attempts);
      assert Due(MarkFailed(row, attempts, 0), rest) && !Due(MarkFailed(row, attempts, 0), rest - 1);
      hide Pow2;
      assert delay == rest;
    }
  }

  lemma PowersUpToNine(n: nat)
    requires n <= 9
    ensures Pow2(n) == [1, 2, 4, 8, 16, 32, 64, 128, 256, 512][n]
  {
    if n > 0 { PowersUpToNine(n - 1); }
  }

  /** An event that was claimed and failed at each of the times is due again this long after the last, if it was
      claimed no more than nine times in all, and never without a replay if it was. */
  lemma {:induction false} FailureSchedule(row: Row, times: seq<int>, t: int)
    requires |times| >= 1
    ensures var claims, last := row.attempts + |times|, times[|times| - 1];
            Due(Failures(row, times), t) <==>
              && claims <= 9
              && t >= last + [2_000, 4_000, 8_000, 16_000, 32_000, 64_000, 128_000, 256_000, 512_000][claims - 1]
    decreases |times|
  {
    var failed := MarkFailed(Claimed(row), row.attempts + 1, times[0]);
    assert Failures(row, times) == Failures(failed, times[1..]);
    if |times| > 1 {
      FailureSchedule(failed, times[1..], t);
    } else if row.attempts < 9 {
      PowersUpToNine(row.attempts + 1);
      hide Pow2;
    }
  }

  /** A replay leaves an event the claims it had not used, and one if it had used ten: that many failures quarantine
      it, and no fewer. It gets all ten exactly when it was never claimed. It is due at once. */
  lemma ReplayGrants(row: Row, now: int, times: seq<int>)
    requires Replayable(row) && |times| >= 1
    ensures var replayed := Replayed(row, now);
            && ClaimsLeft(replayed) == (if row.attempts < 10 then 10 - row.attempts else 1)
            && (ClaimsLeft(replayed) == 10 <==> row.attempts == 0)
            && (Failures(replayed, times).status == Quarantined <==> |times| >= ClaimsLeft(replayed))
            && forall t :: Due(replayed, t) <==> t >= now
  {
    FailuresCount(Replayed(row, now), times);
  }

  /** So a replayed quarantined event gets one claim, not ten: its count is kept, so the first failure
      quarantines it again. */
  lemma ReplayedQuarantineHasOneClaim(row: Row, now: int, later: int)
    requires row.status == Quarantined && row.attempts >= 10
    ensures var claimed := Claimed(Replayed(row, now));
            ClaimsLeft(Replayed(row, now)) == 1 && MarkFailed(claimed, claimed.attempts, later).status == Quarantined
  {
    ReplayGrants(row, now, [later]);
  }
}

/** The outbox service and the publishing pass over it. */
module OutboxService {
  import opened Numbers
  import opened Options
  import opened OutboxProtocol

  datatype ClaimedEvent = ClaimedEvent(eventId: string, attempts: nat)

  function DueEvents(rows: map<string, Row>, now: int): set<string> {
    set e <- rows | Due(rows[e], now)
  }

  lemma {:induction false} OldestDueExists(rows: map<string, Row>, now: int, ids: set<string>) returns (oldest: string)
    requires ids != {} && ids <= rows.Keys
    ensures oldest in ids && forall e <- ids :: rows[oldest].occurredAt <= rows[e].occurredAt
  {
    oldest :| oldest in ids;
    if ids != {oldest} {
      var rest := OldestDueExists(rows, now, ids - {oldest});
      oldest := if rows[oldest].occurredAt <= rows[rest].occurredAt then oldest else rest;
    }
  }

  class Outbox {
    var rows: map<string, Row>
    var queue: set<string>

    constructor ()
      ensures rows == map[] && queue == {}
    {
      rows, queue := map[], {};
    }

    /** An event id already stored is a duplicate key. */
    method Append(eventId: string, occurredAt: int, availableAt: int) returns (inserted: bool)
      modifies this`rows
      ensures inserted <==> eventId !in old(rows)
      ensures rows == if inserted then old(rows)[eventId := Row(Pending, 0, availableAt, occurredAt)] else old(rows)
    {
      inserted := eventId !in rows;
      if inserted {
        rows := rows[eventId := Row(Pending, 0, availableAt, occurredAt)];
      }
    }

    method Claim(now: int) returns (claimed: Option<ClaimedEvent>)
      modifies this`rows
      ensures claimed == None <==> DueEvents(old(rows), now) == {}
      ensures claimed == None ==> rows == old(rows)
      ensures claimed.Some? ==>
                var e := claimed.value.eventId;
                && Claimable(old(rows), now, e) && rows == old(rows)[e := Claimed(old(rows)[e])]
                && claimed.value.attempts == rows[e].attempts
    {
      var due := DueEvents(rows, now);
      if due == {} {
        return None;
      }
      ghost var oldest := OldestDueExists(rows, now, due);
      var e :| e in due && forall other <- due :: rows[e].occurredAt <= rows[other].occurredAt;
      assert Claimable(rows, now, e) by {
        forall other <- rows | Due(rows[other], now) ensures rows[e].occurredAt <= rows[other].occurredAt {
          assert other in due;
        }
      }
      rows := rows[e := Claimed(rows[e])];
      return Some(ClaimedEvent(e, rows[e].attempts));
    }

    method Confirm(eventId: string)
      modifies this`rows
      ensures rows == if eventId in old(rows) then old(rows)[eventId := MarkProcessed(old(rows)[eventId])] else old(rows)
    {
      if eventId in rows && rows[eventId].status == Publishing {
        rows := rows[eventId := rows[eventId].(status := Processed)];
      }
    }

    method Fail(eventId: string, attempts: nat, now: int)
      modifies this`rows
      ensures rows == if eventId in old(rows) then old(rows)[eventId := MarkFailed(old(rows)[eventId], attempts, now)]
                      else old(rows)
    {
      if eventId in rows {
        rows := rows[eventId := MarkFailed(rows[eventId], attempts, now)];
      }
    }

    method ReplayEvent(eventId: string, now: int) returns (replayed: bool)
      modifies this`rows
      ensures replayed <==>
                && eventId in old(rows)
                && !old(rows)[eventId].status.Pending? && !old(rows)[eventId].status.Publishing?
      ensures rows == if replayed then old(rows)[eventId := Replayed(old(rows)[eventId], now)] else old(rows)
    {
      replayed := eventId in rows && Replayable(rows[eventId]);
      if replayed {
        rows := rows[eventId := Replayed(rows[eventId], now)];
      }
    }

    /** Enqueues a claimed event and confirms it, or records the failure. */
    method Publish(e: string, attempts: nat, now: int, refused: bool)
      requires e in rows && rows[e].status == Publishing
      modifies this
      ensures rows == old(rows)[e := if refused then MarkFailed(old(rows)[e], attempts, now)
                                     else MarkProcessed(old(rows)[e])]
      ensures queue == old(queue) + if refused then {} else {e}
    {
      if refused {
        Fail(e, attempts, now);
      } else {
        queue := queue + {e};
        Confirm(e);
      }
    }

    /** One turn of the loop: nothing, when nothing is due, or one event claimed and settled. */
    method PublishNext(now: int, refused: set<string>) returns (published: Option<string>)
      modifies this
      ensures published == None <==> DueEvents(old(rows), now) == {}
      ensures published == None ==> rows == old(rows) && queue == old(queue)
      ensures published.Some? ==>
                var e := published.value;
                && Claimable(old(rows), now, e)
                && rows == old(rows)[e := Outcome(old(rows)[e], e in refused, now)]
                && queue == old(queue) + if e in refused then {} else {e}
    {
      var event := Claim(now);
      if event == None {
        return None;
      }
      var e := event.value.eventId;
      Publish(e, event.value.attempts, now, e in refused);
      return Some(e);
    }

    /** One publishing pass. It claims the oldest due events, a hundred or all of them, each once; every one
        it can enqueue ends processed and in the queue, every other is marked failed, and the rest are left
        alone. */
    method Process(now: int, refused: set<string>) returns (published: nat, ghost claimed: set<string>)
      modifies this
      ensures |claimed| == if |DueEvents(old(rows), now)| <= 100 then |DueEvents(old(rows), now)| else 100
      ensures Passed(old(rows), rows, now, refused, claimed)
      ensures queue == old(queue) + (claimed - refused)
      ensures published == |claimed - refused|
    {
      published, claimed := 0, {};
      PassBegins(rows, now, refused);
      hide Passed, DueEvents, Outcome, Claimable;
      for index := 0 to BATCH
        invariant |claimed| == index
        invariant Passed(old(rows), rows, now, refused, claimed)
        invariant queue == old(queue) + (claimed - refused) && published == |claimed - refused|
      {
        ghost var before := rows;
        var event := PublishNext(now, refused);
        if event == None {
          break;
        }
        PassExtends(old(rows), before, now, refused, claimed, event.value);
        Tally(old(queue), claimed, refused, event.value);
        published := published + if event.value in refused then 0 else 1;
        claimed := claimed + {event.value};
      }
      PassEnds(old(rows), rows, now, refused, claimed);
    }
  }

  /** What a pass makes of an event it claimed. */
  function Outcome(row: Row, refused: bool, now: int): Row {
    if refused then MarkFailed(Claimed(row), row.attempts + 1, now) else MarkProcessed(Claimed(row))
  }

  /** The claimed events are due and the oldest of the due ones; they are settled, the other due ones are
      still due, and nothing else changed. */
  predicate Passed(
      before: map<string, Row>, after: map<string, Row>, now: int, refused: set<string>, claimed: set<string>) {
    && claimed <= DueEvents(before, now)
    && DueEvents(after, now) == DueEvents(before, now) - claimed
    && (forall e <- claimed, other <- DueEvents(before, now) - claimed :: before[e].occurredAt <= before[other].occurredAt)
    && after.Keys == before.Keys
    && forall e <- before :: after[e] == if e in claimed then Outcome(before[e], e in refused, now) else before[e]
  }

  lemma PassBegins(rows: map<string, Row>, now: int, refused: set<string>)
    ensures Passed(rows, rows, now, refused, {})
  {}

  lemma PassEnds(before: map<string, Row>, after: map<string, Row>, now: int, refused: set<string>, claimed: set<string>)
    requires Passed(before, after, now, refused, claimed)
    ensures |claimed| <= |DueEvents(before, now)|
    ensures DueEvents(after, now) == {} ==> |claimed| == |DueEvents(before, now)|
    ensures |claimed| == |DueEvents(before, now)| ==> DueEvents(after, now) == {}
  {
    var due, left := DueEvents(before, now), DueEvents(after, now);
    assert claimed <= due && left == due - claimed;
    hide Passed, DueEvents, Outcome, Due;
    SubsetSize(claimed, due);
    if left == {} {
      forall e <- due ensures e in claimed {
        assert e !in left;
      }
      SubsetSize(due, claimed);
    }
  }

  lemma OutcomeIsNotDue(row: Row, refused: bool, now: int)
    ensures !Due(Outcome(row, refused, now), now)
  {}

  /** One more oldest due event, claimed and settled. */
  lemma PassExtends(
      before: map<string, Row>, rows: map<string, Row>, now: int, refused: set<string>, claimed: set<string>, e: string)
    requires Passed(before, rows, now, refused, claimed) && Claimable(rows, now, e)
    ensures e !in claimed && Passed(before, rows[e := Outcome(rows[e], e in refused, now)], now, refused, claimed + {e})
  {
    hide Outcome;
    assert e in DueEvents(rows, now);
    var after := rows[e := Outcome(rows[e], e in refused, now)];
    OutcomeIsNotDue(rows[e], e in refused, now);
    assert DueEvents(after, now) == DueEvents(rows, now) - {e};
    hide Due;
    forall other <- DueEvents(before, now) - (claimed + {e}) ensures before[e].occurredAt <= before[other].occurredAt {
      assert other in DueEvents(rows, now);
    }
  }

  lemma Tally(queue: set<string>, claimed: set<string>, refused: set<string>, e: string)
    requires e !in claimed
    ensures |claimed + {e}| == |claimed| + 1
    ensures |(claimed + {e}) - refused| == |claimed - refused| + if e in refused then 0 else 1
    ensures queue + ((claimed + {e}) - refused) == (queue + (claimed - refused)) + if e in refused then {} else {e}
  {
    if e in refused {
      assert (claimed + {e}) - refused == claimed - refused;
    } else {
      assert (claimed + {e}) - refused == (claimed - refused) + {e};
    }
  }
}
