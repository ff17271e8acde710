/** The activity collection under live delivery, redelivery, replay and rebuild. */
module ActivityStore {
  import opened ActivityProjection
  import opened Options
  import opened Redactor

  datatype Row = Row(activity: Activity, processedAt: int)

  type Key = (string, string)

  function KeyOf(a: Activity): Key { (a.workspaceId, a.sourceEventId) }

  predicate Has(rows: seq<Row>, key: Key) {
    exists i :: 0 <= i < |rows| && KeyOf(rows[i].activity) == key
  }

  /** `insert` under the unique index on workspace and source event. */
  function Insert(rows: seq<Row>, a: Activity, now: int): seq<Row> {
    if Has(rows, KeyOf(a)) then rows else rows + [Row(a, now)]
  }

  function InsertProjected(rows: seq<Row>, a: Option<Activity>, now: int): seq<Row> {
    if a.None? then rows else Insert(rows, a.value, now)
  }

  predicate UniqueKeys(rows: seq<Row>) {
    forall i, j :: 0 <= i < j < |rows| ==> KeyOf(rows[i].activity) != KeyOf(rows[j].activity)
  }

  lemma InsertKeepsUnique(rows: seq<Row>, a: Activity, now: int)
    requires UniqueKeys(rows)
    ensures UniqueKeys(Insert(rows, a, now)) && Has(Insert(rows, a, now), KeyOf(a)) && rows <= Insert(rows, a, now)
    ensures forall key :: Has(Insert(rows, a, now), key) <==> Has(rows, key) || key == KeyOf(a)
  {
    var after := Insert(rows, a, now);
    if !Has(rows, KeyOf(a)) {
      assert KeyOf(after[|rows|].activity) == KeyOf(a);
      forall key ensures Has(after, key) <==> Has(rows, key) || key == KeyOf(a) {
        if Has(rows, key) {
          var i :| 0 <= i < |rows| && KeyOf(rows[i].activity) == key;
          assert KeyOf(after[i].activity) == key;
        }
      }
    }
  }

  // ---- rebuild ------------------------------------------------------------------------------------------

  /** `rebuild` over the retained events of a workspace, oldest first. */
  function RebuildAll(rows: seq<Row>, retained: seq<StoredEvent>, now: int): seq<Row>
    decreases |retained|
  {
    if retained == [] then rows
    else RebuildAll(InsertProjected(rows, Rebuilt(retained[0]), now), retained[1..], now)
  }

  predicate Covered(rows: seq<Row>, retained: seq<StoredEvent>) {
    forall i :: 0 <= i < |retained| && MapType(retained[i].eventType).Some? ==>
      Has(rows, (retained[i].workspaceId, retained[i].eventId))
  }

  lemma RebuiltKey(e: StoredEvent)
    ensures Rebuilt(e).Some? <==> MapType(e.eventType).Some?
    ensures Rebuilt(e).Some? ==> KeyOf(Rebuilt(e).value) == (e.workspaceId, e.eventId)
  {
    hide MapType, Redact;
  }

  lemma {:induction false} RebuildCovers(rows: seq<Row>, retained: seq<StoredEvent>, now: int)
    requires UniqueKeys(rows)
    ensures var after := RebuildAll(rows, retained, now);
            UniqueKeys(after) && rows <= after && Covered(after, retained)
            && forall key :: Has(rows, key) ==> Has(after, key)
    decreases |retained|
  {
    hide Rebuilt, MapType;
    if retained != [] {
      var e := retained[0];
      RebuiltKey(e);
      var next := InsertProjected(rows, Rebuilt(e), now);
      if Rebuilt(e).Some? {
        InsertKeepsUnique(rows, Rebuilt(e).value, now);
      }
      RebuildCovers(next, retained[1..], now);
      var after := RebuildAll(rows, retained, now);
      forall i | 0 <= i < |retained| && MapType(retained[i].eventType).Some?
        ensures Has(after, (retained[i].workspaceId, retained[i].eventId))
      {
        if i > 0 { assert retained[i] == retained[1..][i - 1]; }
      }
    }
  }

  lemma {:induction false} RebuildOfCoveredAddsNothing(rows: seq<Row>, retained: seq<StoredEvent>, now: int)
    requires Covered(rows, retained)
    ensures RebuildAll(rows, retained, now) == rows
    decreases |retained|
  {
    hide Rebuilt, MapType;
    if retained != [] {
      RebuiltKey(retained[0]);
      RebuildOfCoveredAddsNothing(rows, retained[1..], now);
    }
  }

  /** A second rebuild over the same retained events projects nothing. */
  lemma SecondRebuildProjectsNothing(rows: seq<Row>, retained: seq<StoredEvent>, first: int, second: int)
    requires UniqueKeys(rows)
    ensures var once := RebuildAll(rows, retained, first); RebuildAll(once, retained, second) == once
  {
    RebuildCovers(rows, retained, first);
    RebuildOfCoveredAddsNothing(RebuildAll(rows, retained, first), retained, second);
  }

  class Activities {
    var rows: seq<Row>

    constructor ()
      ensures rows == []
    {
      rows := [];
    }

    method Project(activity: Option<Activity>, now: int) returns (inserted: bool)
      modifies this
      ensures rows == InsertProjected(old(rows), activity, now)
      ensures inserted <==> activity.Some? && !Has(old(rows), KeyOf(activity.value))
    {
      if activity.None? {
        return false;
      }
      inserted := !Has(rows, KeyOf(activity.value));
      if inserted {
        rows := rows + [Row(activity.value, now)];
      }
    }

    /** Replays the retained events and counts what it projected. */
    method Rebuild(retained: seq<StoredEvent>, now: int) returns (projected: nat)
      requires UniqueKeys(rows)
      modifies this
      ensures rows == RebuildAll(old(rows), retained, now)
      ensures projected == |rows| - |old(rows)|
      ensures UniqueKeys(rows) && Covered(rows, retained)
      ensures Covered(old(rows), retained) ==> projected == 0
    {
      RebuildCovers(rows, retained, now);
      if Covered(rows, retained) {
        RebuildOfCoveredAddsNothing(rows, retained, now);
      }
      hide Rebuilt, MapType, Covered, UniqueKeys, Has;
      projected := 0;
      for index := 0 to |retained|
        invariant RebuildAll(rows, retained[index..], now) == RebuildAll(old(rows), retained, now)
        invariant projected == |rows| - |old(rows)|
      {
        assert retained[index..][1..] == retained[index + 1..];
        var before := |rows|;
        var inserted := Project(Rebuilt(retained[index]), now);
        if inserted {
          projected := projected + 1;
        }
      }
    }
  }

  // ---- every mix of paths -------------------------------------------------------------------------------------

  /** The retained events, the jobs in the queue, and the activities. `projected` records the events that
      some delivery or rebuild step reached. */
  datatype World = World(events: map<string, StoredEvent>, queue: set<string>, rows: seq<Row>, projected: set<string>)

  datatype Step =
    | Append(event: StoredEvent)
    | Enqueue(eventId: string)
    | Deliver(eventId: string, now: int)
    | RebuildOne(eventId: string, now: int)

  const START := World(map[], {}, [], {})

  function Redacted(e: StoredEvent): StoredEvent {
    e.(payload := Redact(Obj(e.payload), 0).fields, metadata := Redact(Obj(e.metadata), 0).fields)
  }

  /** Deliveries repeat freely, in any order and interleaved with rebuild steps. */
  function Apply(w: World, step: Step, iso: int -> string): World {
    match step
    case Append(e) =>
      if e.eventId in w.events || !DistinctKeys(e.payload) then w
      else w.(events := w.events[e.eventId := Redacted(e)])
    case Enqueue(id) => if id in w.events then w.(queue := w.queue + {id}) else w
    case Deliver(id, now) =>
      if id in w.queue && id in w.events then
        w.(rows := InsertProjected(w.rows, Live(w.events[id], iso), now), projected := w.projected + {id})
      else w
    case RebuildOne(id, now) =>
      if id in w.events then
        w.(rows := InsertProjected(w.rows, Rebuilt(w.events[id]), now), projected := w.projected + {id})
      else w
  }

  function Run(w: World, steps: seq<Step>, iso: int -> string): World
    decreases |steps|
  {
    if |steps| == 0 then w else Run(Apply(w, steps[0], iso), steps[1..], iso)
  }

  /** The row is the projection of the retained event it names, by one path or the other. */
  predicate Faithful(events: map<string, StoredEvent>, projected: set<string>, row: Row, iso: int -> string) {
    var id := row.activity.sourceEventId;
    id in events && id in projected && IsRecordOf(events[id], Some(row.activity), iso)
  }

  /** The projection of an event by one of the two paths. */
  predicate IsRecordOf(e: StoredEvent, a: Option<Activity>, iso: int -> string) {
    a == Live(e, iso) || a == Rebuilt(e)
  }

  predicate Supported(e: StoredEvent) { MapType(e.eventType).Some? }

  predicate SoundEvent(id: string, e: StoredEvent) {
    e.eventId == id && Appended(e) && DistinctKeys(e.payload)
  }

  predicate AllFaithful(events: map<string, StoredEvent>, projected: set<string>, rows: seq<Row>, iso: int -> string) {
    forall i :: 0 <= i < |rows| ==> Faithful(events, projected, rows[i], iso)
  }

  predicate AllPresent(events: map<string, StoredEvent>, projected: set<string>, rows: seq<Row>) {
    forall id <- projected :: id in events && (Supported(events[id]) ==> Has(rows, (events[id].workspaceId, id)))
  }

  predicate Sound(w: World, iso: int -> string) {
    && UniqueKeys(w.rows)
    && (forall id <- w.events :: SoundEvent(id, w.events[id]))
    && AllFaithful(w.events, w.projected, w.rows, iso)
    && AllPresent(w.events, w.projected, w.rows)
  }

  lemma RecordKey(e: StoredEvent, a: Option<Activity>, iso: int -> string)
    requires IsRecordOf(e, a, iso)
    ensures a.Some? <==> Supported(e)
    ensures a.Some? ==> a.value.workspaceId == e.workspaceId && a.value.sourceEventId == e.eventId
  {
    hide MapType, Redact;
  }

  lemma RedactedIsSound(e: StoredEvent)
    requires DistinctKeys(e.payload)
    ensures SoundEvent(e.eventId, Redacted(e))
  {
    RedactedIsClean(Obj(e.payload), 0);
    RedactedIsClean(Obj(e.metadata), 0);
    hide Sensitive, Clean;
  }

  lemma ProjectKeepsFaithful(w: World, id: string, a: Option<Activity>, now: int, iso: int -> string)
    requires AllFaithful(w.events, w.projected, w.rows, iso)
    requires id in w.events && IsRecordOf(w.events[id], a, iso) && w.events[id].eventId == id
    ensures AllFaithful(w.events, w.projected + {id}, InsertProjected(w.rows, a, now), iso)
  {
    RecordKey(w.events[id], a, iso);
    hide IsRecordOf, Supported, Has;
    var rows := InsertProjected(w.rows, a, now);
    forall i | 0 <= i < |rows| ensures Faithful(w.events, w.projected + {id}, rows[i], iso) {
      if i < |w.rows| { assert Faithful(w.events, w.projected, w.rows[i], iso); }
    }
  }

  lemma ProjectKeepsPresent(w: World, id: string, a: Option<Activity>, now: int, iso: int -> string)
    requires UniqueKeys(w.rows) && AllPresent(w.events, w.projected, w.rows)
    requires id in w.events && IsRecordOf(w.events[id], a, iso) && w.events[id].eventId == id
    ensures UniqueKeys(InsertProjected(w.rows, a, now))
    ensures AllPresent(w.events, w.projected + {id}, InsertProjected(w.rows, a, now))
  {
    RecordKey(w.events[id], a, iso);
    if a.Some? {
      InsertKeepsUnique(w.rows, a.value, now);
    }
    hide UniqueKeys, Has, Supported, IsRecordOf, Insert;
  }

  lemma ProjectKeeps(w: World, id: string, a: Option<Activity>, now: int, iso: int -> string)
    requires Sound(w, iso) && id in w.events && IsRecordOf(w.events[id], a, iso)
    ensures Sound(w.(rows := InsertProjected(w.rows, a, now), projected := w.projected + {id}), iso)
  {
    assert SoundEvent(id, w.events[id]);
    ProjectKeepsFaithful(w, id, a, now, iso);
    ProjectKeepsPresent(w, id, a, now, iso);
    hide AllFaithful, AllPresent, UniqueKeys, SoundEvent, InsertProjected;
  }

  lemma AppendKeeps(w: World, e: StoredEvent, iso: int -> string)
    requires Sound(w, iso) && e.eventId !in w.events && DistinctKeys(e.payload)
    ensures Sound(w.(events := w.events[e.eventId := Redacted(e)]), iso)
  {
    RedactedIsSound(e);
    hide SoundEvent, Redacted, IsRecordOf, Supported, UniqueKeys, Has, DistinctKeys;
  }

  lemma EnqueueKeeps(w: World, id: string, iso: int -> string)
    requires Sound(w, iso)
    ensures Sound(w.(queue := w.queue + {id}), iso)
  {
    hide SoundEvent, AllFaithful, AllPresent, UniqueKeys;
  }

  lemma ApplyKeeps(w: World, step: Step, iso: int -> string)
    requires Sound(w, iso)
    ensures Sound(Apply(w, step, iso), iso)
  {
    hide Sound, Live, Rebuilt, Redacted, InsertProjected, DistinctKeys;
    match step {
      case Append(e) =>
        if e.eventId !in w.events && DistinctKeys(e.payload) { AppendKeeps(w, e, iso); }
      case Enqueue(id) => EnqueueKeeps(w, id, iso);
      case Deliver(id, now) =>
        if id in w.queue && id in w.events { ProjectKeeps(w, id, Live(w.events[id], iso), now, iso); }
      case RebuildOne(id, now) =>
        if id in w.events { ProjectKeeps(w, id, Rebuilt(w.events[id]), now, iso); }
    }
  }

  lemma {:induction false} RunKeeps(w: World, steps: seq<Step>, iso: int -> string)
    requires Sound(w, iso)
    ensures Sound(Run(w, steps, iso), iso)
    decreases |steps|
  {
    hide Sound, Apply;
    if |steps| != 0 {
      ApplyKeeps(w, steps[0], iso);
      RunKeeps(Apply(w, steps[0], iso), steps[1..], iso);
    }
  }

  /** Across any mix of deliveries, redeliveries and rebuild steps there is at most one activity per
      workspace and event, an event has one exactly when it is of a projected type and some path reached it,
      and the activity is the projection of that event. */
  lemma OneActivityPerEvent(steps: seq<Step>, iso: int -> string)
    ensures var w := Run(START, steps, iso);
            && UniqueKeys(w.rows)
            && AllFaithful(w.events, w.projected, w.rows, iso)
            && (forall id <- w.events ::
                  Has(w.rows, (w.events[id].workspaceId, id)) <==>
                  id in w.projected && Supported(w.events[id]))
  {
    RunKeeps(START, steps, iso);
    hide IsRecordOf, Supported, SoundEvent, UniqueKeys;
    var w := Run(START, steps, iso);
    forall id <- w.events | Has(w.rows, (w.events[id].workspaceId, id))
      ensures id in w.projected && Supported(w.events[id])
    {
      var i :| 0 <= i < |w.rows| && KeyOf(w.rows[i].activity) == (w.events[id].workspaceId, id);
      assert Faithful(w.events, w.projected, w.rows[i], iso);
      RecordKey(w.events[id], Some(w.rows[i].activity), iso);
    }
  }

  /** Where no event has an empty causation id or reads a date, what is stored does not depend on the paths
      taken: every activity is the one record its event determines. */
  lemma PathsAreConfluent(steps: seq<Step>, iso: int -> string)
    requires IsoLike(iso)
    requires var w := Run(START, steps, iso);
             forall id <- w.events :: w.events[id].causationId != Some("") && !ReadsDate(w.events[id])
    ensures var w := Run(START, steps, iso);
            forall i :: 0 <= i < |w.rows| ==>
              && w.rows[i].activity.sourceEventId in w.events
              && Some(w.rows[i].activity) == Project(w.events[w.rows[i].activity.sourceEventId])
  {
    RunKeeps(START, steps, iso);
    hide Live, MapType, Project, ReadsDate, UniqueKeys, Has, Run;
    var w := Run(START, steps, iso);
    forall i | 0 <= i < |w.rows|
      ensures w.rows[i].activity.sourceEventId in w.events
      ensures Some(w.rows[i].activity) == Project(w.events[w.rows[i].activity.sourceEventId])
    {
      assert Faithful(w.events, w.projected, w.rows[i], iso);
      SameRecordIff(w.events[w.rows[i].activity.sourceEventId], iso);
    }
  }
}
