/** Projecting domain events to activities: live consumption, rebuild, and the store both write to. */
module ActivityProjection {
  import opened Clocks
  import opened Options
  import opened Redactor

  datatype Type =
    | ContactCreated | NoteAdded | FieldChanged | OwnerChanged | TaskCreated | TaskCompleted
    | MessageSent | MessageReceived | EmailOpened | CampaignInteraction | DealMoved | DealWon | DealLost
    | AppointmentBooked | WorkflowExecuted | ConsentChanged | FileAttached | AiSummaryGenerated

  datatype Visibility = Workspace | Restricted | Internal

  /** A retained outbox event. */
  datatype StoredEvent = StoredEvent(
    eventId: string, eventType: string, aggregateType: string, aggregateId: string, workspaceId: string,
    payload: seq<(string, Value)>, metadata: seq<(string, Value)>,
    correlationId: string, causationId: Option<string>, occurredAt: Time)

  datatype Activity = Activity(
    workspaceId: string, sourceEventId: string, activityType: Type, sourceDomain: string,
    aggregateType: string, aggregateId: string, related: seq<(string, string)>, actorId: Option<string>,
    correlationId: string, causationId: Option<string>, visibility: Visibility,
    requiredPermissions: seq<string>, data: seq<(string, Value)>, occurredAt: Time, retainUntil: int)

  const DAY := 86_400_000
  const MAX_RELATED := 20

  // ---- mapping helpers ----------------------------------------------------------------------------------

  predicate StartsWith(s: string, prefix: string) { |prefix| <= |s| && s[..|prefix|] == prefix }

  predicate EndsWith(s: string, suffix: string) { |suffix| <= |s| && s[|s| - |suffix|..] == suffix }

  const EXACT: map<string, Type> := map[
    "contact.created" := ContactCreated,
    "task.created" := TaskCreated,
    "task.completed" := TaskCompleted,
    "message.sent" := MessageSent,
    "message.received" := MessageReceived,
    "message.inbound" := MessageReceived,
    "message.outbound" := MessageSent,
    "deal.stage_changed" := DealMoved,
    "deal.won" := DealWon,
    "deal.lost" := DealLost,
    "appointment.booked" := AppointmentBooked,
    "workflow.executed" := WorkflowExecuted,
    "workflow.completed" := WorkflowExecuted,
    "consent.changed" := ConsentChanged,
    "file.attached" := FileAttached,
    "ai.summary_generated" := AiSummaryGenerated,
    "email.opened" := EmailOpened]

  function MapType(eventType: string): Option<Type> {
    if eventType in EXACT then Some(EXACT[eventType])
    else if EndsWith(eventType, ".note_added") then Some(NoteAdded)
    else if EndsWith(eventType, ".field_changed") || EndsWith(eventType, ".updated") then Some(FieldChanged)
    else if EndsWith(eventType, ".owner_changed") then Some(OwnerChanged)
    else if StartsWith(eventType, "campaign.") || StartsWith(eventType, "delivery.") then Some(CampaignInteraction)
    else None
  }

  function Get(fields: seq<(string, Value)>, key: string): Option<Value> {
    if fields == [] then None
    else if fields[0].0 == key then Some(fields[0].1)
    else Get(fields[1..], key)
  }

  function VisibilityOf(activityType: Type, metadata: seq<(string, Value)>): Visibility {
    if Get(metadata, "internalOnly") == Some(Bool(true)) || activityType == NoteAdded then Internal
    else if Get(metadata, "visibility") == Some(Str("restricted")) then Restricted
    else Workspace
  }

  function Actor(metadata: seq<(string, Value)>): Option<string> {
    match Get(metadata, "actorId")
    case Some(Str(text)) => Some(text)
    case _ => None
  }

  const READ_PERMISSION: map<string, string> := map[
    "contact" := "contacts.read", "company" := "companies.read", "lead" := "leads.read", "deal" := "deals.read",
    "task" := "tasks.read", "appointment" := "appointments.read", "message" := "inbox.read",
    "conversation" := "inbox.read", "campaign" := "campaigns.read", "workflow" := "workflows.read",
    "file" := "files.read"]

  function Permissions(aggregateType: string, visibility: Visibility): seq<string> {
    if visibility == Internal then ["admin.access"]
    else if aggregateType in READ_PERMISSION then [READ_PERMISSION[aggregateType]]
    else []
  }

  /** The first `slots` string fields of at most a hundred characters whose key ends in `Id`. */
  function Related(fields: seq<(string, Value)>, slots: nat): seq<(string, string)> {
    if fields == [] || slots == 0 then []
    else
      var key, value := fields[0].0, fields[0].1;
      if EndsWith(key, "Id") && value.Str? && |value.text| <= 100
      then [(key[..|key| - 2], value.text)] + Related(fields[1..], slots - 1)
      else Related(fields[1..], slots)
  }

  function FieldName(payload: seq<(string, Value)>): seq<(string, Value)> {
    match Get(payload, "field")
    case Some(Str(text)) => [("field", Str(if |text| > 100 then text[..100] else text))]
    case _ => []
  }

  function Scalar(payload: seq<(string, Value)>, key: string): seq<(string, Value)> {
    match Get(payload, key)
    case Some(value) => if value.Str? || value.Num? || value.Bool? then [(key, value)] else []
    case None => []
  }

  function Data(activityType: Type, payload: seq<(string, Value)>): seq<(string, Value)> {
    if activityType != FieldChanged then payload
    else Redact(Obj(FieldName(payload) + Scalar(payload, "from") + Scalar(payload, "to")), 0).fields
  }

  function Domain(eventType: string): string {
    if eventType == "" || eventType[0] == '.' then "" else [eventType[0]] + Domain(eventType[1..])
  }

  /** `project`, up to the processing time and the store. */
  function Project(e: StoredEvent): Option<Activity> {
    match MapType(e.eventType)
    case None => None
    case Some(activityType) =>
      var payload := Redact(Obj(e.payload), 0).fields;
      var metadata := Redact(Obj(e.metadata), 0).fields;
      var visibility := VisibilityOf(activityType, metadata);
      Some(Activity(
        e.workspaceId, e.eventId, activityType, Domain(e.eventType), e.aggregateType, e.aggregateId,
        Related(payload, MAX_RELATED),
        Actor(metadata),
        e.correlationId, e.causationId, visibility, Permissions(e.aggregateType, visibility),
        Data(activityType, payload), e.occurredAt,
        e.occurredAt + (if visibility == Internal then 365 else 7 * 365) * DAY))
  }

  // ---- the two ways an event reaches the projection ----------------------------------------------------------

  /** The queue carries a job as JSON, which turns dates into their text form. */
  function Transport(value: Value, iso: int -> string): Value
    decreases value
  {
    match value
    case Date(instant) => Str(iso(instant))
    case Arr(items) => Arr(seq(|items|, i requires 0 <= i < |items| => Transport(items[i], iso)))
    case Obj(fields) => Obj(seq(|fields|, i requires 0 <= i < |fields| => (fields[i].0, Transport(fields[i].1, iso))))
    case _ => value
  }

  function Live(e: StoredEvent, iso: int -> string): Option<Activity> {
    Project(e.(payload := Transport(Obj(e.payload), iso).fields, metadata := Transport(Obj(e.metadata), iso).fields))
  }

  /** The rebuild drops a causation id that is the empty text. */
  function Rebuilt(e: StoredEvent): Option<Activity> {
    Project(if e.causationId == Some("") then e.(causationId := None) else e)
  }

  /** Rows are written through the redactor. */
  predicate Appended(e: StoredEvent) {
    Clean(Obj(e.payload), 0) && Clean(Obj(e.metadata), 0)
  }

  predicate HasDate(value: Value)
    decreases value
  {
    match value
    case Date(_) => true
    case Arr(items) => exists i :: 0 <= i < |items| && HasDate(items[i])
    case Obj(fields) => exists i :: 0 <= i < |fields| && HasDate(fields[i].1)
    case _ => false
  }

  predicate DateAt(fields: seq<(string, Value)>, key: string) {
    Get(fields, key).Some? && Get(fields, key).value.Date?
  }

  /** A date under an `Id` key among the fields that `Related` looks at. */
  predicate DateAmongRelated(fields: seq<(string, Value)>, slots: nat) {
    if fields == [] || slots == 0 then false
    else
      var key, value := fields[0].0, fields[0].1;
      if EndsWith(key, "Id") && value.Date? then true
      else if EndsWith(key, "Id") && value.Str? && |value.text| <= 100 then DateAmongRelated(fields[1..], slots - 1)
      else DateAmongRelated(fields[1..], slots)
  }

  /** The projection of the event reads a date somewhere. */
  predicate ReadsDate(e: StoredEvent) {
    || DateAt(e.metadata, "actorId")
    || (if MapType(e.eventType) != Some(FieldChanged) then HasDate(Obj(e.payload))
        else
          || DateAt(e.payload, "field") || DateAt(e.payload, "from") || DateAt(e.payload, "to")
          || DateAmongRelated(e.payload, MAX_RELATED))
  }

  /** Text forms of dates have twenty-four to twenty-seven characters. */
  ghost predicate IsoLike(iso: int -> string) {
    forall t :: 24 <= |iso(t)| <= 27
  }

  predicate DistinctKeys(fields: seq<(string, Value)>) {
    forall i, j :: 0 <= i < j < |fields| ==> fields[i].0 != fields[j].0
  }

  function TransportFields(fields: seq<(string, Value)>, iso: int -> string): seq<(string, Value)> {
    Transport(Obj(fields), iso).fields
  }

  lemma {:induction false} TransportIffDate(value: Value, iso: int -> string)
    ensures Transport(value, iso) == value <==> !HasDate(value)
    decreases value
  {
    match value {
      case Arr(items) =>
        forall i | 0 <= i < |items| ensures Transport(items[i], iso) == items[i] <==> !HasDate(items[i]) {
          TransportIffDate(items[i], iso);
        }
        if HasDate(value) {
          var i :| 0 <= i < |items| && HasDate(items[i]);
          assert Transport(value, iso).items[i] != items[i];
        } else {
          assert Transport(value, iso).items == items;
        }
      case Obj(fields) =>
        forall i | 0 <= i < |fields| ensures Transport(fields[i].1, iso) == fields[i].1 <==> !HasDate(fields[i].1) {
          TransportIffDate(fields[i].1, iso);
        }
        if HasDate(value) {
          var i :| 0 <= i < |fields| && HasDate(fields[i].1);
          assert Transport(value, iso).fields[i].1 != fields[i].1;
        } else {
          assert Transport(value, iso).fields == fields;
        }
      case _ =>
    }
  }

  lemma {:induction false} TransportKeepsClean(value: Value, iso: int -> string, depth: nat)
    requires Clean(value, depth) && IsoLike(iso)
    ensures Clean(Transport(value, iso), depth)
    decreases value
  {
    if depth <= MAX_DEPTH {
      match value {
        case Arr(items) =>
          forall i | 0 <= i < |items| ensures Clean(Transport(items[i], iso), depth + 1) {
            TransportKeepsClean(items[i], iso, depth + 1);
          }
        case Obj(fields) =>
          forall i | 0 <= i < |fields| && !Sensitive(fields[i].0)
            ensures Clean(Transport(fields[i].1, iso), depth + 1)
          {
            TransportKeepsClean(fields[i].1, iso, depth + 1);
          }
        case _ =>
      }
    }
  }

  lemma {:induction false} TransportCons(fields: seq<(string, Value)>, iso: int -> string)
    requires fields != []
    ensures TransportFields(fields, iso)
            == [(fields[0].0, Transport(fields[0].1, iso))] + TransportFields(fields[1..], iso)
  {}

  lemma {:induction false} GetTransported(fields: seq<(string, Value)>, iso: int -> string, key: string)
    ensures var got := Get(fields, key);
            Get(TransportFields(fields, iso), key) == if got.Some? then Some(Transport(got.value, iso)) else None
  {
    if fields != [] {
      TransportCons(fields, iso);
      GetTransported(fields[1..], iso, key);
    }
  }

  lemma {:induction false} RelatedTransported(fields: seq<(string, Value)>, iso: int -> string, slots: nat)
    requires IsoLike(iso)
    requires DistinctKeys(fields)
    ensures Related(TransportFields(fields, iso), slots) == Related(fields, slots) <==> !DateAmongRelated(fields, slots)
  {
    if fields != [] && slots > 0 {
      TransportCons(fields, iso);
      var key, value := fields[0].0, fields[0].1;
      if EndsWith(key, "Id") && value.Date? {
        RelatedKeys(fields[1..], slots);
        assert Related(TransportFields(fields, iso), slots)[0].0 == key[..|key| - 2];
      } else if EndsWith(key, "Id") && value.Str? && |value.text| <= 100 {
        RelatedTransported(fields[1..], iso, slots - 1);
        var rest := Related(TransportFields(fields[1..], iso), slots - 1);
        assert Related(TransportFields(fields, iso), slots) == [(key[..|key| - 2], value.text)] + rest;
        assert Related(TransportFields(fields, iso), slots)[1..] == rest;
        assert Related(fields, slots)[1..] == Related(fields[1..], slots - 1);
      } else {
        RelatedTransported(fields[1..], iso, slots);
      }
    }
  }

  lemma {:induction false} RelatedKeys(fields: seq<(string, Value)>, slots: nat)
    ensures forall r <- Related(fields, slots) :: exists f <- fields :: f.0 == r.0 + "Id"
  {
    if fields != [] && slots > 0 {
      RelatedKeys(fields[1..], slots);
      var key, value := fields[0].0, fields[0].1;
      if EndsWith(key, "Id") && value.Str? && |value.text| <= 100 {
        RelatedKeys(fields[1..], slots - 1);
        assert key == key[..|key| - 2] + "Id";
      }
      assert forall f <- fields[1..] :: f in fields;
    }
  }

  // ---- when both paths write the same record --------------------------------------------------------------------

  lemma StoredFieldsAreKept(e: StoredEvent, iso: int -> string)
    requires Appended(e) && IsoLike(iso)
    ensures Redact(Obj(e.payload), 0) == Obj(e.payload)
    ensures Redact(Obj(e.metadata), 0) == Obj(e.metadata)
    ensures Redact(Transport(Obj(e.payload), iso), 0) == Transport(Obj(e.payload), iso)
    ensures Redact(Transport(Obj(e.metadata), iso), 0) == Transport(Obj(e.metadata), iso)
  {
    TransportKeepsClean(Obj(e.payload), iso, 0);
    TransportKeepsClean(Obj(e.metadata), iso, 0);
    UnchangedIffClean(Obj(e.payload), 0);
    UnchangedIffClean(Obj(e.metadata), 0);
    UnchangedIffClean(Transport(Obj(e.payload), iso), 0);
    UnchangedIffClean(Transport(Obj(e.metadata), iso), 0);
  }

  lemma VisibilityTransported(activityType: Type, metadata: seq<(string, Value)>, iso: int -> string)
    requires IsoLike(iso)
    ensures VisibilityOf(activityType, TransportFields(metadata, iso)) == VisibilityOf(activityType, metadata)
  {
    hide Get, TransportFields;
    GetTransported(metadata, iso, "internalOnly");
    GetTransported(metadata, iso, "visibility");
  }

  lemma ActorTransported(metadata: seq<(string, Value)>, iso: int -> string)
    ensures Actor(TransportFields(metadata, iso)) == Actor(metadata) <==> !DateAt(metadata, "actorId")
  {
    hide Get, TransportFields;
    GetTransported(metadata, iso, "actorId");
  }

  lemma ScalarTransported(payload: seq<(string, Value)>, iso: int -> string, key: string)
    ensures !DateAt(payload, key) ==> Scalar(TransportFields(payload, iso), key) == Scalar(payload, key)
    ensures |Scalar(TransportFields(payload, iso), key)| == |Scalar(payload, key)| + if DateAt(payload, key) then 1 else 0
  {
    hide Get, TransportFields;
    GetTransported(payload, iso, key);
  }

  lemma FieldNameTransported(payload: seq<(string, Value)>, iso: int -> string)
    ensures !DateAt(payload, "field") ==> FieldName(TransportFields(payload, iso)) == FieldName(payload)
    ensures |FieldName(TransportFields(payload, iso))| == |FieldName(payload)| + if DateAt(payload, "field") then 1 else 0
  {
    hide Get, TransportFields;
    GetTransported(payload, iso, "field");
  }

  lemma DataTransported(activityType: Type, payload: seq<(string, Value)>, iso: int -> string)
    ensures Data(activityType, TransportFields(payload, iso)) == Data(activityType, payload) <==>
            !(if activityType != FieldChanged then HasDate(Obj(payload))
              else DateAt(payload, "field") || DateAt(payload, "from") || DateAt(payload, "to"))
  {
    if activityType != FieldChanged {
      TransportIffDate(Obj(payload), iso);
    } else {
      hide DateAt, TransportFields, FieldName, Scalar;
      FieldNameTransported(payload, iso);
      ScalarTransported(payload, iso, "from");
      ScalarTransported(payload, iso, "to");
      RedactKeepsFieldCount(FieldName(payload) + Scalar(payload, "from") + Scalar(payload, "to"));
      var sent := TransportFields(payload, iso);
      RedactKeepsFieldCount(FieldName(sent) + Scalar(sent, "from") + Scalar(sent, "to"));
    }
  }

  lemma RedactKeepsFieldCount(fields: seq<(string, Value)>)
    ensures Redact(Obj(fields), 0).Obj? && |Redact(Obj(fields), 0).fields| == |fields|
  {}

  /** Live consumption and rebuild insert the same record, for every event that is projected at all, exactly
      when its causation id is not the empty text and the projection reads no date. */
  lemma SameRecordIff(e: StoredEvent, iso: int -> string)
    requires Appended(e) && IsoLike(iso) && DistinctKeys(e.payload)
    ensures Live(e, iso) == Rebuilt(e) <==>
            MapType(e.eventType) == None || (e.causationId != Some("") && !ReadsDate(e))
  {
    hide MapType, Redact, Clean;
    StoredFieldsAreKept(e, iso);
    if MapType(e.eventType).Some? {
      var activityType := MapType(e.eventType).value;
      VisibilityTransported(activityType, e.metadata, iso);
      ActorTransported(e.metadata, iso);
      DataTransported(activityType, e.payload, iso);
      RelatedTransported(e.payload, iso, MAX_RELATED);
      if activityType != FieldChanged {
        TransportIffDate(Obj(e.payload), iso);
      }
      hide VisibilityOf, Actor, Data, Related, Permissions, Domain, HasDate, DateAt, DateAmongRelated;
    }
  }
}
