/** What an activity says of its event, field by field, and to whom the timeline shows it. */
module ActivityContents {
  import opened ActivityProjection
  import opened ActivityStore
  import opened Keyset
  import opened KeysetCursors
  import opened KeysetRepositories
  import opened Options
  import opened Redactor
  import opened Timeline

  type Fields = seq<(string, Value)>

  // ---- the reference ----------------------------------------------------------------------------------------------

  /** The first field of the key holds the value. */
  predicate Reads(fields: Fields, key: string, value: Value) {
    exists i :: 0 <= i < |fields| && fields[i] == (key, value) && forall j :: 0 <= j < i ==> fields[j].0 != key
  }

  /** A text of at most a hundred characters under a key that ends in `Id`. */
  predicate NamesEntity(field: (string, Value)) {
    && |field.0| >= 2 && field.0[|field.0| - 2] == 'I' && field.0[|field.0| - 1] == 'd'
    && field.1.Str? && |field.1.text| <= 100
  }

  function Naming(fields: Fields): nat {
    if fields == [] then 0
    else Naming(fields[..|fields| - 1]) + if NamesEntity(fields[|fields| - 1]) then 1 else 0
  }

  /** The field names the entity. */
  predicate Names(field: (string, Value), entity: (string, string)) {
    NamesEntity(field) && field == (entity.0 + "Id", Str(entity.1))
  }

  /** The fields name the entity in one of the first so many fields that name any. */
  predicate NamesWithin(fields: Fields, most: int, entity: (string, string)) {
    exists i :: 0 <= i < |fields| && Names(fields[i], entity) && Naming(fields[..i]) < most
  }

  predicate Relates(payload: Fields, entity: (string, string)) { NamesWithin(payload, 20, entity) }

  predicate Plain(v: Value) { v.Str? || v.Num? || v.Bool? }

  /** Of a changed field only its name, cut to a hundred characters, and its plain old and new values are kept. */
  ghost predicate KeepsChange(payload: Fields, data: Fields) {
    forall key, value :: Reads(data, key, value) <==> IsKept(payload, key, value)
  }

  ghost predicate IsKept(payload: Fields, key: string, value: Value) {
    || (key == "field"
        && exists name :: Reads(payload, "field", Str(name)) && value == Str(if |name| <= 100 then name else name[..100]))
    || (key in ["from", "to"] && Plain(value) && Reads(payload, key, value))
  }

  /** What the activity takes over from the event as it reached the projection. */
  predicate TakesOver(e: StoredEvent, a: Activity) {
    && a.workspaceId == e.workspaceId && a.sourceEventId == e.eventId
    && MapType(e.eventType) == Some(a.activityType)
    && a.aggregateType == e.aggregateType && a.aggregateId == e.aggregateId
    && a.correlationId == e.correlationId && a.causationId == e.causationId
    && a.occurredAt == e.occurredAt
  }

  /** The domain is what stands before the first dot of the event type. */
  predicate IsDomain(domain: string, eventType: string) {
    '.' !in domain && domain <= eventType && (domain == eventType || eventType[|domain|] == '.')
  }

  ghost predicate Tells(e: StoredEvent, a: Activity) {
    && TakesOver(e, a)
    && IsDomain(a.sourceDomain, e.eventType)
    && (forall actor :: a.actorId == Some(actor) <==> Reads(e.metadata, "actorId", Str(actor)))
    && (forall entity :: entity in a.related <==> Relates(e.payload, entity))
    && (a.activityType != FieldChanged ==> a.data == e.payload)
    && (a.activityType == FieldChanged ==> KeepsChange(e.payload, a.data))
  }

  // ---- what a projection tells ------------------------------------------------------------------------------------

  lemma {:induction false} GetReads(fields: Fields, key: string)
    ensures forall value :: ActivityProjection.Get(fields, key) == Some(value) <==> Reads(fields, key, value)
  {
    if fields != [] {
      var rest := fields[1..];
      GetReads(rest, key);
      forall value ensures Reads(fields, key, value) <==>
                           if fields[0].0 == key then value == fields[0].1 else Reads(rest, key, value)
      {
        if fields[0].0 == key {
          assert fields[0] == (key, fields[0].1);
        } else {
          if Reads(rest, key, value) {
            var i :| 0 <= i < |rest| && rest[i] == (key, value) && forall j :: 0 <= j < i ==> rest[j].0 != key;
            assert fields[i + 1] == (key, value);
            assert forall j :: 0 < j < i + 1 ==> fields[j] == rest[j - 1];
          }
          if Reads(fields, key, value) {
            var i :| 0 <= i < |fields| && fields[i] == (key, value) && forall j :: 0 <= j < i ==> fields[j].0 != key;
            assert rest[i - 1] == (key, value);
            assert forall j :: 0 <= j < i - 1 ==> rest[j] == fields[j + 1];
          }
        }
      }
    }
  }

  lemma EndsWithId(key: string)
    ensures EndsWith(key, "Id") <==> |key| >= 2 && key[|key| - 2] == 'I' && key[|key| - 1] == 'd'
    ensures EndsWith(key, "Id") ==> key == key[..|key| - 2] + "Id"
  {
    if |key| >= 2 {
      assert key[|key| - 2..] == [key[|key| - 2], key[|key| - 1]];
    }
  }

  lemma {:induction false} NamingCons(fields: Fields)
    requires fields != []
    ensures Naming(fields) == (if NamesEntity(fields[0]) then 1 else 0) + Naming(fields[1..])
  {
    var front := fields[..|fields| - 1];
    if front != [] {
      NamingCons(front);
      assert front[1..] == fields[1..][..|fields| - 2];
    }
  }

  lemma NamesWithinCons(fields: Fields, most: int, entity: (string, string))
    requires fields != []
    ensures NamesWithin(fields, most, entity) <==>
              || (most > 0 && Names(fields[0], entity))
              || NamesWithin(fields[1..], most - if NamesEntity(fields[0]) then 1 else 0, entity)
  {
    var rest, left := fields[1..], most - if NamesEntity(fields[0]) then 1 else 0;
    hide Names, NamesEntity, Naming;
    assert Naming(fields[..0]) == 0 by { NamingOfNone(); }
    forall i | 0 < i < |fields|
      ensures fields[i] == rest[i - 1] && (Naming(fields[..i]) < most <==> Naming(rest[..i - 1]) < left)
    {
      NamingCons(fields[..i]);
      assert fields[..i][1..] == rest[..i - 1];
    }
    if NamesWithin(rest, left, entity) {
      var i :| 0 <= i < |rest| && Names(rest[i], entity) && Naming(rest[..i]) < left;
      assert Names(fields[i + 1], entity);
    }
    if NamesWithin(fields, most, entity) {
      var i :| 0 <= i < |fields| && Names(fields[i], entity) && Naming(fields[..i]) < most;
      assert i > 0 ==> Names(rest[i - 1], entity);
    }
  }

  lemma NamingOfNone()
    ensures forall fields: Fields :: fields == [] ==> Naming(fields) == 0
  {}

  lemma {:induction false} NoneNamedWithinNone(fields: Fields, most: int, entity: (string, string))
    requires most <= 0 || fields == []
    ensures !NamesWithin(fields, most, entity)
  {}

  lemma NamedEntity(field: (string, Value), entity: (string, string))
    requires NamesEntity(field)
    ensures Names(field, entity) <==> entity == (field.0[..|field.0| - 2], field.1.text)
  {
    EndsWithId(field.0);
    if Names(field, entity) { assert field.0[..|field.0| - 2] == entity.0; }
  }

  /** The first `slots` fields that name an entity are the ones related. */
  lemma {:induction false} RelatedAre(fields: Fields, slots: nat, entity: (string, string))
    ensures entity in Related(fields, slots) <==> NamesWithin(fields, slots, entity)
  {
    if fields == [] || slots == 0 {
      NoneNamedWithinNone(fields, slots, entity);
    } else {
      var first, rest := fields[0], fields[1..];
      EndsWithId(first.0);
      NamesWithinCons(fields, slots, entity);
      if NamesEntity(first) {
        NamedEntity(first, entity);
        RelatedAre(rest, slots - 1, entity);
      } else {
        RelatedAre(rest, slots, entity);
      }
      hide NamesWithin, EndsWith;
    }
  }

  lemma {:induction false} DomainIs(eventType: string)
    ensures IsDomain(Domain(eventType), eventType)
  {
    if eventType != "" && eventType[0] != '.' { DomainIs(eventType[1..]); }
  }

  lemma {:induction false} LongWordsDoNotOccur(s: string, word: string)
    requires |s| < |word|
    ensures !Redactor.Contains(s, word)
  {
    if s != "" { LongWordsDoNotOccur(s[1..], word); }
  }

  lemma ChangeKeysAreNotSensitive()
    ensures !Sensitive("field") && !Sensitive("from") && !Sensitive("to")
  {
    forall key, i | key in ["field", "from", "to"] && 0 <= i < |SENSITIVE_WORDS|
      ensures !Redactor.Contains(Fold(key), SENSITIVE_WORDS[i])
    {
      if i == 2 && key == "field" {
        LongWordsDoNotOccur(Fold(key)[1..], "token");
        assert Fold(key)[0] == 'f';
      } else {
        LongWordsDoNotOccur(Fold(key), SENSITIVE_WORDS[i]);
      }
    }
  }

  lemma {:induction false} GetClean(payload: Fields, key: string)
    requires Clean(Obj(payload), 0) && !Sensitive(key)
    ensures var got := ActivityProjection.Get(payload, key); got.Some? ==> Clean(got.value, 1)
  {
    hide Sensitive;
    if payload != [] {
      assert Clean(Obj(payload[1..]), 0);
      GetClean(payload[1..], key);
    }
  }

  lemma {:induction false} GetConcat(a: Fields, b: Fields, key: string)
    ensures ActivityProjection.Get(a + b, key)
            == (if ActivityProjection.Get(a, key).Some? then ActivityProjection.Get(a, key)
                else ActivityProjection.Get(b, key))
  {
    if a == [] {
      assert a + b == b;
    } else {
      assert (a + b)[1..] == a[1..] + b;
      GetConcat(a[1..], b, key);
    }
  }

  /** What the kept part of a change holds under a key. */
  function Kept(payload: Fields, key: string): Option<Value> {
    match ActivityProjection.Get(payload, key)
    case None => None
    case Some(value) =>
      if key == "field" then
        if value.Str? then Some(Str(if |value.text| > 100 then value.text[..100] else value.text)) else None
      else if key in ["from", "to"] && Plain(value) then Some(value)
      else None
  }

  lemma GetKept(payload: Fields, key: string)
    ensures ActivityProjection.Get(FieldName(payload) + Scalar(payload, "from") + Scalar(payload, "to"), key)
            == Kept(payload, key)
  {
    GetConcat(FieldName(payload) + Scalar(payload, "from"), Scalar(payload, "to"), key);
    GetConcat(FieldName(payload), Scalar(payload, "from"), key);
    assert "field" != "from" && "from" != "to" && "field" != "to";
  }

  lemma PartsAreClean(payload: Fields)
    requires Clean(Obj(payload), 0)
    ensures Clean(Obj(FieldName(payload) + Scalar(payload, "from") + Scalar(payload, "to")), 0)
  {
    ChangeKeysAreNotSensitive();
    GetClean(payload, "field");
    GetClean(payload, "from");
    GetClean(payload, "to");
    hide Sensitive;
    assert Clean(Obj(FieldName(payload)), 0) by { hide Scalar; }
    assert Clean(Obj(Scalar(payload, "from")), 0) && Clean(Obj(Scalar(payload, "to")), 0);
    hide FieldName, Scalar;
    CleanConcat(FieldName(payload), Scalar(payload, "from"));
    CleanConcat(FieldName(payload) + Scalar(payload, "from"), Scalar(payload, "to"));
  }

  lemma CleanConcat(a: Fields, b: Fields)
    requires Clean(Obj(a), 0) && Clean(Obj(b), 0)
    ensures Clean(Obj(a + b), 0)
  {
    hide Sensitive;
  }

  lemma ChangeKept(payload: Fields)
    requires Clean(Obj(payload), 0)
    ensures KeepsChange(payload, Data(FieldChanged, payload))
  {
    var kept := FieldName(payload) + Scalar(payload, "from") + Scalar(payload, "to");
    PartsAreClean(payload);
    UnchangedIffClean(Obj(kept), 0);
    assert Data(FieldChanged, payload) == kept;
    hide Data, Clean, Redact, FieldName, Scalar;
    forall key, value ensures Reads(kept, key, value) <==> IsKept(payload, key, value) {
      GetKept(payload, key);
      GetReads(kept, key);
      KeptAre(payload, key, value);
      hide Reads, IsKept;
    }
  }

  lemma KeptAre(payload: Fields, key: string, value: Value)
    ensures Kept(payload, key) == Some(value) <==> IsKept(payload, key, value)
  {
    GetReads(payload, key);
    hide Reads;
    if key == "field" && Kept(payload, key) == Some(value) {
      var name := ActivityProjection.Get(payload, "field").value.text;
      assert Reads(payload, "field", Str(name));
    }
  }

  lemma {:induction false} ActorIs(e: StoredEvent, actor: string)
    ensures Actor(e.metadata) == Some(actor) <==> Reads(e.metadata, "actorId", Str(actor))
  {
    GetReads(e.metadata, "actorId");
    hide Reads;
  }

  /** The projection of an event whose fields are redacted already tells just what the event does. */
  lemma ProjectionTells(e: StoredEvent)
    requires Clean(Obj(e.payload), 0) && Clean(Obj(e.metadata), 0)
    ensures Project(e).Some? ==> Tells(e, Project(e).value)
  {
    UnchangedIffClean(Obj(e.payload), 0);
    UnchangedIffClean(Obj(e.metadata), 0);
    DomainIs(e.eventType);
    if Project(e).Some? {
      var a := Project(e).value;
      assert a.actorId == Actor(e.metadata) && a.related == Related(e.payload, 20);
      assert a.data == Data(a.activityType, e.payload) && a.sourceDomain == Domain(e.eventType);
      assert TakesOver(e, a);
      hide Project, TakesOver, MapType, IsDomain, Domain;
      forall actor ensures a.actorId == Some(actor) <==> Reads(e.metadata, "actorId", Str(actor)) { ActorIs(e, actor); }
      forall entity ensures entity in a.related <==> Relates(e.payload, entity) { RelatedAre(e.payload, 20, entity); }
      if a.activityType == FieldChanged { ChangeKept(e.payload); }
      hide Reads, Relates, Clean, Redact, KeepsChange, Actor, Related;
    }
  }

  // ---- the names of types and permissions -------------------------------------------------------------------------

  /** A type's name: a subject and what happened to it. */
  function NameOf(t: Type): (string, string) {
    match t
    case ContactCreated => ("contact", "created")
    case NoteAdded => ("note", "added")
    case FieldChanged => ("field", "changed")
    case OwnerChanged => ("owner", "changed")
    case TaskCreated => ("task", "created")
    case TaskCompleted => ("task", "completed")
    case MessageSent => ("message", "sent")
    case MessageReceived => ("message", "received")
    case EmailOpened => ("email", "opened")
    case CampaignInteraction => ("campaign", "interaction")
    case DealMoved => ("deal", "moved")
    case DealWon => ("deal", "won")
    case DealLost => ("deal", "lost")
    case AppointmentBooked => ("appointment", "booked")
    case WorkflowExecuted => ("workflow", "executed")
    case ConsentChanged => ("consent", "changed")
    case FileAttached => ("file", "attached")
    case AiSummaryGenerated => ("ai", "summary_generated")
  }

  predicate IsExact(t: Type) {
    var name := NameOf(t).0 + "." + NameOf(t).1;
    name in EXACT && EXACT[name] == t
  }

  lemma TaskNames()
    ensures IsExact(ContactCreated) && IsExact(TaskCreated) && IsExact(TaskCompleted)
  {
    assert "contact" + "." + "created" == "contact.created" && "task" + "." + "created" == "task.created";
    assert "task" + "." + "completed" == "task.completed";
  }

  lemma MessageNames()
    ensures IsExact(MessageSent) && IsExact(MessageReceived) && IsExact(EmailOpened)
  {
    assert "message" + "." + "sent" == "message.sent" && "message" + "." + "received" == "message.received";
    assert "email" + "." + "opened" == "email.opened";
  }

  lemma DealNames()
    ensures IsExact(DealWon) && IsExact(DealLost) && IsExact(ConsentChanged)
  {
    assert "deal" + "." + "won" == "deal.won" && "deal" + "." + "lost" == "deal.lost";
    assert "consent" + "." + "changed" == "consent.changed";
  }

  lemma WorkflowNames()
    ensures IsExact(AppointmentBooked) && IsExact(WorkflowExecuted)
  {
    assert "appointment" + "." + "booked" == "appointment.booked";
    assert "workflow" + "." + "executed" == "workflow.executed";
  }

  lemma FileNames()
    ensures IsExact(FileAttached) && IsExact(AiSummaryGenerated)
  {
    assert "file" + "." + "attached" == "file.attached";
    assert "ai" + "." + "summary_generated" == "ai.summary_generated";
  }

  /** An event named as a type is, with a dot between the two words, is of the type. Notes, fields, owners and campaigns
      are told by one of the words, and a deal is moved by a change of its stage. */
  lemma NamedEventsAreOfTheirType(t: Type)
    requires t !in {NoteAdded, FieldChanged, OwnerChanged, CampaignInteraction, DealMoved}
    ensures MapType(NameOf(t).0 + "." + NameOf(t).1) == Some(t)
  {
    TaskNames();
    MessageNames();
    DealNames();
    WorkflowNames();
    FileNames();
    assert IsExact(t) by { hide IsExact; }
    hide NameOf;
  }

  /** Events of other names are told by how they end. */
  lemma OtherEventsAreToldByTheirEnd(subject: string, eventType: string)
    requires eventType !in EXACT
    ensures eventType == subject + ".note_added" ==> MapType(eventType) == Some(NoteAdded)
    ensures eventType == subject + ".field_changed" ==> MapType(eventType) == Some(FieldChanged)
    ensures eventType == subject + ".updated" ==> MapType(eventType) == Some(FieldChanged)
    ensures eventType == subject + ".owner_changed" ==> MapType(eventType) == Some(OwnerChanged)
  {
    var n := |eventType|;
    if eventType == subject + ".field_changed" {
      assert eventType[n - 3] == 'g' && ".note_added"[8] == 'd';
    } else if eventType == subject + ".updated" {
      assert eventType[n - 3] == 't' && ".note_added"[8] == 'd';
    } else if eventType == subject + ".owner_changed" {
      assert eventType[n - 3] == 'g' && ".note_added"[8] == 'd' && ".updated"[5] == 't';
      assert eventType[n - 13] == 'o' && ".field_changed"[1] == 'f';
    }
  }

  /** Or else by how they begin. */
  lemma CampaignEventsAreToldByTheirBeginning(rest: string, eventType: string)
    requires eventType == "campaign." + rest || eventType == "delivery." + rest
    requires eventType !in EXACT && !EndsWith(eventType, ".note_added") && !EndsWith(eventType, ".field_changed")
    requires !EndsWith(eventType, ".updated") && !EndsWith(eventType, ".owner_changed")
    ensures MapType(eventType) == Some(CampaignInteraction)
  {
    assert StartsWith(eventType, "campaign.") || StartsWith(eventType, "delivery.");
  }

  /** Reading most aggregates takes the permission named after them. */
  lemma PermissionsAreNamed(aggregate: string)
    requires aggregate in READ_PERMISSION
    ensures READ_PERMISSION[aggregate] ==
              if aggregate == "company" then "companies.read"
              else if aggregate in ["message", "conversation"] then "inbox.read"
              else aggregate + "s.read"
  {}

  // ---- who is shown an event's activity ---------------------------------------------------------------------------

  /** The caller asks for no other visibility than the event's, and holds the permission its aggregate is read by; an
      internal event takes administration and its permission. */
  predicate Sees(c: Caller, e: StoredEvent) {
    if IsInternal(e) then
      && c.admin && "admin.access" in c.permissions
      && (c.requested.Some? ==> c.requested.value !in ["workspace", "restricted"])
    else
      && (e.aggregateType in READ_PERMISSION ==> READ_PERMISSION[e.aggregateType] in c.permissions)
      && (c.requested.Some? ==>
            || c.requested.value == (if Reads(e.metadata, "visibility", Str("restricted")) then "restricted"
                                     else "workspace")
            || c.requested.value !in ["workspace", "restricted"] + if c.admin then ["internal"] else [])
  }

  /** The caller asks for no entity, for the event's aggregate, or for an entity its payload names. */
  predicate Concerns(c: Caller, e: StoredEvent) {
    c.entity.Some? ==> c.entity.value == (e.aggregateType, e.aggregateId) || Relates(e.payload, c.entity.value)
  }

  lemma VisibleAs(c: Caller, e: StoredEvent, activityType: Type)
    requires MapType(e.eventType) == Some(activityType)
    ensures var visibility := VisibilityOf(activityType, e.metadata);
            && (visibility == Internal <==> IsInternal(e))
            && (visibility == Restricted <==> !IsInternal(e) && Reads(e.metadata, "visibility", Str("restricted")))
  {
    GetReads(e.metadata, "visibility");
    hide Reads, MapType;
  }

  lemma PermittedIff(c: Caller, e: StoredEvent, visibility: Visibility)
    requires visibility == Internal <==> IsInternal(e)
    requires visibility == Restricted <==> !IsInternal(e) && Reads(e.metadata, "visibility", Str("restricted"))
    ensures && VisibilityName(visibility) in Allowed(c.admin, c.requested)
            && (Permissions(e.aggregateType, visibility) == []
                || exists p <- Permissions(e.aggregateType, visibility) :: p in c.permissions)
            <==> Sees(c, e)
  {
    hide IsInternal, Reads;
    var needed := Permissions(e.aggregateType, visibility);
    if needed != [] {
      assert needed == [needed[0]];
      assert (exists p <- needed :: p in c.permissions) <==> needed[0] in c.permissions;
    }
    AllowedIff(c, VisibilityName(visibility));
    hide Allowed;
  }

  lemma AllowedIff(c: Caller, name: string)
    requires name in ["workspace", "restricted", "internal"]
    ensures name in Allowed(c.admin, c.requested) <==>
              && (name == "internal" ==> c.admin)
              && (c.requested.Some? ==>
                    || c.requested.value == name
                    || c.requested.value !in ["workspace", "restricted"] + if c.admin then ["internal"] else [])
  {}

  /** A caller may read an event's activity exactly if the event is of the caller's workspace, the caller sees it, and
      it concerns what the caller asks for. */
  lemma ProjectionReadable(c: Caller, id: nat, e: StoredEvent)
    requires Clean(Obj(e.payload), 0) && Clean(Obj(e.metadata), 0) && Project(e).Some?
    ensures MayRead(c, RowOf(id, Project(e).value)) <==>
            e.workspaceId == c.workspaceId && Sees(c, e) && Concerns(c, e)
  {
    UnchangedIffClean(Obj(e.payload), 0);
    UnchangedIffClean(Obj(e.metadata), 0);
    var a := Project(e).value;
    var visibility := VisibilityOf(a.activityType, e.metadata);
    assert MapType(e.eventType) == Some(a.activityType) && a.visibility == visibility;
    assert a.requiredPermissions == Permissions(e.aggregateType, visibility) && a.related == Related(e.payload, 20);
    assert a.workspaceId == e.workspaceId && (a.aggregateType, a.aggregateId) == (e.aggregateType, e.aggregateId);
    hide Project, Clean, Redact;
    VisibleAs(c, e, a.activityType);
    PermittedIff(c, e, visibility);
    if c.entity.Some? { RelatedAre(e.payload, 20, c.entity.value); }
    hide MapType, VisibilityOf, Permissions, Related, NamesWithin, Sees, Allowed, VisibilityName, IsInternal, Reads;
  }

  /** The event as the queue carries it. */
  function Sent(e: StoredEvent, iso: int -> string): StoredEvent {
    e.(payload := TransportFields(e.payload, iso), metadata := TransportFields(e.metadata, iso))
  }

  /** The event as the rebuild passes it on. */
  function Passed(e: StoredEvent): StoredEvent { if e.causationId == Some("") then e.(causationId := None) else e }

  lemma SentIsSeenAlike(c: Caller, e: StoredEvent, iso: int -> string)
    requires IsoLike(iso)
    ensures Sees(c, Sent(e, iso)) <==> Sees(c, e)
    ensures Sees(c, Passed(e)) <==> Sees(c, e)
  {
    SentIsAsInternal(e, iso);
    GetTransported(e.metadata, iso, "visibility");
    GetReads(e.metadata, "visibility");
    GetReads(TransportFields(e.metadata, iso), "visibility");
    hide Reads, TransportFields, MapType, ActivityProjection.Get;
    assert forall t :: iso(t) != "restricted";
  }

  /** What an event's activity tells and to whom, by whichever path it came. */
  lemma RecordReadable(c: Caller, id: nat, e: StoredEvent, a: Activity, iso: int -> string)
    requires Appended(e) && IsoLike(iso) && IsRecordOf(e, Some(a), iso)
    ensures exists view :: view in [Sent(e, iso), Passed(e)] && Tells(view, a)
              && (MayRead(c, RowOf(id, a)) <==> e.workspaceId == c.workspaceId && Sees(c, e) && Concerns(c, view))
  {
    TransportKeepsClean(Obj(e.payload), iso, 0);
    TransportKeepsClean(Obj(e.metadata), iso, 0);
    SentIsSeenAlike(c, e, iso);
    var view := if Some(a) == ActivityProjection.Live(e, iso) then Sent(e, iso) else Passed(e);
    assert Project(view) == Some(a);
    ProjectionTells(view);
    ProjectionReadable(c, id, view);
    assert view in [Sent(e, iso), Passed(e)];
    hide Clean, Tells, Sees, Concerns, MayRead, Project;
  }

  /** Following the timeline to its end shows the caller an activity of the event. */
  ghost predicate ShowsEvent(c: Caller, w: World, wire: Wire, limit: nat, id: string)
  {
    exists i :: 0 <= i < |w.rows| && w.rows[i].activity.sourceEventId == id
                && HasKey(Shown(c, w.rows, wire, limit), i)
  }

  lemma RowReadable(steps: seq<Step>, wire: Wire, c: Caller, limit: nat, i: nat)
    requires Usable(wire) && limit > 0 && IsoLike(wire.codec.iso)
    requires i < |ActivityStore.Run(ActivityStore.START, steps, wire.codec.iso).rows|
    ensures var w := ActivityStore.Run(ActivityStore.START, steps, wire.codec.iso);
            var a := w.rows[i].activity;
            && a.sourceEventId in w.events && a.sourceEventId in w.projected
            && var e := w.events[a.sourceEventId];
            && Supported(e)
            && exists view :: view in [Sent(e, wire.codec.iso), Passed(e)] && Tells(view, a)
                 && (HasKey(Shown(c, w.rows, wire, limit), i) <==>
                       e.workspaceId == c.workspaceId && Sees(c, e) && Concerns(c, view))
  {
    var w := ActivityStore.Run(ActivityStore.START, steps, wire.codec.iso);
    ActivityStore.RunKeeps(ActivityStore.START, steps, wire.codec.iso);
    TimelineShowsExactly(c, w.rows, wire, limit, i);
    assert Faithful(w.events, w.projected, w.rows[i], wire.codec.iso);
    var a := w.rows[i].activity;
    var e := w.events[a.sourceEventId];
    assert SoundEvent(a.sourceEventId, e);
    hide ActivityStore.Run, ActivityStore.Sound, Shown, Usable, IsoLike;
    RecordKey(e, Some(a), wire.codec.iso);
    RecordReadable(c, i, e, a, wire.codec.iso);
    hide *;
  }

  /** The event retained is the one appended, with its payload and metadata redacted. */
  predicate RetainedFrom(e: StoredEvent, appended: StoredEvent) {
    e == appended.(payload := Redact(Obj(appended.payload), 0).fields,
                   metadata := Redact(Obj(appended.metadata), 0).fields)
  }

  predicate AppendedAmong(e: StoredEvent, steps: seq<Step>) {
    exists k :: 0 <= k < |steps| && steps[k].Append? && RetainedFrom(e, steps[k].event)
  }

  lemma StepRetains(w: World, step: Step, iso: int -> string, id: string)
    requires id in ActivityStore.Apply(w, step, iso).events
    ensures var e := ActivityStore.Apply(w, step, iso).events[id];
            (id in w.events && w.events[id] == e) || (step.Append? && RetainedFrom(e, step.event))
  {
    hide DistinctKeys, InsertProjected, Redact;
  }

  lemma {:induction false} RunRetains(w: World, steps: seq<Step>, iso: int -> string, id: string)
    requires id in ActivityStore.Run(w, steps, iso).events
    ensures var e := ActivityStore.Run(w, steps, iso).events[id];
            (id in w.events && w.events[id] == e) || AppendedAmong(e, steps)
    decreases |steps|
  {
    hide ActivityStore.Apply, RetainedFrom;
    if |steps| > 0 {
      var next := ActivityStore.Apply(w, steps[0], iso);
      RunRetains(next, steps[1..], iso, id);
      var e := ActivityStore.Run(next, steps[1..], iso).events[id];
      if k :| 0 <= k < |steps[1..]| && steps[1..][k].Append? && RetainedFrom(e, steps[1..][k].event) {
        assert steps[k + 1] == steps[1..][k];
      } else {
        StepRetains(w, steps[0], iso, id);
        assert steps[0].Append? && RetainedFrom(e, steps[0].event) ==> AppendedAmong(e, steps);
      }
    }
  }

  /** Every event the theorems below speak of was appended, and only redacted. */
  lemma EventsAreAppended(steps: seq<Step>, iso: int -> string, id: string)
    requires id in ActivityStore.Run(ActivityStore.START, steps, iso).events
    ensures AppendedAmong(ActivityStore.Run(ActivityStore.START, steps, iso).events[id], steps)
  {
    RunRetains(ActivityStore.START, steps, iso, id);
  }

  /** The event's activity may be shown: some path reached the event, and the caller may see it. */
  predicate MayBeShown(c: Caller, w: World, id: string) {
    && id in w.events && id in w.projected && Supported(w.events[id])
    && w.events[id].workspaceId == c.workspaceId && Sees(c, w.events[id])
  }

  lemma RowShownIff(steps: seq<Step>, wire: Wire, c: Caller, limit: nat, i: nat)
    requires Usable(wire) && limit > 0 && IsoLike(wire.codec.iso)
    requires i < |ActivityStore.Run(ActivityStore.START, steps, wire.codec.iso).rows|
    ensures var w := ActivityStore.Run(ActivityStore.START, steps, wire.codec.iso);
            var id := w.rows[i].activity.sourceEventId;
            && id in w.events
            && var sent, e := Sent(w.events[id], wire.codec.iso), w.events[id];
            && (HasKey(Shown(c, w.rows, wire, limit), i) ==>
                  MayBeShown(c, w, id) && (Concerns(c, sent) || Concerns(c, e)))
            && (MayBeShown(c, w, id) && Concerns(c, sent) && Concerns(c, e) ==> HasKey(Shown(c, w.rows, wire, limit), i))
  {
    RowReadable(steps, wire, c, limit, i);
    PassedConcernsAlike(c, ActivityStore.Run(ActivityStore.START, steps, wire.codec.iso).events);
    hide ActivityStore.Run, Shown, Usable, IsoLike, Concerns, Sees, Tells, Supported, HasKey, Sent, Passed;
  }

  lemma PassedConcernsAlike(c: Caller, events: map<string, StoredEvent>)
    ensures forall id <- events :: Concerns(c, Passed(events[id])) <==> Concerns(c, events[id])
  {
    hide Relates;
  }

  /** Over all runs of publishing, delivery and rebuild, an event's activity is shown to just those callers of its
      workspace who see the event and whom it concerns, once some path reached it. The two paths differ in what they
      take for the entities a payload names only where it holds dates. */
  lemma TimelineShowsEventIff(steps: seq<Step>, wire: Wire, c: Caller, limit: nat, id: string)
    requires Usable(wire) && limit > 0 && IsoLike(wire.codec.iso)
    requires id in ActivityStore.Run(ActivityStore.START, steps, wire.codec.iso).events
    ensures var w := ActivityStore.Run(ActivityStore.START, steps, wire.codec.iso);
            var sent, e := Sent(w.events[id], wire.codec.iso), w.events[id];
            && (ShowsEvent(c, w, wire, limit, id) ==> MayBeShown(c, w, id) && (Concerns(c, sent) || Concerns(c, e)))
            && (MayBeShown(c, w, id) && Concerns(c, sent) && Concerns(c, e) ==> ShowsEvent(c, w, wire, limit, id))
  {
    var w := ActivityStore.Run(ActivityStore.START, steps, wire.codec.iso);
    OneActivityPerEvent(steps, wire.codec.iso);
    hide ActivityStore.Run, Shown, Usable, IsoLike, UniqueKeys, AllFaithful, Concerns, Sees, Supported, HasKey, Sent;
    if ShowsEvent(c, w, wire, limit, id) {
      var i :| 0 <= i < |w.rows| && w.rows[i].activity.sourceEventId == id && HasKey(Shown(c, w.rows, wire, limit), i);
      RowShownIff(steps, wire, c, limit, i);
    }
    if MayBeShown(c, w, id) {
      var i :| 0 <= i < |w.rows| && ActivityStore.KeyOf(w.rows[i].activity) == (w.events[id].workspaceId, id);
      RowShownIff(steps, wire, c, limit, i);
    }
  }
}
