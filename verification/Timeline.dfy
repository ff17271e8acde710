/** What the timeline shows of the activities that any run of deliveries and rebuilds leaves behind. */
module Timeline {
  import opened ActivityProjection
  import opened ActivityStore
  import opened Keyset
  import opened KeysetCursors
  import opened KeysetRepositories
  import opened Options
  import opened Redactor

  const ADMIN := "admin.access"

  function VisibilityName(v: Visibility): string {
    match v
    case Workspace => "workspace"
    case Restricted => "restricted"
    case Internal => "internal"
  }

  /** An activity as the listing sees it. */
  function RowOf(id: nat, a: Activity): ActivityRow {
    ActivityRow(id, a.workspaceId, a.occurredAt, VisibilityName(a.visibility), a.requiredPermissions,
                (a.aggregateType, a.aggregateId), a.related)
  }

  function RowsOf(rows: seq<Row>): seq<ActivityRow> {
    seq(|rows|, i requires 0 <= i < |rows| => RowOf(i, rows[i].activity))
  }

  /** The visibilities a caller may ask for; a request for another one is ignored. */
  function Allowed(admin: bool, requested: Option<string>): seq<string> {
    var allowed := ["workspace", "restricted"] + if admin then ["internal"] else [];
    if requested.Some? && requested.value in allowed then [requested.value] else allowed
  }

  /** A caller: the workspace, the permissions held, whether they amount to administration, and the query. */
  datatype Caller = Caller(
    workspaceId: string, permissions: seq<string>, admin: bool, requested: Option<string>,
    entity: Option<(string, string)>)

  function ViewerOf(c: Caller): Viewer {
    Viewer(c.workspaceId, c.entity, Allowed(c.admin, c.requested), c.permissions)
  }

  predicate MayRead(c: Caller, a: ActivityRow) {
    Readable(a, ViewerOf(c))
  }

  function KeysOf(c: Caller, rows: seq<ActivityRow>, codec: Codec): seq<Doc> {
    ReadableKeys(rows, ViewerOf(c), codec)
  }

  /** How dates and ids are written: dates read back as they were, and neither holds a bar. */
  datatype Wire = Wire(codec: Codec, idText: int -> string)

  ghost predicate Usable(wire: Wire) { ReadsDates(wire.codec) && NoBars(wire.codec, wire.idText) }

  /** All that a caller sees by following the timeline to its end. */
  function Shown(c: Caller, rows: seq<Row>, wire: Wire, limit: nat): seq<Doc> {
    var carry := TimelineCarry(wire.codec, wire.idText);
    ItemsOf(WalkVia(Descending, KeysOf(c, RowsOf(rows), wire.codec), None, limit, |rows| + 2, carry).pages)
  }

  // ---- the listing ---------------------------------------------------------------------------------------------

  predicate HasKey(keys: seq<Doc>, id: int) { exists d <- keys :: d.id == id }

  predicate HasReadable(c: Caller, rows: seq<ActivityRow>, id: int) { exists a <- rows :: a.id == id && MayRead(c, a) }

  lemma KeysUnfold(c: Caller, rows: seq<ActivityRow>, codec: Codec)
    requires rows != []
    ensures KeysOf(c, rows, codec)
            == (if MayRead(c, rows[0]) then [ActivityKey(rows[0], codec)] else []) + KeysOf(c, rows[1..], codec)
  {}

  lemma {:induction false} KeysAreReadable(c: Caller, rows: seq<ActivityRow>, codec: Codec, id: int)
    ensures HasKey(KeysOf(c, rows, codec), id) <==> HasReadable(c, rows, id)
    ensures |KeysOf(c, rows, codec)| <= |rows|
  {
    if rows != [] {
      KeysAreReadable(c, rows[1..], codec, id);
      KeysUnfold(c, rows, codec);
      hide KeysOf, MayRead;
      var keys, rest := KeysOf(c, rows, codec), KeysOf(c, rows[1..], codec);
      assert HasKey(keys, id) <==> (MayRead(c, rows[0]) && rows[0].id == id) || HasKey(rest, id) by {
        assert MayRead(c, rows[0]) ==> keys[0] in keys;
        assert forall d :: d in keys <==> (MayRead(c, rows[0]) && d == keys[0]) || d in rest;
      }
      assert rows == [rows[0]] + rows[1..];
      assert HasReadable(c, rows, id) <==> (MayRead(c, rows[0]) && rows[0].id == id) || HasReadable(c, rows[1..], id);
    }
  }

  predicate Numbered(rows: seq<ActivityRow>, from: nat) {
    forall i :: 0 <= i < |rows| ==> rows[i].id == from + i
  }

  lemma {:induction false} KeysAreDistinct(c: Caller, rows: seq<ActivityRow>, codec: Codec, from: nat)
    requires Numbered(rows, from)
    ensures DistinctIds(KeysOf(c, rows, codec))
  {
    if rows != [] {
      KeysAreDistinct(c, rows[1..], codec, from + 1);
      KeysUnfold(c, rows, codec);
      var rest := KeysOf(c, rows[1..], codec);
      hide KeysOf, MayRead;
      forall i | 0 <= i < |rest| ensures rest[i].id != rows[0].id {
        KeysAreReadable(c, rows[1..], codec, rest[i].id);
        assert rest[i] in rest;
        assert HasKey(rest, rest[i].id);
      }
    }
  }

  lemma NumberedHasReadable(c: Caller, rows: seq<ActivityRow>, i: nat)
    requires Numbered(rows, 0) && i < |rows|
    ensures HasReadable(c, rows, i) <==> MayRead(c, rows[i])
  {
    hide MayRead;
    assert rows[i] in rows;
  }

  lemma ShownIsListing(c: Caller, rows: seq<Row>, wire: Wire, limit: nat)
    requires Usable(wire) && limit > 0
    ensures Shown(c, rows, wire, limit) == Sort(Descending, KeysOf(c, RowsOf(rows), wire.codec))
  {
    KeysAreReadable(c, RowsOf(rows), wire.codec, 0);
    KeysAreDistinct(c, RowsOf(rows), wire.codec, 0);
    hide ReadableKeys, Readable, RowsOf, NewestFirst, WalkVia, ItemsOf, Finished, Sort, ViewerOf, ReadsDates, NoBars;
    TimelineIsComplete(RowsOf(rows), ViewerOf(c), wire.codec, wire.idText, limit, |rows| + 2);
    hide ActivityKey, DistinctIds;
  }

  lemma ShownAreKeys(c: Caller, rows: seq<Row>, wire: Wire, limit: nat)
    requires Usable(wire) && limit > 0
    ensures forall d :: d in Shown(c, rows, wire, limit) <==> d in KeysOf(c, RowsOf(rows), wire.codec)
  {
    ShownIsListing(c, rows, wire, limit);
    KeysAreDistinct(c, RowsOf(rows), wire.codec, 0);
    var keys := KeysOf(c, RowsOf(rows), wire.codec);
    SortIsInOrder(Descending, keys);
    hide *;
    forall d ensures d in Sort(Descending, keys) <==> d in keys {
      assert d in multiset(Sort(Descending, keys)) <==> d in multiset(keys);
    }
  }

  /** Following the timeline to its end shows a caller exactly the activities the caller may read. */
  lemma TimelineShowsExactly(c: Caller, rows: seq<Row>, wire: Wire, limit: nat, i: nat)
    requires Usable(wire) && limit > 0 && i < |rows|
    ensures HasKey(Shown(c, rows, wire, limit), i) <==> MayRead(c, RowOf(i, rows[i].activity))
  {
    ShownAreKeys(c, rows, wire, limit);
    KeysAreReadable(c, RowsOf(rows), wire.codec, i);
    NumberedHasReadable(c, RowsOf(rows), i);
    hide Shown, KeysOf, MayRead, HasReadable;
  }

  lemma ShownId(c: Caller, rows: seq<Row>, wire: Wire, limit: nat, d: Doc)
    requires Usable(wire) && limit > 0 && d in Shown(c, rows, wire, limit)
    ensures 0 <= d.id < |rows|
  {
    ShownAreKeys(c, rows, wire, limit);
    KeysAreReadable(c, RowsOf(rows), wire.codec, d.id);
    hide Shown, KeysOf, MayRead;
    assert HasKey(KeysOf(c, RowsOf(rows), wire.codec), d.id);
    var a :| a in RowsOf(rows) && a.id == d.id;
    var k :| 0 <= k < |rows| && RowsOf(rows)[k] == a;
  }

  // ---- what the shown activities can be ---------------------------------------------------------------------------

  /** The event is a note, or marked internal. */
  predicate IsInternal(e: StoredEvent) {
    MapType(e.eventType) == Some(NoteAdded) || ActivityProjection.Get(e.metadata, "internalOnly") == Some(Bool(true))
  }

  /** How an activity is guarded, given what its event says of visibility. */
  predicate Guarded(e: StoredEvent, a: Activity) {
    && (a.visibility == Internal <==> IsInternal(e))
    && a.requiredPermissions == Permissions(e.aggregateType, a.visibility)
    && a.retainUntil == e.occurredAt + (if IsInternal(e) then 365 else 7 * 365) * 86_400_000
    && Clean(Obj(a.data), 0)
  }

  lemma DataIsClean(e: StoredEvent)
    ensures Project(e).Some? ==> Clean(Obj(Project(e).value.data), 0)
  {
    RedactedIsClean(Obj(e.payload), 0);
    if Project(e).Some? && MapType(e.eventType) == Some(FieldChanged) {
      var payload := Redact(Obj(e.payload), 0).fields;
      RedactedIsClean(Obj(FieldName(payload) + Scalar(payload, "from") + Scalar(payload, "to")), 0);
    }
    hide Clean, MapType, Sensitive;
  }

  lemma ProjectGuards(e: StoredEvent)
    requires Redact(Obj(e.metadata), 0) == Obj(e.metadata)
    ensures Project(e).Some? ==> Guarded(e, Project(e).value)
  {
    DataIsClean(e);
    hide Redact, Clean, MapType, Permissions, Data, Related, Domain, ActivityProjection.Get;
  }

  /** Whichever path projected it, an activity is internal exactly when its event is; it is guarded and kept
      accordingly, and holds no sensitive value. */
  lemma ProjectionGuards(e: StoredEvent, a: Activity, iso: int -> string)
    requires Appended(e) && IsoLike(iso) && IsRecordOf(e, Some(a), iso)
    ensures Guarded(e, a)
  {
    StoredFieldsAreKept(e, iso);
    SentIsAsInternal(e, iso);
    var sent := e.(payload := TransportFields(e.payload, iso), metadata := TransportFields(e.metadata, iso));
    ProjectGuards(sent);
    ProjectGuards(e);
    ProjectGuards(e.(causationId := None));
    hide IsInternal, Project, Redact, Clean, Permissions;
  }

  lemma SentIsAsInternal(e: StoredEvent, iso: int -> string)
    ensures var sent := e.(payload := TransportFields(e.payload, iso), metadata := TransportFields(e.metadata, iso));
            IsInternal(sent) <==> IsInternal(e)
    ensures IsInternal(e.(causationId := None)) <==> IsInternal(e)
  {
    GetTransported(e.metadata, iso, "internalOnly");
    hide ActivityProjection.Get, MapType, TransportFields;
  }

  /** Whatever events were published, delivered, redelivered and rebuilt: an activity a caller is shown comes
      from an event of the caller's workspace; it comes from a note or an internal event only if the caller
      holds the administrator's permission, and otherwise from an aggregate the caller may read; and its data
      hold no sensitive value. */
  lemma TimelineRespectsPermissions(steps: seq<Step>, wire: Wire, c: Caller, limit: nat, d: Doc)
    requires Usable(wire) && limit > 0 && IsoLike(wire.codec.iso)
    requires d in Shown(c, ActivityStore.Run(ActivityStore.START, steps, wire.codec.iso).rows, wire, limit)
    ensures var w := ActivityStore.Run(ActivityStore.START, steps, wire.codec.iso);
            && 0 <= d.id < |w.rows|
            && var a := w.rows[d.id].activity;
            && a.sourceEventId in w.events
            && var e := w.events[a.sourceEventId];
            && e.workspaceId == c.workspaceId
            && (IsInternal(e) ==> ADMIN in c.permissions)
            && (!IsInternal(e) && e.aggregateType in READ_PERMISSION ==> READ_PERMISSION[e.aggregateType] in c.permissions)
            && Clean(Obj(a.data), 0)
  {
    var w := ActivityStore.Run(ActivityStore.START, steps, wire.codec.iso);
    ActivityStore.RunKeeps(ActivityStore.START, steps, wire.codec.iso);
    ShownId(c, w.rows, wire, limit, d);
    TimelineShowsExactly(c, w.rows, wire, limit, d.id);
    assert HasKey(Shown(c, w.rows, wire, limit), d.id);
    var a := w.rows[d.id].activity;
    assert Faithful(w.events, w.projected, w.rows[d.id], wire.codec.iso);
    var e := w.events[a.sourceEventId];
    assert SoundEvent(a.sourceEventId, e);
    hide ActivityStore.Run, Shown, AllPresent, UniqueKeys, ActivityStore.Sound;
    RecordKey(e, Some(a), wire.codec.iso);
    ProjectionGuards(e, a, wire.codec.iso);
    ReadableIsPermitted(c, d.id, a);
    hide IsRecordOf, IsInternal, Clean, Appended, MayRead;
  }

  lemma ReadableIsPermitted(c: Caller, id: nat, a: Activity)
    requires MayRead(c, RowOf(id, a))
    ensures a.workspaceId == c.workspaceId
    ensures a.requiredPermissions != [] ==> exists p <- a.requiredPermissions :: p in c.permissions
  {}
}
