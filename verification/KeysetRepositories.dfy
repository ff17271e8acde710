/** The three listings that page by keyset, and the cursors they hand out. */
module KeysetRepositories {
  import opened Clocks
  import opened Keyset
  import opened KeysetCursors
  import opened Options

  datatype Record = Record(
    id: int, workspaceId: string, deleted: bool, status: string, ownerId: string, tags: seq<string>,
    fields: map<string, Stored>)

  datatype ActivityRow = ActivityRow(
    id: int, workspaceId: string, occurredAt: Time, visibility: string, requiredPermissions: seq<string>,
    aggregate: (string, string), related: seq<(string, string)>)

  function StoredAt(r: Record, field: string): Stored { if field in r.fields then r.fields[field] else Missing }

  function SortKey(r: Record, field: string, codec: Codec): Doc { Doc(r.id, KeyOf(StoredAt(r, field), codec)) }

  function ActivityKey(a: ActivityRow, codec: Codec): Doc { Doc(a.id, KeyOf(Instant(a.occurredAt), codec)) }

  /** What a CRM listing asks for; an empty text or list asks for nothing. `search` is trimmed. */
  datatype CrmQuery = CrmQuery(search: string, status: string, ownerId: string, tags: seq<string>)

  predicate Asked(q: CrmQuery, r: Record, textMatch: (Record, string) -> bool) {
    && (q.search != "" ==> textMatch(r, q.search))
    && (q.status != "" ==> r.status == q.status)
    && (q.ownerId != "" ==> r.ownerId == q.ownerId)
    && (forall t <- q.tags :: t in r.tags)
  }

  /** The records of a CRM listing: the caller's, not deleted, that pass the listing's own filter and the query. */
  function Live(
      workspaceId: string, filter: Record -> bool, q: CrmQuery, textMatch: (Record, string) -> bool): Record -> bool {
    (r: Record) => r.workspaceId == workspaceId && !r.deleted && filter(r) && Asked(q, r, textMatch)
  }

  /** One member of the query put to the database. */
  datatype Clause =
    | Given(filter: Record -> bool) | Workspace(id: string) | NotDeleted
    | TextSearch(text: string) | Status(status: string) | Owner(id: string) | AllTags(tags: seq<string>)

  predicate Meets(r: Record, clause: Clause, textMatch: (Record, string) -> bool) {
    match clause
    case Given(filter) => filter(r)
    case Workspace(id) => r.workspaceId == id
    case NotDeleted => !r.deleted
    case TextSearch(text) => textMatch(r, text)
    case Status(status) => r.status == status
    case Owner(id) => r.ownerId == id
    case AllTags(tags) => forall t <- tags :: t in r.tags
  }

  predicate AllMet(r: Record, clauses: seq<Clause>, textMatch: (Record, string) -> bool) {
    forall i :: 0 <= i < |clauses| ==> Meets(r, clauses[i], textMatch)
  }

  function MeetsAll(clauses: seq<Clause>, textMatch: (Record, string) -> bool): Record -> bool {
    (r: Record) => AllMet(r, clauses, textMatch)
  }

  /** The clause joins the others if it is asked for. */
  function With(asked: bool, clauses: seq<Clause>, clause: Clause, textMatch: (Record, string) -> bool): (r: seq<Clause>)
    ensures forall x ::
              AllMet(x, r, textMatch) <==> AllMet(x, clauses, textMatch) && (asked ==> Meets(x, clause, textMatch))
  {
    OneClauseMore(clauses, clause, textMatch);
    if asked then clauses + [clause] else clauses
  }

  lemma OneClauseMore(clauses: seq<Clause>, clause: Clause, textMatch: (Record, string) -> bool)
    ensures forall r :: AllMet(r, clauses + [clause], textMatch) <==>
                        AllMet(r, clauses, textMatch) && Meets(r, clause, textMatch)
  {
    hide Meets;
    forall r ensures AllMet(r, clauses + [clause], textMatch) ==>
                       AllMet(r, clauses, textMatch) && Meets(r, clause, textMatch)
    {
      if AllMet(r, clauses + [clause], textMatch) {
        assert Meets(r, (clauses + [clause])[|clauses|], textMatch);
        forall i | 0 <= i < |clauses| ensures Meets(r, clauses[i], textMatch) {
          assert Meets(r, (clauses + [clause])[i], textMatch);
        }
      }
    }
  }

  /** The sort keys of the records a query matches. */
  function Matching(records: seq<Record>, matches: Record -> bool, field: string, codec: Codec): seq<Doc> {
    if records == [] then []
    else
      (if matches(records[0]) then [SortKey(records[0], field, codec)] else [])
      + Matching(records[1..], matches, field, codec)
  }

  /** Who lists activities: the workspace, the entity asked for, the visibilities selected, the permissions held. */
  datatype Viewer = Viewer(
    workspaceId: string, entity: Option<(string, string)>, visibilities: seq<string>, permissions: seq<string>)

  predicate Readable(a: ActivityRow, v: Viewer) {
    && a.workspaceId == v.workspaceId
    && a.visibility in v.visibilities
    && (a.requiredPermissions == [] || exists p <- a.requiredPermissions :: p in v.permissions)
    && (v.entity.Some? ==> a.aggregate == v.entity.value || v.entity.value in a.related)
  }

  function ReadableKeys(rows: seq<ActivityRow>, v: Viewer, codec: Codec): seq<Doc> {
    if rows == [] then []
    else (if Readable(rows[0], v) then [ActivityKey(rows[0], codec)] else []) + ReadableKeys(rows[1..], v, codec)
  }

  function Skip(docs: seq<Doc>, n: nat): seq<Doc> { if n >= |docs| then [] else docs[n..] }

  function Take(docs: seq<Doc>, n: nat): seq<Doc> { if n >= |docs| then docs else docs[..n] }

  /** How many documents the numbered pages before this one hold. */
  function Earlier(page: nat, limit: nat): nat
    requires page >= 1
  {
    (page - 1) * limit
  }

  /** What is read with one document more than the page holds. */
  lemma ReadingOneMore(direction: Direction, docs: seq<Doc>, cursor: Option<Doc>, found: seq<Doc>, limit: nat)
    ensures var values := Take(found, limit + 1);
            var items := if |values| > limit then values[..limit] else values;
            && items == Take(found, limit)
            && (found == Candidates(direction, docs, cursor) ==>
                  Page(items, if |values| > limit && items != [] then Some(items[|items| - 1]) else None)
                  == PageOf(direction, docs, cursor, limit))
  {
    hide Candidates;
  }

  // ---- the order of a listing, in terms of what the records hold --------------------------------------------------

  /** The order of the database: nothing and null come first, then numbers, texts by the collation, and dates. */
  predicate ValuePrecedes(a: Stored, b: Stored, codec: Codec) {
    match a
    case Missing => !b.Missing? && !b.Null?
    case Null => !b.Missing? && !b.Null?
    case Number(x) => b.Text? || b.Instant? || (b.Number? && x < b.number)
    case Text(x) => b.Instant? || (b.Text? && codec.textOrder(x) < codec.textOrder(b.text))
    case Instant(x) => b.Instant? && x < b.at
  }

  /** By the sort field, and by id where neither value comes before the other. */
  predicate RecordPrecedes(a: Record, b: Record, field: string, codec: Codec) {
    var x, y := StoredAt(a, field), StoredAt(b, field);
    ValuePrecedes(x, y, codec) || (!ValuePrecedes(y, x, codec) && a.id < b.id)
  }

  predicate ListedBefore(direction: Direction, a: Record, b: Record, field: string, codec: Codec) {
    if direction == Ascending then RecordPrecedes(a, b, field, codec) else RecordPrecedes(b, a, field, codec)
  }

  /** The items are of records that match, and stand in the order of those records' values. */
  predicate ListsInOrder(
      records: seq<Record>, matches: Record -> bool, items: seq<Doc>, field: string, direction: Direction, codec: Codec) {
    && (forall d <- items :: exists r <- records :: r.id == d.id && matches(r))
    && forall i, j | 0 <= i < j < |items| ::
         forall a <- records, b <- records | a.id == items[i].id && b.id == items[j].id ::
           ListedBefore(direction, a, b, field, codec)
  }

  /** The items are of two activities of which the first is newer. */
  predicate Newer(rows: seq<ActivityRow>, first: Doc, second: Doc) {
    exists a <- rows, b <- rows ::
      && a.id == first.id && b.id == second.id
      && (a.occurredAt > b.occurredAt || (a.occurredAt == b.occurredAt && a.id > b.id))
  }

  /** The items are of activities the caller may read, the newest first. */
  predicate NewestFirst(rows: seq<ActivityRow>, v: Viewer, items: seq<Doc>) {
    && (forall d <- items :: exists a <- rows :: a.id == d.id && Readable(a, v))
    && forall i, j | 0 <= i < j < |items| :: Newer(rows, items[i], items[j])
  }

  lemma KeysOrderRecords(direction: Direction, a: Record, b: Record, field: string, codec: Codec)
    requires Before(direction, SortKey(a, field, codec), SortKey(b, field, codec))
    ensures ListedBefore(direction, a, b, field, codec)
  {}

  lemma OrderedKeysListInOrder(
      records: seq<Record>, matches: Record -> bool, items: seq<Doc>, field: string, direction: Direction, codec: Codec)
    requires DistinctRecords(records) && InOrder(direction, items)
    requires forall d <- items :: d in Matching(records, matches, field, codec)
    ensures ListsInOrder(records, matches, items, field, direction, codec)
  {
    MatchingAre(records, matches, field, codec);
    hide Matching;
    forall i, a | 0 <= i < |items| && a in records && a.id == items[i].id ensures items[i] == SortKey(a, field, codec) {
      assert items[i] in items;
    }
    hide SortKey;
    forall i, j, a, b | 0 <= i < j < |items| && a in records && b in records && a.id == items[i].id && b.id == items[j].id
      ensures ListedBefore(direction, a, b, field, codec)
    {
      KeysOrderRecords(direction, a, b, field, codec);
    }
    hide ListedBefore, Before;
    forall d <- items ensures exists r <- records :: r.id == d.id && matches(r) {
      var r :| r in records && matches(r) && d == SortKey(r, field, codec);
      SortKeyHasId(r, field, codec);
    }
  }

  lemma SortKeyHasId(r: Record, field: string, codec: Codec)
    ensures SortKey(r, field, codec).id == r.id
  {}

  /** Any stretch of what a query finds, a page among them, is in the order of the records' values. */
  lemma StretchListsInOrder(
      records: seq<Record>, matches: Record -> bool, field: string, direction: Direction, codec: Codec,
      cursor: Option<Doc>, from: nat, to: nat)
    requires DistinctRecords(records)
    requires from <= to <= |Candidates(direction, Matching(records, matches, field, codec), cursor)|
    ensures ListsInOrder(records, matches,
                         Candidates(direction, Matching(records, matches, field, codec), cursor)[from..to],
                         field, direction, codec)
  {
    var docs := Matching(records, matches, field, codec);
    MatchingAreDistinct(records, matches, field, codec);
    SortIsInOrder(direction, docs);
    FilterMembers(direction, Sort(direction, docs), cursor);
    hide Matching, Sort, Filter, DistinctRecords;
    var found := Candidates(direction, docs, cursor);
    forall d <- found[from..to] ensures d in docs {
      assert d in found;
      assert d in multiset(Sort(direction, docs));
    }
    assert InOrder(direction, found[from..to]) by { hide Before; }
    OrderedKeysListInOrder(records, matches, found[from..to], field, direction, codec);
  }

  /** So is the whole listing. */
  lemma ListingListsInOrder(
      records: seq<Record>, matches: Record -> bool, field: string, direction: Direction, codec: Codec)
    requires DistinctRecords(records)
    ensures ListsInOrder(records, matches, Sort(direction, Matching(records, matches, field, codec)),
                         field, direction, codec)
  {
    var listing := Sort(direction, Matching(records, matches, field, codec));
    FilterAll(direction, listing);
    StretchListsInOrder(records, matches, field, direction, codec, None, 0, |listing|);
    assert listing[0..|listing|] == listing;
  }

  lemma PageListsInOrder(
      records: seq<Record>, matches: Record -> bool, field: string, direction: Direction, codec: Codec,
      cursor: Option<Doc>, skipped: nat, limit: nat)
    requires DistinctRecords(records)
    ensures var found := Candidates(direction, Matching(records, matches, field, codec), cursor);
            ListsInOrder(records, matches, Take(Skip(found, skipped), limit), field, direction, codec)
  {
    hide Candidates, Matching, ListsInOrder, DistinctRecords;
    var found := Candidates(direction, Matching(records, matches, field, codec), cursor);
    var from := if skipped >= |found| then |found| else skipped;
    var to := if from + limit >= |found| then |found| else from + limit;
    StretchListsInOrder(records, matches, field, direction, codec, cursor, from, to);
    assert Take(Skip(found, skipped), limit) == found[from..to];
  }

  /** What a cursor made of a record finds comes after the record. */
  lemma FoundAfterCursor(
      records: seq<Record>, matches: Record -> bool, field: string, direction: Direction, codec: Codec,
      last: Record, r: Record)
    requires DistinctRecords(records) && r in records
    requires SortKey(r, field, codec)
             in Candidates(direction, Matching(records, matches, field, codec), Some(SortKey(last, field, codec)))
    ensures ListedBefore(direction, last, r, field, codec)
  {
    var docs, cursor := Matching(records, matches, field, codec), SortKey(last, field, codec);
    MatchingAreDistinct(records, matches, field, codec);
    SortIsInOrder(direction, docs);
    FilterMembers(direction, Sort(direction, docs), Some(cursor));
    hide Matching, Sort, Filter, DistinctRecords, InOrder;
    assert PastCursor(direction, SortKey(r, field, codec), Some(cursor));
    assert Before(direction, cursor, SortKey(r, field, codec));
    KeysOrderRecords(direction, last, r, field, codec);
  }

  lemma OrderedKeysAreNewestFirst(rows: seq<ActivityRow>, v: Viewer, items: seq<Doc>, codec: Codec)
    requires InOrder(Descending, items) && forall d <- items :: d in ReadableKeys(rows, v, codec)
    ensures NewestFirst(rows, v, items)
  {
    ReadableKeysAreInstants(rows, v, codec);
    hide ReadableKeys, Readable;
    forall i, j | 0 <= i < j < |items| ensures Newer(rows, items[i], items[j]) {
      assert items[i] in items && items[j] in items;
      var a :| a in rows && items[i] == ActivityKey(a, codec);
      var b :| b in rows && items[j] == ActivityKey(b, codec);
      assert Before(Descending, items[i], items[j]);
      assert a.id == items[i].id && b.id == items[j].id;
    }
    forall d <- items ensures exists a <- rows :: a.id == d.id && Readable(a, v) {
      var a :| a in rows && d == ActivityKey(a, codec) && Readable(a, v);
      assert a.id == d.id;
    }
  }

  lemma PageIsNewestFirst(rows: seq<ActivityRow>, v: Viewer, codec: Codec, cursor: Option<Doc>, limit: nat)
    requires DistinctIds(ReadableKeys(rows, v, codec))
    ensures NewestFirst(rows, v, Take(Candidates(Descending, ReadableKeys(rows, v, codec), cursor), limit))
  {
    var docs := ReadableKeys(rows, v, codec);
    SortIsInOrder(Descending, docs);
    FilterMembers(Descending, Sort(Descending, docs), cursor);
    hide ReadableKeys, Sort, Filter, Readable, DistinctIds;
    var found := Candidates(Descending, docs, cursor);
    var page := Take(found, limit);
    forall d <- page ensures d in docs {
      assert d in found;
      assert d in multiset(Sort(Descending, docs));
    }
    assert InOrder(Descending, page) by { hide Before; }
    OrderedKeysAreNewestFirst(rows, v, page, codec);
  }

  class Collections {
    const codec: Codec
    var records: seq<Record>
    var activities: seq<ActivityRow>

    constructor (records: seq<Record>, activities: seq<ActivityRow>, codec: Codec)
      ensures this.records == records && this.activities == activities && this.codec == codec
    {
      this.records, this.activities, this.codec := records, activities, codec;
    }

    /** The query of a CRM listing, a member at a time. */
    method Clauses(workspaceId: string, filter: Record -> bool, q: CrmQuery, textMatch: (Record, string) -> bool)
      returns (clauses: seq<Clause>)
      ensures forall r :: MeetsAll(clauses, textMatch)(r) <==> Live(workspaceId, filter, q, textMatch)(r)
    {
      clauses := [];
      assert forall r :: AllMet(r, clauses, textMatch);
      hide AllMet;
      clauses := With(true, clauses, Given(filter), textMatch);
      clauses := With(true, clauses, Workspace(workspaceId), textMatch);
      clauses := With(true, clauses, NotDeleted, textMatch);
      clauses := With(q.search != "", clauses, TextSearch(q.search), textMatch);
      clauses := With(q.status != "", clauses, Status(q.status), textMatch);
      clauses := With(q.ownerId != "", clauses, Owner(q.ownerId), textMatch);
      clauses := With(q.tags != [], clauses, AllTags(q.tags), textMatch);
      forall r ensures MeetsAll(clauses, textMatch)(r) <==> Live(workspaceId, filter, q, textMatch)(r) {
        assert AllMet(r, clauses, textMatch) <==>
          filter(r) && r.workspaceId == workspaceId && !r.deleted && Asked(q, r, textMatch);
      }
    }

    /** CRM listings: a cursor replaces the page number, and an unsortable field falls back. */
    method CrmPage(workspaceId: string, filter: Record -> bool, q: CrmQuery, textMatch: (Record, string) -> bool,
                   sortable: set<string>, sort: string, direction: Direction, cursor: Option<Doc>, page: nat, limit: nat)
      returns (items: seq<Doc>, total: nat, nextCursor: Option<Doc>)
      requires page >= 1 && limit >= 1
      ensures var field := if sort in sortable then sort else "createdAt";
              var docs := Matching(records, Live(workspaceId, filter, q, textMatch), field, codec);
              && total == |docs|
              && (cursor.Some? || page == 1 ==> Page(items, nextCursor) == PageOf(direction, docs, cursor, limit))
              && (cursor.None? ==> items == Take(Skip(Sort(direction, docs), Earlier(page, limit)), limit))
              && (DistinctRecords(records) ==>
                    ListsInOrder(records, Live(workspaceId, filter, q, textMatch), items, field, direction, codec))
    {
      hide MeetsAll, Live, Matching, Sort, Filter, ListsInOrder, DistinctRecords;
      var sortField := if sort in sortable then sort else "createdAt";
      var clauses := Clauses(workspaceId, filter, q, textMatch);
      MatchingAlike(records, MeetsAll(clauses, textMatch), Live(workspaceId, filter, q, textMatch), sortField, codec);
      var docs := Matching(records, MeetsAll(clauses, textMatch), sortField, codec);
      total := |docs|;
      var found := Candidates(direction, docs, cursor);
      FilterAll(direction, Sort(direction, docs));
      assert page == 1 ==> Earlier(page, limit) == 0;
      hide Earlier;
      if DistinctRecords(records) {
        PageListsInOrder(records, Live(workspaceId, filter, q, textMatch), sortField, direction, codec, cursor,
                         if cursor.Some? then 0 else Earlier(page, limit), limit);
      }
      found := Skip(found, if cursor.Some? then 0 else Earlier(page, limit));
      assert cursor.Some? || page == 1 ==> found == Candidates(direction, docs, cursor);
      hide Skip, Candidates;
      var values := Take(found, limit + 1);
      ReadingOneMore(direction, docs, cursor, found, limit);
      hide Take, PageOf;
      var hasMore := |values| > limit;
      items := if hasMore then values[..limit] else values;
      nextCursor := if hasMore && items != [] then Some(items[|items| - 1]) else None;
    }

    /** Search: the page drops the extra value it read. */
    method SearchPage(matches: Record -> bool, field: string, direction: Direction, cursor: Option<Doc>, limit: nat)
      returns (items: seq<Doc>, nextCursor: Option<Doc>)
      ensures Page(items, nextCursor) == PageOf(direction, Matching(records, matches, field, codec), cursor, limit)
      ensures DistinctRecords(records) ==> ListsInOrder(records, matches, items, field, direction, codec)
    {
      hide Matching, Candidates, ListsInOrder, DistinctRecords;
      if DistinctRecords(records) {
        PageListsInOrder(records, matches, field, direction, codec, cursor, 0, limit);
      }
      items := Take(Candidates(direction, Matching(records, matches, field, codec), cursor), limit + 1);
      var hasMore := |items| > limit;
      if hasMore {
        items := items[..|items| - 1];
      }
      nextCursor := if hasMore && items != [] then Some(items[|items| - 1]) else None;
    }

    /** Activities, newest first, restricted to what the caller may read. */
    method ActivityPage(v: Viewer, cursor: Option<Doc>, limit: nat)
      returns (items: seq<Doc>, nextCursor: Option<Doc>)
      ensures Page(items, nextCursor)
              == PageOf(Descending, ReadableKeys(activities, v, codec), cursor, limit)
      ensures DistinctIds(ReadableKeys(activities, v, codec)) ==> NewestFirst(activities, v, items)
    {
      hide ReadableKeys, Candidates, NewestFirst, DistinctIds;
      var docs := ReadableKeys(activities, v, codec);
      if DistinctIds(docs) { PageIsNewestFirst(activities, v, codec, cursor, limit); }
      ReadingOneMore(Descending, docs, cursor, Candidates(Descending, docs, cursor), limit);
      items := Take(Candidates(Descending, docs, cursor), limit + 1);
      var hasMore := |items| > limit;
      if hasMore {
        items := items[..|items| - 1];
      }
      nextCursor := if hasMore && items != [] then Some(items[|items| - 1]) else None;
    }
  }

  lemma {:induction false} ReadableKeysAreInstants(rows: seq<ActivityRow>, v: Viewer, codec: Codec)
    ensures forall d <- ReadableKeys(rows, v, codec) :: exists a <- rows :: d == ActivityKey(a, codec) && Readable(a, v)
  {
    hide Readable;
    if rows != [] {
      ReadableKeysAreInstants(rows[1..], v, codec);
      assert rows[0] in rows && forall a <- rows[1..] :: a in rows;
    }
  }

  // ---- whole walks, each cursor carried as text ------------------------------------------------------------------

  function Find(records: seq<Record>, id: int): Option<Record> {
    if records == [] then None else if records[0].id == id then Some(records[0]) else Find(records[1..], id)
  }

  /** What becomes of a CRM listing's cursor on its way to the client and back. */
  function CrmCarry(records: seq<Record>, field: string, codec: Codec): Doc -> Option<Doc> {
    (d: Doc) =>
      match Find(records, d.id)
      case None => None
      case Some(r) =>
        match CarriedCrm(field, StoredAt(r, field), codec)
        case None => None
        case Some(v) => Some(Doc(d.id, KeyOf(v, codec)))
  }

  /** Dates are stored in fields named or declared as dates only, texts in others. */
  predicate Typed(records: seq<Record>, field: string, codec: Codec) {
    forall r <- records ::
      && (StoredAt(r, field).Instant? ==> EndsWithAt(field) || field in codec.dates)
      && (StoredAt(r, field).Text? ==> !EndsWithAt(field) && field !in codec.dates)
  }

  predicate DistinctRecords(records: seq<Record>) {
    forall i, j :: 0 <= i < j < |records| ==> records[i].id != records[j].id
  }

  lemma {:induction false} FindsRecord(records: seq<Record>, i: nat)
    requires DistinctRecords(records) && i < |records|
    ensures Find(records, records[i].id) == Some(records[i])
  {
    if i > 0 { FindsRecord(records[1..], i - 1); }
  }

  /** A cursor made of a matching record is refused exactly when the record has no sort value, and otherwise comes
      back as it was. */
  lemma {:induction false} CrmCarries(records: seq<Record>, matches: Record -> bool, field: string, codec: Codec)
    requires ReadsDates(codec) && DistinctRecords(records) && Typed(records, field, codec)
    ensures forall d <- Matching(records, matches, field, codec) ::
              exists r <- records ::
                && matches(r) && d == SortKey(r, field, codec)
                && CrmCarry(records, field, codec)(d) == if StoredAt(r, field).Missing? then None else Some(d)
  {
    MatchingAre(records, matches, field, codec);
    forall d <- Matching(records, matches, field, codec)
      ensures exists r <- records ::
                && matches(r) && d == SortKey(r, field, codec)
                && CrmCarry(records, field, codec)(d) == if StoredAt(r, field).Missing? then None else Some(d)
    {
      var r :| r in records && matches(r) && d == SortKey(r, field, codec);
      var i :| 0 <= i < |records| && records[i] == r;
      FindsRecord(records, i);
      CrmCursorRoundTrip(field, StoredAt(r, field), codec);
      hide Matching, Find, Typed;
    }
  }

  lemma CrmCarriesDocs(records: seq<Record>, matches: Record -> bool, field: string, codec: Codec)
    requires ReadsDates(codec) && DistinctRecords(records) && Typed(records, field, codec)
    ensures Carries(Matching(records, matches, field, codec), CrmCarry(records, field, codec))
    ensures |Matching(records, matches, field, codec)| <= |records|
  {
    MatchingAre(records, matches, field, codec);
    CrmCarries(records, matches, field, codec);
    hide Matching, CrmCarry, DistinctRecords, Typed, SortKey;
  }

  lemma {:induction false} MatchingAlike(
      records: seq<Record>, f: Record -> bool, g: Record -> bool, field: string, codec: Codec)
    requires forall r :: f(r) <==> g(r)
    ensures Matching(records, f, field, codec) == Matching(records, g, field, codec)
  {
    if records != [] { MatchingAlike(records[1..], f, g, field, codec); }
  }

  lemma {:induction false} MatchingAre(records: seq<Record>, matches: Record -> bool, field: string, codec: Codec)
    ensures forall d <- Matching(records, matches, field, codec) ::
              exists r <- records :: matches(r) && d == SortKey(r, field, codec)
    ensures |Matching(records, matches, field, codec)| <= |records|
  {
    hide SortKey;
    if records != [] {
      MatchingAre(records[1..], matches, field, codec);
      assert records[0] in records && forall r <- records[1..] :: r in records;
    }
  }

  lemma {:induction false} MatchingAreDistinct(records: seq<Record>, matches: Record -> bool, field: string, codec: Codec)
    requires DistinctRecords(records)
    ensures DistinctIds(Matching(records, matches, field, codec))
  {
    if records != [] {
      MatchingAreDistinct(records[1..], matches, field, codec);
      MatchingAre(records[1..], matches, field, codec);
      var rest := Matching(records[1..], matches, field, codec);
      forall j | 0 <= j < |rest| ensures rest[j].id != records[0].id {
        assert rest[j] in rest;
        var r :| r in records[1..] && rest[j] == SortKey(r, field, codec);
      }
      hide Matching;
    }
  }

  /** A client that follows a CRM listing from its first page gets an error exactly when a page with more to come
      ends with a record that has no value in the sort field; and gets the whole listing exactly when that does not
      happen and everything fits one page or the first page ends in the type bracket the listing ends in. */
  lemma CrmWalkIsCompleteIff(records: seq<Record>, matches: Record -> bool, field: string, direction: Direction,
                             codec: Codec, limit: nat)
    requires ReadsDates(codec) && DistinctRecords(records) && Typed(records, field, codec) && limit > 0
    ensures var listing := Sort(direction, Matching(records, matches, field, codec));
            var carry := CrmCarry(records, field, codec);
            var via := WalkVia(direction, Matching(records, matches, field, codec), None, limit, |records| + 2, carry);
            && (via.refused <==>
                  |listing| > limit && Refuses(listing, limit, BracketEnd(listing, limit), limit, carry))
            && (!via.refused && ItemsOf(via.pages) == listing <==>
                  || |listing| <= limit
                  || (Bracket(listing[limit - 1].value) == Bracket(listing[|listing| - 1].value)
                      && !Refuses(listing, limit, BracketEnd(listing, limit), limit, carry)))
  {
    var docs := Matching(records, matches, field, codec);
    hide Matching, CrmCarry, Sort, Walk, WalkVia, BracketEnd, Refuses, DistinctRecords, Typed, Bracket, DistinctIds,
         InOrder, Finished, SortKey;
    MatchingAreDistinct(records, matches, field, codec);
    CrmCarriesDocs(records, matches, field, codec);
    CarriedWalk(direction, docs, limit, |records| + 2, CrmCarry(records, field, codec));
    PagesReassembleTheListing(direction, docs, limit, |records| + 2);
  }

  /** What becomes of a search cursor: a missing value comes back as one, which the query takes for null. */
  function SearchCarry(records: seq<Record>, field: string, codec: Codec, idText: int -> string): Doc -> Option<Doc> {
    (d: Doc) =>
      match Find(records, d.id)
      case None => None
      case Some(r) =>
        match DecodeSearch(EncodeSearch(field, StoredAt(r, field), idText(d.id), codec), field, codec)
        case None => None
        case Some((v, id)) => if id == idText(d.id) then Some(Doc(d.id, KeyOf(v, codec))) else None
  }

  /** No search cursor is refused: a client's walk is the walk. */
  lemma SearchWalkIsNeverRefused(records: seq<Record>, matches: Record -> bool, field: string, direction: Direction,
                                 codec: Codec, idText: int -> string, limit: nat)
    requires ReadsDates(codec) && DistinctRecords(records) && limit > 0
    ensures var docs := Matching(records, matches, field, codec);
            WalkVia(direction, docs, None, limit, |records| + 2, SearchCarry(records, field, codec, idText))
            == Journey(Walk(direction, docs, None, limit, |records| + 2), false)
  {
    var docs := Matching(records, matches, field, codec);
    var carry := SearchCarry(records, field, codec, idText);
    MatchingAre(records, matches, field, codec);
    MatchingAreDistinct(records, matches, field, codec);
    forall d <- docs ensures carry(d) == Some(d) {
      var r :| r in records && matches(r) && d == SortKey(r, field, codec);
      var i :| 0 <= i < |records| && records[i] == r;
      FindsRecord(records, i);
      SearchCursorRoundTrip(field, StoredAt(r, field), idText(d.id), field, codec);
    }
    NothingRefused(direction, docs, limit, |records| + 2, carry);
  }

  lemma NothingRefused(direction: Direction, docs: seq<Doc>, limit: nat, fuel: nat, carry: Doc -> Option<Doc>)
    requires DistinctIds(docs) && limit > 0 && fuel > |docs| + 1 && forall d <- docs :: carry(d) == Some(d)
    ensures WalkVia(direction, docs, None, limit, fuel, carry) == Journey(Walk(direction, docs, None, limit, fuel), false)
  {
    CarriedWalk(direction, docs, limit, fuel, carry);
    SortIsInOrder(direction, docs);
    var listing := Sort(direction, docs);
    hide Sort, Walk, WalkVia, BracketEnd;
    forall d <- listing ensures carry(d) == Some(d) {
      assert d in multiset(listing);
    }
    if |listing| > limit { NeverRefuses(listing, limit, BracketEnd(listing, limit), limit, carry); }
  }

  lemma {:induction false} NeverRefuses(listing: seq<Doc>, i: nat, end: nat, limit: nat, carry: Doc -> Option<Doc>)
    requires 0 < i <= |listing| && end <= |listing| && limit > 0 && forall d <- listing :: carry(d) == Some(d)
    ensures !Refuses(listing, i, end, limit, carry)
    decreases |listing| - i
  {
    assert listing[i - 1] in listing;
    if i + limit < end { NeverRefuses(listing, i + limit, end, limit, carry); }
  }

  /** What becomes of a timeline cursor, which is a date and an id around a bar. */
  function TimelineCarry(codec: Codec, idText: int -> string): Doc -> Option<Doc> {
    (d: Doc) =>
      if d.value.Absent? then None
      else
        var (date, id) := DecodeActivity(codec.iso(d.value.rank.Floor) + "|" + idText(d.id));
        if id == idText(d.id) then Some(Doc(d.id, KeyOf(Instant(codec.parse(date)), codec))) else None
  }

  ghost predicate NoBars(codec: Codec, idText: int -> string) {
    (forall t :: '|' !in codec.iso(t)) && (forall id :: '|' !in idText(id))
  }

  /** Activities all carry a time, so a client that follows the timeline's cursor gets exactly the readable
      activities, newest first, each once, and no other. */
  lemma TimelineIsComplete(rows: seq<ActivityRow>, v: Viewer, codec: Codec, idText: int -> string, limit: nat, fuel: nat)
    requires ReadsDates(codec) && NoBars(codec, idText)
    requires DistinctIds(ReadableKeys(rows, v, codec)) && limit > 0 && fuel > |ReadableKeys(rows, v, codec)| + 1
    ensures var docs := ReadableKeys(rows, v, codec);
            var via := WalkVia(Descending, docs, None, limit, fuel, TimelineCarry(codec, idText));
            && !via.refused && Finished(via.pages) && ItemsOf(via.pages) == Sort(Descending, docs)
            && NewestFirst(rows, v, ItemsOf(via.pages))
            && forall d <- ItemsOf(via.pages) :: exists a <- rows :: d == ActivityKey(a, codec) && Readable(a, v)
  {
    var docs := ReadableKeys(rows, v, codec);
    ReadableKeysAreInstants(rows, v, codec);
    forall d <- docs ensures TimelineCarry(codec, idText)(d) == Some(d) && Bracket(d.value) == 9 {
      var a :| a in rows && d == ActivityKey(a, codec);
      ActivityCursorRoundTrip(codec.iso(a.occurredAt), idText(d.id));
    }
    hide ReadableKeys, Readable, TimelineCarry, NoBars, ReadsDates;
    NothingRefused(Descending, docs, limit, fuel, TimelineCarry(codec, idText));
    PagesReassembleTheListing(Descending, docs, limit, fuel);
    hide Sort, Walk, WalkVia, Finished, ItemsOf, InOrder;
    var listing := Sort(Descending, docs);
    forall d | d in listing ensures d in docs {
      assert d in multiset(listing);
    }
    if |listing| > limit {
      assert listing[limit - 1] in docs && listing[|listing| - 1] in docs;
    }
    SortIsInOrder(Descending, docs);
    OrderedKeysAreNewestFirst(rows, v, listing, codec);
  }
}
