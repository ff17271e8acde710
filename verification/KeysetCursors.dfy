/** Sort values as documents hold them, and the cursors that carry them as text. */
module KeysetCursors {
  import opened Clocks
  import opened Keyset
  import opened Options

  /** A sort value as a document holds it. */
  datatype Stored = Missing | Null | Number(number: real) | Text(text: string) | Instant(at: Time)

  /** How dates are written and read, how texts are ordered, and which fields the schema declares as dates. */
  datatype Codec = Codec(iso: int -> string, parse: string -> Time, textOrder: string -> real, dates: set<string>)

  ghost predicate ReadsDates(codec: Codec) { forall t: Time :: codec.parse(codec.iso(t)) == t }

  /** Where a value falls in the order of the database: by type first. */
  function KeyOf(v: Stored, codec: Codec): SortValue {
    match v
    case Missing => Absent
    case Null => Absent
    case Number(n) => Present(1, n)
    case Text(t) => Present(2, codec.textOrder(t))
    case Instant(at) => Present(9, at as real)
  }

  /** The JSON of a cursor's value; a missing value leaves no member behind. */
  datatype Json = NoMember | JNull | JNumber(number: real) | JText(text: string)

  function ToJson(v: Stored, codec: Codec): Json {
    match v
    case Missing => NoMember
    case Null => JNull
    case Number(n) => JNumber(n)
    case Text(t) => JText(t)
    case Instant(at) => JText(codec.iso(at))
  }

  predicate EndsWithAt(field: string) { |field| >= 2 && field[|field| - 2..] == "At" }

  /** The CRM cursor: text becomes a date when the field is named like one; no value is an invalid cursor. */
  function DecodeCrm(field: string, json: Json, codec: Codec): Option<Stored> {
    match json
    case NoMember => None
    case JNull => Some(Null)
    case JNumber(n) => Some(Number(n))
    case JText(t) => Some(if EndsWithAt(field) then Instant(codec.parse(t)) else Text(t))
  }

  /** The database layer casts a text put to a date field. */
  function Cast(field: string, v: Stored, codec: Codec): Stored {
    if v.Text? && field in codec.dates then Instant(codec.parse(v.text)) else v
  }

  /** The value a CRM cursor puts to the query, for the value it was made of. */
  function CarriedCrm(field: string, v: Stored, codec: Codec): Option<Stored> {
    match DecodeCrm(field, ToJson(v, codec), codec)
    case None => None
    case Some(decoded) => Some(Cast(field, decoded, codec))
  }

  /** A CRM cursor puts to the query the value it was made of exactly when there is one, and it is a date just
      when the field is named or declared as one, among dates and texts. */
  lemma CrmCursorRoundTrip(field: string, v: Stored, codec: Codec)
    requires ReadsDates(codec)
    ensures CarriedCrm(field, v, codec) == Some(v) <==>
            && !v.Missing?
            && (v.Instant? ==> EndsWithAt(field) || field in codec.dates)
            && (v.Text? ==> !EndsWithAt(field) && field !in codec.dates)
  {}

  datatype SearchCursor = SearchCursor(field: string, isDate: bool, value: Json, id: string)

  function EncodeSearch(field: string, v: Stored, id: string, codec: Codec): SearchCursor {
    SearchCursor(field, v.Instant?, ToJson(v, codec), id)
  }

  function DecodeSearch(cursor: SearchCursor, field: string, codec: Codec): Option<(Stored, string)> {
    if cursor.field != field then None
    else
      Some((match cursor.value
            case NoMember => Missing
            case JNull => Null
            case JNumber(n) => Number(n)
            case JText(t) => if cursor.isDate then Instant(codec.parse(t)) else Text(t),
            cursor.id))
  }

  /** A search cursor carries the type with the value, so it decodes to what it was made of under the field
      it was made for, and under no other. */
  lemma SearchCursorRoundTrip(field: string, v: Stored, id: string, expected: string, codec: Codec)
    requires ReadsDates(codec)
    ensures DecodeSearch(EncodeSearch(field, v, id, codec), expected, codec)
            == if expected == field then Some((v, id)) else None
  {}

  /** The text before the first bar and the text up to the next. */
  function UpToBar(s: string): string {
    if s == "" || s[0] == '|' then "" else [s[0]] + UpToBar(s[1..])
  }

  lemma {:induction false} UpToBarStops(a: string, rest: string)
    requires '|' !in a && (rest == "" || rest[0] == '|')
    ensures UpToBar(a + rest) == a
  {
    if a == "" {
      assert a + rest == rest;
    } else {
      assert (a + rest)[1..] == a[1..] + rest;
      UpToBarStops(a[1..], rest);
    }
  }

  function DecodeActivity(cursor: string): (string, string) {
    var date := UpToBar(cursor);
    (date, if |date| < |cursor| then UpToBar(cursor[|date| + 1..]) else "")
  }

  lemma {:induction false} UpToBarIsPrefix(s: string)
    ensures UpToBar(s) <= s
  {
    if s != "" && s[0] != '|' { UpToBarIsPrefix(s[1..]); }
  }

  /** The activity cursor splits back into its date and id. */
  lemma ActivityCursorRoundTrip(date: string, id: string)
    requires '|' !in date && '|' !in id
    ensures DecodeActivity(date + "|" + id) == (date, id)
  {
    assert date + "|" + id == date + ("|" + id);
    UpToBarStops(date, "|" + id);
    assert (date + "|" + id)[|date| + 1..] == id;
    UpToBarStops(id, "");
    assert id + "" == id;
  }
}
