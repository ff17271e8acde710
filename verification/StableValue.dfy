/** The canonical printer of tool arguments: JSON with the members of every object in collation order. */
module StableValue {

  /** A number is known by the token it prints as. */
  predicate IsNumeral(s: string) {
    && s != "" && (s[0] == '-' || '0' <= s[0] <= '9')
    && forall c <- s :: '0' <= c <= '9' || c in "+-.e"
  }

  type Numeral = s: string | IsNumeral(s) witness "0"

  datatype Json =
    | Null
    | Bool(flag: bool)
    | Number(token: Numeral)
    | Text(text: string)
    | Array(items: seq<Json>)
    | Object(members: seq<Member>)

  datatype Member = Member(name: string, value: Json)

  /** The place of a key in the locale's order; keys of equal rank compare as equal. */
  type Collation = string -> real

  // ---- strings ----------------------------------------------------------------------------------------------

  function HexDigit(n: nat): char
    requires n < 16
  {
    "0123456789abcdef"[n]
  }

  function EscapeChar(c: char): string {
    if c == '"' then ['\\', '"']
    else if c == '\\' then ['\\', '\\']
    else if c as int == 8 then ['\\', 'b']
    else if c as int == 9 then ['\\', 't']
    else if c as int == 10 then ['\\', 'n']
    else if c as int == 12 then ['\\', 'f']
    else if c as int == 13 then ['\\', 'r']
    else if c as int < 32 then ['\\', 'u', '0', '0', HexDigit(c as int / 16), HexDigit(c as int % 16)]
    else [c]
  }

  function Escape(s: string): string {
    if s == "" then "" else EscapeChar(s[0]) + Escape(s[1..])
  }

  function Quote(s: string): string { "\"" + Escape(s) + "\"" }

  // ---- sorting -----------------------------------------------------------------------------------------------

  /** Before the first member that does not come earlier: members of equal rank keep their order. */
  function Insert(m: Member, sorted: seq<Member>, rank: Collation): seq<Member> {
    if sorted == [] || rank(m.name) <= rank(sorted[0].name) then [m] + sorted
    else [sorted[0]] + Insert(m, sorted[1..], rank)
  }

  function Sort(members: seq<Member>, rank: Collation): (r: seq<Member>)
    ensures Weight(r) == Weight(members)
  {
    if members == [] then []
    else
      InsertWeight(members[0], Sort(members[1..], rank), rank);
      Insert(members[0], Sort(members[1..], rank), rank)
  }

  function Size(v: Json): nat {
    match v
    case Array(items) => 1 + ItemsSize(items)
    case Object(members) => 1 + Weight(members)
    case _ => 1
  }

  function ItemsSize(items: seq<Json>): nat {
    if items == [] then 0 else 1 + Size(items[0]) + ItemsSize(items[1..])
  }

  function Weight(members: seq<Member>): nat {
    if members == [] then 0 else 1 + Size(members[0].value) + Weight(members[1..])
  }

  lemma {:induction false} InsertWeight(m: Member, sorted: seq<Member>, rank: Collation)
    ensures Weight(Insert(m, sorted, rank)) == 1 + Size(m.value) + Weight(sorted)
  {
    if sorted == [] || rank(m.name) <= rank(sorted[0].name) {
      assert ([m] + sorted)[1..] == sorted;
    } else {
      InsertWeight(m, sorted[1..], rank);
      assert ([sorted[0]] + Insert(m, sorted[1..], rank))[1..] == Insert(m, sorted[1..], rank);
    }
  }

  // ---- the printer ---------------------------------------------------------------------------------------------

  function Scalar(v: Json): string
    requires !v.Array? && !v.Object?
  {
    match v
    case Null => "null"
    case Bool(flag) => if flag then "true" else "false"
    case Number(token) => token
    case Text(text) => Quote(text)
  }

  function Stable(v: Json, rank: Collation): string
    decreases Size(v)
  {
    match v
    case Array(items) => "[" + StableItems(items, rank) + "]"
    case Object(members) => "{" + StableMembers(Sort(members, rank), rank) + "}"
    case _ => Scalar(v)
  }

  function StableItems(items: seq<Json>, rank: Collation): string
    decreases ItemsSize(items)
  {
    if items == [] then ""
    else Stable(items[0], rank) + (if |items| == 1 then "" else "," + StableItems(items[1..], rank))
  }

  function StableMembers(members: seq<Member>, rank: Collation): string
    decreases Weight(members)
  {
    if members == [] then ""
    else
      Quote(members[0].name) + ":" + Stable(members[0].value, rank)
      + (if |members| == 1 then "" else "," + StableMembers(members[1..], rank))
  }

  // ---- the printer in two steps: put in order, then print as it stands --------------------------------------------

  function Canon(v: Json, rank: Collation): Json
    decreases v
  {
    match v
    case Array(items) => Array(CanonItems(items, rank))
    case Object(members) => Object(Sort(CanonMembers(members, rank), rank))
    case _ => v
  }

  function CanonItems(items: seq<Json>, rank: Collation): (r: seq<Json>)
    ensures |r| == |items|
    decreases items
  {
    if items == [] then [] else [Canon(items[0], rank)] + CanonItems(items[1..], rank)
  }

  function CanonMembers(members: seq<Member>, rank: Collation): (r: seq<Member>)
    ensures |r| == |members|
    decreases members
  {
    if members == [] then []
    else [Member(members[0].name, Canon(members[0].value, rank))] + CanonMembers(members[1..], rank)
  }

  function Plain(v: Json): string
    decreases v
  {
    match v
    case Array(items) => "[" + PlainItems(items) + "]"
    case Object(members) => "{" + PlainMembers(members) + "}"
    case _ => Scalar(v)
  }

  function PlainItems(items: seq<Json>): string
    decreases items
  {
    if items == [] then "" else Plain(items[0]) + (if |items| == 1 then "" else "," + PlainItems(items[1..]))
  }

  function PlainMembers(members: seq<Member>): string
    decreases members
  {
    if members == [] then ""
    else
      Quote(members[0].name) + ":" + Plain(members[0].value)
      + (if |members| == 1 then "" else "," + PlainMembers(members[1..]))
  }

  lemma {:induction false} InsertCommutes(m: Member, sorted: seq<Member>, rank: Collation)
    ensures CanonMembers(Insert(m, sorted, rank), rank)
            == Insert(Member(m.name, Canon(m.value, rank)), CanonMembers(sorted, rank), rank)
  {
    if sorted == [] || rank(m.name) <= rank(sorted[0].name) {
      assert ([m] + sorted)[1..] == sorted;
    } else {
      InsertCommutes(m, sorted[1..], rank);
      var rest := Insert(m, sorted[1..], rank);
      assert ([sorted[0]] + rest)[1..] == rest;
      assert CanonMembers(sorted, rank)[1..] == CanonMembers(sorted[1..], rank);
    }
  }

  lemma {:induction false} SortCommutes(members: seq<Member>, rank: Collation)
    ensures CanonMembers(Sort(members, rank), rank) == Sort(CanonMembers(members, rank), rank)
  {
    if members == [] {
    } else {
      SortCommutes(members[1..], rank);
      InsertCommutes(members[0], Sort(members[1..], rank), rank);
      assert CanonMembers(members, rank)[1..] == CanonMembers(members[1..], rank);
    }
  }

  lemma {:induction false} StableIsPlainCanon(v: Json, rank: Collation)
    ensures Stable(v, rank) == Plain(Canon(v, rank))
    decreases Size(v)
  {
    match v
    case Array(items) => StableItemsArePlain(items, rank);
    case Object(members) =>
      StableMembersArePlain(Sort(members, rank), rank);
      SortCommutes(members, rank);
    case _ =>
  }

  lemma {:induction false} StableItemsArePlain(items: seq<Json>, rank: Collation)
    ensures StableItems(items, rank) == PlainItems(CanonItems(items, rank))
    decreases ItemsSize(items)
  {
    if items != [] {
      StableIsPlainCanon(items[0], rank);
      StableItemsArePlain(items[1..], rank);
      assert CanonItems(items, rank)[1..] == CanonItems(items[1..], rank);
    }
  }

  lemma {:induction false} StableMembersArePlain(members: seq<Member>, rank: Collation)
    ensures StableMembers(members, rank) == PlainMembers(CanonMembers(members, rank))
    decreases Weight(members)
  {
    if members != [] {
      StableIsPlainCanon(members[0].value, rank);
      StableMembersArePlain(members[1..], rank);
      assert CanonMembers(members, rank)[1..] == CanonMembers(members[1..], rank);
    }
  }
}
