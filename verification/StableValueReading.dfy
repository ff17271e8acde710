/** Printed JSON can be read back in only one way. */
module StableValueReading {
  import opened Options
  import opened StableValue

  lemma Split(p: string, x: string, q: string, y: string)
    requires p + x == q + y && |p| == |q|
    ensures p == q && x == y
  {
    assert p == (p + x)[..|p|] && q == (q + y)[..|q|];
    assert x == (p + x)[|p|..] && y == (q + y)[|q|..];
  }

  /** Between two texts that start with the same piece. */
  lemma Cancel(p: string, x: string, y: string)
    requires p + x == p + y
    ensures x == y
  {
    Split(p, x, p, y);
  }

  lemma Assoc(p: string, q: string, r: string)
    ensures (p + q) + r == p + (q + r)
  {}

  lemma Wrap(open: string, body: string, close: string, x: string)
    ensures (open + body + close) + x == open + (body + (close + x))
  {
    Assoc(open + body, close, x);
    Assoc(open, body, close + x);
  }

  lemma HexDigitIsInjective(m: nat, n: nat)
    requires m < 16 && n < 16 && HexDigit(m) == HexDigit(n)
    ensures m == n
  {}

  /** The words of section 3 of RFC 8259, and how objects and arrays are bracketed. */
  lemma PrintsJsonWords(rank: Collation)
    ensures Stable(Null, rank) == "null" && Stable(Bool(true), rank) == "true" && Stable(Bool(false), rank) == "false"
    ensures Stable(Array([]), rank) == "[]" && Stable(Object([]), rank) == "{}"
  {}

  function HexValue(c: char): nat {
    if '0' <= c <= '9' then c as int - '0' as int else if 'a' <= c <= 'f' then c as int - 'a' as int + 10 else 0
  }

  /** How section 7 of RFC 8259 reads the escapes of a text; `None` for an escape it does not know. */
  function Unescape(s: string): Option<string>
    decreases |s|
  {
    if s == "" then Some("")
    else if s[0] != '\\' then After(s[0], Unescape(s[1..]))
    else if |s| < 2 then None
    else
      match s[1]
      case '"' => After('"', Unescape(s[2..]))
      case '\\' => After('\\', Unescape(s[2..]))
      case '/' => After('/', Unescape(s[2..]))
      case 'b' => After(8 as char, Unescape(s[2..]))
      case 'f' => After(12 as char, Unescape(s[2..]))
      case 'n' => After(10 as char, Unescape(s[2..]))
      case 'r' => After(13 as char, Unescape(s[2..]))
      case 't' => After(9 as char, Unescape(s[2..]))
      case 'u' =>
        if |s| < 6 || s[2] != '0' || s[3] != '0' then None
        else After((HexValue(s[4]) * 16 + HexValue(s[5])) as char, Unescape(s[6..]))
      case _ => None
  }

  function After(c: char, rest: Option<string>): Option<string> {
    match rest case None => None case Some(s) => Some([c] + s)
  }

  /** An escaped text reads as the text. */
  lemma {:induction false} EscapeIsRead(s: string)
    ensures Unescape(Escape(s)) == Some(s)
  {
    if s != "" {
      EscapeIsRead(s[1..]);
      EscapedCharIsRead(s[0], Escape(s[1..]));
      assert [s[0]] + s[1..] == s;
    }
  }

  lemma EscapedCharIsRead(c: char, rest: string)
    ensures Unescape(EscapeChar(c) + rest) == After(c, Unescape(rest))
  {
    var e := EscapeChar(c);
    assert (e + rest)[|e|..] == rest;
    if |e| == 1 {
      assert (e + rest)[0] == c;
    } else if |e| == 2 {
      assert (e + rest)[0] == '\\' && (e + rest)[1] == e[1];
      ShortEscapeIsRead(c, e + rest);
    } else {
      assert forall i :: 0 <= i < 6 ==> (e + rest)[i] == e[i];
      HexIsRead(c as int / 16);
      HexIsRead(c as int % 16);
      hide HexValue, HexDigit;
    }
  }

  lemma ShortEscapeIsRead(c: char, s: string)
    requires |EscapeChar(c)| == 2 && |s| >= 2 && s[0] == '\\' && s[1] == EscapeChar(c)[1]
    ensures Unescape(s) == After(c, Unescape(s[2..]))
  {}

  lemma HexIsRead(n: nat)
    requires n < 16
    ensures HexValue(HexDigit(n)) == n
  {}

  lemma EscapeCharReads(a: char, b: char, x: string, y: string)
    requires EscapeChar(a) + x == EscapeChar(b) + y
    ensures a == b && x == y
  {
    var s, t := EscapeChar(a), EscapeChar(b);
    assert (s + x)[0] == s[0] && (t + y)[0] == t[0];
    if s[0] == '\\' {
      assert (s + x)[1] == s[1] && (t + y)[1] == t[1];
      if s[1] == 'u' {
        assert (s + x)[4] == s[4] && (t + y)[4] == t[4];
        assert (s + x)[5] == s[5] && (t + y)[5] == t[5];
        HexDigitIsInjective(a as int / 16, b as int / 16);
        HexDigitIsInjective(a as int % 16, b as int % 16);
      }
    }
    Cancel(s, x, y);
  }

  lemma {:induction false} EscapeReads(a: string, b: string, x: string, y: string)
    requires Escape(a) + ("\"" + x) == Escape(b) + ("\"" + y)
    ensures a == b && x == y
    decreases |a| + |b|
  {
    if a != "" && b != "" {
      Assoc(EscapeChar(a[0]), Escape(a[1..]), "\"" + x);
      Assoc(EscapeChar(b[0]), Escape(b[1..]), "\"" + y);
      EscapeCharReads(a[0], b[0], Escape(a[1..]) + ("\"" + x), Escape(b[1..]) + ("\"" + y));
      EscapeReads(a[1..], b[1..], x, y);
      assert a == [a[0]] + a[1..] && b == [b[0]] + b[1..];
    } else {
      if a != "" { EndsOnQuote(a, x, y); }
      if b != "" { EndsOnQuote(b, y, x); }
      assert Escape("") + ("\"" + x) == "\"" + x;
      assert Escape("") + ("\"" + y) == "\"" + y;
      Cancel("\"", x, y);
    }
  }

  lemma EndsOnQuote(a: string, x: string, y: string)
    requires a != ""
    ensures Escape(a) + ("\"" + x) != Escape("") + ("\"" + y)
  {
    assert (Escape(a) + ("\"" + x))[0] == EscapeChar(a[0])[0];
    assert (Escape("") + ("\"" + y))[0] == '"';
  }

  lemma QuoteReads(a: string, b: string, x: string, y: string)
    requires Quote(a) + x == Quote(b) + y
    ensures a == b && x == y
  {
    Wrap("\"", Escape(a), "\"", x);
    Wrap("\"", Escape(b), "\"", y);
    hide Escape;
    Cancel("\"", Escape(a) + ("\"" + x), Escape(b) + ("\"" + y));
    EscapeReads(a, b, x, y);
  }

  lemma Cons<T>(a: seq<T>, b: seq<T>)
    requires a != [] && b != [] && a[0] == b[0] && a[1..] == b[1..]
    ensures a == b
  {
    assert a == [a[0]] + a[1..] && b == [b[0]] + b[1..];
  }

  // ---- values -------------------------------------------------------------------------------------------------

  /** What may follow a value. */
  predicate Stops(x: string) { x == "" || x[0] in ",]}" }

  datatype Kind = NullKind | TrueKind | FalseKind | NumberKind | TextKind | ArrayKind | ObjectKind

  function KindOf(v: Json): Kind {
    match v
    case Null => NullKind
    case Bool(flag) => if flag then TrueKind else FalseKind
    case Number(_) => NumberKind
    case Text(_) => TextKind
    case Array(_) => ArrayKind
    case Object(_) => ObjectKind
  }

  function KindOfChar(c: char): Kind {
    if c == 'n' then NullKind
    else if c == 't' then TrueKind
    else if c == 'f' then FalseKind
    else if c == '"' then TextKind
    else if c == '[' then ArrayKind
    else if c == '{' then ObjectKind
    else NumberKind
  }

  /** The first character of a value tells its kind. */
  lemma Starts(v: Json)
    ensures Plain(v) != "" && Plain(v)[0] !in ",]}" && KindOfChar(Plain(v)[0]) == KindOf(v)
  {
    match v
    case Number(token) => assert IsNumeral(token);
    case _ =>
  }

  lemma NumeralsRead(s: Numeral, t: Numeral, x: string, y: string)
    requires s + x == t + y && Stops(x) && Stops(y)
    ensures s == t && x == y
  {
    if |s| < |t| { Longer(s, t, x, y); }
    if |t| < |s| { Longer(t, s, y, x); }
    Split(s, x, t, y);
  }

  lemma Longer(s: Numeral, t: Numeral, x: string, y: string)
    requires |s| < |t| && Stops(x)
    ensures s + x != t + y
  {
    if x != "" {
      assert (s + x)[|s|] == x[0] && (t + y)[|s|] == t[|s|];
      assert t[|s|] in t;
    }
  }

  /** Two printed values followed by something that cannot belong to them are the same text only if the values
      are the same, and so is what follows. */
  lemma {:induction false} PlainReads(a: Json, b: Json, x: string, y: string)
    requires Plain(a) + x == Plain(b) + y && Stops(x) && Stops(y)
    ensures a == b && x == y
    decreases a
  {
    Starts(a);
    Starts(b);
    assert Plain(a)[0] == (Plain(a) + x)[0] && Plain(b)[0] == (Plain(b) + y)[0];
    assert KindOf(a) == KindOf(b);
    hide KindOfChar, PlainItems, PlainMembers, Stops, Quote;
    match a
    case Number(token) => NumeralsRead(token, b.token, x, y);
    case Text(text) => QuoteReads(text, b.text, x, y);
    case Array(items) =>
      Wrap("[", PlainItems(items), "]", x);
      Wrap("[", PlainItems(b.items), "]", y);
      Cancel("[", ItemsThen(items, x), ItemsThen(b.items, y));
      ItemsRead(items, b.items, x, y);
    case Object(members) =>
      Wrap("{", PlainMembers(members), "}", x);
      Wrap("{", PlainMembers(b.members), "}", y);
      Cancel("{", MembersThen(members, x), MembersThen(b.members, y));
      MembersRead(members, b.members, x, y);
    case _ =>
      Cancel(Plain(a), x, y);
  }

  function ItemsThen(items: seq<Json>, x: string): string { PlainItems(items) + ("]" + x) }

  function MembersThen(members: seq<Member>, x: string): string { PlainMembers(members) + ("}" + x) }

  /** What follows the first value of a list. */
  function Rest(items: seq<Json>, x: string): string {
    if |items| <= 1 then "]" + x else "," + ItemsThen(items[1..], x)
  }

  lemma ItemsUnfold(items: seq<Json>, x: string)
    requires items != []
    ensures ItemsThen(items, x) == Plain(items[0]) + Rest(items, x)
    ensures Stops(Rest(items, x))
  {
    var first, close := Plain(items[0]), "]" + x;
    if |items| == 1 {
      assert first + "" == first;
    } else {
      var rest := PlainItems(items[1..]);
      assert PlainItems(items) == first + ("," + rest);
      hide PlainItems, Plain;
      Assoc(first, "," + rest, close);
      Assoc(",", rest, close);
    }
  }

  lemma {:induction false} ItemsRead(a: seq<Json>, b: seq<Json>, x: string, y: string)
    requires ItemsThen(a, x) == ItemsThen(b, y)
    ensures a == b && x == y
    decreases a
  {
    hide ItemsThen, MembersThen, Rest, AfterName, AfterValue, Plain, Quote;
    if a == [] || b == [] {
      if a != [] { NoItems(a, x, y); }
      if b != [] { NoItems(b, y, x); }
      NothingItems(x, y);
    } else {
      ItemsUnfold(a, x);
      ItemsUnfold(b, y);
      PlainReads(a[0], b[0], Rest(a, x), Rest(b, y));
      RestReads(a, b, x, y);
      hide *;
      if |a| > 1 { ItemsRead(a[1..], b[1..], x, y); }
      Cons(a, b);
    }
  }

  lemma RestReads(a: seq<Json>, b: seq<Json>, x: string, y: string)
    requires a != [] && b != [] && Rest(a, x) == Rest(b, y)
    ensures |a| == 1 <==> |b| == 1
    ensures if |a| == 1 then x == y else ItemsThen(a[1..], x) == ItemsThen(b[1..], y)
  {
    hide ItemsThen;
    assert Rest(a, x)[0] == Rest(b, y)[0];
    if |a| == 1 {
      Cancel("]", x, y);
    } else {
      Cancel(",", ItemsThen(a[1..], x), ItemsThen(b[1..], y));
    }
  }

  lemma NothingItems(x: string, y: string)
    requires ItemsThen([], x) == ItemsThen([], y)
    ensures x == y
  {
    assert ItemsThen([], x) == "]" + x && ItemsThen([], y) == "]" + y;
    Cancel("]", x, y);
  }

  lemma NoItems(a: seq<Json>, x: string, y: string)
    requires a != []
    ensures ItemsThen(a, x) != ItemsThen([], y)
  {
    ItemsUnfold(a, x);
    Starts(a[0]);
    assert (Plain(a[0]) + Rest(a, x))[0] == Plain(a[0])[0];
    assert ItemsThen([], y)[0] == ']';
  }

  /** What follows the first name of an object. */
  function AfterName(members: seq<Member>, x: string): string
    requires members != []
  {
    ":" + (Plain(members[0].value) + AfterValue(members, x))
  }

  function AfterValue(members: seq<Member>, x: string): string
    requires members != []
  {
    if |members| == 1 then "}" + x else "," + MembersThen(members[1..], x)
  }

  lemma MembersUnfold(members: seq<Member>, x: string)
    requires members != []
    ensures MembersThen(members, x) == Quote(members[0].name) + AfterName(members, x)
    ensures Stops(AfterValue(members, x))
  {
    var name, value, close := Quote(members[0].name), Plain(members[0].value), "}" + x;
    if |members| == 1 {
      assert PlainMembers(members) == name + ":" + value + "";
      hide PlainMembers, Plain, Quote;
      assert name + ":" + value + "" == name + ":" + value;
      Wrap(name, ":", value, close);
    } else {
      var rest := PlainMembers(members[1..]);
      assert PlainMembers(members) == name + ":" + value + ("," + rest);
      hide PlainMembers, Plain, Quote;
      Assoc(name + ":" + value, "," + rest, close);
      Assoc(",", rest, close);
      Wrap(name, ":", value, "," + (rest + close));
    }
  }

  lemma {:induction false} MembersRead(a: seq<Member>, b: seq<Member>, x: string, y: string)
    requires MembersThen(a, x) == MembersThen(b, y)
    ensures a == b && x == y
    decreases a
  {
    hide ItemsThen, MembersThen, Rest, AfterName, AfterValue, Plain, Quote;
    if a == [] || b == [] {
      if a != [] { NoMembers(a, x, y); }
      if b != [] { NoMembers(b, y, x); }
      NothingMembers(x, y);
    } else {
      MembersUnfold(a, x);
      MembersUnfold(b, y);
      QuoteReads(a[0].name, b[0].name, AfterName(a, x), AfterName(b, y));
      AfterNameReads(a, b, x, y);
      PlainReads(a[0].value, b[0].value, AfterValue(a, x), AfterValue(b, y));
      AfterValueReads(a, b, x, y);
      hide *;
      if |a| > 1 { MembersRead(a[1..], b[1..], x, y); }
      Cons(a, b);
    }
  }

  lemma AfterNameReads(a: seq<Member>, b: seq<Member>, x: string, y: string)
    requires a != [] && b != [] && AfterName(a, x) == AfterName(b, y)
    ensures Plain(a[0].value) + AfterValue(a, x) == Plain(b[0].value) + AfterValue(b, y)
  {
    hide Plain, AfterValue;
    Cancel(":", Plain(a[0].value) + AfterValue(a, x), Plain(b[0].value) + AfterValue(b, y));
  }

  lemma AfterValueReads(a: seq<Member>, b: seq<Member>, x: string, y: string)
    requires a != [] && b != [] && AfterValue(a, x) == AfterValue(b, y)
    ensures |a| == 1 <==> |b| == 1
    ensures if |a| == 1 then x == y else MembersThen(a[1..], x) == MembersThen(b[1..], y)
  {
    hide MembersThen;
    assert AfterValue(a, x)[0] == AfterValue(b, y)[0];
    if |a| == 1 {
      Cancel("}", x, y);
    } else {
      Cancel(",", MembersThen(a[1..], x), MembersThen(b[1..], y));
    }
  }

  lemma NothingMembers(x: string, y: string)
    requires MembersThen([], x) == MembersThen([], y)
    ensures x == y
  {
    assert MembersThen([], x) == "}" + x && MembersThen([], y) == "}" + y;
    Cancel("}", x, y);
  }

  lemma NoMembers(a: seq<Member>, x: string, y: string)
    requires a != []
    ensures MembersThen(a, x) != MembersThen([], y)
  {
    MembersUnfold(a, x);
    assert (Quote(a[0].name) + AfterName(a, x))[0] == '"';
    assert MembersThen([], y)[0] == '}';
  }

  /** Printing without reordering is injective. */
  lemma PlainIsInjective(a: Json, b: Json)
    requires Plain(a) == Plain(b)
    ensures a == b
  {
    assert Plain(a) + "" == Plain(a) && Plain(b) + "" == Plain(b);
    PlainReads(a, b, "", "");
  }
}
