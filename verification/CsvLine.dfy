/** The contact import's CSV line parser, and the printing of section 2 of RFC 4180 that it undoes. */
module CsvLine {

  /** The fields of what is left of a line, given the field begun and whether it is inside quotes. */
  function Parse(line: string, value: string, quoted: bool): (r: seq<string>)
    ensures r != []
  {
    if line == "" then [value]
    else if line[0] == '"' && |line| > 1 && line[1] == '"' && quoted then Parse(line[2..], value + "\"", quoted)
    else if line[0] == '"' then Parse(line[1..], value, !quoted)
    else if line[0] == ',' && !quoted then [value] + Parse(line[1..], "", quoted)
    else Parse(line[1..], value + [line[0]], quoted)
  }

  method Csv(line: string) returns (result: seq<string>)
    ensures result == Parse(line, "", false)
  {
    result := [];
    var value, quoted, index := "", false, 0;
    while index < |line|
      invariant 0 <= index <= |line|
      invariant result + Parse(line[index..], value, quoted) == Parse(line, "", false)
    {
      var c := line[index];
      ghost var rest := line[index..];
      assert rest[1..] == line[index + 1..];
      if c == '"' && index + 1 < |line| && line[index + 1] == '"' && quoted {
        assert rest[2..] == line[index + 2..];
        value := value + "\"";
        index := index + 1;
      } else if c == '"' {
        quoted := !quoted;
      } else if c == ',' && !quoted {
        ghost var later := Parse(line[index + 1..], "", quoted);
        assert (result + [value]) + later == result + ([value] + later);
        result := result + [value];
        value := "";
      } else {
        value := value + [c];
      }
      index := index + 1;
    }
    assert line[index..] == "";
    result := result + [value];
  }

  // ---- printing ----------------------------------------------------------------------------------------------

  /** Quotes inside a quoted field are doubled. */
  function Doubled(field: string): string {
    if field == "" then "" else (if field[0] == '"' then "\"\"" else [field[0]]) + Doubled(field[1..])
  }

  function PrintField(field: string, quote: bool): string {
    if quote then "\"" + Doubled(field) + "\"" else field
  }

  /** One line; `quotes` says which fields are put in quotes. */
  function Print(fields: seq<string>, quotes: seq<bool>): string
    requires |fields| == |quotes|
    decreases |fields|, 1
  {
    if |fields| == 0 then ""
    else PrintField(fields[0], quotes[0]) + Tail(fields, quotes)
  }

  function Tail(fields: seq<string>, quotes: seq<bool>): string
    requires |fields| == |quotes| && fields != []
    decreases |fields|, 0
  {
    if |fields| == 1 then "" else "," + Print(fields[1..], quotes[1..])
  }

  /** A field that may go without quotes. */
  predicate Bare(field: string) { '"' !in field && ',' !in field }

  predicate AtFieldEnd(tail: string) { tail == "" || tail[0] == ',' }

  // ---- fields printed as they should be --------------------------------------------------------------------------

  lemma {:induction false} ReadsBare(field: string, tail: string, value: string)
    requires Bare(field)
    ensures Parse(field + tail, value, false) == Parse(tail, value + field, false)
  {
    if field == "" {
      assert field + tail == tail && value + field == value;
    } else {
      assert (field + tail)[1..] == field[1..] + tail;
      assert field[0] in field;
      ReadsBare(field[1..], tail, value + [field[0]]);
      assert value + [field[0]] + field[1..] == value + field;
    }
  }

  lemma {:induction false} ReadsDoubled(field: string, tail: string, value: string)
    requires AtFieldEnd(tail)
    ensures Parse(Doubled(field) + ("\"" + tail), value, true) == Parse(tail, value + field, false)
  {
    var line := Doubled(field) + ("\"" + tail);
    if field == "" {
      assert line == "\"" + tail && line[1..] == tail && value + field == value;
    } else {
      var rest := Doubled(field[1..]) + ("\"" + tail);
      ReadsDoubled(field[1..], tail, value + [field[0]]);
      assert value + [field[0]] + field[1..] == value + field;
      if field[0] == '"' {
        assert line == "\"\"" + rest && line[2..] == rest;
      } else {
        assert line == [field[0]] + rest && line[1..] == rest;
      }
    }
  }

  /** A field printed as it should be is read whole. */
  lemma ReadsField(field: string, quote: bool, tail: string)
    requires AtFieldEnd(tail) && (quote || Bare(field))
    ensures Parse(PrintField(field, quote) + tail, "", false) == Parse(tail, field, false)
  {
    assert "" + field == field;
    if quote {
      var line := PrintField(field, quote) + tail;
      assert line == "\"" + (Doubled(field) + ("\"" + tail));
      assert line[1..] == Doubled(field) + ("\"" + tail);
      ReadsDoubled(field, tail, "");
    } else {
      ReadsBare(field, tail, "");
    }
  }

  // ---- fields left bare that should not be ------------------------------------------------------------------------

  function Quotes(n: nat): string { seq(n, _ => '"') }

  /** The first field starts with what has been read of it. */
  lemma {:induction false} KeepsValue(line: string, value: string, quoted: bool)
    ensures value <= Parse(line, value, quoted)[0]
  {
    if line == "" {
    } else if line[0] == '"' && |line| > 1 && line[1] == '"' && quoted {
      KeepsValue(line[2..], value + "\"", quoted);
    } else if line[0] == '"' {
      KeepsValue(line[1..], value, !quoted);
    } else if line[0] == ',' && !quoted {
    } else {
      KeepsValue(line[1..], value + [line[0]], quoted);
    }
  }

  /** A run of quotes too short for the quotes still expected reads as something else. */
  lemma {:induction false} RunFallsShort(left: nat, rest: string, value: string, quoted: bool, due: nat, expected: string)
    requires due > left && (rest == "" || rest[0] != '"')
    ensures Parse(Quotes(left) + rest, value, quoted)[0] != value + (Quotes(due) + expected)
    decreases left
  {
    var line := Quotes(left) + rest;
    var target := value + (Quotes(due) + expected);
    assert |target| > |value| && target[|value|] == '"';
    if left == 0 {
      assert line == rest;
      if rest != "" && !(rest[0] == ',' && !quoted) {
        KeepsValue(rest[1..], value + [rest[0]], quoted);
      }
    } else if left > 1 && quoted {
      assert line[2..] == Quotes(left - 2) + rest;
      RunFallsShort(left - 2, rest, value + "\"", quoted, due - 1, expected);
      assert Quotes(due) == "\"" + Quotes(due - 1);
      assert value + "\"" + (Quotes(due - 1) + expected) == target;
    } else {
      assert line[1..] == Quotes(left - 1) + rest;
      RunFallsShort(left - 1, rest, value, !quoted, due, expected);
    }
  }

  /** The quotes a text begins with, and what follows them. */
  lemma {:induction false} LeadingRun(s: string) returns (n: nat, rest: string)
    ensures s == Quotes(n) + rest && (rest == "" || rest[0] != '"')
    ensures s != "" && s[0] == '"' ==> n > 0
  {
    if s == "" || s[0] != '"' {
      n, rest := 0, s;
    } else {
      n, rest := LeadingRun(s[1..]);
      n := n + 1;
      assert Quotes(n) == "\"" + Quotes(n - 1);
    }
  }

  /** A field with a quote or a comma, left bare, is read as something else. */
  lemma {:induction false} MisreadsBare(field: string, tail: string, value: string)
    requires AtFieldEnd(tail) && !Bare(field)
    ensures Parse(field + tail, value, false)[0] != value + field
    decreases |field|
  {
    var line := field + tail;
    assert line[1..] == field[1..] + tail;
    if field[0] == '"' {
      var n, rest := LeadingRun(field);
      assert line[1..] == Quotes(n - 1) + (rest + tail);
      RunFallsShort(n - 1, rest + tail, value, true, n, rest);
    } else if field[0] == ',' {
      assert |value + field| > |value|;
    } else {
      MisreadsBare(field[1..], tail, value + [field[0]]);
      assert value + [field[0]] + field[1..] == value + field;
    }
  }

  // ---- lines ------------------------------------------------------------------------------------------------------

  lemma {:induction false} ReadsLine(fields: seq<string>, quotes: seq<bool>)
    requires |fields| == |quotes| && fields != []
    ensures Parse(Print(fields, quotes), "", false) == fields <==>
            forall i :: 0 <= i < |fields| ==> quotes[i] || Bare(fields[i])
    decreases |fields|
  {
    var tail := Tail(fields, quotes);
    if quotes[0] || Bare(fields[0]) {
      ReadsField(fields[0], quotes[0], tail);
      if |fields| == 1 {
        assert fields == [fields[0]];
      } else {
        ReadsLine(fields[1..], quotes[1..]);
        assert tail[1..] == Print(fields[1..], quotes[1..]);
        assert fields == [fields[0]] + fields[1..];
        hide Print, Tail, Bare;
        assert forall i :: 0 < i < |fields| ==> fields[i] == fields[1..][i - 1] && quotes[i] == quotes[1..][i - 1];
      }
    } else {
      MisreadsBare(fields[0], tail, "");
      assert "" + fields[0] == fields[0];
    }
  }

  /** Parsing a printed line gives back its fields exactly when there are some and each of those left without
      quotes holds neither a quote nor a comma. Line breaks inside fields do no harm. */
  lemma ParseUndoesPrintIff(fields: seq<string>, quotes: seq<bool>)
    requires |fields| == |quotes|
    ensures Parse(Print(fields, quotes), "", false) == fields <==>
            fields != [] && forall i :: 0 <= i < |fields| ==> quotes[i] || Bare(fields[i])
  {
    if fields != [] { ReadsLine(fields, quotes); }
  }
}
