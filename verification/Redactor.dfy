/** Stored values and the recursive redactor that every event payload passes through. */
module Redactor {
  import opened Options

  datatype Value =
    | Null
    | Bool(flag: bool)
    | Num(number: real)
    | Str(text: string)
    | Date(instant: int)
    | Arr(items: seq<Value>)
    | Obj(fields: seq<(string, Value)>)

  const MAX_DEPTH := 8
  const MAX_ITEMS := 100
  const MAX_TEXT := 10_000
  const TRUNCATED := "[TRUNCATED]"
  const TOO_DEEP := Str("[MAX_DEPTH]")
  const REDACTED := Str("[REDACTED]")

  /** Letters under the case-insensitive Unicode flag; U+017F and U+212A fold to `s` and `k`. */
  function FoldCase(c: char): char {
    if 'A' <= c <= 'Z' then (c as int + 32) as char
    else if c == '\U{17F}' then 's'
    else if c == '\U{212A}' then 'k'
    else c
  }

  function Fold(s: string): string {
    seq(|s|, i requires 0 <= i < |s| => FoldCase(s[i]))
  }

  predicate HasPrefix(s: string, prefix: string) {
    |prefix| <= |s| && s[..|prefix|] == prefix
  }

  predicate Contains(s: string, word: string) {
    HasPrefix(s, word) || (s != "" && Contains(s[1..], word))
  }

  const SENSITIVE_WORDS := [
    "password", "secret", "token", "authorization", "cookie", "messagebody", "messagecontent",
    "privatemessage", "privatecontent", "credential"]

  predicate Sensitive(key: string) {
    exists i :: 0 <= i < |SENSITIVE_WORDS| && Contains(Fold(key), SENSITIVE_WORDS[i])
  }

  function RedactText(text: string): string {
    if |text| > MAX_TEXT then text[..MAX_TEXT] + TRUNCATED else text
  }

  function Redact(value: Value, depth: nat): Value
    decreases value
  {
    if depth > MAX_DEPTH then TOO_DEEP
    else match value
      case Arr(items) =>
        var kept := if |items| > MAX_ITEMS then MAX_ITEMS else |items|;
        Arr(seq(kept, i requires 0 <= i < kept => Redact(items[i], depth + 1)))
      case Obj(fields) =>
        Obj(seq(|fields|, i requires 0 <= i < |fields| =>
          (fields[i].0, if Sensitive(fields[i].0) then REDACTED else Redact(fields[i].1, depth + 1))))
      case Str(text) => Str(RedactText(text))
      case _ => value
  }

  // ---- which keys are sensitive ----------------------------------------------------------------------------------

  /** The character is the small letter, its capital, or one of the two others that fold to it. */
  predicate Variant(c: char, letter: char) {
    || c == letter
    || ('A' <= c <= 'Z' && letter == "abcdefghijklmnopqrstuvwxyz"[c as int - 'A' as int])
    || (letter == 's' && c == '\U{17F}') || (letter == 'k' && c == '\U{212A}')
  }

  predicate Spells(s: string, word: string) {
    |word| <= |s| && forall i :: 0 <= i < |word| ==> Variant(s[i], word[i])
  }

  predicate SmallLetters(word: string) { forall i :: 0 <= i < |word| ==> 'a' <= word[i] <= 'z' }

  lemma FoldsToVariant(c: char, letter: char)
    requires 'a' <= letter <= 'z'
    ensures FoldCase(c) == letter <==> Variant(c, letter)
  {}

  lemma {:induction false} ContainsIff(key: string, word: string)
    requires SmallLetters(word)
    ensures Contains(Fold(key), word) <==> exists i :: 0 <= i <= |key| && Spells(key[i..], word)
  {
    assert HasPrefix(Fold(key), word) <==> Spells(key, word) by {
      if |word| <= |key| {
        forall i | 0 <= i < |word| ensures Fold(key)[i] == word[i] <==> Variant(key[i], word[i]) {
          FoldsToVariant(key[i], word[i]);
        }
        hide FoldCase, Variant;
        assert Spells(key, word) <==> forall i :: 0 <= i < |word| ==> Fold(key)[i] == word[i];
        assert HasPrefix(Fold(key), word) <==> forall i :: 0 <= i < |word| ==> Fold(key)[..|word|][i] == word[i];
      }
    }
    hide HasPrefix, Spells, FoldCase;
    assert key[0..] == key;
    if key != "" {
      ContainsIff(key[1..], word);
      assert Fold(key)[1..] == Fold(key[1..]);
      if i :| 0 <= i <= |key| && Spells(key[i..], word) {
        assert i > 0 ==> key[1..][i - 1..] == key[i..];
      }
      if i :| 0 <= i <= |key[1..]| && Spells(key[1..][i..], word) {
        assert key[1..][i..] == key[i + 1..];
      }
    }
  }

  /** A key is sensitive exactly when it holds one of the words in any mixture of cases. */
  lemma SensitiveIff(key: string)
    ensures Sensitive(key) <==>
      exists k, i :: 0 <= k < |SENSITIVE_WORDS| && 0 <= i <= |key| && Spells(key[i..], SENSITIVE_WORDS[k])
  {
    forall k | 0 <= k < |SENSITIVE_WORDS|
      ensures Contains(Fold(key), SENSITIVE_WORDS[k]) <==>
              exists i :: 0 <= i <= |key| && Spells(key[i..], SENSITIVE_WORDS[k])
    {
      ContainsIff(key, SENSITIVE_WORDS[k]);
    }
    hide Spells, Contains;
  }

  // ---- what redaction guarantees ----------------------------------------------------------------------------

  /** Bounded in depth, width and text length, with every sensitive key blanked out. */
  predicate Clean(value: Value, depth: nat)
    decreases value
  {
    if depth > MAX_DEPTH then value == TOO_DEEP
    else match value
      case Arr(items) => |items| <= MAX_ITEMS && forall i :: 0 <= i < |items| ==> Clean(items[i], depth + 1)
      case Obj(fields) =>
        forall i :: 0 <= i < |fields| ==>
          if Sensitive(fields[i].0) then fields[i].1 == REDACTED else Clean(fields[i].1, depth + 1)
      case Str(text) => |text| <= MAX_TEXT || (|text| == MAX_TEXT + |TRUNCATED| && text[MAX_TEXT..] == TRUNCATED)
      case _ => true
  }

  lemma {:induction false} RedactedIsClean(value: Value, depth: nat)
    ensures Clean(Redact(value, depth), depth)
    decreases value
  {
    if depth <= MAX_DEPTH {
      match value {
        case Arr(items) =>
          forall i | 0 <= i < |items| ensures Clean(Redact(items[i], depth + 1), depth + 1) {
            RedactedIsClean(items[i], depth + 1);
          }
        case Obj(fields) =>
          forall i | 0 <= i < |fields| ensures Clean(Redact(fields[i].1, depth + 1), depth + 1) {
            RedactedIsClean(fields[i].1, depth + 1);
          }
        case _ =>
      }
    }
  }

  /** Redaction leaves a value alone exactly when the value is clean. */
  lemma {:induction false} UnchangedIffClean(value: Value, depth: nat)
    ensures Redact(value, depth) == value <==> Clean(value, depth)
    decreases value
  {
    if depth <= MAX_DEPTH {
      match value {
        case Arr(items) =>
          forall i | 0 <= i < |items|
            ensures Redact(items[i], depth + 1) == items[i] <==> Clean(items[i], depth + 1)
          {
            UnchangedIffClean(items[i], depth + 1);
          }
          if Redact(value, depth) == value {
            forall i | 0 <= i < |items| ensures Clean(items[i], depth + 1) {
              assert Redact(value, depth).items[i] == Redact(items[i], depth + 1);
            }
          }
          if Clean(value, depth) {
            assert Redact(value, depth).items == items;
          }
        case Obj(fields) =>
          forall i | 0 <= i < |fields|
            ensures Redact(fields[i].1, depth + 1) == fields[i].1 <==> Clean(fields[i].1, depth + 1)
          {
            UnchangedIffClean(fields[i].1, depth + 1);
          }
          if Redact(value, depth) == value {
            forall i | 0 <= i < |fields|
              ensures if Sensitive(fields[i].0) then fields[i].1 == REDACTED else Clean(fields[i].1, depth + 1)
            {
              assert Redact(value, depth).fields[i].1 == fields[i].1;
            }
          }
          if Clean(value, depth) {
            assert Redact(value, depth).fields == fields;
          }
        case _ =>
      }
    }
  }

  /** What stands at a path of positions. */
  function At(value: Value, path: seq<nat>): Option<Value>
    decreases |path|
  {
    if |path| == 0 then Some(value)
    else
      match value
      case Arr(items) => if path[0] < |items| then At(items[path[0]], path[1..]) else None
      case Obj(fields) => if path[0] < |fields| then At(fields[path[0]].1, path[1..]) else None
      case _ => None
  }

  /** The path leads through the first hundred items of arrays and keys that are not sensitive. */
  predicate Open(value: Value, path: seq<nat>)
    decreases |path|
  {
    |path| == 0 ||
    match value
    case Arr(items) => path[0] < |items| && path[0] < 100 && Open(items[path[0]], path[1..])
    case Obj(fields) => path[0] < |fields| && !Sensitive(fields[path[0]].0) && Open(fields[path[0]].1, path[1..])
    case _ => false
  }

  /** A text is cut after ten thousand characters, an array after a hundred items, an object keeps its keys in order, and
      any other value is kept. */
  predicate Keeps(was: Value, kept: Value) {
    match was
    case Str(text) => kept == Str(if |text| <= 10_000 then text else text[..10_000] + "[TRUNCATED]")
    case Arr(items) => kept.Arr? && |kept.items| == if |items| <= 100 then |items| else 100
    case Obj(fields) =>
      && kept.Obj? && |kept.fields| == |fields|
      && forall i :: 0 <= i < |fields| ==> kept.fields[i].0 == fields[i].0
    case _ => kept == was
  }

  /** Redaction keeps what stands within eight levels at the end of an open path. */
  lemma {:induction false} RedactionKeeps(value: Value, depth: nat, path: seq<nat>)
    requires depth + |path| <= 8 && Open(value, path)
    ensures At(value, path).Some? && At(Redact(value, depth), path).Some?
    ensures Keeps(At(value, path).value, At(Redact(value, depth), path).value)
    decreases |path|
  {
    hide Sensitive;
    if |path| > 0 {
      match value
      case Arr(items) => RedactionKeeps(items[path[0]], depth + 1, path[1..]);
      case Obj(fields) => RedactionKeeps(fields[path[0]].1, depth + 1, path[1..]);
    }
  }

  /** And of what stands behind a sensitive key, or deeper, nothing is left. */
  lemma {:induction false} RedactionBlanks(value: Value, depth: nat, path: seq<nat>, next: nat)
    requires depth + |path| <= 8 && Open(value, path) && At(value, path).Some?
    requires match At(value, path).value
             case Arr(items) => next < |items|
             case Obj(fields) => next < |fields|
             case _ => false
    ensures var parent, kept := At(value, path).value, At(Redact(value, depth), path + [next]);
            && (parent.Obj? && Sensitive(parent.fields[next].0) ==> kept == Some(Str("[REDACTED]")))
            && (depth + |path| == 8 && !(parent.Obj? && Sensitive(parent.fields[next].0))
                && (parent.Arr? ==> next < 100) ==>
                  kept == Some(Str("[MAX_DEPTH]")))
            && (parent.Arr? && next >= 100 ==> kept == None)
    decreases |path|
  {
    hide Sensitive;
    if |path| == 0 {
      assert (path + [next])[1..] == [];
    } else {
      assert (path + [next])[1..] == path[1..] + [next];
      match value
      case Arr(items) => RedactionBlanks(items[path[0]], depth + 1, path[1..], next);
      case Obj(fields) => RedactionBlanks(fields[path[0]].1, depth + 1, path[1..], next);
    }
  }

  /** Redacting a stored payload again changes nothing. */
  lemma {:induction false} RedactionIsIdempotent(value: Value, depth: nat)
    ensures Redact(Redact(value, depth), depth) == Redact(value, depth)
  {
    RedactedIsClean(value, depth);
    UnchangedIffClean(Redact(value, depth), depth);
  }
}
