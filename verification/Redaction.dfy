/** Log lines as JSON, with sensitive keys redacted and Errors expanded while serializing. */
module Redaction {
  import opened Basics

  /** A logged value. `Undefined` stands for anything JSON leaves out. */
  datatype Value =
    | Undefined
    | Null
    | Bool(b: bool)
    | Num(n: int)
    | Str(s: string)
    | Arr(items: seq<Value>)
    | Obj(fields: seq<Field>)
    | Err(name: string, message: string, stack: string)

  datatype Field = Field(key: string, value: Value)

  datatype LogEntry = LogEntry(level: string, message: string, timestamp: string,
                               context: Option<Value>, metadata: Option<Value>)

  const SENSITIVE_KEY_SUBSTRINGS :=
    ["password", "secret", "token", "authorization", "apikey", "privatekey", "creditcard", "cvv"]

  const REDACTED := Str("[REDACTED]")

  predicate OccursAt(s: string, i: int, pattern: string) {
    0 <= i <= |s| - |pattern| && s[i..i + |pattern|] == pattern
  }

  predicate Includes(s: string, pattern: string) {
    exists i :: 0 <= i <= |s| && OccursAt(s, i, pattern)
  }

  predicate IsSensitiveKey(key: string) {
    exists p :: p in SENSITIVE_KEY_SUBSTRINGS && Includes(Lower(key), p)
  }

  predicate SpelledAt(key: string, i: int, word: string) {
    0 <= i <= |key| - |word| && SameIgnoringCase(key[i..i + |word|], word)
  }

  /** The key has this word in it, in any case. */
  predicate Contains(key: string, word: string) {
    exists i :: 0 <= i <= |key| && SpelledAt(key, i, word)
  }

  lemma IncludesIffContains(key: string, word: string)
    requires Lower(word) == word
    ensures Includes(Lower(key), word) <==> Contains(key, word)
  {
    forall i | 0 <= i <= |key| - |word| ensures OccursAt(Lower(key), i, word) <==> SpelledAt(key, i, word) {
      assert Lower(key)[i..i + |word|] == Lower(key[i..i + |word|]);
      LowerDecidesSameIgnoringCase(key[i..i + |word|], word);
    }
    if i :| 0 <= i <= |key| && OccursAt(Lower(key), i, word) {
      assert SpelledAt(key, i, word);
    }
    if i :| 0 <= i <= |key| && SpelledAt(key, i, word) {
      assert OccursAt(Lower(key), i, word);
    }
  }

  lemma WordsAreLower()
    ensures forall p :: p in SENSITIVE_KEY_SUBSTRINGS ==> Lower(p) == p
  {
    forall k | 0 <= k < |SENSITIVE_KEY_SUBSTRINGS| ensures Lower(SENSITIVE_KEY_SUBSTRINGS[k]) == SENSITIVE_KEY_SUBSTRINGS[k] {
      var p := SENSITIVE_KEY_SUBSTRINGS[k];
      assert forall i :: 0 <= i < |p| ==> LowerChar(p[i]) == p[i];
    }
  }

  /** A key is sensitive exactly when it has one of the eight words in it, whatever stands around it and in any case. */
  lemma SensitiveKeyIff(key: string)
    ensures IsSensitiveKey(key)
       <==> exists word :: Contains(key, word) &&
              word in ["password", "secret", "token", "authorization", "apikey", "privatekey", "creditcard", "cvv"]
  {
    WordsAreLower();
    forall word | word in SENSITIVE_KEY_SUBSTRINGS ensures Includes(Lower(key), word) <==> Contains(key, word) {
      IncludesIffContains(key, word);
    }
  }

  /** So is, for one, every key that has `password` in it. */
  lemma PasswordKeysAreSensitive(front: string, word: string, back: string)
    requires SameIgnoringCase(word, "password")
    ensures IsSensitiveKey(front + word + back)
  {
    var key := front + word + back;
    assert key[|front|..|front| + 8] == word;
    assert SpelledAt(key, |front|, "password");
    assert Contains(key, "password");
    SensitiveKeyIff(key);
  }

  /** The object an Error is turned into: its own properties are not enumerable. */
  function Expand(v: Value): (r: Value)
    ensures !r.Err?
  {
    if v.Err? then Obj([Field("name", Str(v.name)), Field("message", Str(v.message)), Field("stack", Str(v.stack))]) else v
  }

  /** The replacer: the key decides first, so an Error under a sensitive key is not expanded. */
  function Replace(key: string, v: Value): (r: Value)
    ensures !r.Err?
  {
    if IsSensitiveKey(key) then REDACTED else Expand(v)
  }

  // ---- JSON text ----

  function HexDigit(n: int): char
    requires 0 <= n < 16
  {
    "0123456789abcdef"[n]
  }

  function QuoteChar(c: char): string {
    if c == '"' then "\\\"" else if c == '\\' then "\\\\"
    else if c == '\n' then "\\n" else if c == '\r' then "\\r" else if c == '\t' then "\\t"
    else if c as int == 8 then "\\b" else if c as int == 12 then "\\f"
    else if (c as int) < 32 then "\\u00" + [HexDigit(c as int / 16), HexDigit(c as int % 16)]
    else [c]
  }

  function QuoteChars(s: string): string {
    if s == "" then "" else QuoteChar(s[0]) + QuoteChars(s[1..])
  }

  function Quote(s: string): string { "\"" + QuoteChars(s) + "\"" }

  function Commas(parts: seq<string>): string {
    if parts == [] then "" else if |parts| == 1 then parts[0] else parts[0] + "," + Commas(parts[1..])
  }

  /** Elements JSON leaves out become `null` in an array. */
  function ArrayText(parts: seq<Option<string>>): string {
    "[" + Commas(seq(|parts|, i requires 0 <= i < |parts| => if parts[i].Some? then parts[i].value else "null")) + "]"
  }

  /** Members JSON leaves out disappear from an object. */
  function Members(keys: seq<string>, parts: seq<Option<string>>): seq<string>
    requires |keys| == |parts|
  {
    if keys == [] then []
    else (if parts[0].Some? then [Quote(keys[0]) + ":" + parts[0].value] else []) + Members(keys[1..], parts[1..])
  }

  function ObjectText(keys: seq<string>, parts: seq<Option<string>>): string
    requires |keys| == |parts|
  {
    "{" + Commas(Members(keys, parts)) + "}"
  }

  function Keys(fields: seq<Field>): seq<string> {
    seq(|fields|, i requires 0 <= i < |fields| => fields[i].key)
  }

  function ScalarText(v: Value): Option<string> {
    match v
    case Null => Some("null")
    case Bool(b) => Some(if b then "true" else "false")
    case Num(n) => Some(if n < 0 then "-" + Digits(-n) else Digits(n))
    case Str(s) => Some(Quote(s))
    case _ => None
  }

  function Size(v: Value): nat {
    match v
    case Err(_, _, _) => 10
    case Arr(items) => 1 + SizeOfItems(items)
    case Obj(fields) => 1 + SizeOfFields(fields)
    case _ => 1
  }

  function SizeOfItems(items: seq<Value>): (n: nat)
    ensures forall i :: 0 <= i < |items| ==> Size(items[i]) <= n
  {
    if items == [] then 0 else Size(items[0]) + SizeOfItems(items[1..])
  }

  function SizeOfFields(fields: seq<Field>): (n: nat)
    ensures forall i :: 0 <= i < |fields| ==> Size(fields[i].value) <= n
  {
    if fields == [] then 0 else Size(fields[0].value) + SizeOfFields(fields[1..])
  }

  /** `JSON.stringify(v, replacer)`: the replacer runs on every value on the way down. */
  function Stringify(key: string, v: Value): Option<string>
    decreases Size(v)
  {
    match Replace(key, v)
    case Arr(items) =>
      Some(ArrayText(seq(|items|, i requires 0 <= i < |items| => Stringify(Digits(i), items[i]))))
    case Obj(fields) =>
      Some(ObjectText(Keys(fields), seq(|fields|, i requires 0 <= i < |fields| => Stringify(fields[i].key, fields[i].value))))
    case scalar => ScalarText(scalar)
  }

  function EntryValue(e: LogEntry): Value {
    Obj([Field("level", Str(e.level)), Field("message", Str(e.message)), Field("timestamp", Str(e.timestamp))]
        + (if e.context.Some? then [Field("context", e.context.value)] else [])
        + (if e.metadata.Some? then [Field("metadata", e.metadata.value)] else []))
  }

  function Format(e: LogEntry): Option<string> {
    Stringify("", EntryValue(e))
  }

  // ---- the same in two phases: redact the whole tree, then print it ----

  function Redact(key: string, v: Value): Value
    decreases Size(v)
  {
    match Replace(key, v)
    case Arr(items) => Arr(seq(|items|, i requires 0 <= i < |items| => Redact(Digits(i), items[i])))
    case Obj(fields) =>
      Obj(seq(|fields|, i requires 0 <= i < |fields| => Field(fields[i].key, Redact(fields[i].key, fields[i].value))))
    case scalar => scalar
  }

  /** `JSON.stringify(v)` of a tree that holds no Error. */
  function Print(v: Value): Option<string> {
    match v
    case Arr(items) => Some(ArrayText(seq(|items|, i requires 0 <= i < |items| => Print(items[i]))))
    case Obj(fields) =>
      Some(ObjectText(Keys(fields), seq(|fields|, i requires 0 <= i < |fields| => Print(fields[i].value))))
    case scalar => ScalarText(scalar)
  }

  /** Replacing while serializing prints the redacted tree. */
  lemma {:induction false} StringifyPrintsRedacted(key: string, v: Value)
    ensures Stringify(key, v) == Print(Redact(key, v))
    decreases Size(v)
  {
    match Replace(key, v)
    case Arr(items) =>
      forall i | 0 <= i < |items| { StringifyPrintsRedacted(Digits(i), items[i]); }
      var kept := seq(|items|, i requires 0 <= i < |items| => Redact(Digits(i), items[i]));
      assert seq(|items|, i requires 0 <= i < |items| => Stringify(Digits(i), items[i]))
          == seq(|kept|, i requires 0 <= i < |kept| => Print(kept[i]));
    case Obj(fields) =>
      forall i | 0 <= i < |fields| { StringifyPrintsRedacted(fields[i].key, fields[i].value); }
      var kept := seq(|fields|, i requires 0 <= i < |fields| => Field(fields[i].key, Redact(fields[i].key, fields[i].value)));
      assert Keys(kept) == Keys(fields);
      assert seq(|fields|, i requires 0 <= i < |fields| => Stringify(fields[i].key, fields[i].value))
          == seq(|kept|, i requires 0 <= i < |kept| => Print(kept[i].value));
    case _ =>
  }

  // ---- non-interference ----

  /** Equal apart from what lies under sensitive keys, reading every Error as the object it becomes. */
  ghost predicate SameExceptSensitive(key: string, a: Value, b: Value)
    decreases Size(a)
  {
    IsSensitiveKey(key) ||
    match (Expand(a), Expand(b))
    case (Arr(xs), Arr(ys)) =>
      |xs| == |ys| && forall i :: 0 <= i < |xs| ==> SameExceptSensitive(Digits(i), xs[i], ys[i])
    case (Obj(fs), Obj(gs)) =>
      |fs| == |gs| && forall i :: 0 <= i < |fs| ==>
        fs[i].key == gs[i].key && SameExceptSensitive(fs[i].key, fs[i].value, gs[i].value)
    case (x, y) => x == y
  }

  /**
   Redaction identifies two values exactly when they agree outside sensitive keys, at any depth:
   it hides everything under such a key and nothing else.
   */
  lemma {:induction false} RedactEqualIff(key: string, a: Value, b: Value)
    ensures Redact(key, a) == Redact(key, b) <==> SameExceptSensitive(key, a, b)
    decreases Size(a)
  {
    if !IsSensitiveKey(key) {
      match (Expand(a), Expand(b))
      case (Arr(xs), Arr(ys)) => ItemsEqualIff(key, a, b, xs, ys);
      case (Obj(fs), Obj(gs)) => FieldsEqualIff(key, a, b, fs, gs);
      case _ =>
    }
  }

  lemma {:induction false} ItemsEqualIff(key: string, a: Value, b: Value, xs: seq<Value>, ys: seq<Value>)
    requires !IsSensitiveKey(key) && Expand(a) == Arr(xs) && Expand(b) == Arr(ys)
    ensures Redact(key, a) == Redact(key, b) <==> SameExceptSensitive(key, a, b)
    decreases Size(a), 0
  {
    var rx, ry := Redact(key, a).items, Redact(key, b).items;
    if |xs| == |ys| {
      forall i | 0 <= i < |xs| ensures rx[i] == ry[i] <==> SameExceptSensitive(Digits(i), xs[i], ys[i]) {
        RedactEqualIff(Digits(i), xs[i], ys[i]);
      }
      assert rx == ry <==> forall i :: 0 <= i < |xs| ==> rx[i] == ry[i];
    }
  }

  lemma {:induction false} FieldsEqualIff(key: string, a: Value, b: Value, fs: seq<Field>, gs: seq<Field>)
    requires !IsSensitiveKey(key) && Expand(a) == Obj(fs) && Expand(b) == Obj(gs)
    ensures Redact(key, a) == Redact(key, b) <==> SameExceptSensitive(key, a, b)
    decreases Size(a), 0
  {
    var rf, rg := Redact(key, a).fields, Redact(key, b).fields;
    if |fs| == |gs| {
      forall i | 0 <= i < |fs|
        ensures rf[i] == rg[i] <==> fs[i].key == gs[i].key && SameExceptSensitive(fs[i].key, fs[i].value, gs[i].value)
      {
        if fs[i].key == gs[i].key { RedactEqualIff(fs[i].key, fs[i].value, gs[i].value); }
      }
      assert rf == rg <==> forall i :: 0 <= i < |fs| ==> rf[i] == rg[i];
    }
  }

  /** Two log entries that differ only under sensitive keys print the same line. */
  lemma FormatNonInterference(a: LogEntry, b: LogEntry)
    requires SameExceptSensitive("", EntryValue(a), EntryValue(b))
    ensures Format(a) == Format(b)
  {
    RedactEqualIff("", EntryValue(a), EntryValue(b));
    StringifyPrintsRedacted("", EntryValue(a));
    StringifyPrintsRedacted("", EntryValue(b));
  }

  // ---- what is left under sensitive keys, and elsewhere ----

  ghost predicate FullyRedacted(v: Value) {
    match v
    case Arr(items) => forall i :: 0 <= i < |items| ==> FullyRedacted(items[i])
    case Obj(fields) => forall i :: 0 <= i < |fields| ==>
      (IsSensitiveKey(fields[i].key) ==> fields[i].value == REDACTED) && FullyRedacted(fields[i].value)
    case Err(_, _, _) => false
    case _ => true
  }

  /** No sensitive key, at any depth, keeps any value but the marker. */
  lemma {:induction false} RedactLeavesNothing(key: string, v: Value)
    ensures FullyRedacted(Redact(key, v))
    decreases Size(v)
  {
    match Replace(key, v)
    case Arr(items) =>
      forall i | 0 <= i < |items| { RedactLeavesNothing(Digits(i), items[i]); }
    case Obj(fields) =>
      forall i | 0 <= i < |fields| { RedactLeavesNothing(fields[i].key, fields[i].value); }
    case _ =>
  }

  lemma DigitsNotSensitive(n: nat)
    ensures !IsSensitiveKey(Digits(n))
  {
    var s := Lower(Digits(n));
    forall p | p in SENSITIVE_KEY_SUBSTRINGS ensures !Includes(s, p) {
      assert p != "" && !IsDigit(p[0]);
      forall i | 0 <= i <= |s| ensures !OccursAt(s, i, p) {
        if i <= |s| - |p| {
          assert IsDigit(Digits(n)[i]);
          assert s[i..i + |p|][0] == s[i];
        }
      }
    }
  }

  /** A tree with nothing sensitive left and no Error in it is printed as it stands. */
  lemma {:induction false} RedactKeepsTheRest(key: string, v: Value)
    requires FullyRedacted(v) && !IsSensitiveKey(key)
    ensures Redact(key, v) == v
    decreases Size(v)
  {
    match v
    case Arr(items) =>
      forall i | 0 <= i < |items| ensures Redact(Digits(i), items[i]) == items[i] {
        DigitsNotSensitive(i);
        RedactKeepsTheRest(Digits(i), items[i]);
      }
      assert Redact(key, v).items == items;
    case Obj(fields) =>
      forall i | 0 <= i < |fields| ensures Redact(fields[i].key, fields[i].value) == fields[i].value {
        if !IsSensitiveKey(fields[i].key) { RedactKeepsTheRest(fields[i].key, fields[i].value); }
      }
      assert Redact(key, v).fields == fields;
    case _ =>
  }

  /** The value under a sensitive key never shows: changing it anywhere in an object changes no line. */
  lemma SensitiveValueNeverShows(key: string, before: seq<Field>, sensitive: string, x: Value, y: Value, rest: seq<Field>)
    requires IsSensitiveKey(sensitive)
    ensures Stringify(key, Obj(before + [Field(sensitive, x)] + rest)) == Stringify(key, Obj(before + [Field(sensitive, y)] + rest))
  {
    var a, b := Obj(before + [Field(sensitive, x)] + rest), Obj(before + [Field(sensitive, y)] + rest);
    forall i | 0 <= i < |a.fields| ensures Redact(a.fields[i].key, a.fields[i].value) == Redact(b.fields[i].key, b.fields[i].value) {
    }
    assert Redact(key, a) == Redact(key, b);
    StringifyPrintsRedacted(key, a);
    StringifyPrintsRedacted(key, b);
  }
}
