/**
 What a printed log line tells apart: JSON text can be read in one way only, so two entries print
 the same line exactly when what redaction leaves of them is the same, up to members JSON leaves out.
 */
module LogLines {
  import opened Basics
  import opened Redaction

  // ---- trees without anything JSON leaves out ----

  ghost predicate Clean(v: Value) {
    match v
    case Undefined => false
    case Err(_, _, _) => false
    case Arr(items) => forall i :: 0 <= i < |items| ==> Clean(items[i])
    case Obj(fields) => forall i :: 0 <= i < |fields| ==> Clean(fields[i].value)
    case _ => true
  }

  /** The text of such a tree, with the brackets that close a list at its end. */
  function Text(v: Value): string
    decreases Size(v), 0, 0
  {
    match v
    case Arr(items) => "[" + ItemsText(items)
    case Obj(fields) => "{" + FieldsText(fields)
    case scalar => if ScalarText(scalar).Some? then ScalarText(scalar).value else ""
  }

  function ItemsText(items: seq<Value>): string
    decreases SizeOfItems(items), 1, 2 * |items| + 1
  {
    if items == [] then "]" else Text(items[0]) + AfterItem(items)
  }

  function AfterItem(items: seq<Value>): string
    requires items != []
    decreases SizeOfItems(items), 1, 2 * |items|
  {
    if |items| == 1 then "]" else "," + ItemsText(items[1..])
  }

  function FieldsText(fields: seq<Field>): string
    decreases SizeOfFields(fields), 1, 2 * |fields| + 1
  {
    if fields == [] then "}" else Quote(fields[0].key) + (":" + (Text(fields[0].value) + AfterField(fields)))
  }

  function AfterField(fields: seq<Field>): string
    requires fields != []
    decreases SizeOfFields(fields), 1, 2 * |fields|
  {
    if |fields| == 1 then "}" else "," + FieldsText(fields[1..])
  }

  /** What may follow a value in JSON. */
  predicate Stops(s: string) {
    s == "" || s[0] in {',', ']', '}'}
  }

  ghost predicate AllClean(items: seq<Value>) {
    forall i :: 0 <= i < |items| ==> Clean(items[i])
  }

  ghost predicate AllCleanFields(fields: seq<Field>) {
    forall i :: 0 <= i < |fields| ==> Clean(fields[i].value)
  }

  // ---- that is what is printed ----

  lemma Regroup(a: string, b: string, c: string)
    ensures (a + b) + c == a + (b + c)
  {
  }

  function ItemParts(items: seq<Value>): (r: seq<Option<string>>)
    ensures |r| == |items|
  {
    seq(|items|, i requires 0 <= i < |items| => Print(items[i]))
  }

  function FieldParts(fields: seq<Field>): (r: seq<Option<string>>)
    ensures |r| == |fields|
  {
    seq(|fields|, i requires 0 <= i < |fields| => Print(fields[i].value))
  }

  function Texts(parts: seq<Option<string>>): (r: seq<string>)
    ensures |r| == |parts|
  {
    seq(|parts|, i requires 0 <= i < |parts| => if parts[i].Some? then parts[i].value else "null")
  }

  lemma {:induction false} CleanPrints(v: Value)
    requires Clean(v)
    ensures Print(v) == Some(Text(v))
    decreases Size(v), 0, 0
  {
    match v
    case Arr(items) =>
      ItemsPrint(items);
      assert Print(v) == Some(ArrayText(ItemParts(items)));
      Regroup("[", Commas(Texts(ItemParts(items))), "]");
    case Obj(fields) =>
      FieldsPrint(fields);
      assert Print(v) == Some(ObjectText(Keys(fields), FieldParts(fields)));
      Regroup("{", Commas(Members(Keys(fields), FieldParts(fields))), "}");
    case _ =>
  }

  lemma {:induction false} ItemsPrint(items: seq<Value>)
    requires AllClean(items)
    ensures Commas(Texts(ItemParts(items))) + "]" == ItemsText(items)
    decreases SizeOfItems(items), 1, |items|
  {
    if items != [] {
      CleanPrints(items[0]);
      ItemsPrint(items[1..]);
      var texts, rest := Texts(ItemParts(items)), Texts(ItemParts(items[1..]));
      assert texts[0] == Text(items[0]) && texts[1..] == rest;
      if |items| > 1 {
        assert Commas(texts) == Text(items[0]) + "," + Commas(rest);
        Regroup(Text(items[0]) + ",", Commas(rest), "]");
        Regroup(Text(items[0]), ",", ItemsText(items[1..]));
      }
    }
  }

  lemma {:induction false} FieldsPrint(fields: seq<Field>)
    requires AllCleanFields(fields)
    ensures |Members(Keys(fields), FieldParts(fields))| == |fields|
    ensures Commas(Members(Keys(fields), FieldParts(fields))) + "}" == FieldsText(fields)
    decreases SizeOfFields(fields), 1, |fields|
  {
    if fields != [] {
      CleanPrints(fields[0].value);
      FieldsPrint(fields[1..]);
      assert Keys(fields)[1..] == Keys(fields[1..]) && FieldParts(fields)[1..] == FieldParts(fields[1..]);
      var first := Quote(fields[0].key) + ":" + Text(fields[0].value);
      var rest := Members(Keys(fields[1..]), FieldParts(fields[1..]));
      assert Members(Keys(fields), FieldParts(fields)) == [first] + rest && ([first] + rest)[1..] == rest;
      FieldText(fields, first);
      if |fields| > 1 {
        assert Commas([first] + rest) == first + "," + Commas(rest);
        Regroup(first + ",", Commas(rest), "}");
        Regroup(first, ",", FieldsText(fields[1..]));
      }
    }
  }

  lemma FieldText(fields: seq<Field>, first: string)
    requires fields != [] && first == Quote(fields[0].key) + ":" + Text(fields[0].value)
    ensures FieldsText(fields) == first + AfterField(fields)
  {
    Regroup(Quote(fields[0].key), ":", Text(fields[0].value));
    Regroup(Quote(fields[0].key), ":" + Text(fields[0].value), AfterField(fields));
    Regroup(":", Text(fields[0].value), AfterField(fields));
  }

  // ---- scalars can be read back ----

  /** No quoted character is the beginning of another. */
  lemma QuoteCharPrefixFree(c: char, d: char, s: string, t: string)
    requires QuoteChar(c) + s == QuoteChar(d) + t
    ensures c == d && s == t
  {
    var x, y := QuoteChar(c), QuoteChar(d);
    assert (x + s)[0] == x[0] && (y + t)[0] == y[0];
    if x[0] == '\\' {
      assert (x + s)[1] == x[1] && (y + t)[1] == y[1];
      if x[1] == 'u' {
        assert (x + s)[4] == x[4] && (y + t)[4] == y[4] && (x + s)[5] == x[5] && (y + t)[5] == y[5];
        HexDigitInjective(c as int / 16, d as int / 16);
        HexDigitInjective(c as int % 16, d as int % 16);
      }
    }
    assert c == d;
    assert (x + s)[|x|..] == s && (y + t)[|y|..] == t;
  }

  lemma HexDigitInjective(m: int, n: int)
    requires 0 <= m < 16 && 0 <= n < 16 && HexDigit(m) == HexDigit(n)
    ensures m == n
  {
  }

  lemma QuoteCharNotQuote(c: char, s: string)
    ensures QuoteChar(c) != "" && (QuoteChar(c) + s)[0] != '"'
  {
  }

  lemma FirstQuoted(x: string, rest: string)
    ensures x != "" ==> QuoteChars(x) + rest == QuoteChar(x[0]) + (QuoteChars(x[1..]) + rest)
    ensures rest != "" && rest[0] == '"' ==> ((QuoteChars(x) + rest)[0] == '"' <==> x == "")
  {
    if x != "" {
      Regroup(QuoteChar(x[0]), QuoteChars(x[1..]), rest);
      QuoteCharNotQuote(x[0], QuoteChars(x[1..]) + rest);
    }
  }

  lemma {:induction false} QuotedOnce(x: string, y: string, s: string, t: string)
    requires s != "" && s[0] == '"' && t != "" && t[0] == '"'
    requires QuoteChars(x) + s == QuoteChars(y) + t
    ensures x == y && s == t
    decreases |x|
  {
    FirstQuoted(x, s);
    FirstQuoted(y, t);
    assert (x == "" ==> QuoteChars(x) + s == s) && (y == "" ==> QuoteChars(y) + t == t);
    if x != "" {
      QuoteCharPrefixFree(x[0], y[0], QuoteChars(x[1..]) + s, QuoteChars(y[1..]) + t);
      QuotedOnce(x[1..], y[1..], s, t);
      assert x == [x[0]] + x[1..] && y == [y[0]] + y[1..];
    }
  }

  lemma StringsReadBack(x: string, y: string, s: string, t: string)
    requires Quote(x) + s == Quote(y) + t
    ensures x == y && s == t
  {
    QuoteSplits(x, s);
    QuoteSplits(y, t);
    Cancel("\"", QuoteChars(x) + ("\"" + s), QuoteChars(y) + ("\"" + t));
    QuotedOnce(x, y, "\"" + s, "\"" + t);
    Cancel("\"", s, t);
  }

  lemma QuoteSplits(x: string, s: string)
    ensures Quote(x) + s == "\"" + (QuoteChars(x) + ("\"" + s))
  {
    Regroup("\"", QuoteChars(x), "\"");
    Regroup("\"", QuoteChars(x) + "\"", s);
    Regroup(QuoteChars(x), "\"", s);
  }

  /** A run of digits ends where the number does. */
  lemma NotShorter(x: string, y: string, s: string, t: string)
    requires x + s == y + t && Stops(s) && forall i :: 0 <= i < |y| ==> IsDigit(y[i])
    ensures |x| >= |y|
  {
    assert forall i :: 0 <= i < |y| ==> (y + t)[i] == y[i];
    assert s != "" ==> (x + s)[|x|] == s[0];
  }

  lemma DigitsReadBack(m: nat, n: nat, s: string, t: string)
    requires Digits(m) + s == Digits(n) + t && Stops(s) && Stops(t)
    ensures m == n && s == t
  {
    var x, y := Digits(m), Digits(n);
    NotShorter(x, y, s, t);
    NotShorter(y, x, t, s);
    assert (x + s)[..|x|] == x && (y + t)[..|y|] == y;
    DigitsInjective(m, n);
    Cancel(x, s, t);
  }

  lemma Cancel(word: string, s: string, t: string)
    requires word + s == word + t
    ensures s == t
  {
    assert (word + s)[|word|..] == s && (word + t)[|word|..] == t;
  }

  function NumText(n: int): string { if n < 0 then "-" + Digits(-n) else Digits(n) }

  lemma SignShows(n: int, s: string)
    ensures NumText(n) != "" && ((NumText(n) + s)[0] == '-' <==> n < 0)
  {
    assert (NumText(n) + s)[0] == NumText(n)[0];
    assert n >= 0 ==> IsDigit(NumText(n)[0]);
  }

  lemma NumbersReadBack(m: int, n: int, s: string, t: string)
    requires NumText(m) + s == NumText(n) + t && Stops(s) && Stops(t)
    ensures m == n && s == t
  {
    SignShows(m, s);
    SignShows(n, t);
    if m < 0 {
      Regroup("-", Digits(-m), s);
      Regroup("-", Digits(-n), t);
      Cancel("-", Digits(-m) + s, Digits(-n) + t);
      DigitsReadBack(-m, -n, s, t);
    } else {
      DigitsReadBack(m, n, s, t);
    }
  }

  // ---- values can be read back ----

  /** Which kind of value a text begins. */
  function Kind(c: char): nat {
    if c == 'n' then 0 else if c == 't' then 1 else if c == 'f' then 2 else if c == '"' then 3
    else if c == '[' then 4 else if c == '{' then 5 else 6
  }

  function KindOf(v: Value): nat {
    match v
    case Null => 0
    case Bool(b) => if b then 1 else 2
    case Str(_) => 3
    case Arr(_) => 4
    case Obj(_) => 5
    case _ => 6
  }

  lemma TextBegins(v: Value, s: string)
    requires Clean(v)
    ensures Text(v) != "" && Kind((Text(v) + s)[0]) == KindOf(v)
    ensures (Text(v) + s)[0] !in {',', ']', '}'}
  {
    if v.Num? {
      assert Text(v) == NumText(v.n);
      assert v.n >= 0 ==> IsDigit(Digits(v.n)[0]);
    }
    assert (Text(v) + s)[0] == Text(v)[0];
  }

  /** JSON text can be read in one way only. */
  lemma {:induction false} ValuesReadBack(a: Value, b: Value, s: string, t: string)
    requires Clean(a) && Clean(b) && Stops(s) && Stops(t)
    requires Text(a) + s == Text(b) + t
    ensures a == b && s == t
    decreases Size(a), 0, 0
  {
    TextBegins(a, s);
    TextBegins(b, t);
    match a
    case Null => Cancel("null", s, t);
    case Bool(x) => Cancel(if x then "true" else "false", s, t);
    case Num(n) => NumbersReadBack(n, b.n, s, t);
    case Str(x) => StringsReadBack(x, b.s, s, t);
    case Arr(items) =>
      Regroup("[", ItemsText(items), s);
      Regroup("[", ItemsText(b.items), t);
      Cancel("[", ItemsText(items) + s, ItemsText(b.items) + t);
      ItemsReadBack(items, b.items, s, t);
    case Obj(fields) =>
      Regroup("{", FieldsText(fields), s);
      Regroup("{", FieldsText(b.fields), t);
      Cancel("{", FieldsText(fields) + s, FieldsText(b.fields) + t);
      FieldsReadBack(fields, b.fields, s, t);
  }

  /** The text of elements begins with the closing bracket exactly when there is none. */
  lemma ItemsTextBegins(items: seq<Value>, s: string)
    requires AllClean(items)
    ensures ItemsText(items) != "" && ((ItemsText(items) + s)[0] == ']' <==> items == [])
  {
    if items != [] {
      TextBegins(items[0], AfterItem(items) + s);
      Regroup(Text(items[0]), AfterItem(items), s);
    }
  }

  lemma AfterItemBegins(items: seq<Value>, s: string)
    requires items != []
    ensures Stops(AfterItem(items) + s) && AfterItem(items) != ""
    ensures (AfterItem(items) + s)[0] == (if |items| == 1 then ']' else ',')
  {
  }

  lemma {:induction false} ItemsReadBack(xs: seq<Value>, ys: seq<Value>, s: string, t: string)
    requires AllClean(xs) && AllClean(ys) && ItemsText(xs) + s == ItemsText(ys) + t
    ensures xs == ys && s == t
    decreases SizeOfItems(xs), 1, 2 * |xs| + 1
  {
    ItemsTextBegins(xs, s);
    ItemsTextBegins(ys, t);
    if xs == [] {
      Cancel("]", s, t);
    } else {
      Regroup(Text(xs[0]), AfterItem(xs), s);
      Regroup(Text(ys[0]), AfterItem(ys), t);
      AfterItemBegins(xs, s);
      AfterItemBegins(ys, t);
      ValuesReadBack(xs[0], ys[0], AfterItem(xs) + s, AfterItem(ys) + t);
      AfterItemReadBack(xs, ys, s, t);
    }
  }

  lemma {:induction false} AfterItemReadBack(xs: seq<Value>, ys: seq<Value>, s: string, t: string)
    requires xs != [] && ys != [] && AllClean(xs) && AllClean(ys) && xs[0] == ys[0]
    requires AfterItem(xs) + s == AfterItem(ys) + t
    ensures xs == ys && s == t
    decreases SizeOfItems(xs), 1, 2 * |xs|
  {
    AfterItemBegins(xs, s);
    AfterItemBegins(ys, t);
    if |xs| == 1 {
      Cancel("]", s, t);
    } else {
      Regroup(",", ItemsText(xs[1..]), s);
      Regroup(",", ItemsText(ys[1..]), t);
      Cancel(",", ItemsText(xs[1..]) + s, ItemsText(ys[1..]) + t);
      ItemsReadBack(xs[1..], ys[1..], s, t);
      assert xs == [xs[0]] + xs[1..] && ys == [ys[0]] + ys[1..];
    }
  }

  lemma FieldsTextBegins(fields: seq<Field>, s: string)
    ensures FieldsText(fields) != "" && ((FieldsText(fields) + s)[0] == '}' <==> fields == [])
  {
    if fields != [] { assert Quote(fields[0].key)[0] == '"'; }
  }

  lemma AfterFieldBegins(fields: seq<Field>, s: string)
    requires fields != []
    ensures Stops(AfterField(fields) + s) && AfterField(fields) != ""
    ensures (AfterField(fields) + s)[0] == (if |fields| == 1 then '}' else ',')
  {
  }

  lemma {:induction false} FieldsReadBack(xs: seq<Field>, ys: seq<Field>, s: string, t: string)
    requires AllCleanFields(xs) && AllCleanFields(ys) && FieldsText(xs) + s == FieldsText(ys) + t
    ensures xs == ys && s == t
    decreases SizeOfFields(xs), 1, 2 * |xs| + 1
  {
    FieldsTextBegins(xs, s);
    FieldsTextBegins(ys, t);
    if xs == [] {
      Cancel("}", s, t);
    } else {
      FirstField(xs, s);
      FirstField(ys, t);
      var x, y := AfterField(xs) + s, AfterField(ys) + t;
      StringsReadBack(xs[0].key, ys[0].key, ":" + (Text(xs[0].value) + x), ":" + (Text(ys[0].value) + y));
      Cancel(":", Text(xs[0].value) + x, Text(ys[0].value) + y);
      AfterFieldBegins(xs, s);
      AfterFieldBegins(ys, t);
      ValuesReadBack(xs[0].value, ys[0].value, x, y);
      AfterFieldReadBack(xs, ys, s, t);
    }
  }

  lemma FirstField(fields: seq<Field>, s: string)
    requires fields != []
    ensures FieldsText(fields) + s == Quote(fields[0].key) + (":" + (Text(fields[0].value) + (AfterField(fields) + s)))
  {
    var text, next := Text(fields[0].value), AfterField(fields);
    Regroup(Quote(fields[0].key), ":" + (text + next), s);
    Regroup(":", text + next, s);
    Regroup(text, next, s);
  }

  lemma {:induction false} AfterFieldReadBack(xs: seq<Field>, ys: seq<Field>, s: string, t: string)
    requires xs != [] && ys != [] && AllCleanFields(xs) && AllCleanFields(ys) && xs[0] == ys[0]
    requires AfterField(xs) + s == AfterField(ys) + t
    ensures xs == ys && s == t
    decreases SizeOfFields(xs), 1, 2 * |xs|
  {
    AfterFieldBegins(xs, s);
    AfterFieldBegins(ys, t);
    if |xs| == 1 {
      Cancel("}", s, t);
    } else {
      Regroup(",", FieldsText(xs[1..]), s);
      Regroup(",", FieldsText(ys[1..]), t);
      Cancel(",", FieldsText(xs[1..]) + s, FieldsText(ys[1..]) + t);
      FieldsReadBack(xs[1..], ys[1..], s, t);
      assert xs == [xs[0]] + xs[1..] && ys == [ys[0]] + ys[1..];
    }
  }

  // ---- what JSON leaves out ----

  /** A tree without the members JSON leaves out, and with the `null` it writes for such an element. */
  function Kept(v: Value): Value
    decreases Size(v), 0
  {
    match v
    case Arr(items) => Arr(seq(|items|, i requires 0 <= i < |items| => if items[i].Undefined? then Null else Kept(items[i])))
    case Obj(fields) => Obj(KeptFields(fields))
    case scalar => scalar
  }

  function KeptFields(fields: seq<Field>): seq<Field>
    decreases SizeOfFields(fields), 1, |fields|
  {
    if fields == [] then []
    else
      (if fields[0].value.Undefined? then [] else [Field(fields[0].key, Kept(fields[0].value))]) + KeptFields(fields[1..])
  }

  /** Leaving them out beforehand changes no text. */
  lemma {:induction false} KeptPrints(v: Value)
    requires FullyRedacted(v)
    ensures Print(v) == Print(Kept(v)) && (v.Undefined? <==> Print(v).None?)
    ensures !v.Undefined? ==> Clean(Kept(v))
    decreases Size(v), 0
  {
    match v
    case Arr(items) =>
      forall i | 0 <= i < |items| { KeptPrints(items[i]); }
      assert Texts(ItemParts(items)) == Texts(ItemParts(Kept(v).items));
      assert Print(v) == Some("[" + Commas(Texts(ItemParts(items))) + "]");
      assert Print(Kept(v)) == Some("[" + Commas(Texts(ItemParts(Kept(v).items))) + "]");
    case Obj(fields) =>
      KeptFieldsPrint(fields);
      assert Print(v) == Some(ObjectText(Keys(fields), FieldParts(fields)));
      assert Print(Kept(v)) == Some(ObjectText(Keys(Kept(v).fields), FieldParts(Kept(v).fields)));
    case _ =>
  }

  lemma {:induction false} KeptFieldsPrint(fields: seq<Field>)
    requires FullyRedacted(Obj(fields))
    ensures Members(Keys(fields), FieldParts(fields)) == Members(Keys(KeptFields(fields)), FieldParts(KeptFields(fields)))
    ensures AllCleanFields(KeptFields(fields))
    decreases SizeOfFields(fields), 1, |fields|
  {
    if fields != [] {
      KeptPrints(fields[0].value);
      KeptFieldsPrint(fields[1..]);
      MembersTail(fields);
      if fields[0].value.Undefined? {
        assert KeptFields(fields) == KeptFields(fields[1..]);
      } else {
        var kept := KeptFields(fields);
        MembersTail(kept);
        assert kept[1..] == KeptFields(fields[1..]);
      }
    }
  }

  lemma MembersTail(fields: seq<Field>)
    requires fields != []
    ensures Members(Keys(fields), FieldParts(fields))
         == (if Print(fields[0].value).Some? then [Quote(fields[0].key) + ":" + Print(fields[0].value).value] else [])
            + Members(Keys(fields[1..]), FieldParts(fields[1..]))
  {
    assert Keys(fields)[1..] == Keys(fields[1..]) && FieldParts(fields)[1..] == FieldParts(fields[1..]);
  }

  // ---- what a line tells apart ----

  /** What the line of an entry shows: what redaction leaves, less the members JSON leaves out. */
  function Shown(e: LogEntry): Value { Kept(Redact("", EntryValue(e))) }

  lemma LinePrintsShown(e: LogEntry)
    ensures Clean(Shown(e)) && Format(e) == Some(Text(Shown(e)))
  {
    var v := EntryValue(e);
    StringifyPrintsRedacted("", v);
    RedactLeavesNothing("", v);
    KeyOfTheRoot();
    assert Redact("", v).Obj?;
    KeptPrints(Redact("", v));
    CleanPrints(Shown(e));
  }

  lemma KeyOfTheRoot()
    ensures !IsSensitiveKey("")
  {
    assert Lower("") == "";
    forall p | p in SENSITIVE_KEY_SUBSTRINGS ensures !Includes("", p) {
      assert p != "";
    }
  }

  /** Two entries print the same line if and only if what is shown of them is the same. */
  lemma LinesEqualIff(a: LogEntry, b: LogEntry)
    ensures Format(a) == Format(b) <==> Shown(a) == Shown(b)
  {
    LinePrintsShown(a);
    LinePrintsShown(b);
    if Format(a) == Format(b) {
      assert Text(Shown(a)) + "" == Text(Shown(a)) && Text(Shown(b)) + "" == Text(Shown(b));
      ValuesReadBack(Shown(a), Shown(b), "", "");
    }
  }

  ghost predicate NothingLeftOut(v: Value) {
    match v
    case Undefined => false
    case Arr(items) => forall i :: 0 <= i < |items| ==> NothingLeftOut(items[i])
    case Obj(fields) => forall i :: 0 <= i < |fields| ==> NothingLeftOut(fields[i].value)
    case _ => true
  }

  lemma {:induction false} RedactedIsClean(key: string, v: Value)
    requires NothingLeftOut(v)
    ensures Clean(Redact(key, v))
    decreases Size(v)
  {
    match Replace(key, v)
    case Arr(items) =>
      forall i | 0 <= i < |items| { RedactedIsClean(Digits(i), items[i]); }
    case Obj(fields) =>
      forall i | 0 <= i < |fields| { RedactedIsClean(fields[i].key, fields[i].value); }
    case _ =>
  }

  lemma {:induction false} CleanIsKept(v: Value)
    requires Clean(v)
    ensures Kept(v) == v
    decreases Size(v), 0
  {
    match v
    case Arr(items) =>
      forall i | 0 <= i < |items| { CleanIsKept(items[i]); }
      assert Kept(v).items == items;
    case Obj(fields) => CleanFieldsAreKept(fields);
    case _ =>
  }

  lemma {:induction false} CleanFieldsAreKept(fields: seq<Field>)
    requires AllCleanFields(fields)
    ensures KeptFields(fields) == fields
    decreases SizeOfFields(fields), 1, |fields|
  {
    if fields != [] {
      CleanIsKept(fields[0].value);
      CleanFieldsAreKept(fields[1..]);
      assert fields == [fields[0]] + fields[1..];
    }
  }

  /**
   Where JSON leaves nothing out, two entries print the same line if and only if they agree outside
   sensitive keys: the line hides everything under such a key, and nothing else.
   */
  lemma LinesHideOnlySensitive(a: LogEntry, b: LogEntry)
    requires NothingLeftOut(EntryValue(a)) && NothingLeftOut(EntryValue(b))
    ensures Format(a) == Format(b) <==> SameExceptSensitive("", EntryValue(a), EntryValue(b))
  {
    LinesEqualIff(a, b);
    RedactedIsClean("", EntryValue(a));
    RedactedIsClean("", EntryValue(b));
    CleanIsKept(Redact("", EntryValue(a)));
    CleanIsKept(Redact("", EntryValue(b)));
    RedactEqualIff("", EntryValue(a), EntryValue(b));
  }
}
