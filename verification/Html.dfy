/** Five successive global replacements, and the one-pass substitution they amount to. */
module Html {

  /** `s.replace(/c/g, r)`. */
  function ReplaceAll(s: string, c: char, r: string): string {
    if s == "" then "" else (if s[0] == c then r else [s[0]]) + ReplaceAll(s[1..], c, r)
  }

  function EscapeHtml(value: string): string {
    ReplaceAll(
      ReplaceAll(
        ReplaceAll(
          ReplaceAll(
            ReplaceAll(value, '&', "&amp;"),
            '<', "&lt;"),
          '>', "&gt;"),
        '"', "&quot;"),
      '\'', "&#39;")
  }

  function Entity(c: char): string {
    match c
    case '&' => "&amp;"
    case '<' => "&lt;"
    case '>' => "&gt;"
    case '"' => "&quot;"
    case '\'' => "&#39;"
    case _ => [c]
  }

  const SPECIAL := ['&', '<', '>', '"', '\'']

  /** Each character replaced on its own. */
  function PerCharacter(s: string): string {
    if s == "" then "" else Entity(s[0]) + PerCharacter(s[1..])
  }

  lemma {:induction false} ReplaceAllConcat(a: string, b: string, c: char, r: string)
    ensures ReplaceAll(a + b, c, r) == ReplaceAll(a, c, r) + ReplaceAll(b, c, r)
  {
    if a == "" {
      assert a + b == b;
    } else {
      assert (a + b)[1..] == a[1..] + b;
      ReplaceAllConcat(a[1..], b, c, r);
    }
  }

  lemma {:induction false} ReplaceAllAbsent(s: string, c: char, r: string)
    requires c !in s
    ensures ReplaceAll(s, c, r) == s
  {
    if s != "" { ReplaceAllAbsent(s[1..], c, r); }
  }

  lemma EscapeConcat(a: string, b: string)
    ensures EscapeHtml(a + b) == EscapeHtml(a) + EscapeHtml(b)
  {
    ReplaceAllConcat(a, b, '&', "&amp;");
    var a1, b1 := ReplaceAll(a, '&', "&amp;"), ReplaceAll(b, '&', "&amp;");
    ReplaceAllConcat(a1, b1, '<', "&lt;");
    var a2, b2 := ReplaceAll(a1, '<', "&lt;"), ReplaceAll(b1, '<', "&lt;");
    ReplaceAllConcat(a2, b2, '>', "&gt;");
    var a3, b3 := ReplaceAll(a2, '>', "&gt;"), ReplaceAll(b2, '>', "&gt;");
    ReplaceAllConcat(a3, b3, '"', "&quot;");
    var a4, b4 := ReplaceAll(a3, '"', "&quot;"), ReplaceAll(b3, '"', "&quot;");
    ReplaceAllConcat(a4, b4, '\'', "&#39;");
  }

  lemma ReplaceOne(c: char, target: char, r: string)
    ensures ReplaceAll([c], target, r) == if c == target then r else [c]
  {
    assert [c][1..] == "";
  }

  lemma FirstTwoPasses(c: char)
    ensures ReplaceAll(ReplaceAll([c], '&', "&amp;"), '<', "&lt;") == if c == '&' || c == '<' then Entity(c) else [c]
  {
    ReplaceOne(c, '&', "&amp;");
    ReplaceOne(c, '<', "&lt;");
    ReplaceAllAbsent("&amp;", '<', "&lt;");
  }

  /** The last three passes leave the first two entities alone. */
  lemma LastThreePasses(e: string)
    requires '>' !in e && '"' !in e && '\'' !in e
    ensures ReplaceAll(ReplaceAll(ReplaceAll(e, '>', "&gt;"), '"', "&quot;"), '\'', "&#39;") == e
  {
    ReplaceAllAbsent(e, '>', "&gt;");
    ReplaceAllAbsent(e, '"', "&quot;");
    ReplaceAllAbsent(e, '\'', "&#39;");
  }

  lemma LastTwoPassesQuote()
    ensures ReplaceAll(ReplaceAll("\"", '"', "&quot;"), '\'', "&#39;") == "&quot;"
  {
    ReplaceOne('"', '"', "&quot;");
    ReplaceAllAbsent("&quot;", '\'', "&#39;");
  }

  lemma LastTwoPassesApostrophe()
    ensures ReplaceAll(ReplaceAll("'", '"', "&quot;"), '\'', "&#39;") == "&#39;"
  {
    ReplaceOne('\'', '"', "&quot;");
    ReplaceOne('\'', '\'', "&#39;");
  }

  lemma LastTwoPassesKeepGt()
    ensures ReplaceAll(ReplaceAll("&gt;", '"', "&quot;"), '\'', "&#39;") == "&gt;"
  {
    ReplaceAllAbsent("&gt;", '"', "&quot;");
    ReplaceAllAbsent("&gt;", '\'', "&#39;");
  }

  lemma LastThreePassesOne(c: char)
    requires c == '>' || c == '"' || c == '\''
    ensures ReplaceAll(ReplaceAll(ReplaceAll([c], '>', "&gt;"), '"', "&quot;"), '\'', "&#39;") == Entity(c)
  {
    ReplaceOne(c, '>', "&gt;");
    if c == '>' { LastTwoPassesKeepGt(); } else if c == '"' { LastTwoPassesQuote(); } else { LastTwoPassesApostrophe(); }
  }

  /** No later pass touches what an earlier one wrote, so a single character becomes its entity. */
  lemma EscapeOne(c: char)
    ensures EscapeHtml([c]) == Entity(c)
  {
    FirstTwoPasses(c);
    if c == '>' || c == '"' || c == '\'' {
      LastThreePassesOne(c);
    } else {
      LastThreePasses(Entity(c));
    }
  }

  /** The five passes together are one substitution per character. */
  lemma {:induction false} FivePassesAreOne(s: string)
    ensures EscapeHtml(s) == PerCharacter(s)
  {
    if s != "" {
      assert s == [s[0]] + s[1..];
      EscapeConcat([s[0]], s[1..]);
      EscapeOne(s[0]);
      FivePassesAreOne(s[1..]);
    }
  }

  // ---- what the output looks like ----

  predicate StartsWith(s: string, prefix: string) {
    |prefix| <= |s| && s[..|prefix|] == prefix
  }

  /** One of the five entities begins `s`; which one is determined by `s`. */
  function LeadingEntity(s: string): (i: int)
    ensures 0 <= i < 5 ==> StartsWith(s, Entity(SPECIAL[i]))
    ensures -1 <= i < 5
    ensures i == -1 ==> forall k :: 0 <= k < 5 ==> !StartsWith(s, Entity(SPECIAL[k]))
  {
    if StartsWith(s, "&amp;") then 0
    else if StartsWith(s, "&lt;") then 1
    else if StartsWith(s, "&gt;") then 2
    else if StartsWith(s, "&quot;") then 3
    else if StartsWith(s, "&#39;") then 4
    else -1
  }

  /** No raw `<`, `>`, `"` or `'`, and every `&` begins one of the five entities. */
  predicate WellEscaped(t: string) {
    forall i :: 0 <= i < |t| ==>
      t[i] !in "<>\"'" && (t[i] == '&' ==> LeadingEntity(t[i..]) >= 0)
  }

  function Unescape(t: string): string
    decreases |t|
  {
    if t == "" then ""
    else
      var i := LeadingEntity(t);
      if i >= 0 then [SPECIAL[i]] + Unescape(t[|Entity(SPECIAL[i])|..]) else [t[0]] + Unescape(t[1..])
  }

  /** An entity in front is recognised whatever follows it. */
  lemma LeadingEntityOf(k: int, rest: string)
    requires 0 <= k < 5
    ensures LeadingEntity(Entity(SPECIAL[k]) + rest) == k
    ensures (Entity(SPECIAL[k]) + rest)[|Entity(SPECIAL[k])|..] == rest
  {
    var e := Entity(SPECIAL[k]);
    var t := e + rest;
    assert t[..|e|] == e;
    assert e[1] == t[1];
    assert t[0] == '&' && |t| >= 4;
    if k == 2 { assert t[1] == 'g'; }
  }

  lemma SpecialIndex(c: char) returns (k: int)
    requires c in SPECIAL
    ensures 0 <= k < 5 && SPECIAL[k] == c
  {
    k :| 0 <= k < 5 && SPECIAL[k] == c;
  }

  /** Unescaping undoes escaping, for every string. */
  lemma {:induction false} UnescapeInverts(s: string)
    ensures Unescape(EscapeHtml(s)) == s
  {
    FivePassesAreOne(s);
    UnescapePerCharacter(s);
  }

  lemma UnescapeEntity(k: int, rest: string)
    requires 0 <= k < 5
    ensures Unescape(Entity(SPECIAL[k]) + rest) == [SPECIAL[k]] + Unescape(rest)
  {
    LeadingEntityOf(k, rest);
  }

  lemma UnescapePlain(c: char, rest: string)
    requires c !in SPECIAL
    ensures Unescape([c] + rest) == [c] + Unescape(rest)
  {
    assert SPECIAL[0] == '&';
    assert ([c] + rest)[1..] == rest;
  }

  lemma {:induction false} UnescapePerCharacter(s: string)
    ensures Unescape(PerCharacter(s)) == s
  {
    if s != "" {
      var rest := PerCharacter(s[1..]);
      UnescapePerCharacter(s[1..]);
      assert s == [s[0]] + s[1..];
      if s[0] in SPECIAL {
        var k := SpecialIndex(s[0]);
        UnescapeEntity(k, rest);
      } else {
        assert Entity(s[0]) == [s[0]];
        UnescapePlain(s[0], rest);
      }
    }
  }

  /** Distinct texts never escape to the same HTML. */
  lemma EscapeInjective(a: string, b: string)
    requires EscapeHtml(a) == EscapeHtml(b)
    ensures a == b
  {
    UnescapeInverts(a);
    UnescapeInverts(b);
  }

  lemma WellEscapedEntity(c: char, rest: string)
    requires WellEscaped(rest)
    ensures WellEscaped(Entity(c) + rest)
  {
    var e := Entity(c);
    var t := e + rest;
    forall i | 0 <= i < |t| ensures t[i] !in "<>\"'" && (t[i] == '&' ==> LeadingEntity(t[i..]) >= 0) {
      if i >= |e| {
        assert t[i..] == rest[i - |e|..];
      } else if i == 0 {
        if c in SPECIAL {
          var k := SpecialIndex(c);
          LeadingEntityOf(k, rest);
          assert t[0..] == t;
        }
      }
    }
  }

  lemma {:induction false} PerCharacterWellEscaped(s: string)
    ensures WellEscaped(PerCharacter(s))
  {
    if s != "" {
      PerCharacterWellEscaped(s[1..]);
      WellEscapedEntity(s[0], PerCharacter(s[1..]));
    }
  }

  /** One character is unescaped from the front; escaping it again gives the same front. */
  lemma UnescapeFront(t: string) returns (n: nat)
    requires WellEscaped(t) && t != ""
    ensures 1 <= n <= |t| && Unescape(t) != "" && Unescape(t)[1..] == Unescape(t[n..])
    ensures Entity(Unescape(t)[0]) == t[..n]
  {
    var i := LeadingEntity(t);
    assert t[0..] == t;
    n := if i >= 0 then |Entity(SPECIAL[i])| else 1;
    if i < 0 { assert t[..1] == [t[0]]; }
  }

  lemma WellEscapedTail(t: string, n: nat)
    requires WellEscaped(t) && n <= |t|
    ensures WellEscaped(t[n..])
  {
    forall i | 0 <= i < |t| - n ensures t[n..][i] == t[n + i] && t[n..][i..] == t[n + i..] {}
  }

  lemma {:induction false} WellEscapedHasSource(t: string)
    requires WellEscaped(t)
    ensures PerCharacter(Unescape(t)) == t
    decreases |t|
  {
    if t != "" {
      var n := UnescapeFront(t);
      WellEscapedTail(t, n);
      WellEscapedHasSource(t[n..]);
      assert t == t[..n] + t[n..];
    }
  }

  /** The outputs of escaping are exactly the well-escaped texts. */
  lemma EscapedIffWellEscaped(t: string)
    ensures WellEscaped(t) <==> exists s :: EscapeHtml(s) == t
  {
    if WellEscaped(t) {
      WellEscapedHasSource(t);
      FivePassesAreOne(Unescape(t));
      assert EscapeHtml(Unescape(t)) == t;
    }
    if s :| EscapeHtml(s) == t {
      FivePassesAreOne(s);
      PerCharacterWellEscaped(s);
    }
  }

  /** Wherever it stands, a special character is replaced by its own entity and any other stays, and nothing around it moves. */
  lemma EscapedInPlace(a: string, c: char, b: string)
    ensures EscapeHtml(a + [c] + b)
         == EscapeHtml(a)
            + (if c == '&' then "&amp;" else if c == '<' then "&lt;" else if c == '>' then "&gt;"
               else if c == '"' then "&quot;" else if c == '\'' then "&#39;" else [c])
            + EscapeHtml(b)
  {
    EscapeConcat(a + [c], b);
    EscapeConcat(a, [c]);
    EscapeOne(c);
  }
}
