/** The glob patterns of `SCAN MATCH`: `*`, `?`, character classes and the backslash escape. */
module GlobPattern {

  /** Whether a character is in the class that `s` goes on with, up to the closing bracket or the end. */
  predicate InClass(s: string, c: char)
    decreases |s|
  {
    if s == "" then false
    else if s[0] == '\\' && |s| >= 2 then c == s[1] || InClass(s[2..], c)
    else if s[0] == ']' then false
    else if |s| >= 3 && s[1] == '-' then s[0] <= c <= s[2] || s[2] <= c <= s[0] || InClass(s[3..], c)
    else c == s[0] || InClass(s[1..], c)
  }

  /** What follows the class; a class that is never closed takes all there is. */
  function AfterClass(s: string): (r: string)
    ensures |r| <= |s|
    decreases |s|
  {
    if s == "" then ""
    else if s[0] == '\\' && |s| >= 2 then AfterClass(s[2..])
    else if s[0] == ']' then s[1..]
    else if |s| >= 3 && s[1] == '-' then AfterClass(s[3..])
    else AfterClass(s[1..])
  }

  /** A class pattern without its bracket and the caret that negates it. */
  function ClassBody(pattern: string): (r: string)
    requires pattern != ""
    ensures |r| < |pattern|
  {
    if |pattern| >= 2 && pattern[1] == '^' then pattern[2..] else pattern[1..]
  }

  predicate ClassMatches(pattern: string, c: char)
    requires pattern != ""
  {
    InClass(ClassBody(pattern), c) != (|pattern| >= 2 && pattern[1] == '^')
  }

  predicate Matches(pattern: string, key: string)
    decreases |pattern| + |key|
  {
    if pattern == "" then key == ""
    else if pattern[0] == '*' then Matches(pattern[1..], key) || (key != "" && Matches(pattern, key[1..]))
    else if key == "" then false
    else MatchesOne(pattern, key[0]) && Matches(AfterOne(pattern), key[1..])
  }

  /** What a pattern that does not begin with a star says of the next character. */
  predicate MatchesOne(pattern: string, c: char)
    requires pattern != ""
  {
    if pattern[0] == '?' then true
    else if pattern[0] == '[' then ClassMatches(pattern, c)
    else if pattern[0] == '\\' && |pattern| >= 2 then c == pattern[1]
    else c == pattern[0]
  }

  /** And the pattern that is left after it. */
  function AfterOne(pattern: string): (r: string)
    requires pattern != ""
    ensures |r| < |pattern|
  {
    if pattern[0] == '[' then AfterClass(ClassBody(pattern))
    else if pattern[0] == '\\' && |pattern| >= 2 then pattern[2..]
    else pattern[1..]
  }

  /** No character of the text means anything to the matcher. */
  predicate Literal(s: string) {
    '*' !in s && '?' !in s && '\\' !in s && '[' !in s
  }

  lemma {:induction false} StarMatchesAnything(key: string)
    ensures Matches("*", key)
    decreases |key|
  {
    if key != "" { StarMatchesAnything(key[1..]); }
  }

  /** What every key of the store begins with changes nothing. */
  lemma {:induction false} CommonFrontDoesNotMatter(front: string, pattern: string, key: string)
    requires Literal(front)
    ensures Matches(front + pattern, front + key) <==> Matches(pattern, key)
    decreases |front|
  {
    if front == "" {
      assert front + pattern == pattern && front + key == key;
    } else {
      assert front[0] in front;
      assert front + pattern == [front[0]] + (front[1..] + pattern) && (front + key)[1..] == front[1..] + key;
      CommonFrontDoesNotMatter(front[1..], pattern, key);
    }
  }

  /** For a literal prefix the pattern says what the caller means. */
  lemma {:induction false} LiteralPrefixMatches(prefix: string, key: string)
    requires Literal(prefix)
    ensures Matches(prefix + "*", key) <==> prefix <= key
    decreases |prefix|
  {
    if prefix == "" {
      assert prefix + "*" == "*";
      StarMatchesAnything(key);
    } else {
      assert prefix[0] in prefix && prefix + "*" == [prefix[0]] + (prefix[1..] + "*");
      if key != "" {
        LiteralPrefixMatches(prefix[1..], key[1..]);
        assert prefix <= key <==> prefix[0] == key[0] && prefix[1..] <= key[1..];
      }
    }
  }

  // ---- a pattern that matches anything matches something short ----

  /** The length of the shortest keys a pattern can match. */
  function LeastLength(pattern: string): nat
    decreases |pattern|
  {
    if pattern == "" then 0
    else if pattern[0] == '*' then LeastLength(pattern[1..])
    else 1 + LeastLength(AfterOne(pattern))
  }

  lemma {:induction false} ShortMatch(pattern: string, key: string) returns (short: string)
    requires Matches(pattern, key)
    ensures Matches(pattern, short) && |short| <= LeastLength(pattern)
    decreases |pattern| + |key|
  {
    if pattern == "" {
      short := "";
    } else if pattern[0] == '*' {
      if Matches(pattern[1..], key) {
        short := ShortMatch(pattern[1..], key);
      } else {
        short := ShortMatch(pattern, key[1..]);
      }
    } else {
      var rest := ShortMatch(AfterOne(pattern), key[1..]);
      short := [key[0]] + rest;
      assert short[1..] == rest;
    }
  }

  /** A class takes at least one character of what it stands in, and the trailing star with it if it is not closed. */
  lemma {:induction false} ClassInFrontOfStar(s: string) returns (rest: string)
    ensures AfterClass(s + "*") == "" || (AfterClass(s + "*") == rest + "*" && |rest| < |s|)
    decreases |s|
  {
    var p := s + "*";
    rest := "";
    if s == "" {
      assert p[1..] == "";
    } else if s[0] == '\\' {
      if |s| == 1 { assert p[2..] == ""; } else { assert p[2..] == s[2..] + "*"; rest := ClassInFrontOfStar(s[2..]); }
    } else if s[0] == ']' {
      assert p[1..] == s[1..] + "*";
      rest := s[1..];
    } else if |p| >= 3 && p[1] == '-' {
      if |s| == 2 { assert p[3..] == ""; } else { assert p[3..] == s[3..] + "*"; rest := ClassInFrontOfStar(s[3..]); }
    } else {
      assert p[1..] == s[1..] + "*";
      rest := ClassInFrontOfStar(s[1..]);
    }
  }

  /** A class is shorter in what it matches than in what it is, by the bracket. */
  lemma {:induction false} ClassShortens(prefix: string)
    requires |prefix| >= 2 && prefix[0] == '['
    ensures LeastLength(prefix + "*") < |prefix|
    decreases |prefix|, 0
  {
    var p := prefix + "*";
    var body := if prefix[1] == '^' then prefix[2..] else prefix[1..];
    assert ClassBody(p) == body + "*";
    var rest := ClassInFrontOfStar(body);
    if AfterClass(body + "*") != "" { StarAddsNothing(rest); }
  }

  /** A trailing star needs no character, unless what stands before takes it along. */
  lemma {:induction false} StarAddsNothing(prefix: string)
    ensures LeastLength(prefix + "*") <= |prefix|
    decreases |prefix|, 1
  {
    var p := prefix + "*";
    if prefix == "" {
      assert p[1..] == "";
    } else if prefix[0] == '[' {
      if |prefix| == 1 { assert p[1..] == "*" && AfterClass("*") == AfterClass(""); } else { ClassShortens(prefix); }
    } else if prefix[0] == '\\' {
      if |prefix| == 1 { assert p[2..] == ""; } else { assert p[2..] == prefix[2..] + "*"; StarAddsNothing(prefix[2..]); }
    } else {
      assert p[1..] == prefix[1..] + "*";
      StarAddsNothing(prefix[1..]);
    }
  }

  // ---- when the pattern means the prefix ----

  ghost predicate MeansPrefix(prefix: string, key: string) {
    Matches(prefix + "*", key) <==> prefix <= key
  }

  /** A pattern that can match less than its prefix does not mean it. */
  lemma ShorterIsOdd(prefix: string) returns (odd: string)
    requires LeastLength(prefix + "*") < |prefix|
    ensures !MeansPrefix(prefix, odd)
  {
    odd := prefix;
    if Matches(prefix + "*", prefix) { odd := ShortMatch(prefix + "*", prefix); }
  }

  /** A question mark takes any character, not only itself. */
  lemma QuestionMarkIsOdd(prefix: string) returns (odd: string)
    requires prefix != "" && prefix[0] == '?'
    ensures !MeansPrefix(prefix, odd)
  {
    var p := prefix + "*";
    odd := "a" + prefix[1..];
    assert p[0] == '?' && AfterOne(p) == prefix[1..] + "*" && odd[1..] == prefix[1..];
    if !Matches(p, odd) { odd := prefix; }
  }

  /** An opening bracket or a backslash at the very end takes the star for its own. */
  lemma LastCharacterIsOdd(prefix: string)
    requires prefix == "[" || prefix == "\\"
    ensures !MeansPrefix(prefix, prefix)
  {
    var p := prefix + "*";
    assert |p| == 2 && p[0] == prefix[0] && p[1] == '*' && p[1..] == "*";
    assert !InClass("*", '[');
    assert !MatchesOne(p, prefix[0]);
  }

  lemma StarShortens(prefix: string)
    requires prefix != "" && prefix[0] == '*'
    ensures LeastLength(prefix + "*") < |prefix|
  {
    assert (prefix + "*")[1..] == prefix[1..] + "*";
    StarAddsNothing(prefix[1..]);
  }

  lemma EscapeShortens(prefix: string)
    requires |prefix| >= 2 && prefix[0] == '\\'
    ensures LeastLength(prefix + "*") < |prefix|
  {
    assert AfterOne(prefix + "*") == (prefix + "*")[2..] == prefix[2..] + "*";
    StarAddsNothing(prefix[2..]);
  }

  /** A special character in front makes some key odd: one that is matched without the prefix, or the prefix itself. */
  lemma SpecialFrontIsOdd(prefix: string) returns (odd: string)
    requires prefix != "" && !Literal([prefix[0]])
    ensures !MeansPrefix(prefix, odd)
  {
    if prefix[0] == '?' {
      odd := QuestionMarkIsOdd(prefix);
    } else if prefix == "[" || prefix == "\\" {
      LastCharacterIsOdd(prefix);
      odd := prefix;
    } else {
      if prefix[0] == '*' { StarShortens(prefix); } else if prefix[0] == '[' { ClassShortens(prefix); } else { EscapeShortens(prefix); }
      odd := ShorterIsOdd(prefix);
    }
  }

  lemma {:induction false} SpecialIsOdd(prefix: string) returns (odd: string)
    requires !Literal(prefix)
    ensures !MeansPrefix(prefix, odd)
    decreases |prefix|
  {
    if !Literal([prefix[0]]) {
      odd := SpecialFrontIsOdd(prefix);
    } else {
      var rest := prefix[1..];
      assert prefix[0] in [prefix[0]] && forall c :: c in prefix <==> c == prefix[0] || c in rest;
      var oddRest := SpecialIsOdd(rest);
      odd := [prefix[0]] + oddRest;
      assert prefix + "*" == [prefix[0]] + (rest + "*") && odd[1..] == oddRest;
      assert prefix <= odd <==> rest <= oddRest;
    }
  }

  /** The pattern means the prefix, for all keys, if and only if the prefix holds no character of its own meaning. */
  lemma PatternMeansPrefixIff(prefix: string)
    ensures (forall key :: MeansPrefix(prefix, key)) <==> Literal(prefix)
  {
    if Literal(prefix) {
      forall key ensures MeansPrefix(prefix, key) { LiteralPrefixMatches(prefix, key); }
    } else {
      var odd := SpecialIsOdd(prefix);
    }
  }

  /** A prefix with a class deletes a key that does not have it, and spares the keys that do. */
  lemma ClassMatchesOthers()
    ensures Matches("[a]x:" + "*", "ax:1") && !("[a]x:" <= "ax:1")
    ensures !Matches("[a]x:" + "*", "[a]x:1")
  {
    var pattern := "[a]x:" + "*";
    assert ClassBody(pattern) == "a]x:*" && "a]x:*"[1..] == "]x:*" && "]x:*"[1..] == "x:*";
    assert AfterOne(pattern) == "x:*" && InClass("a]x:*", 'a') && !InClass("a]x:*", '[');
    assert "x:*"[1..] == ":*" && ":*"[1..] == "*";
    assert "ax:1"[1..] == "x:1" && "x:1"[1..] == ":1" && ":1"[1..] == "1";
    StarMatchesAnything("1");
    assert Matches(":*", ":1") && Matches("x:*", "x:1");
  }
}
