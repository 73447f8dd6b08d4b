/** The comparison that the Artemis adapter makes of a topic pattern, and the pattern itself. */
module ArtemisSelector {
  import opened Words
  import opened TopicMatching

  /** A comparison with the routing-key property, by the operator and its operand. */
  datatype Comparison = Equals(literal: string) | Like(pattern: string)

  predicate HasWildcardChar(s: string) {
    '*' in s || '#' in s
  }

  /** `routingKey.replace(/[*#]/g, '%')`. */
  function Percent(s: string): (like: string)
    ensures |like| == |s|
  {
    if s == "" then "" else [if s[0] == '*' || s[0] == '#' then '%' else s[0]] + Percent(s[1..])
  }

  function ComparisonFor(routingKey: string): Comparison {
    if HasWildcardChar(routingKey) then Like(Percent(routingKey)) else Equals(routingKey)
  }

  /** LIKE without an escape: `%` is any run of characters, `_` any one (section 3.8.1.1 of JMS 1.1). */
  function LikeMatch(p: string, s: string): bool
  {
    if p == "" then s == ""
    else if p[0] == '%' then exists n :: 0 <= n <= |s| && LikeMatch(p[1..], s[n..])
    else s != "" && (p[0] == '_' || p[0] == s[0]) && LikeMatch(p[1..], s[1..])
  }

  function ComparisonAccepts(c: Comparison, key: string): bool {
    match c
    case Equals(literal) => literal == key
    case Like(pattern) => LikeMatch(pattern, key)
  }

  // ---------------------------------------------------------------- characters under LIKE

  /** A leading `%` swallows any run in front of an accepted rest. */
  lemma PercentSwallows(p: string, u: string, s: string)
    requires LikeMatch(p, s)
    ensures LikeMatch("%" + p, u + s)
  {
    assert ("%" + p)[1..] == p && (u + s)[|u|..] == s;
  }

  /** One ordinary character accepts itself in front of an accepted rest. */
  lemma CharAcceptsItself(c: char, p: string, s: string)
    requires LikeMatch(p, s)
    ensures LikeMatch([if c == '*' || c == '#' then '%' else c] + p, [c] + s)
  {
    assert ([c] + s)[1..] == s;
    if c == '*' || c == '#' || c == '%' {
      PercentSwallows(p, [c], s);
    } else {
      assert ([c] + p)[1..] == p;
    }
  }

  lemma HeadAndTail(head: char, tail: string, rest: string)
    ensures [head] + (tail + rest) == [head] + tail + rest
  {
  }

  /** A translated word accepts itself in front of an accepted rest. */
  lemma {:induction false} WordAcceptsItself(w: string, p: string, s: string)
    requires LikeMatch(p, s)
    ensures LikeMatch(Percent(w) + p, w + s)
  {
    hide LikeMatch;
    if w == "" {
      assert Percent(w) + p == p && w + s == s;
    } else {
      var head, tail := Percent(w)[0], Percent(w[1..]);
      assert Percent(w) == [head] + tail && w == [w[0]] + w[1..];
      hide Percent;
      WordAcceptsItself(w[1..], p, s);
      CharAcceptsItself(w[0], tail + p, w[1..] + s);
      HeadAndTail(w[0], w[1..], s);
      HeadAndTail(head, tail, p);
    }
  }

  lemma {:induction false} PercentOfConcat(a: string, b: string)
    ensures Percent(a + b) == Percent(a) + Percent(b)
  {
    if a == "" {
      assert a + b == b;
    } else {
      assert (a + b)[1..] == a[1..] + b;
      PercentOfConcat(a[1..], b);
    }
  }

  lemma PercentOfJoin(p: seq<string>)
    requires |p| > 1
    ensures Percent(Join(p)) == Percent(p[0]) + ("." + Percent(Join(p[1..])))
  {
    var rest := Join(p[1..]);
    assert Join(p) == p[0] + ("." + rest);
    PercentOfConcat(p[0], "." + rest);
    PercentOfDot(rest);
    hide Percent, Join;
  }

  lemma PercentOfDot(s: string)
    ensures Percent("." + s) == "." + Percent(s)
  {
    assert ("." + s)[1..] == s;
  }

  /** A dot and an accepted rest, in front of nothing else. */
  lemma DotAcceptsItself(p: string, s: string)
    requires LikeMatch(p, s)
    ensures LikeMatch("." + p, "." + s)
  {
    assert ("." + p)[1..] == p && ("." + s)[1..] == s;
  }

  // ---------------------------------------------------------------- words against characters

  /** Every `#` of the alignment takes at least one word. */
  ghost predicate HashesTakeWords(runs: seq<seq<string>>) {
    forall i :: 0 <= i < |runs| ==> runs[i] != []
  }

  /** One translated pattern word accepts the run of key words aligned with it. */
  lemma WordAcceptsRun(word: string, run: seq<string>, p: string, s: string)
    requires Fits(word, run) && run != []
    requires LikeMatch(p, s)
    ensures LikeMatch(Percent(word) + p, Join(run) + s)
  {
    if word == STAR || word == HASH {
      assert Percent(word) == "%" by {
        assert word[1..] == "";
      }
      PercentSwallows(p, Join(run), s);
    } else {
      WordAcceptsItself(word, p, s);
    }
  }

  lemma {:induction false} LikeAcceptsAlignment(p: seq<string>, k: seq<string>, runs: seq<seq<string>>)
    requires p != [] && Alignment(p, k, runs) && HashesTakeWords(runs)
    ensures k != [] && LikeMatch(Percent(Join(p)), Join(k))
  {
    assert Fits(p[0], runs[0]) && runs[0] != [];
    if |p| == 1 {
      assert Flatten(runs[1..]) == [] && runs[0] + [] == runs[0];
      WordAcceptsRun(p[0], runs[0], "", "");
      assert Percent(p[0]) + "" == Percent(p[0]) && Join(runs[0]) + "" == Join(runs[0]);
    } else {
      var rest := Flatten(runs[1..]);
      LikeAcceptsAlignment(p[1..], rest, runs[1..]);
      var restPattern := Percent(Join(p[1..]));
      DotAcceptsItself(restPattern, Join(rest));
      WordAcceptsRun(p[0], runs[0], "." + restPattern, "." + Join(rest));
      PercentOfJoin(p);
      JoinOfConcat(runs[0], rest);
      assert Join(runs[0]) + ("." + Join(rest)) == Join(k);
    }
  }

  /** A key the topic matcher accepts with every `#` taking a word is accepted by the comparison. */
  lemma ComparisonAcceptsAlignedKey(pattern: string, key: string, runs: seq<seq<string>>)
    requires Alignment(Split(pattern), Split(key), runs) && HashesTakeWords(runs)
    ensures ComparisonAccepts(ComparisonFor(pattern), key)
  {
    JoinOfSplit(pattern);
    JoinOfSplit(key);
    if HasWildcardChar(pattern) {
      LikeAcceptsAlignment(Split(pattern), Split(key), runs);
    } else {
      NoWildcardWords(pattern);
      AcceptsFromAlignment(Split(pattern), Split(key), runs);
      LiteralMatchIsEquality(pattern, key);
    }
  }

  /** A character of a word is a character of the string it was split from. */
  lemma {:induction false} WordCharInString(s: string, i: nat, c: char)
    requires i < |Split(s)| && c in Split(s)[i]
    ensures c in s
  {
    if s != "" {
      var rest := Split(s[1..]);
      if s[0] == '.' {
        if i > 0 {
          assert Split(s)[i] == rest[i - 1];
          WordCharInString(s[1..], i - 1, c);
        }
      } else if i > 0 {
        assert Split(s)[i] == rest[i];
        WordCharInString(s[1..], i, c);
      } else if c != s[0] {
        assert c in rest[0];
        WordCharInString(s[1..], 0, c);
      }
    }
  }

  lemma NoWildcardWords(pattern: string)
    requires !HasWildcardChar(pattern)
    ensures Literal(Split(pattern))
  {
    forall i | 0 <= i < |Split(pattern)| ensures Split(pattern)[i] != STAR && Split(pattern)[i] != HASH {
      if Split(pattern)[i] == STAR {
        WordCharInString(pattern, i, '*');
      } else if Split(pattern)[i] == HASH {
        WordCharInString(pattern, i, '#');
      }
    }
  }

  /** For patterns without a wildcard character the two tests are the same test. */
  lemma ComparisonIsExactWithoutWildcards(pattern: string, key: string)
    requires !HasWildcardChar(pattern)
    ensures ComparisonAccepts(ComparisonFor(pattern), key) <==> TopicMatch(pattern, key)
  {
    NoWildcardWords(pattern);
    LiteralMatchIsEquality(pattern, key);
  }

  // ---------------------------------------------------------------- exactly when nothing is missed

  function Dots(s: string): nat {
    if s == "" then 0 else (if s[0] == '.' then 1 else 0) + Dots(s[1..])
  }

  lemma {:induction false} DotsOfSuffix(s: string, n: nat)
    requires n <= |s|
    ensures Dots(s[n..]) <= Dots(s)
  {
    if n > 0 {
      DotsOfSuffix(s[1..], n - 1);
      assert s[1..][n - 1..] == s[n..];
    }
  }

  /** LIKE has no way to drop a dot of its pattern. */
  lemma {:induction false} LikeKeepsDots(p: string, s: string)
    requires LikeMatch(p, s)
    ensures Dots(p) <= Dots(s)
  {
    if p != "" {
      if p[0] == '%' {
        var n :| 0 <= n <= |s| && LikeMatch(p[1..], s[n..]);
        LikeKeepsDots(p[1..], s[n..]);
        DotsOfSuffix(s, n);
      } else {
        LikeKeepsDots(p[1..], s[1..]);
      }
    }
  }

  lemma {:induction false} DotsOfPercent(s: string)
    ensures Dots(Percent(s)) == Dots(s)
  {
    if s != "" {
      DotsOfPercent(s[1..]);
    }
  }

  lemma {:induction false} DotsAreWords(s: string)
    ensures Dots(s) == |Split(s)| - 1
  {
    if s != "" {
      DotsAreWords(s[1..]);
    }
  }

  /** The shortest key a pattern accepts: every `#` takes nothing, every `*` takes "x". */
  function Shortest(p: seq<string>): seq<string> {
    if p == [] then []
    else (if p[0] == HASH then [] else if p[0] == STAR then ["x"] else [p[0]]) + Shortest(p[1..])
  }

  lemma {:induction false} ShortestIsAccepted(p: seq<string>)
    requires DotFree(p)
    ensures Accepts(p, Shortest(p)) && DotFree(Shortest(p)) && |Shortest(p)| <= |p|
    ensures HASH in p ==> |Shortest(p)| < |p|
  {
    if p != [] {
      ShortestIsAccepted(p[1..]);
      if p[0] == HASH {
        assert [] + Shortest(p[1..]) == Shortest(p[1..]);
        assert Shortest(p)[0..] == Shortest(p[1..]);
      } else {
        assert Shortest(p)[1..] == Shortest(p[1..]);
        assert p == [p[0]] + p[1..];
      }
    }
  }

  /** A `#` beside other words: the matcher accepts a key with fewer dots than LIKE demands. */
  lemma MissedKey(pattern: string) returns (key: string)
    requires HASH in Split(pattern) && pattern != HASH
    ensures TopicMatch(pattern, key) && !ComparisonAccepts(ComparisonFor(pattern), key)
  {
    var p := Split(pattern);
    SplitIsDotFree(pattern);
    ShortestIsAccepted(p);
    JoinOfSplit(pattern);
    if Shortest(p) == [] {
      key := "x";
      assert Split(key) == ["x"] by {
        SplitOfWord(key);
      }
      OnlyHashes(p);
      HashesAccept(p, ["x"]);
      assert |p| > 1;
    } else {
      key := Join(Shortest(p));
      SplitOfJoin(Shortest(p));
    }
    var i :| 0 <= i < |p| && p[i] == HASH;
    WordCharInString(pattern, i, '#');
    DotsAreWords(pattern);
    DotsAreWords(key);
    DotsOfPercent(pattern);
    if LikeMatch(Percent(pattern), key) {
      LikeKeepsDots(Percent(pattern), key);
    }
  }

  lemma {:induction false} OnlyHashes(p: seq<string>)
    requires Shortest(p) == []
    ensures forall i :: 0 <= i < |p| ==> p[i] == HASH
  {
    if p != [] {
      assert p[0] == HASH;
      OnlyHashes(p[1..]);
      forall i | 0 <= i < |p| ensures p[i] == HASH {
        if i > 0 {
          assert p[i] == p[1..][i - 1];
        }
      }
    }
  }

  lemma {:induction false} HashesAccept(p: seq<string>, k: seq<string>)
    requires p != [] && forall i :: 0 <= i < |p| ==> p[i] == HASH
    ensures Accepts(p, k)
  {
    if |p| == 1 {
      assert p == [HASH];
      HashAcceptsAll(k);
    } else {
      HashesAccept(p[1..], k);
      assert k[0..] == k;
    }
  }

  lemma {:induction false} RunsTakeWords(p: seq<string>, runs: seq<seq<string>>)
    requires HASH !in p && |runs| == |p| && forall i :: 0 <= i < |p| ==> Fits(p[i], runs[i])
    ensures HashesTakeWords(runs)
  {
    forall i | 0 <= i < |runs| ensures runs[i] != [] {
      assert p[i] in p && Fits(p[i], runs[i]);
    }
  }

  /**
   * The comparison accepts every key the topic pattern accepts exactly when no word of the
   * pattern is `#`, or the pattern is just `#`.
   */
  lemma ComparisonCoversPattern(pattern: string)
    ensures (forall key :: TopicMatch(pattern, key) ==> ComparisonAccepts(ComparisonFor(pattern), key))
            <==> (HASH !in Split(pattern) || pattern == HASH)
  {
    if pattern == HASH {
      forall key ensures ComparisonAccepts(ComparisonFor(pattern), key) {
        assert Percent(pattern) == "%" by {
          assert pattern[1..] == "";
        }
        PercentSwallows("", key, "");
        assert "%" + "" == "%" && key + "" == key;
      }
    } else if HASH in Split(pattern) {
      var key := MissedKey(pattern);
    } else {
      forall key | TopicMatch(pattern, key) ensures ComparisonAccepts(ComparisonFor(pattern), key) {
        var runs := AlignmentFromAccepts(Split(pattern), Split(key));
        RunsTakeWords(Split(pattern), runs);
        ComparisonAcceptsAlignedKey(pattern, key, runs);
      }
    }
  }

  // ---------------------------------------------------------------- what the comparison adds

  /** A `*` word lets the comparison accept keys with more words than the pattern has. */
  lemma ComparisonOverAccepts()
    ensures ComparisonAccepts(ComparisonFor("*"), "a.b") && !TopicMatch("*", "a.b")
  {
    assert Percent("*") == "%" by {
      assert "*"[1..] == "";
    }
    PercentSwallows("", "a.b", "");
    assert "a.b" + "" == "a.b" && "%" + "" == "%";
    DotsAreWords("a.b");
    assert Dots("a.b") == 1 by {
      assert "a.b"[1..] == ".b" && ".b"[1..] == "b" && "b"[1..] == "";
    }
    SplitOfWord("*");
    assert [STAR][1..] == [];
  }

  /** Without a `#` word a pattern accepts only keys of as many words. */
  lemma {:induction false} SameNumberOfWords(p: seq<string>, k: seq<string>)
    requires Accepts(p, k) && HASH !in p
    ensures |p| == |k|
  {
    if p != [] {
      assert p[0] in p;
      forall w | w in p[1..] ensures w in p {
      }
      SameNumberOfWords(p[1..], k[1..]);
    }
  }

  lemma {:induction false} DotsOfConcat(a: string, b: string)
    ensures Dots(a + b) == Dots(a) + Dots(b)
  {
    if a == "" {
      assert a + b == b;
    } else {
      assert (a + b)[1..] == a[1..] + b;
      DotsOfConcat(a[1..], b);
    }
  }

  /** A pattern with a wildcard and no `#` word: the comparison accepts a key with a word too many. */
  lemma ExtraKey(pattern: string) returns (key: string)
    requires HASH !in Split(pattern) && HasWildcardChar(pattern)
    ensures ComparisonAccepts(ComparisonFor(pattern), key) && !TopicMatch(pattern, key)
  {
    var j :| 0 <= j < |pattern| && (pattern[j] == '*' || pattern[j] == '#');
    var a, w, b := pattern[..j], pattern[j..j + 1], pattern[j + 1..];
    key := a + ("." + b);
    assert pattern == a + (w + b);
    assert Percent(pattern) == Percent(a) + ("%" + Percent(b)) by {
      PercentOfConcat(a, w + b);
      PercentOfConcat(w, b);
      assert w[1..] == "" && Percent(w) == "%";
    }
    assert LikeMatch(Percent(b), b) by {
      WordAcceptsItself(b, "", "");
      assert Percent(b) + "" == Percent(b) && b + "" == b;
    }
    PercentSwallows(Percent(b), ".", b);
    WordAcceptsItself(a, "%" + Percent(b), "." + b);
    assert Dots(key) == Dots(pattern) + 1 by {
      DotsOfConcat(a, "." + b);
      DotsOfConcat(".", b);
      DotsOfConcat(a, w + b);
      DotsOfConcat(w, b);
      assert w[1..] == "" && "."[1..] == "";
    }
    DotsAreWords(key);
    DotsAreWords(pattern);
    if TopicMatch(pattern, key) {
      SameNumberOfWords(Split(pattern), Split(key));
    }
  }

  /** Comparison and topic pattern agree on every key exactly when the pattern has no wildcard, or is just `#`. */
  lemma ComparisonAgreesExactly(pattern: string)
    ensures (forall key :: ComparisonAccepts(ComparisonFor(pattern), key) <==> TopicMatch(pattern, key))
            <==> (!HasWildcardChar(pattern) || pattern == HASH)
  {
    if !HasWildcardChar(pattern) {
      forall key ensures ComparisonAccepts(ComparisonFor(pattern), key) <==> TopicMatch(pattern, key) {
        ComparisonIsExactWithoutWildcards(pattern, key);
      }
    } else if pattern == HASH {
      ComparisonCoversPattern(pattern);
      SplitOfWord(pattern);
      forall key ensures TopicMatch(pattern, key) {
        HashAcceptsAll(Split(key));
      }
    } else if HASH in Split(pattern) {
      var key := MissedKey(pattern);
    } else {
      var key := ExtraKey(pattern);
    }
  }
}
