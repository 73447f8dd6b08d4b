/**
 * The text of the selector that the Artemis adapter emits. The pattern goes between single quotes
 * as it is, so what a broker reads back need not be the comparison that was meant.
 */
module SelectorText {
  import opened Wrappers
  import opened Words
  import opened TopicMatching
  import opened ArtemisSelector

  const ROUTING_KEY_PROP := "routingKey"

  const QUOTE := '\''

  function ToSelector(routingKey: string): string {
    if HasWildcardChar(routingKey) then Emit(" LIKE", Percent(routingKey)) else Emit(" =", routingKey)
  }

  /** The property, an operator, and text put between quotes unchanged. */
  function Emit(operator: string, text: string): string {
    ROUTING_KEY_PROP + (operator + (" '" + (text + "'")))
  }

  /** Two of the texts in full. */
  lemma EmittedTexts()
    ensures ToSelector("a.b") == "routingKey = 'a.b'"
    ensures ToSelector("a.*.#") == "routingKey LIKE 'a.%.%'"
  {
    var p := "a.*.#";
    assert p[1..] == ".*.#" && p[1..][1..] == "*.#" && p[1..][1..][1..] == ".#" && p[1..][1..][1..][1..] == "#";
    assert "#"[1..] == "";
    assert Percent("#") == "%" && Percent(".#") == ".%" && Percent("*.#") == "%.%";
    assert Percent(".*.#") == ".%.%" && Percent("a.*.#") == "a.%.%";
    hide Percent;
  }

  // ---------------------------------------------------------------- reading a selector

  /**
   * The rest of a string literal after its opening quote: a doubled quote stands for one (section 3.8.1.1 of
   * JMS 1.1).
   */
  function ReadLiteral(s: string): (r: Option<(string, string)>)
    ensures r.Some? ==> |r.value.1| < |s|
  {
    if s == "" then None
    else if s[0] != QUOTE then
      match ReadLiteral(s[1..])
      case None => None
      case Some((value, rest)) => Some(([s[0]] + value, rest))
    else if |s| > 1 && s[1] == QUOTE then
      match ReadLiteral(s[2..])
      case None => None
      case Some((value, rest)) => Some(([QUOTE] + value, rest))
    else Some(("", s[1..]))
  }

  function SkipSpaces(s: string): (r: string)
    ensures |r| <= |s|
  {
    if s != "" && s[0] == ' ' then SkipSpaces(s[1..]) else s
  }

  datatype Operand = Property | Text(value: string)

  /** One comparison of the text: of the routing key, or of a literal. */
  datatype Test = Test(left: Operand, right: Comparison)

  function ReadOperand(s: string): (r: Option<(Operand, string)>)
    ensures r.Some? ==> |r.value.1| < |s|
  {
    if ROUTING_KEY_PROP <= s then Some((Property, s[|ROUTING_KEY_PROP|..]))
    else if s != "" && s[0] == QUOTE then
      match ReadLiteral(s[1..])
      case None => None
      case Some((value, rest)) => Some((Text(value), rest))
    else None
  }

  /** The right-hand side: a string literal. */
  function ReadRight(left: Operand, like: bool, s: string): (r: Option<(Test, string)>)
    ensures r.Some? ==> |r.value.1| < |s|
  {
    var t := SkipSpaces(s);
    if t == "" || t[0] != QUOTE then None
    else
      match ReadLiteral(t[1..])
      case None => None
      case Some((value, rest)) => Some((Test(left, if like then Like(value) else Equals(value)), rest))
  }

  function ReadTest(s: string): (r: Option<(Test, string)>)
    ensures r.Some? ==> |r.value.1| < |s|
  {
    match ReadOperand(s)
    case None => None
    case Some((left, rest)) =>
      var op := SkipSpaces(rest);
      if op != "" && op[0] == '=' then ReadRight(left, false, op[1..])
      else if "LIKE" <= op && left.Property? then ReadRight(left, true, op[4..])
      else None
  }

  /** A selector of comparisons joined by OR; None when the text is anything else, or malformed. */
  function ReadSelector(s: string): (r: Option<seq<Test>>)
    ensures r.Some? ==> r.value != []
    decreases |s|
  {
    match ReadTest(s)
    case None => None
    case Some((test, rest)) =>
      var more := SkipSpaces(rest);
      if more == "" then Some([test])
      else if "OR" <= more && |more| > 2 && more[2] in {' ', QUOTE} then
        match ReadSelector(SkipSpaces(more[2..]))
        case None => None
        case Some(tests) => Some([test] + tests)
      else None
  }

  predicate Holds(test: Test, key: string) {
    ComparisonAccepts(test.right, if test.left.Property? then key else test.left.value)
  }

  /** The text is read, and one of its comparisons holds for the key. */
  predicate SelectorAccepts(text: string, key: string) {
    var tests := ReadSelector(text);
    tests.Some? && exists i :: 0 <= i < |tests.value| && Holds(tests.value[i], key)
  }

  /** The comparison that the adapter means the text to be. */
  function Meant(pattern: string): Test {
    Test(Property, ComparisonFor(pattern))
  }

  predicate ReadsAsMeant(pattern: string) {
    ReadSelector(ToSelector(pattern)) == Some([Meant(pattern)])
  }

  // ---------------------------------------------------------------- what the literal comes back as

  function Quotes(s: string): nat {
    if s == "" then 0 else (if s[0] == QUOTE then 1 else 0) + Quotes(s[1..])
  }

  lemma {:induction false} NoQuotes(s: string)
    ensures Quotes(s) == 0 <==> QUOTE !in s
  {
    if s != "" {
      NoQuotes(s[1..]);
    }
  }

  /** A literal without quotes comes back whole. */
  lemma {:induction false} PlainComesBack(s: string)
    requires QUOTE !in s
    ensures ReadLiteral(s + "'") == Some((s, ""))
  {
    var t := s + "'";
    if s != "" {
      assert t[0] == s[0] && t[1..] == s[1..] + "'";
      PlainComesBack(s[1..]);
      assert [s[0]] + s[1..] == s;
    }
  }

  /** One with quotes never does: whatever comes back has fewer. */
  lemma {:induction false} QuotesAreLost(s: string)
    ensures var r := ReadLiteral(s + "'");
            r.Some? ==> Quotes(r.value.0) <= Quotes(s) && (QUOTE in s ==> Quotes(r.value.0) < Quotes(s))
  {
    var t := s + "'";
    if s == "" {
    } else if s[0] != QUOTE {
      assert t[0] == s[0] && t[1..] == s[1..] + "'";
      QuotesAreLost(s[1..]);
    } else if |s| > 1 && s[1] == QUOTE {
      assert t[2..] == s[2..] + "'" && s[1..][1..] == s[2..];
      QuotesAreLost(s[2..]);
    } else if |s| == 1 {
      assert t[2..] == "";
    }
  }

  /** What stands between the quotes. */
  function Inside(pattern: string): string {
    if HasWildcardChar(pattern) then Percent(pattern) else pattern
  }

  lemma {:induction false} QuotesOfPercent(s: string)
    ensures Quotes(Percent(s)) == Quotes(s)
  {
    if s != "" {
      QuotesOfPercent(s[1..]);
    }
  }

  lemma InsideQuotes(pattern: string)
    ensures Quotes(Inside(pattern)) == Quotes(pattern)
    ensures QUOTE in Inside(pattern) <==> QUOTE in pattern
  {
    QuotesOfPercent(pattern);
    NoQuotes(pattern);
    NoQuotes(Inside(pattern));
  }

  lemma ReadsRight(left: Operand, like: bool, tail: string)
    ensures ReadRight(left, like, " '" + tail) ==
            match ReadLiteral(tail)
            case None => None
            case Some((value, rest)) => Some((Test(left, if like then Like(value) else Equals(value)), rest))
  {
    var s := " '" + tail;
    assert s[1..] == "'" + tail && ("'" + tail)[1..] == tail;
    assert SkipSpaces(s) == "'" + tail;
    hide ReadLiteral;
  }

  lemma ReadsProperty(after: string)
    requires after != ""
    ensures ReadOperand(ROUTING_KEY_PROP + after) == Some((Property, after))
  {
    assert (ROUTING_KEY_PROP + after)[|ROUTING_KEY_PROP|..] == after;
  }

  lemma ReadsComparison(like: bool, text: string)
    ensures ReadTest(Emit(if like then " LIKE" else " =", text)) == ReadRight(Property, like, " '" + (text + "'"))
  {
    var op := if like then " LIKE" else " =";
    var right := " '" + (text + "'");
    ReadsProperty(op + right);
    assert (op + right)[1..] == op[1..] + right;
    assert SkipSpaces(op + right) == op[1..] + right;
    assert (op[1..] + right)[|op| - 1..] == right;
    hide ReadRight, ReadOperand;
    if like {
      assert "LIKE" <= op[1..] + right;
    }
  }

  /** The text starts with the property, the operator and a literal that begins as the pattern does. */
  lemma ReadsFirst(pattern: string)
    ensures ReadTest(ToSelector(pattern)) ==
            match ReadLiteral(Inside(pattern) + "'")
            case None => None
            case Some((value, rest)) =>
              Some((Test(Property, if HasWildcardChar(pattern) then Like(value) else Equals(value)), rest))
  {
    hide ReadLiteral, ReadTest, ReadRight, Emit, Percent;
    ReadsComparison(HasWildcardChar(pattern), Inside(pattern));
    ReadsRight(Property, HasWildcardChar(pattern), Inside(pattern) + "'");
  }

  /** The text is read as the comparison that was meant exactly when the pattern has no quote. */
  lemma ReadsAsMeantExactly(pattern: string)
    ensures ReadsAsMeant(pattern) <==> QUOTE !in pattern
  {
    ReadsFirst(pattern);
    InsideQuotes(pattern);
    hide Percent, ToSelector, ReadTest;
    if QUOTE !in pattern {
      PlainComesBack(Inside(pattern));
    } else {
      QuotesAreLost(Inside(pattern));
    }
  }

  // ---------------------------------------------------------------- which keys the text accepts

  lemma UnquotedText(pattern: string, key: string)
    requires QUOTE !in pattern
    ensures SelectorAccepts(ToSelector(pattern), key) <==> ComparisonAccepts(ComparisonFor(pattern), key)
  {
    ReadsAsMeantExactly(pattern);
    hide ReadSelector, ToSelector, ComparisonAccepts;
    assert Holds([Meant(pattern)][0], key) <==> ComparisonAccepts(ComparisonFor(pattern), key);
  }

  lemma {:induction false} LikeAcceptsItself(s: string)
    ensures LikeMatch(s, s)
  {
    if s != "" {
      LikeAcceptsItself(s[1..]);
      if s[0] == '%' {
        PercentSwallows(s[1..], s[..1], s[1..]);
        assert "%" + s[1..] == s && s[..1] + s[1..] == s;
      }
    }
  }

  lemma {:induction false} QuotesOfConcat(a: string, b: string)
    ensures Quotes(a + b) == Quotes(a) + Quotes(b)
  {
    if a == "" {
      assert a + b == b;
    } else {
      assert (a + b)[1..] == a[1..] + b;
      QuotesOfConcat(a[1..], b);
    }
  }

  lemma QuotesOfJoin(words: seq<string>)
    requires |words| > 1
    ensures Quotes(Join(words)) == Quotes(words[0]) + Quotes(Join(words[1..]))
  {
    QuotesOfConcat(words[0] + ".", Join(words[1..]));
    QuotesOfConcat(words[0], ".");
    assert "."[1..] == "";
  }

  /** A topic pattern accepts only keys with at least its own quotes: no wildcard word has any. */
  lemma {:induction false} AcceptedKeysKeepQuotes(p: seq<string>, k: seq<string>)
    requires Accepts(p, k)
    ensures Quotes(Join(p)) <= Quotes(Join(k))
  {
    if p == [] {
    } else if p[0] == HASH {
      var n :| 0 <= n <= |k| && Accepts(p[1..], k[n..]);
      AcceptedKeysKeepQuotes(p[1..], k[n..]);
      SuffixHasFewerQuotes(k, n);
      assert Quotes(HASH) == 0 by {
        assert HASH[1..] == "";
      }
      if |p| > 1 {
        QuotesOfJoin(p);
      }
    } else {
      AcceptedKeysKeepQuotes(p[1..], k[1..]);
      assert Quotes(STAR) == 0 by {
        assert STAR[1..] == "";
      }
      if |p| > 1 {
        QuotesOfJoin(p);
      }
      if |k| > 1 {
        QuotesOfJoin(k);
      }
    }
  }

  lemma {:induction false} SuffixHasFewerQuotes(k: seq<string>, n: nat)
    requires n <= |k|
    ensures Quotes(Join(k[n..])) <= Quotes(Join(k))
  {
    if n > 0 {
      SuffixHasFewerQuotes(k[1..], n - 1);
      assert k[1..][n - 1..] == k[n..];
      if |k| > 1 {
        QuotesOfJoin(k);
      }
    }
  }

  /** A quoted pattern and its text differ on some key: the text accepts one too many, or is not read at all. */
  lemma QuotedPatternDiffers(pattern: string) returns (key: string)
    requires QUOTE in pattern
    ensures SelectorAccepts(ToSelector(pattern), key) != TopicMatch(pattern, key)
  {
    var words := Split(pattern);
    JoinOfSplit(pattern);
    ReadsFirst(pattern);
    InsideQuotes(pattern);
    QuotesAreLost(Inside(pattern));
    var tests := ReadSelector(ToSelector(pattern));
    if tests.None? {
      key := Join(Fill(words, "x"));
      SplitIsDotFree(pattern);
      FillIsAccepted(words, "x");
      forall i | 0 <= i < |words| ensures '.' !in Fill(words, "x")[i] {
        FillAt(words, "x", i);
      }
      SplitOfJoin(Fill(words, "x"));
    } else {
      var value := ReadLiteral(Inside(pattern) + "'").value.0;
      key := value;
      LikeAcceptsItself(value);
      assert Holds(tests.value[0], key);
      JoinOfSplit(key);
      if TopicMatch(pattern, key) {
        AcceptedKeysKeepQuotes(words, Split(key));
      }
    }
  }

  /**
   * The emitted selector and the topic pattern agree on every key exactly when the pattern has no
   * quote, and has no wildcard or is just `#`.
   */
  lemma SelectorAgreesExactly(pattern: string)
    ensures (forall key :: SelectorAccepts(ToSelector(pattern), key) <==> TopicMatch(pattern, key))
            <==> QUOTE !in pattern && (!HasWildcardChar(pattern) || pattern == HASH)
  {
    if QUOTE in pattern {
      var key := QuotedPatternDiffers(pattern);
    } else {
      forall key ensures SelectorAccepts(ToSelector(pattern), key) <==> ComparisonAccepts(ComparisonFor(pattern), key) {
        UnquotedText(pattern, key);
      }
      ComparisonAgreesExactly(pattern);
      hide SelectorAccepts, ComparisonAccepts, TopicMatch;
    }
  }

  /** For patterns without a wildcard they agree exactly when the pattern has no quote. */
  lemma SelectorIsExactWithoutWildcards(pattern: string)
    requires !HasWildcardChar(pattern)
    ensures (forall key :: SelectorAccepts(ToSelector(pattern), key) <==> TopicMatch(pattern, key))
            <==> QUOTE !in pattern
  {
    SelectorAgreesExactly(pattern);
  }

  /**
   * The emitted selector is read as meant and accepts every key the pattern accepts exactly when the
   * pattern has no quote, and no word of it is `#` or it is just `#`.
   */
  lemma SelectorCoversPattern(pattern: string)
    ensures ReadsAsMeant(pattern)
            && (forall key :: TopicMatch(pattern, key) ==> SelectorAccepts(ToSelector(pattern), key))
            <==> QUOTE !in pattern && (HASH !in Split(pattern) || pattern == HASH)
  {
    ReadsAsMeantExactly(pattern);
    if QUOTE !in pattern {
      forall key ensures SelectorAccepts(ToSelector(pattern), key) <==> ComparisonAccepts(ComparisonFor(pattern), key) {
        UnquotedText(pattern, key);
      }
      ComparisonCoversPattern(pattern);
      hide SelectorAccepts, ComparisonAccepts, TopicMatch;
    }
  }

  /** Without a quote, a key that aligns so that each `#` takes a word is accepted by the emitted selector. */
  lemma SelectorAcceptsAlignedKey(pattern: string, key: string, runs: seq<seq<string>>)
    requires Alignment(Split(pattern), Split(key), runs) && HashesTakeWords(runs)
    ensures QUOTE !in pattern ==> SelectorAccepts(ToSelector(pattern), key)
  {
    ComparisonAcceptsAlignedKey(pattern, key, runs);
    if QUOTE !in pattern {
      UnquotedText(pattern, key);
    }
  }

  /** The selector of `*` accepts keys with more words than the pattern has. */
  lemma SelectorOverAccepts()
    ensures SelectorAccepts(ToSelector("*"), "a.b") && !TopicMatch("*", "a.b")
  {
    UnquotedText("*", "a.b");
    ComparisonOverAccepts();
    hide SelectorAccepts, TopicMatch;
  }

  // ---------------------------------------------------------------- patterns with a quote

  /** A literal ends at its first quote that is not doubled. */
  lemma {:induction false} LiteralEnds(a: string, b: string)
    requires QUOTE !in a && (b == "" || b[0] != QUOTE)
    ensures ReadLiteral(a + "'" + b) == Some((a, b))
  {
    var s := a + "'" + b;
    if a == "" {
      assert s[1..] == b;
    } else {
      assert s[1..] == a[1..] + "'" + b;
      LiteralEnds(a[1..], b);
      assert [a[0]] + a[1..] == a;
    }
  }

  lemma ReadsAlone(s: string, test: Test)
    requires ReadTest(s) == Some((test, ""))
    ensures ReadSelector(s) == Some([test])
  {
    hide ReadTest;
  }

  lemma ReadsOr(s: string, test: Test, rest: string, tests: seq<Test>)
    requires ReadTest(s) == Some((test, " OR " + rest)) && rest != "" && rest[0] != ' '
    requires ReadSelector(rest) == Some(tests)
    ensures ReadSelector(s) == Some([test] + tests)
  {
    OrIsSkipped(rest);
    hide ReadTest, SkipSpaces;
  }

  lemma OrIsSkipped(rest: string)
    requires rest != "" && rest[0] != ' '
    ensures var more := SkipSpaces(" OR " + rest);
            "OR" <= more && |more| > 2 && more[2] == ' ' && SkipSpaces(more[2..]) == rest
  {
    var more := "OR " + rest;
    assert (" OR " + rest)[1..] == more;
    assert more[2..] == " " + rest && (" " + rest)[1..] == rest;
  }

  lemma ReadsNoMore(s: string, test: Test, rest: string)
    requires ReadTest(s) == Some((test, rest)) && rest != "" && rest[0] !in {' ', 'O'}
    ensures ReadSelector(s).None?
  {
    hide ReadTest;
  }

  /** A pattern without wildcards that has a quote ends the literal there; the rest of it follows. */
  lemma ReadsUpToTheQuote(a: string, b: string)
    requires QUOTE !in a && b != "" && b[0] != QUOTE && !HasWildcardChar(a + "'" + b)
    ensures ReadTest(ToSelector(a + "'" + b)) == Some((Test(Property, Equals(a)), b + "'"))
  {
    ReadsFirst(a + "'" + b);
    LiteralEnds(a, b + "'");
    assert (a + "'" + b) + "'" == a + "'" + (b + "'");
    hide ReadTest, ToSelector, ReadLiteral;
  }

  /** An apostrophe leaves text after the literal: no selector. */
  lemma ApostropheIsMalformed()
    ensures ReadSelector(ToSelector("o'brien")).None?
  {
    hide ReadTest, ToSelector, ReadSelector;
    assert "o" + "'" + "brien" == "o'brien";
    ReadsUpToTheQuote("o", "brien");
    ReadsNoMore(ToSelector("o'brien"), Test(Property, Equals("o")), "brien" + "'");
  }

  /** A pattern that closes the literal itself: the text accepts every key. */
  lemma QuotedPatternAcceptsEverything(key: string)
    ensures SelectorAccepts(ToSelector("x' OR 'a'='a"), key)
  {
    hide ReadTest, ToSelector, ReadSelector;
    var meant, always := Test(Property, Equals("x")), Test(Text("a"), Equals("a"));
    var b := " OR 'a'='a";
    assert "x" + "'" + b == "x' OR 'a'='a";
    ReadsUpToTheQuote("x", b);
    TautologyIsRead();
    ReadsAlone("'a'='a'", always);
    assert b + "'" == " OR " + "'a'='a'";
    ReadsOr(ToSelector("x' OR 'a'='a"), meant, "'a'='a'", [always]);
    assert ([meant] + [always])[1] == always && Holds(always, key);
  }

  lemma TautologyIsRead()
    ensures ReadTest("'a'='a'") == Some((Test(Text("a"), Equals("a")), ""))
  {
    LiteralEnds("a", "='a'");
    LiteralEnds("a", "");
    assert "'a'='a'"[1..] == "a" + "'" + "='a'" && "='a'"[1..] == "'a'" && "'a'"[1..] == "a" + "'" + "";
    hide ReadLiteral;
  }
}
