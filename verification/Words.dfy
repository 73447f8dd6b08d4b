/** Dot-delimited words: `string.Split('.')` and its inverse, and decimal numerals. */
module Words {

  /** No word produced by a split contains the delimiter. */
  predicate DotFree(words: seq<string>) {
    forall i :: 0 <= i < |words| ==> '.' !in words[i]
  }

  function Join(words: seq<string>): (s: string)
  {
    if |words| == 0 then ""
    else if |words| == 1 then words[0]
    else words[0] + "." + Join(words[1..])
  }

  function Split(s: string): (words: seq<string>)
    ensures |words| >= 1
  {
    if s == "" then [""]
    else
      var rest := Split(s[1..]);
      if s[0] == '.' then [""] + rest else [[s[0]] + rest[0]] + rest[1..]
  }

  lemma {:induction false} SplitIsDotFree(s: string)
    ensures DotFree(Split(s))
  {
    if s != "" {
      SplitIsDotFree(s[1..]);
    }
  }

  /** Joining undoes splitting, for every string. */
  lemma {:induction false} JoinOfSplit(s: string)
    ensures Join(Split(s)) == s
  {
    if s != "" {
      var rest := Split(s[1..]);
      JoinOfSplit(s[1..]);
      if s[0] == '.' {
        assert ([""] + rest)[1..] == rest;
      } else if |rest| > 1 {
        var head := [[s[0]] + rest[0]];
        assert (head + rest[1..])[1..] == rest[1..];
      }
    }
  }

  /** A dot-free word is the first word of whatever follows it after a dot. */
  lemma {:induction false} SplitAfterWord(w: string, rest: string)
    requires '.' !in w
    ensures Split(w + "." + rest) == [w] + Split(rest)
  {
    var s := w + "." + rest;
    if w == "" {
      assert s[1..] == rest;
    } else {
      assert s[1..] == w[1..] + "." + rest;
      SplitAfterWord(w[1..], rest);
      assert s[0] == w[0] && w[0] != '.';
      assert [w[0]] + w[1..] == w;
    }
  }

  lemma {:induction false} SplitOfWord(w: string)
    requires '.' !in w
    ensures Split(w) == [w]
  {
    if w != "" {
      SplitOfWord(w[1..]);
      assert w[0] != '.' && [w[0]] + w[1..] == w;
    }
  }

  /** Splitting undoes joining, for every non-empty list of dot-free words. */
  lemma {:induction false} SplitOfJoin(words: seq<string>)
    requires |words| >= 1 && DotFree(words)
    ensures Split(Join(words)) == words
  {
    if |words| == 1 {
      SplitOfWord(words[0]);
    } else {
      SplitOfJoin(words[1..]);
      SplitAfterWord(words[0], Join(words[1..]));
    }
  }

  lemma {:induction false} JoinOfConcat(a: seq<string>, b: seq<string>)
    requires |a| >= 1 && |b| >= 1
    ensures Join(a + b) == Join(a) + "." + Join(b)
  {
    assert (a + b)[1..] == a[1..] + b;
    if |a| == 1 {
      assert a[1..] + b == b;
    } else {
      JoinOfConcat(a[1..], b);
    }
  }

  // ---------------------------------------------------------------- decimal numerals

  function Digit(d: nat): char
    requires d < 10
  {
    ('0' as int + d) as char
  }

  function Decimal(n: nat): (s: string)
    ensures s != ""
  {
    if n < 10 then [Digit(n)] else Decimal(n / 10) + [Digit(n % 10)]
  }

  /** No numeral contains the word delimiter. */
  lemma {:induction false} DecimalIsDotFree(n: nat)
    ensures '.' !in Decimal(n)
  {
    if n >= 10 {
      DecimalIsDotFree(n / 10);
    }
  }

  lemma {:induction false} DecimalIsSpaceFree(n: nat)
    ensures ' ' !in Decimal(n)
  {
    if n >= 10 {
      DecimalIsSpaceFree(n / 10);
    }
  }

  /** Distinct numbers have distinct numerals. */
  lemma {:induction false} DecimalIsInjective(m: nat, n: nat)
    requires Decimal(m) == Decimal(n)
    ensures m == n
  {
    var a, b := Decimal(m), Decimal(n);
    assert a[|a| - 1] == Digit(m % 10);
    assert b[|b| - 1] == Digit(n % 10);
    if m >= 10 && n >= 10 {
      assert a[..|a| - 1] == Decimal(m / 10);
      assert b[..|b| - 1] == Decimal(n / 10);
      DecimalIsInjective(m / 10, n / 10);
    }
  }
}
