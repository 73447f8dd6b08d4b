/** `InMemoryBus.TopicMatch`: `*` stands for one word, `#` for any number of words. */
module TopicMatching {
  import opened Words

  const STAR := "*"
  const HASH := "#"

  /** What `Match` computes on the words still to be read. */
  function Accepts(p: seq<string>, k: seq<string>): bool
  {
    if p == [] then k == []
    else if p[0] == HASH then exists n :: 0 <= n <= |k| && Accepts(p[1..], k[n..])
    else k != [] && (p[0] == STAR || p[0] == k[0]) && Accepts(p[1..], k[1..])
  }

  function TopicMatch(pattern: string, key: string): bool {
    Accepts(Split(pattern), Split(key))
  }

  /** One turn of the matcher, by positions instead of suffixes. */
  lemma AcceptsAt(p: seq<string>, pi: nat, k: seq<string>, ki: nat)
    requires pi < |p| && ki <= |k|
    ensures Accepts(p[pi..], k[ki..])
            <==> if p[pi] == HASH then exists n :: ki <= n <= |k| && Accepts(p[pi + 1..], k[n..])
                 else ki < |k| && (p[pi] == STAR || p[pi] == k[ki]) && Accepts(p[pi + 1..], k[ki + 1..])
  {
    assert p[pi..][0] == p[pi] && p[pi..][1..] == p[pi + 1..];
    if p[pi] == HASH {
      assert forall j :: 0 <= j <= |k[ki..]| ==> k[ki..][j..] == k[ki + j..];
      if n :| ki <= n <= |k| && Accepts(p[pi + 1..], k[n..]) {
        assert k[ki..][n - ki..] == k[n..];
      }
    } else if ki < |k| {
      assert k[ki..][1..] == k[ki + 1..];
    }
  }

  /** The recursive matcher with its loop over how many words a `#` takes. */
  method Match(p: seq<string>, pi: nat, k: seq<string>, ki: nat) returns (r: bool)
    requires pi <= |p| && ki <= |k|
    ensures r <==> Accepts(p[pi..], k[ki..])
    decreases |p| - pi
  {
    if pi == |p| {
      return ki == |k|;
    }
    AcceptsAt(p, pi, k, ki);
    hide Accepts;
    if p[pi] == HASH {
      var n := ki;
      while n <= |k|
        invariant ki <= n <= |k| + 1
        invariant forall j :: ki <= j < n ==> !Accepts(p[pi + 1..], k[j..])
      {
        var rest := Match(p, pi + 1, k, n);
        if rest {
          return true;
        }
        n := n + 1;
      }
      return false;
    }
    if ki == |k| {
      return false;
    }
    if p[pi] == STAR || p[pi] == k[ki] {
      r := Match(p, pi + 1, k, ki + 1);
      return;
    }
    return false;
  }

  method ComputeTopicMatch(pattern: string, key: string) returns (r: bool)
    ensures r <==> TopicMatch(pattern, key)
  {
    var p, k := Split(pattern), Split(key);
    assert p[0..] == p && k[0..] == k;
    r := Match(p, 0, k, 0);
  }

  // ---------------------------------------------------------------- the standard's reading

  /** A run of key words that one pattern word may stand for (section 3.1.3.3 of AMQP 0-9-1). */
  predicate Fits(word: string, run: seq<string>) {
    if word == HASH then true
    else if word == STAR then |run| == 1
    else run == [word]
  }

  function Flatten(runs: seq<seq<string>>): seq<string> {
    if runs == [] then [] else runs[0] + Flatten(runs[1..])
  }

  /** The key's words cut into consecutive runs, one for each pattern word. */
  ghost predicate Alignment(p: seq<string>, k: seq<string>, runs: seq<seq<string>>) {
    && |runs| == |p|
    && Flatten(runs) == k
    && forall i :: 0 <= i < |p| ==> Fits(p[i], runs[i])
  }

  lemma {:induction false} AcceptsFromAlignment(p: seq<string>, k: seq<string>, runs: seq<seq<string>>)
    requires Alignment(p, k, runs)
    ensures Accepts(p, k)
  {
    if p != [] {
      var rest := Flatten(runs[1..]);
      AcceptsFromAlignment(p[1..], rest, runs[1..]);
      assert Fits(p[0], runs[0]);
      assert k[|runs[0]|..] == rest;
    }
  }

  lemma {:induction false} AlignmentFromAccepts(p: seq<string>, k: seq<string>) returns (runs: seq<seq<string>>)
    requires Accepts(p, k)
    ensures Alignment(p, k, runs)
  {
    if p == [] {
      runs := [];
    } else {
      var n := 1;
      if p[0] == HASH {
        n :| 0 <= n <= |k| && Accepts(p[1..], k[n..]);
      }
      var rest := AlignmentFromAccepts(p[1..], k[n..]);
      runs := [k[..n]] + rest;
      assert runs[1..] == rest;
      assert k[..n] + k[n..] == k;
    }
  }

  /** The matcher accepts exactly the keys that some alignment explains. */
  lemma AcceptsIffAligned(p: seq<string>, k: seq<string>)
    ensures Accepts(p, k) <==> exists runs :: Alignment(p, k, runs)
  {
    if Accepts(p, k) {
      var runs := AlignmentFromAccepts(p, k);
    }
    forall runs | Alignment(p, k, runs) ensures Accepts(p, k) {
      AcceptsFromAlignment(p, k, runs);
    }
  }

  // ---------------------------------------------------------------- rewriting patterns

  lemma {:induction false} FlattenOfConcat(a: seq<seq<string>>, b: seq<seq<string>>)
    ensures Flatten(a + b) == Flatten(a) + Flatten(b)
  {
    if a == [] {
      assert a + b == b;
    } else {
      assert (a + b)[1..] == a[1..] + b;
      FlattenOfConcat(a[1..], b);
    }
  }

  lemma AlignmentOfConcat(p: seq<string>, k: seq<string>, pr: seq<seq<string>>, q: seq<string>, l: seq<string>,
                          qr: seq<seq<string>>)
    requires Alignment(p, k, pr) && Alignment(q, l, qr)
    ensures Alignment(p + q, k + l, pr + qr)
  {
    FlattenOfConcat(pr, qr);
  }

  /** Patterns that accept the same keys may replace one another inside any longer pattern. */
  lemma AcceptsIsACongruence(a: seq<string>, x: seq<string>, y: seq<string>, b: seq<string>, k: seq<string>)
    requires forall j :: Accepts(x, j) <==> Accepts(y, j)
    ensures Accepts(a + x + b, k) <==> Accepts(a + y + b, k)
  {
    if Accepts(a + x + b, k) {
      ReplaceInside(a, x, y, b, k);
    }
    if Accepts(a + y + b, k) {
      ReplaceInside(a, y, x, b, k);
    }
  }

  lemma ReplaceInside(a: seq<string>, x: seq<string>, y: seq<string>, b: seq<string>, k: seq<string>)
    requires forall j :: Accepts(x, j) ==> Accepts(y, j)
    requires Accepts(a + x + b, k)
    ensures Accepts(a + y + b, k)
  {
    hide Accepts;
    var runs := AlignmentFromAccepts(a + x + b, k);
    var ra, rx, rb := runs[..|a|], runs[|a|..|a| + |x|], runs[|a| + |x|..];
    assert runs == ra + rx + rb;
    FlattenOfConcat(ra, rx);
    FlattenOfConcat(ra + rx, rb);
    PartFits(a, x, b, runs);
    AcceptsFromAlignment(x, Flatten(rx), rx);
    var ry := AlignmentFromAccepts(y, Flatten(rx));
    AlignmentOfConcat(a, Flatten(ra), ra, y, Flatten(rx), ry);
    AlignmentOfConcat(a + y, Flatten(ra) + Flatten(rx), ra + ry, b, Flatten(rb), rb);
    AcceptsFromAlignment(a + y + b, k, ra + ry + rb);
  }

  lemma PartFits(a: seq<string>, x: seq<string>, b: seq<string>, runs: seq<seq<string>>)
    requires |runs| == |a| + |x| + |b|
    requires forall i :: 0 <= i < |runs| ==> Fits((a + x + b)[i], runs[i])
    ensures forall i :: 0 <= i < |a| ==> Fits(a[i], runs[..|a|][i])
    ensures forall i :: 0 <= i < |x| ==> Fits(x[i], runs[|a|..|a| + |x|][i])
    ensures forall i :: 0 <= i < |b| ==> Fits(b[i], runs[|a| + |x|..][i])
  {
    forall i | 0 <= i < |a| ensures Fits(a[i], runs[..|a|][i]) {
      assert (a + x + b)[i] == a[i];
    }
    forall i | 0 <= i < |x| ensures Fits(x[i], runs[|a|..|a| + |x|][i]) {
      assert (a + x + b)[|a| + i] == x[i];
    }
    forall i | 0 <= i < |b| ensures Fits(b[i], runs[|a| + |x|..][i]) {
      assert (a + x + b)[|a| + |x| + i] == b[i];
    }
  }

  /** `#` accepts everything. */
  lemma HashAcceptsAll(k: seq<string>)
    ensures Accepts([HASH], k)
  {
    assert [HASH][1..] == [] && k[|k|..] == [];
  }

  lemma HashHash(k: seq<string>)
    ensures Accepts([HASH, HASH], k) <==> Accepts([HASH], k)
  {
    HashAcceptsAll(k);
    assert [HASH, HASH][1..] == [HASH] && k[0..] == k;
  }

  lemma HashStar(k: seq<string>)
    ensures Accepts([HASH, STAR], k) <==> Accepts([STAR, HASH], k)
  {
    assert [HASH, STAR][1..] == [STAR] && [STAR, HASH][1..] == [HASH] && [STAR][1..] == [];
    if k != [] {
      HashAcceptsAll(k[1..]);
      var last := k[|k| - 1..];
      assert last[1..] == [];
    } else {
      assert forall n :: 0 <= n <= |k| ==> k[n..] == [];
    }
  }

  /** Two adjacent `#` are one; a `#` commutes with a neighbouring `*`; both in any context. */
  lemma HashLaws(a: seq<string>, b: seq<string>, k: seq<string>)
    ensures Accepts(a + [HASH, HASH] + b, k) <==> Accepts(a + [HASH] + b, k)
    ensures Accepts(a + [HASH, STAR] + b, k) <==> Accepts(a + [STAR, HASH] + b, k)
  {
    forall j ensures Accepts([HASH, HASH], j) <==> Accepts([HASH], j) {
      HashHash(j);
    }
    forall j ensures Accepts([HASH, STAR], j) <==> Accepts([STAR, HASH], j) {
      HashStar(j);
    }
    AcceptsIsACongruence(a, [HASH, HASH], [HASH], b, k);
    AcceptsIsACongruence(a, [HASH, STAR], [STAR, HASH], b, k);
  }

  // ---------------------------------------------------------------- patterns without wildcard words

  predicate Literal(words: seq<string>) {
    STAR !in words && HASH !in words
  }

  /** Without wildcard words, matching is equality of the whole strings. */
  lemma LiteralMatchIsEquality(pattern: string, key: string)
    requires Literal(Split(pattern))
    ensures TopicMatch(pattern, key) <==> pattern == key
  {
    LiteralAccepts(Split(pattern), Split(key));
    JoinOfSplit(pattern);
    JoinOfSplit(key);
  }

  lemma {:induction false} LiteralAccepts(p: seq<string>, k: seq<string>)
    requires Literal(p)
    ensures Accepts(p, k) <==> p == k
  {
    if p != [] && k != [] {
      LiteralAccepts(p[1..], k[1..]);
      assert p == [p[0]] + p[1..] && k == [k[0]] + k[1..];
    }
  }

  /** The key made by filling every wildcard word with one fixed word is accepted. */
  function Fill(p: seq<string>, w: string): seq<string> {
    if p == [] then [] else [if p[0] == STAR || p[0] == HASH then w else p[0]] + Fill(p[1..], w)
  }

  lemma {:induction false} FillIsAccepted(p: seq<string>, w: string)
    ensures |Fill(p, w)| == |p| && Accepts(p, Fill(p, w))
  {
    if p != [] {
      FillIsAccepted(p[1..], w);
      assert Fill(p, w)[1..] == Fill(p[1..], w);
    }
  }

  lemma {:induction false} FillAt(p: seq<string>, w: string, i: nat)
    requires i < |p|
    ensures |Fill(p, w)| == |p|
    ensures Fill(p, w)[i] == if p[i] == STAR || p[i] == HASH then w else p[i]
  {
    FillIsAccepted(p, w);
    if i > 0 {
      FillAt(p[1..], w, i - 1);
    }
  }
}
