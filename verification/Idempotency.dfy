/** The time-windowed idempotency store and the handler that wraps it. */
module Idempotency {
  import opened Arithmetic

  // ---------------------------------------------------------------- the store

  /** The key was marked and its window has not run out. */
  predicate Duplicate(seen: map<string, int>, key: string, now: int) {
    key in seen && seen[key] > now
  }

  function Marked(seen: map<string, int>, key: string, ttlSeconds: int, now: int): map<string, int> {
    if Duplicate(seen, key, now) then seen else seen[key := now + ttlSeconds * 1000]
  }

  class InMemoryIdempotencyStore {
    var seen: map<string, int>   // key to expiry time

    constructor ()
      ensures seen == map[]
    {
      seen := map[];
    }

    method TryMarkSeen(key: string, ttlSeconds: int, now: int) returns (duplicate: bool)
      modifies this
      ensures duplicate == Duplicate(old(seen), key, now)
      ensures seen == Marked(old(seen), key, ttlSeconds, now)
    {
      if key in seen {
        var expiry := seen[key];
        if expiry > now {
          return true;
        }
      }
      seen := seen[key := now + ttlSeconds * 1000];
      return false;
    }
  }

  datatype Call = Call(key: string, ttlSeconds: int, now: int) {
    function Expiry(): int { now + ttlSeconds * 1000 }
  }

  /** The store after a list of calls. */
  function SeenAfter(calls: seq<Call>): map<string, int> {
    if calls == [] then map[]
    else
      var last := calls[|calls| - 1];
      Marked(SeenAfter(calls[..|calls| - 1]), last.key, last.ttlSeconds, last.now)
  }

  /** The call at `i` is told that its key is new. */
  predicate Fresh(calls: seq<Call>, i: nat)
    requires i < |calls|
  {
    !Duplicate(SeenAfter(calls[..i]), calls[i].key, calls[i].now)
  }

  ghost predicate ClockAdvances(calls: seq<Call>) {
    forall i, j :: 0 <= i < j < |calls| ==> calls[i].now <= calls[j].now
  }

  /** No call between the two was told that the key is new. */
  ghost predicate NoneFreshBetween(calls: seq<Call>, i: nat, j: nat, key: string) {
    forall l :: i < l < j && l < |calls| && calls[l].key == key ==> !Fresh(calls, l)
  }

  lemma SeenOneMore(calls: seq<Call>, n: nat)
    requires n < |calls|
    ensures SeenAfter(calls[..n + 1]) == Marked(SeenAfter(calls[..n]), calls[n].key, calls[n].ttlSeconds, calls[n].now)
  {
    assert calls[..n + 1][..n] == calls[..n];
  }

  /** A fresh call's expiry stays recorded until the next fresh call of its key. */
  lemma {:induction false} ExpiryStays(calls: seq<Call>, i: nat, j: nat)
    requires i < j <= |calls| && Fresh(calls, i) && NoneFreshBetween(calls, i, j, calls[i].key)
    ensures calls[i].key in SeenAfter(calls[..j]) && SeenAfter(calls[..j])[calls[i].key] == calls[i].Expiry()
    decreases j
  {
    SeenOneMore(calls, j - 1);
    if i + 1 < j {
      ExpiryStays(calls, i, j - 1);
      assert calls[j - 1].key == calls[i].key ==> !Fresh(calls, j - 1);
    }
  }

  /** A recorded expiry was left by some fresh call, with no fresh call of the key since. */
  lemma {:induction false} ExpiryHasCause(calls: seq<Call>, j: nat, key: string) returns (i: nat)
    requires j <= |calls| && key in SeenAfter(calls[..j])
    ensures i < j && calls[i].key == key && Fresh(calls, i) && NoneFreshBetween(calls, i, j, key)
    decreases j
  {
    assert j > 0;
    SeenOneMore(calls, j - 1);
    if calls[j - 1].key == key && Fresh(calls, j - 1) {
      i := j - 1;
    } else {
      i := ExpiryHasCause(calls, j - 1, key);
    }
  }

  /** A call is suppressed exactly when the window of the latest fresh call of its key is still open. */
  lemma SuppressedExactlyInWindow(calls: seq<Call>, j: nat)
    requires j < |calls|
    ensures !Fresh(calls, j) <==>
            exists i :: 0 <= i < j && calls[i].key == calls[j].key && Fresh(calls, i)
                        && NoneFreshBetween(calls, i, j, calls[j].key) && calls[j].now < calls[i].Expiry()
  {
    var key := calls[j].key;
    if key in SeenAfter(calls[..j]) {
      var i := ExpiryHasCause(calls, j, key);
      ExpiryStays(calls, i, j);
    }
    forall i | 0 <= i < j && calls[i].key == key && Fresh(calls, i) && NoneFreshBetween(calls, i, j, key)
      ensures key in SeenAfter(calls[..j]) && SeenAfter(calls[..j])[key] == calls[i].Expiry()
    {
      ExpiryStays(calls, i, j);
    }
  }

  /** Two fresh verdicts for a key are at least the earlier call's window apart. */
  lemma {:induction false} FreshVerdictsAreApart(calls: seq<Call>, i: nat, j: nat)
    requires ClockAdvances(calls) && i < j < |calls| && calls[i].key == calls[j].key
    requires Fresh(calls, i) && Fresh(calls, j)
    ensures calls[i].Expiry() <= calls[j].now
    decreases j
  {
    if NoneFreshBetween(calls, i, j, calls[i].key) {
      ExpiryStays(calls, i, j);
    } else {
      var l :| i < l < j && l < |calls| && calls[l].key == calls[i].key && Fresh(calls, l);
      FreshVerdictsAreApart(calls, i, l);
    }
  }

  // ---------------------------------------------------------------- how many per window

  /** The times at which the first `n` calls were told that the key is new. */
  function FreshTimes(calls: seq<Call>, n: nat, key: string): seq<int>
    requires n <= |calls|
  {
    if n == 0 then []
    else FreshTimes(calls, n - 1, key)
         + (if calls[n - 1].key == key && Fresh(calls, n - 1) then [calls[n - 1].now] else [])
  }

  ghost predicate Spaced(times: seq<int>, gap: int) {
    forall a, b :: 0 <= a < b < |times| ==> times[a] + gap <= times[b]
  }

  /** Every fresh time is the time of a fresh call. */
  lemma {:induction false} FreshTimeHasCall(calls: seq<Call>, n: nat, key: string, a: nat) returns (i: nat)
    requires n <= |calls| && a < |FreshTimes(calls, n, key)|
    ensures i < n && calls[i].key == key && Fresh(calls, i) && calls[i].now == FreshTimes(calls, n, key)[a]
    decreases n
  {
    var before := FreshTimes(calls, n - 1, key);
    if a < |before| {
      i := FreshTimeHasCall(calls, n - 1, key, a);
    } else {
      i := n - 1;
    }
  }

  lemma {:induction false} FreshTimesAreSpaced(calls: seq<Call>, n: nat, key: string, ttlSeconds: int)
    requires ClockAdvances(calls) && n <= |calls|
    requires forall i :: 0 <= i < |calls| ==> calls[i].ttlSeconds == ttlSeconds
    ensures Spaced(FreshTimes(calls, n, key), ttlSeconds * 1000)
    decreases n
  {
    if n > 0 {
      FreshTimesAreSpaced(calls, n - 1, key, ttlSeconds);
      var before := FreshTimes(calls, n - 1, key);
      if calls[n - 1].key == key && Fresh(calls, n - 1) {
        forall a | 0 <= a < |before| ensures before[a] + ttlSeconds * 1000 <= calls[n - 1].now {
          var i := FreshTimeHasCall(calls, n - 1, key, a);
          FreshVerdictsAreApart(calls, i, n - 1);
        }
      }
    }
  }

  lemma {:induction false} SpacedSpans(times: seq<int>, gap: nat, a: nat, b: nat)
    requires Spaced(times, gap) && a < b <= |times|
    ensures (b - 1 - a) * gap <= times[b - 1] - times[a]
    decreases b
  {
    if a + 1 < b {
      SpacedSpans(times, gap, a, b - 1);
      assert times[b - 2] + gap <= times[b - 1];
      assert (b - 1 - a) * gap == (b - 2 - a) * gap + gap;
    }
  }

  /** With one positive window length, a span of `span` ms sees at most floor(span / window) + 1 fresh verdicts. */
  lemma FreshVerdictsPerSpan(calls: seq<Call>, key: string, ttlSeconds: nat, a: nat, b: nat, span: nat)
    requires ClockAdvances(calls) && ttlSeconds > 0
    requires forall i :: 0 <= i < |calls| ==> calls[i].ttlSeconds == ttlSeconds
    requires a < b <= |FreshTimes(calls, |calls|, key)|
    requires FreshTimes(calls, |calls|, key)[b - 1] - FreshTimes(calls, |calls|, key)[a] <= span
    ensures b - a <= span / (ttlSeconds * 1000) + 1
  {
    FreshTimesAreSpaced(calls, |calls|, key, ttlSeconds);
    SpacedSpans(FreshTimes(calls, |calls|, key), ttlSeconds * 1000, a, b);
    QuotientBounds(b - 1 - a, ttlSeconds * 1000, span);
  }

  // ---------------------------------------------------------------- the handler

  datatype Effect = RanInner(body: string) | Acked(body: string)

  /** The wrapped handler; `down` says that the store throws for this delivery. */
  class IdempotentHandler {
    const store: InMemoryIdempotencyStore
    const keyOf: string -> string
    const ttlSeconds: int
    var effects: seq<Effect>

    constructor (store: InMemoryIdempotencyStore, keyOf: string -> string, ttlSeconds: int)
      ensures this.store == store && this.keyOf == keyOf && this.ttlSeconds == ttlSeconds && effects == []
    {
      this.store := store;
      this.keyOf := keyOf;
      this.ttlSeconds := ttlSeconds;
      effects := [];
    }

    method Handle(body: string, now: int, down: bool)
      modifies this, store
      ensures effects == old(effects) + [EffectOf(old(store.seen), keyOf(body), body, now, down)]
      ensures store.seen == if down then old(store.seen) else Marked(old(store.seen), keyOf(body), ttlSeconds, now)
    {
      var alreadySeen := false;
      if !down {
        alreadySeen := store.TryMarkSeen(keyOf(body), ttlSeconds, now);
      }
      if !alreadySeen {
        effects := effects + [RanInner(body)];
      } else {
        effects := effects + [Acked(body)];
      }
    }
  }

  /** A store that is down counts as one that has never seen the key: the handler fails open. */
  function EffectOf(seen: map<string, int>, key: string, body: string, now: int, down: bool): Effect {
    if !down && Duplicate(seen, key, now) then Acked(body) else RanInner(body)
  }

  datatype Delivery = Delivery(body: string, now: int, down: bool)

  /** The calls that reach the store: one for each delivery that finds it up. */
  function CallsOf(ds: seq<Delivery>, keyOf: string -> string, ttlSeconds: int): seq<Call> {
    if ds == [] then []
    else
      var last := ds[|ds| - 1];
      CallsOf(ds[..|ds| - 1], keyOf, ttlSeconds)
      + (if last.down then [] else [Call(keyOf(last.body), ttlSeconds, last.now)])
  }

  /** The effects of a list of deliveries, as successive calls of `Handle` produce them. */
  function Effects(ds: seq<Delivery>, keyOf: string -> string, ttlSeconds: int): seq<Effect> {
    if ds == [] then []
    else
      var n := |ds| - 1;
      Effects(ds[..n], keyOf, ttlSeconds)
      + [EffectOf(SeenAfter(CallsOf(ds[..n], keyOf, ttlSeconds)), keyOf(ds[n].body), ds[n].body, ds[n].now, ds[n].down)]
  }

  function InnerRuns(effects: seq<Effect>, keyOf: string -> string, key: string): nat {
    if effects == [] then 0
    else
      var e := effects[|effects| - 1];
      InnerRuns(effects[..|effects| - 1], keyOf, key) + (if e.RanInner? && keyOf(e.body) == key then 1 else 0)
  }

  /** Deliveries of the key that found the store down. */
  function Outages(ds: seq<Delivery>, keyOf: string -> string, key: string): nat {
    if ds == [] then 0
    else
      var d := ds[|ds| - 1];
      Outages(ds[..|ds| - 1], keyOf, key) + (if d.down && keyOf(d.body) == key then 1 else 0)
  }

  lemma {:induction false} FreshInPrefix(calls: seq<Call>, more: seq<Call>, n: nat, key: string)
    requires n <= |calls|
    ensures FreshTimes(calls + more, n, key) == FreshTimes(calls, n, key)
  {
    if n > 0 {
      FreshInPrefix(calls, more, n - 1, key);
      assert (calls + more)[..n - 1] == calls[..n - 1];
    }
  }

  /** The inner handler runs once for each fresh verdict and once for each outage, never otherwise. */
  lemma {:induction false} InnerRunsAreFreshOrOutages(ds: seq<Delivery>, keyOf: string -> string, ttlSeconds: int,
                                                      key: string)
    ensures var calls := CallsOf(ds, keyOf, ttlSeconds);
            InnerRuns(Effects(ds, keyOf, ttlSeconds), keyOf, key)
            == |FreshTimes(calls, |calls|, key)| + Outages(ds, keyOf, key)
  {
    if ds != [] {
      var n := |ds| - 1;
      InnerRunsAreFreshOrOutages(ds[..n], keyOf, ttlSeconds, key);
      var before := CallsOf(ds[..n], keyOf, ttlSeconds);
      var effects := Effects(ds[..n], keyOf, ttlSeconds);
      assert Effects(ds, keyOf, ttlSeconds)[..|effects|] == effects;
      if !ds[n].down {
        var call := Call(keyOf(ds[n].body), ttlSeconds, ds[n].now);
        FreshInPrefix(before, [call], |before|, key);
        assert (before + [call])[..|before|] == before;
      } else {
        assert before + [] == before;
      }
    }
  }

  /** The calls of the first deliveries come first. */
  lemma {:induction false} CallsOfPrefix(ds: seq<Delivery>, n: nat, keyOf: string -> string, ttlSeconds: int)
    requires n <= |ds|
    ensures CallsOf(ds[..n], keyOf, ttlSeconds) <= CallsOf(ds, keyOf, ttlSeconds)
    decreases |ds|
  {
    if n < |ds| {
      var front := ds[..|ds| - 1];
      CallsOfPrefix(front, n, keyOf, ttlSeconds);
      assert front[..n] == ds[..n];
    } else {
      assert ds[..n] == ds;
    }
  }

  lemma {:induction false} EffectsAt(ds: seq<Delivery>, keyOf: string -> string, ttlSeconds: int, i: nat)
    requires i < |ds|
    ensures |Effects(ds, keyOf, ttlSeconds)| == |ds|
    ensures Effects(ds, keyOf, ttlSeconds)[i]
            == EffectOf(SeenAfter(CallsOf(ds[..i], keyOf, ttlSeconds)), keyOf(ds[i].body), ds[i].body, ds[i].now,
                        ds[i].down)
  {
    var n := |ds| - 1;
    var before := Effects(ds[..n], keyOf, ttlSeconds);
    var last := EffectOf(SeenAfter(CallsOf(ds[..n], keyOf, ttlSeconds)), keyOf(ds[n].body), ds[n].body, ds[n].now,
                         ds[n].down);
    assert Effects(ds, keyOf, ttlSeconds) == before + [last];
    hide Effects, SeenAfter, CallsOf, EffectOf;
    if n > 0 {
      EffectsAt(ds[..n], keyOf, ttlSeconds, if i < n then i else 0);
      assert i < n ==> ds[..n][i] == ds[i] && ds[..n][..i] == ds[..i];
    } else {
      EffectsOfNone(ds[..n], keyOf, ttlSeconds);
    }
  }

  lemma EffectsOfNone(ds: seq<Delivery>, keyOf: string -> string, ttlSeconds: int)
    requires ds == []
    ensures Effects(ds, keyOf, ttlSeconds) == []
  {
  }

  /**
   * Each delivery is acked exactly when the store was up and its call was told that the key is not new;
   * otherwise it runs the inner handler.
   */
  lemma EverySuppressedDeliveryIsAcked(ds: seq<Delivery>, keyOf: string -> string, ttlSeconds: int, i: nat)
    requires i < |ds|
    ensures |Effects(ds, keyOf, ttlSeconds)| == |ds|
    ensures var calls := CallsOf(ds, keyOf, ttlSeconds);
            var call := |CallsOf(ds[..i], keyOf, ttlSeconds)|;
            && (!ds[i].down ==> call < |calls| && calls[call] == Call(keyOf(ds[i].body), ttlSeconds, ds[i].now))
            && Effects(ds, keyOf, ttlSeconds)[i]
               == if !ds[i].down && !Fresh(calls, call) then Acked(ds[i].body) else RanInner(ds[i].body)
  {
    EffectsAt(ds, keyOf, ttlSeconds, i);
    CallsOfPrefix(ds, i, keyOf, ttlSeconds);
    CallsOfPrefix(ds, i + 1, keyOf, ttlSeconds);
    var before := CallsOf(ds[..i], keyOf, ttlSeconds);
    if !ds[i].down {
      assert ds[..i + 1][..i] == ds[..i];
      assert CallsOf(ds[..i + 1], keyOf, ttlSeconds) == before + [Call(keyOf(ds[i].body), ttlSeconds, ds[i].now)];
      assert CallsOf(ds, keyOf, ttlSeconds)[..|before|] == before;
    }
    hide Effects, SeenAfter, CallsOf;
  }

  /**
   * A store and its handler over a list of deliveries: calling `Handle` on each yields those effects and that
   * table.
   */
  method HandleAll(ds: seq<Delivery>, keyOf: string -> string, ttlSeconds: int)
    returns (effects: seq<Effect>, seen: map<string, int>)
    ensures effects == Effects(ds, keyOf, ttlSeconds)
    ensures seen == SeenAfter(CallsOf(ds, keyOf, ttlSeconds))
  {
    var store := new InMemoryIdempotencyStore();
    var handler := new IdempotentHandler(store, keyOf, ttlSeconds);
    var i := 0;
    while i < |ds|
      invariant 0 <= i <= |ds|
      invariant fresh(handler) && fresh(store) && handler.store == store
      invariant handler.keyOf == keyOf && handler.ttlSeconds == ttlSeconds
      invariant handler.effects == Effects(ds[..i], keyOf, ttlSeconds)
      invariant store.seen == SeenAfter(CallsOf(ds[..i], keyOf, ttlSeconds))
    {
      EffectsOneMore(ds, keyOf, ttlSeconds, i);
      hide Effects, SeenAfter, CallsOf, EffectOf, Marked;
      handler.Handle(ds[i].body, ds[i].now, ds[i].down);
      i := i + 1;
    }
    assert ds[..i] == ds;
    effects, seen := handler.effects, store.seen;
  }

  lemma EffectsOneMore(ds: seq<Delivery>, keyOf: string -> string, ttlSeconds: int, i: nat)
    requires i < |ds|
    ensures var seen, d := SeenAfter(CallsOf(ds[..i], keyOf, ttlSeconds)), ds[i];
            && Effects(ds[..i + 1], keyOf, ttlSeconds)
               == Effects(ds[..i], keyOf, ttlSeconds) + [EffectOf(seen, keyOf(d.body), d.body, d.now, d.down)]
            && SeenAfter(CallsOf(ds[..i + 1], keyOf, ttlSeconds))
               == if d.down then seen else Marked(seen, keyOf(d.body), ttlSeconds, d.now)
  {
    var next, before := ds[..i + 1], CallsOf(ds[..i], keyOf, ttlSeconds);
    assert next[..i] == ds[..i];
    if ds[i].down {
      assert before + [] == before;
    } else {
      var calls := before + [Call(keyOf(ds[i].body), ttlSeconds, ds[i].now)];
      assert calls[..|before|] == before;
    }
  }

  lemma {:induction false} CallsKeepTheClock(ds: seq<Delivery>, keyOf: string -> string, ttlSeconds: int)
    requires forall i, j :: 0 <= i < j < |ds| ==> ds[i].now <= ds[j].now
    ensures ClockAdvances(CallsOf(ds, keyOf, ttlSeconds))
    ensures forall i :: 0 <= i < |CallsOf(ds, keyOf, ttlSeconds)| ==>
              CallsOf(ds, keyOf, ttlSeconds)[i].ttlSeconds == ttlSeconds
              && ds != [] && ds[0].now <= CallsOf(ds, keyOf, ttlSeconds)[i].now <= ds[|ds| - 1].now
  {
    if ds != [] {
      CallsKeepTheClock(ds[..|ds| - 1], keyOf, ttlSeconds);
    }
  }

  /** Times that are `gap` apart and lie within a span are at most floor(span / gap) + 1. */
  lemma SpacedTimesFit(times: seq<int>, gap: nat, span: nat)
    requires gap > 0 && Spaced(times, gap)
    requires times != [] ==> times[|times| - 1] - times[0] <= span
    ensures |times| <= span / gap + 1
  {
    if times == [] {
      QuotientBounds(0, gap, span);
    } else {
      SpacedSpans(times, gap, 0, |times|);
      QuotientBounds(|times| - 1, gap, span);
    }
  }

  /** The fresh verdicts of a key are a window apart and lie between the first and the last delivery. */
  lemma FreshTimesOfDeliveries(ds: seq<Delivery>, keyOf: string -> string, ttlSeconds: nat, key: string)
    requires ds != [] && forall i, j :: 0 <= i < j < |ds| ==> ds[i].now <= ds[j].now
    ensures var calls := CallsOf(ds, keyOf, ttlSeconds);
            var times := FreshTimes(calls, |calls|, key);
            && Spaced(times, ttlSeconds * 1000)
            && forall a :: 0 <= a < |times| ==> ds[0].now <= times[a] <= ds[|ds| - 1].now
  {
    var calls := CallsOf(ds, keyOf, ttlSeconds);
    CallsKeepTheClock(ds, keyOf, ttlSeconds);
    hide FreshTimes, CallsOf, Fresh;
    FreshTimesAreSpaced(calls, |calls|, key, ttlSeconds);
    hide Spaced;
    var times := FreshTimes(calls, |calls|, key);
    forall a | 0 <= a < |times| ensures ds[0].now <= times[a] <= ds[|ds| - 1].now {
      var i := FreshTimeHasCall(calls, |calls|, key, a);
    }
  }

  /**
   * However many deliveries of a key there are within a span, the inner handler runs at most
   * floor(span / window) + 1 times, plus once for each delivery that found the store down.
   */
  lemma InnerRunsPerSpan(ds: seq<Delivery>, keyOf: string -> string, ttlSeconds: nat, key: string, span: nat)
    requires ttlSeconds > 0 && ds != [] && ds[|ds| - 1].now - ds[0].now <= span
    requires forall i, j :: 0 <= i < j < |ds| ==> ds[i].now <= ds[j].now
    ensures InnerRuns(Effects(ds, keyOf, ttlSeconds), keyOf, key)
            <= span / (ttlSeconds * 1000) + 1 + Outages(ds, keyOf, key)
  {
    hide FreshTimes, CallsOf, InnerRuns, Effects, Outages, Spaced;
    InnerRunsAreFreshOrOutages(ds, keyOf, ttlSeconds, key);
    FreshTimesOfDeliveries(ds, keyOf, ttlSeconds, key);
    var calls := CallsOf(ds, keyOf, ttlSeconds);
    SpacedTimesFit(FreshTimes(calls, |calls|, key), ttlSeconds * 1000, span);
  }
}
