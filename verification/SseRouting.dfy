/**
 * The SSE cluster's routing over the bus: each connection binds one queue per scope, and a
 * publish to a target reaches exactly the connections bound to it, on whichever instance.
 */
module SseRouting {
  import opened Wrappers
  import opened Words
  import opened TopicMatching
  import opened BusTypes
  import opened QueueSteps
  import opened QueueCells
  import opened BusMachine
  import opened BusInvariants
  import opened GroupScan
  import opened Lanes
  import opened LogAgreement
  import opened QueueKeys
  import opened StepOutcomes

  const SSE_CHANNEL := "mbc.sse"

  datatype Scope = User | Org

  function ScopeName(scope: Scope): string {
    match scope
    case User => "user"
    case Org => "org"
  }

  datatype Target = Target(scope: Scope, id: string)

  function RoutingKeyFor(target: Target): string {
    ScopeName(target.scope) + "." + target.id
  }

  // ---------------------------------------------------------------- keys

  lemma KeyWords(target: Target)
    ensures Split(RoutingKeyFor(target)) == [ScopeName(target.scope)] + Split(target.id)
  {
    SplitAfterWord(ScopeName(target.scope), target.id);
  }

  lemma KeyIsInjective(a: Target, b: Target)
    requires RoutingKeyFor(a) == RoutingKeyFor(b)
    ensures a == b
  {
    KeyWords(a);
    KeyWords(b);
    var ka, kb := Split(RoutingKeyFor(a)), Split(RoutingKeyFor(b));
    assert ka[0] == ScopeName(a.scope) && kb[0] == ScopeName(b.scope);
    assert ka[1..] == Split(a.id) && kb[1..] == Split(b.id);
    JoinOfSplit(a.id);
    JoinOfSplit(b.id);
    assert |ScopeName(User)| != |ScopeName(Org)|;
  }

  lemma LiteralKey(target: Target)
    ensures Literal(Split(RoutingKeyFor(target))) <==> Literal(Split(target.id))
  {
    KeyWords(target);
    var name := ScopeName(target.scope);
    assert |name| > 1;
    assert forall w :: w in [name] + Split(target.id) <==> w == name || w in Split(target.id);
  }

  /** A binding whose id has no wildcard word hears its own target and nothing else. */
  lemma BindingHearsItsTarget(bound: Target, sent: Target)
    requires Literal(Split(bound.id))
    ensures TopicMatch(RoutingKeyFor(bound), RoutingKeyFor(sent)) <==> bound == sent
  {
    LiteralKey(bound);
    LiteralMatchIsEquality(RoutingKeyFor(bound), RoutingKeyFor(sent));
    if RoutingKeyFor(bound) == RoutingKeyFor(sent) {
      KeyIsInjective(bound, sent);
    }
  }

  /** A target of another id that a binding with a wildcard word hears as well. */
  lemma WildcardHearsAnother(bound: Target) returns (other: Target)
    requires !Literal(Split(bound.id))
    ensures other != bound && TopicMatch(RoutingKeyFor(bound), RoutingKeyFor(other))
  {
    var p, w := Split(bound.id), "x";
    var k := Fill(p, w);
    FillIsAccepted(p, w);
    SplitIsDotFree(bound.id);
    forall i | 0 <= i < |k| ensures '.' !in k[i] {
      FillAt(p, w, i);
    }
    other := Target(bound.scope, Join(k));
    SplitOfJoin(k);
    KeyWords(bound);
    KeyWords(other);
    var i :| 0 <= i < |p| && (p[i] == STAR || p[i] == HASH);
    FillAt(p, w, i);
    assert k[i] != p[i];
    var name := ScopeName(bound.scope);
    assert ([name] + p)[1..] == p && ([name] + k)[1..] == k;
  }

  /** Routing by target is exact for a binding exactly when its id has no wildcard word. */
  lemma RoutingIsExactWithoutWildcards(bound: Target)
    ensures (forall sent :: TopicMatch(RoutingKeyFor(bound), RoutingKeyFor(sent)) <==> bound == sent)
            <==> Literal(Split(bound.id))
  {
    if Literal(Split(bound.id)) {
      forall sent ensures TopicMatch(RoutingKeyFor(bound), RoutingKeyFor(sent)) <==> bound == sent {
        BindingHearsItsTarget(bound, sent);
      }
    } else {
      var other := WildcardHearsAnother(bound);
    }
  }

  // ---------------------------------------------------------------- subscriber ids

  /** The adapter of one instance: a counter makes its subscriber ids unique. */
  class BusMessagePort {
    const instanceId: string
    var seqNo: nat

    constructor (instanceId: string)
      ensures this.instanceId == instanceId && seqNo == 0
    {
      this.instanceId := instanceId;
      seqNo := 0;
    }

    method NewSubscriberId(routingKey: string, now: nat) returns (id: string)
      modifies this
      ensures id == SubscriberId(instanceId, routingKey, now, old(seqNo))
      ensures seqNo == old(seqNo) + 1
    {
      id := instanceId + "." + routingKey + "." + Decimal(now) + "." + Decimal(seqNo);
      seqNo := seqNo + 1;
    }
  }

  function SubscriberId(instanceId: string, routingKey: string, now: nat, n: nat): string {
    instanceId + "." + routingKey + "." + Decimal(now) + "." + Decimal(n)
  }

  lemma LaterDotIsInside(a: string, b: string, x: string, y: string)
    requires |a| < |b| && a + "." + x == b + "." + y
    ensures '.' in x
  {
    var s := a + "." + x;
    assert s[|b|] == (b + "." + y)[|b|] == '.';
    assert x[|b| - |a| - 1] == s[|b|];
  }

  lemma LastWordDecides(a: string, b: string, x: string, y: string)
    requires '.' !in x && '.' !in y && a + "." + x == b + "." + y
    ensures x == y
  {
    if |a| < |b| {
      LaterDotIsInside(a, b, x, y);
    } else if |b| < |a| {
      LaterDotIsInside(b, a, y, x);
    } else {
      assert x == (a + "." + x)[|a| + 1..] == (b + "." + y)[|b| + 1..] == y;
    }
  }

  /** Subscriptions with different counter values, of one instance or of two, never share an id. */
  lemma SubscriberIdsAreUnique(i1: string, k1: string, t1: nat, n1: nat, i2: string, k2: string, t2: nat, n2: nat)
    requires SubscriberId(i1, k1, t1, n1) == SubscriberId(i2, k2, t2, n2)
    ensures n1 == n2
  {
    DecimalIsDotFree(n1);
    DecimalIsDotFree(n2);
    LastWordDecides(i1 + "." + k1 + "." + Decimal(t1), i2 + "." + k2 + "." + Decimal(t2), Decimal(n1), Decimal(n2));
    DecimalIsInjective(n1, n2);
  }

  /**
   * Two dotted texts are equal exactly when their parts are, or the longer front runs on past a dot into the
   * other's rest.
   */
  lemma DottedClashExactly(a: string, x: string, b: string, y: string)
    requires |a| <= |b|
    ensures a + "." + x == b + "." + y <==> (a == b && x == y) || exists w :: b == a + "." + w && x == w + "." + y
  {
    var s, t := a + "." + x, b + "." + y;
    if s == t {
      assert a == s[..|a|] && b == t[..|b|];
      if |a| == |b| {
        assert x == s[|a| + 1..] && y == t[|b| + 1..];
      } else {
        var w := b[|a| + 1..];
        assert b[|a|] == s[|a|] == '.';
        assert b == a + "." + w;
        assert x == s[|a| + 1..] && y == t[|b| + 1..];
        assert x == w + "." + y;
      }
    }
    if w :| b == a + "." + w && x == w + "." + y {
      assert a + "." + (w + "." + y) == a + "." + w + "." + y;
    }
  }

  lemma SameFront(a: string, b: string, word: string)
    requires a + "." + word == b + "." + word
    ensures a == b
  {
    var s := a + "." + word;
    assert |a| == |b|;
    assert a == s[..|a|] && b == (b + "." + word)[..|b|];
  }

  /**
   * Subscriptions of two instances share an id exactly when counter and time agree, and instance and key do, or
   * the longer instance id runs on past a dot into the other's routing key.
   */
  lemma SubscriberIdsClashExactly(i1: string, k1: string, t1: nat, n1: nat, i2: string, k2: string, t2: nat, n2: nat)
    requires |i1| <= |i2|
    ensures SubscriberId(i1, k1, t1, n1) == SubscriberId(i2, k2, t2, n2)
            <==>
              && n1 == n2 && t1 == t2
              && ((i1 == i2 && k1 == k2) || exists w :: i2 == i1 + "." + w && k1 == w + "." + k2)
  {
    DottedClashExactly(i1, k1, i2, k2);
    if SubscriberId(i1, k1, t1, n1) == SubscriberId(i2, k2, t2, n2) {
      SubscriberIdsAreUnique(i1, k1, t1, n1, i2, k2, t2, n2);
      var a, b := i1 + "." + k1 + "." + Decimal(t1), i2 + "." + k2 + "." + Decimal(t2);
      SameFront(a, b, Decimal(n1));
      DecimalIsDotFree(t1);
      DecimalIsDotFree(t2);
      LastWordDecides(i1 + "." + k1, i2 + "." + k2, Decimal(t1), Decimal(t2));
      DecimalIsInjective(t1, t2);
      SameFront(i1 + "." + k1, i2 + "." + k2, Decimal(t1));
    }
  }

  /** Two instances whose ids do share one. */
  lemma DottedInstancesClash(now: nat, n: nat)
    ensures SubscriberId("a", "user.x.user.y", now, n) == SubscriberId("a.user.x", "user.y", now, n)
  {
    assert "a.user.x" == "a" + "." + "user.x" && "user.x.user.y" == "user.x" + "." + "user.y";
    SubscriberIdsClashExactly("a", "user.x.user.y", now, n, "a.user.x", "user.y", now, n);
  }

  /** Instances whose ids have no dot never share a subscriber id. */
  lemma DotFreeInstancesNeverClash(i1: string, k1: string, t1: nat, n1: nat, i2: string, k2: string, t2: nat, n2: nat)
    requires '.' !in i1 && '.' !in i2
    requires SubscriberId(i1, k1, t1, n1) == SubscriberId(i2, k2, t2, n2)
    ensures i1 == i2 && k1 == k2 && t1 == t2 && n1 == n2
  {
    if |i1| <= |i2| {
      SubscriberIdsClashExactly(i1, k1, t1, n1, i2, k2, t2, n2);
    } else {
      SubscriberIdsClashExactly(i2, k2, t2, n2, i1, k1, t1, n1);
    }
  }

  // ---------------------------------------------------------------- binding

  function BindOptions(target: Target, subscriberId: string): SubscribeOptions {
    SubscribeOptions(Topic, Some(RoutingKeyFor(target)), Some(subscriberId), false, None, None, false, false, false)
  }

  function Bind(target: Target, subscriberId: string, h: Handler): Event {
    Subscribe(SSE_CHANNEL, h, BindOptions(target, subscriberId))
  }

  /** A queue as `bindScope` creates it. */
  predicate Bound(c: Cell, target: Target) {
    c.q.config == ConfigOf(SSE_CHANNEL, BindOptions(target, ""))
  }

  /** The queue has only ever known one consumer. */
  ghost predicate OnlyFor(c: Cell, h: Handler) {
    && (forall i :: 0 <= i < |c.q.consumers| ==> c.q.consumers[i] == h)
    && (forall k :: 0 <= k < |c.ledger.sent| ==> c.ledger.sent[k].to == h)
  }

  predicate Joins(b: Bus, e: Event, key: string) {
    e.Subscribe? && SubscribeKey(b, e.topic, e.opts) == key
  }

  /** A fresh subscriber id gets a queue of its own, bound to the target, with one consumer. */
  lemma BindCreatesQueue(b: Bus, target: Target, subscriberId: string, h: Handler)
    requires Find(b.cells, Key(SSE_CHANNEL, subscriberId)) == |b.cells|
    ensures var b' := Apply(b, Bind(target, subscriberId, h));
            && |b'.cells| == |b.cells| + 1
            && b'.cells[..|b.cells|] == b.cells
            && var c := b'.cells[|b.cells|];
               c.key == Key(SSE_CHANNEL, subscriberId) && Bound(c, target) && OnlyFor(c, h) && c.ledger.enqueued == []
  {
    hide TopicMatch;
  }

  lemma StepKeepsOnlyFor(c: Cell, op: Op, h: Handler)
    requires OnlyFor(c, h) && !op.Attach?
    ensures OnlyFor(StepCell(c, op), h)
  {
    hide PumpBlock, SettleBlock;
    if op.Pump? {
      PumpIsExact(c.q);
    } else if op.Detach? {
      var rest := RemoveFirst(c.q.consumers, op.handler);
      forall i | 0 <= i < |rest| ensures rest[i] == h {
        RemoveFirstKeepsOthers(c.q.consumers, op.handler, rest[i]);
      }
    } else if op.Settle? {
      SettleIsExact(c, op.msg, op.handler, op.kind);
    }
  }

  /** Whatever happens to the bus, a binding stays what it is unless somebody joins its queue. */
  lemma ApplyKeepsBinding(b: Bus, e: Event, i: nat, target: Target, h: Handler)
    requires BusOk(b) && i < |b.cells| && Bound(b.cells[i], target) && OnlyFor(b.cells[i], h)
    requires !Joins(b, e, b.cells[i].key)
    ensures var b' := Apply(b, e);
            i < |b'.cells| && b'.cells[i].key == b.cells[i].key && Bound(b'.cells[i], target) && OnlyFor(b'.cells[i], h)
  {
    hide BusOk, Apply, StepCell, Bound, OnlyFor;
    var op := QueueMoves(b, e, i);
    if op.Some? {
      StepKeepsIdentity(b.cells[i], op.value);
      StepKeepsBound(b.cells[i], op.value, target);
      StepKeepsOnlyFor(b.cells[i], op.value, h);
    }
  }

  lemma StepKeepsBound(c: Cell, op: Op, target: Target)
    requires Bound(c, target)
    ensures Bound(StepCell(c, op), target)
  {
    StepKeepsIdentity(c, op);
    hide StepCell;
  }

  ghost predicate NobodyJoins(b: Bus, events: seq<Event>, key: string)
    decreases |events|
  {
    events == [] || (!Joins(b, events[0], key) && NobodyJoins(Apply(b, events[0]), events[1..], key))
  }

  lemma {:induction false} RunKeepsBinding(b: Bus, events: seq<Event>, i: nat, target: Target, h: Handler)
    requires BusOk(b) && i < |b.cells| && Bound(b.cells[i], target) && OnlyFor(b.cells[i], h)
    requires NobodyJoins(b, events, b.cells[i].key)
    ensures var b' := Run(b, events);
            i < |b'.cells| && b'.cells[i].key == b.cells[i].key && Bound(b'.cells[i], target) && OnlyFor(b'.cells[i], h)
    decreases |events|
  {
    hide BusOk, Apply, OnlyFor, Bound;
    if events != [] {
      ApplyKeepsBinding(b, events[0], i, target, h);
      ApplyKeepsOk(b, events[0]);
      RunKeepsBinding(Apply(b, events[0]), events[1..], i, target, h);
    }
  }

  // ---------------------------------------------------------------- publishing

  function Send(target: Target, payload: string): Event {
    Publish(SSE_CHANNEL, payload, Some(RoutingKeyFor(target)), None)
  }

  /**
   * In any bus: a publish to a target puts exactly one copy, with its payload, on each queue
   * bound to that target, and leaves every queue bound to another target alone.
   */
  lemma PublishReachesExactlyTheBound(b: Bus, sent: Target, payload: string, i: nat, bound: Target)
    requires i < |b.cells| && Bound(b.cells[i], bound) && Literal(Split(bound.id))
    ensures var b' := Apply(b, Send(sent, payload));
            && |b'.cells| == |b.cells|
            && (bound == sent ==> exists m: Message ::
                  && b'.cells[i] == EnqueueCell(b.cells[i], m)
                  && m.body == payload && m.routingKey == RoutingKeyFor(sent))
            && (bound != sent ==> b'.cells[i] == b.cells[i])
  {
    BindingHearsItsTarget(bound, sent);
    hide TopicMatch;
    assert b.cells[i].q.config.Matches(RoutingKeyFor(sent)) <==> bound == sent by {
      assert RoutingKeyFor(bound) != "" by {
        assert |RoutingKeyFor(bound)| > 0;
      }
    }
    if bound == sent {
      var m := CopyFor(b, i, SSE_CHANNEL, payload, RoutingKeyFor(sent), None);
      assert Apply(b, Send(sent, payload)).cells[i] == EnqueueCell(b.cells[i], m);
    }
  }

  // ---------------------------------------------------------------- frames

  /** One of the two subscriptions of a client connection, on the instance that serves it. */
  datatype Binding = Binding(instanceId: string, target: Target)

  /** What a client is sent: the binding's scope, the instance serving it, the published body. */
  datatype Frame = Frame(scope: Scope, instanceId: string, message: string)

  /** The handler registered for a binding: forward the body as a frame, then ack. */
  function OnMessage(binding: Binding, body: string): (Frame, SettleKind) {
    (Frame(binding.target.scope, binding.instanceId, body), Ack)
  }

  /** The address scheme and the channel, written out. */
  lemma AddressesWrittenOut(id: string)
    ensures SSE_CHANNEL == "mbc.sse"
    ensures RoutingKeyFor(Target(User, id)) == "user." + id && RoutingKeyFor(Target(Org, id)) == "org." + id
  {
    assert "user" + "." == "user." && "org" + "." == "org.";
  }

  /** A delivery that its handler has forwarded is acked: it leaves flight for good and nothing is republished. */
  lemma ForwardedIsAcked(b: Bus, i: nat, binding: Binding, d: Delivery)
    requires HeldBy(b, i, d.msg, d.to)
    ensures var (frame, kind) := OnMessage(binding, d.msg.body);
            var b' := Apply(b, OnQueue(i, Settle(d.msg, d.to, kind)));
            && frame == Frame(binding.target.scope, binding.instanceId, d.msg.body)
            && i < |b'.cells| && d.msg !in b'.cells[i].q.inflight
            && b'.cells[i].ledger.acked == b.cells[i].ledger.acked + {d.msg}
            && b'.cells[i].q.pending == b.cells[i].q.pending && b'.transit == b.transit
  {
    AckByTheHolder(b, i, d.msg, d.to);
    hide Apply;
  }

  /** The frame a delivery produces, given which handler belongs to which binding. */
  function FrameOf(bindings: map<Handler, Binding>, d: Delivery): Frame
    requires d.to in bindings
  {
    OnMessage(bindings[d.to], d.msg.body).0
  }

  lemma {:induction false} SeedsMatch(config: QueueConfig, entries: seq<LogEntry>, k: nat)
    requires k < |Seeds(config, entries)|
    ensures config.Matches(Seeds(config, entries)[k].routingKey)
  {
    hide TopicMatch;
    var n := |entries| - 1;
    if k < |Seeds(config, entries[..n])| {
      SeedsMatch(config, entries[..n], k);
    }
  }

  /** A queue bound to a target holds only copies published under the target's key. */
  lemma EnqueuedIsAddressed(c: Cell, entries: seq<LogEntry>, target: Target, k: nat)
    requires Bound(c, target) && Literal(Split(target.id)) && Agrees(c, entries) && k < |c.ledger.enqueued|
    ensures c.ledger.enqueued[k].routingKey == RoutingKeyFor(target)
  {
    var seeds := Seeds(c.q.config, entries[c.ledger.start..]);
    assert Contents(c.ledger.enqueued)[k] == Contents(seeds)[k];
    SeedsMatch(c.q.config, entries[c.ledger.start..], k);
    LiteralKey(target);
    LiteralMatchIsEquality(RoutingKeyFor(target), seeds[k].routingKey);
    assert |RoutingKeyFor(target)| > 0;
  }

  lemma SentIsAddressed(b: Bus, i: nat, target: Target, k: nat)
    requires BusOk(b) && LogsAgree(b) && i < |b.cells| && k < |b.cells[i].ledger.sent|
    requires Bound(b.cells[i], target) && Literal(Split(target.id))
    ensures b.cells[i].ledger.sent[k].msg.routingKey == RoutingKeyFor(target)
  {
    var c := b.cells[i];
    assert Sourced(c) by {
      assert Settled(c, b.seqNo);
    }
    hide CellOk, Agrees, Bound, RoutingKeyFor;
    assert c.ledger.sent[k].msg in c.ledger.enqueued;
    var j :| 0 <= j < |c.ledger.enqueued| && c.ledger.enqueued[j] == c.ledger.sent[k].msg;
    EnqueuedIsAddressed(c, LogOf(b, c.q.config.topic), target, j);
  }

  /**
   * From binding on, over any run in which nobody joins the queue: every frame the binding's
   * client gets carries the binding's scope and instance, and its message was published to
   * that scope's id and no other.
   */
  lemma FramesCarryScopeAndInstance(before: seq<Event>, after: seq<Event>, binding: Binding, subscriberId: string,
                                    h: Handler, bindings: map<Handler, Binding>, k: nat)
    requires h in bindings && bindings[h] == binding && Literal(Split(binding.target.id))
    requires Find(Run(INIT, before).cells, Key(SSE_CHANNEL, subscriberId)) == |Run(INIT, before).cells|
    requires NobodyJoins(Apply(Run(INIT, before), Bind(binding.target, subscriberId, h)), after,
                         Key(SSE_CHANNEL, subscriberId))
    ensures var b := Run(INIT, before);
            var b' := Run(Apply(b, Bind(binding.target, subscriberId, h)), after);
            var i := |b.cells|;
            && i < |b'.cells|
            && (k < |b'.cells[i].ledger.sent| ==>
                  var d := b'.cells[i].ledger.sent[k];
                  && d.to in bindings
                  && FrameOf(bindings, d) == Frame(binding.target.scope, binding.instanceId, d.msg.body)
                  && d.msg.routingKey == RoutingKeyFor(Target(FrameOf(bindings, d).scope, binding.target.id)))
  {
    var b := Run(INIT, before);
    var bind := Bind(binding.target, subscriberId, h);
    var i := |b.cells|;
    BindCreatesQueue(b, binding.target, subscriberId, h);
    ReachableIsOk(before);
    RunKeepsAgreement(INIT, before);
    ApplyKeepsOk(b, bind);
    ApplyKeepsAgreement(b, bind);
    hide BusOk, LogsAgree, Apply, Bound, RoutingKeyFor;
    var b1 := Apply(b, bind);
    RunKeepsBinding(b1, after, i, binding.target, h);
    RunKeepsOk(b1, after);
    RunKeepsAgreement(b1, after);
    var b' := Run(b1, after);
    if k < |b'.cells[i].ledger.sent| {
      SentIsAddressed(b', i, binding.target, k);
    }
  }

  // ---------------------------------------------------------------- a cluster

  /**
   * A subscribe of a cluster, other than the one of this instance with this counter value: a binding of an
   * instance whose id has no dot, or anything on another topic without a space.
   */
  ghost predicate SomebodyElse(e: Event, instanceId: string, n: nat) {
    e.Subscribe? ==>
      || (e.topic != SSE_CHANNEL && ' ' !in e.topic)
      || (exists other, target, now, m, h ::
            && e == Bind(target, SubscriberId(other, RoutingKeyFor(target), now, m), h)
            && '.' !in other && (other != instanceId || m != n))
  }

  lemma SomebodyElseJoinsElsewhere(b: Bus, e: Event, instanceId: string, key: string, now: nat, n: nat)
    requires '.' !in instanceId && SomebodyElse(e, instanceId, n)
    ensures !Joins(b, e, Key(SSE_CHANNEL, SubscriberId(instanceId, key, now, n)))
  {
    var own := SubscriberId(instanceId, key, now, n);
    hide SubscriberId;
    if e.Subscribe? && SubscribeKey(b, e.topic, e.opts) == Key(SSE_CHANNEL, own) {
      var id := e.opts.subscriberId.GetOr("sub-" + Decimal(SubscribeSeq(b, e.opts)));
      assert ' ' !in SSE_CHANNEL;
      if |e.topic| <= |SSE_CHANNEL| {
        KeysClashExactly(e.topic, id, SSE_CHANNEL, own);
      } else {
        KeysClashExactly(SSE_CHANNEL, own, e.topic, id);
      }
      assert e.topic == SSE_CHANNEL && id == own;
      var other, target, time, m, h :|
        && e == Bind(target, SubscriberId(other, RoutingKeyFor(target), time, m), h)
        && '.' !in other && (other != instanceId || m != n);
      DotFreeInstancesNeverClash(other, RoutingKeyFor(target), time, m, instanceId, key, now, n);
    }
  }

  lemma {:induction false} NobodyElseJoins(b: Bus, events: seq<Event>, instanceId: string, key: string, now: nat,
                                           n: nat)
    requires '.' !in instanceId && forall i :: 0 <= i < |events| ==> SomebodyElse(events[i], instanceId, n)
    ensures NobodyJoins(b, events, Key(SSE_CHANNEL, SubscriberId(instanceId, key, now, n)))
    decreases |events|
  {
    hide Apply, Joins, SomebodyElse;
    if events != [] {
      SomebodyElseJoinsElsewhere(b, events[0], instanceId, key, now, n);
      NobodyElseJoins(Apply(b, events[0]), events[1..], instanceId, key, now, n);
    }
  }

  ghost predicate NoQueue(b: Bus, key: string) {
    forall i :: 0 <= i < |b.cells| ==> b.cells[i].key != key
  }

  /** A queue that nobody asks for is not there. */
  lemma {:induction false} NobodyAskedForIt(b: Bus, events: seq<Event>, key: string)
    requires BusOk(b) && NoQueue(b, key) && NobodyJoins(b, events, key)
    ensures NoQueue(Run(b, events), key)
    decreases |events|
  {
    hide BusOk, Apply, StepCell;
    if events != [] {
      var e := events[0];
      var b' := Apply(b, e);
      forall i | 0 <= i < |b'.cells| ensures b'.cells[i].key != key {
        if i < |b.cells| {
          var op := QueueMoves(b, e, i);
          if op.Some? {
            StepKeepsIdentity(b.cells[i], op.value);
          }
        } else {
          NewQueueHasItsKey(b, e, i);
        }
      }
      ApplyKeepsOk(b, e);
      NobodyAskedForIt(b', events[1..], key);
    }
  }

  /**
   * In a cluster of instances whose ids have no dot, over any run of publishes, deliveries, drops and
   * other bindings before and after: what a binding's client is sent carries the binding's scope and
   * instance, and was published to that scope's id.
   */
  lemma FramesInACluster(before: seq<Event>, after: seq<Event>, binding: Binding, now: nat, n: nat,
                         h: Handler, bindings: map<Handler, Binding>, k: nat)
    requires h in bindings && bindings[h] == binding && Literal(Split(binding.target.id)) && '.' !in binding.instanceId
    requires forall j :: 0 <= j < |before| ==> SomebodyElse(before[j], binding.instanceId, n)
    requires forall j :: 0 <= j < |after| ==> SomebodyElse(after[j], binding.instanceId, n)
    ensures var b := Run(INIT, before);
            var id := SubscriberId(binding.instanceId, RoutingKeyFor(binding.target), now, n);
            var b' := Run(Apply(b, Bind(binding.target, id, h)), after);
            var i := |b.cells|;
            && i < |b'.cells|
            && (k < |b'.cells[i].ledger.sent| ==>
                  var d := b'.cells[i].ledger.sent[k];
                  && d.to in bindings
                  && FrameOf(bindings, d) == Frame(binding.target.scope, binding.instanceId, d.msg.body)
                  && d.msg.routingKey == RoutingKeyFor(Target(FrameOf(bindings, d).scope, binding.target.id)))
  {
    var b := Run(INIT, before);
    var key := RoutingKeyFor(binding.target);
    var id := SubscriberId(binding.instanceId, key, now, n);
    NobodyElseJoins(INIT, before, binding.instanceId, key, now, n);
    NobodyElseJoins(Apply(b, Bind(binding.target, id, h)), after, binding.instanceId, key, now, n);
    ReachableIsOk([]);
    NobodyAskedForIt(INIT, before, Key(SSE_CHANNEL, id));
    hide Run, Apply, Bind, SubscriberId, RoutingKeyFor, SomebodyElse, NobodyJoins, BusOk;
    assert Find(b.cells, Key(SSE_CHANNEL, id)) == |b.cells|;
    FramesCarryScopeAndInstance(before, after, binding, id, h, bindings, k);
  }
}
