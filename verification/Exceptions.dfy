/**
 * Where the bus does less than a reader would expect: for each such claim a run on which it fails,
 * and exactly when it holds.
 */
module Exceptions {
  import opened Wrappers
  import opened BusTypes
  import opened QueueSteps
  import opened QueueCells
  import opened BusMachine
  import opened BusInvariants
  import opened GroupScan
  import opened Custody
  import opened Accounts
  import opened Lanes
  import opened InMemoryQueue
  import opened Settlements

  // ---------------------------------------------------------------- runs on one queue

  /** A fan-out subscription of consumer 0, and a publish. */
  function Joining(maxDeliveries: int, retryDelayMs: Option<int>): Event {
    Subscribe("t", 0,
              SubscribeOptions(Fanout, None, Some("s"), true, Some(maxDeliveries), retryDelayMs, false, true, false))
  }

  function Sending(body: string, ttlMs: Option<int>): Event {
    Publish("t", body, None, Some(PublishOptions(None, None, None, ttlMs, None, None, map[])))
  }

  function Copy(id: nat, body: string, ttlMs: Option<int>): Message {
    Message(id, body, "t", Some(PublishOptions(None, None, None, ttlMs, None, None, map[])))
  }

  function OneQueue(maxDeliveries: int, retryDelayMs: Option<int>): QueueConfig {
    QueueConfig("t", Fanout, None, maxDeliveries, true, retryDelayMs, false, true)
  }

  lemma Joined(maxDeliveries: int, retryDelayMs: Option<int>)
    ensures var b := Run(INIT, [Joining(maxDeliveries, retryDelayMs)]);
            b.seqNo == 0 && b.cells == [AttachCell(NewCell("t s", OneQueue(maxDeliveries, retryDelayMs), 0, []), 0)]
  {
    RunOneMore(INIT, [], Joining(maxDeliveries, retryDelayMs));
    assert [] + [Joining(maxDeliveries, retryDelayMs)] == [Joining(maxDeliveries, retryDelayMs)];
    assert Key("t", "s") == "t s";
  }

  /** One more publish to the only queue. */
  lemma Sent(events: seq<Event>, body: string, ttlMs: Option<int>)
    requires var b := Run(INIT, events);
             |b.cells| == 1 && b.cells[0].q.config.topic == "t" && b.cells[0].q.config.kind.Fanout?
    ensures var b, b' := Run(INIT, events), Run(INIT, events + [Sending(body, ttlMs)]);
            b'.seqNo == b.seqNo + 2 && b'.cells == [EnqueueCell(b.cells[0], Copy(b.seqNo + 2, body, ttlMs))]
  {
    RunOneMore(INIT, events, Sending(body, ttlMs));
    PublishToOne(Run(INIT, events), body, ttlMs);
    hide Apply, Run;
  }

  lemma PublishToOne(b: Bus, body: string, ttlMs: Option<int>)
    requires |b.cells| == 1 && b.cells[0].q.config.topic == "t" && b.cells[0].q.config.kind.Fanout?
    ensures var b' := Apply(b, Sending(body, ttlMs));
            b'.seqNo == b.seqNo + 2 && b'.cells == [EnqueueCell(b.cells[0], Copy(b.seqNo + 2, body, ttlMs))]
  {
    hide EnqueueCell;
    assert Takers(b.cells, 0, "t", "t") == 0;
    assert Takers(b.cells, 1, "t", "t") == 1;
  }

  /** The run leaves a bus with one queue, in this state. */
  ghost predicate Reaches(events: seq<Event>, c: Cell) {
    Run(INIT, events).cells == [c]
  }

  /** One more step of the only queue. */
  lemma Step(events: seq<Event>, c: Cell, op: Op) returns (events': seq<Event>, c': Cell)
    requires Reaches(events, c) && Local(op)
    ensures Reaches(events', c') && c' == StepCell(c, op)
  {
    hide StepCell;
    RunOneMore(INIT, events, OnQueue(0, op));
    events' := events + [OnQueue(0, op)];
    c' := StepCell(c, op);
  }

  // ---------------------------------------------------------------- requeueing and order

  /** Pumping a one-consumer queue with nothing in flight hands over the message at the head. */
  lemma HeadGoes(c: Cell, h: Handler)
    requires c.owed > 0 && c.q.consumers == [h] && c.q.inflight == map[] && c.q.pending != []
    requires c.q.config.singleActiveConsumer && !c.q.config.partitionByGroup
    requires forall i :: 0 <= i < |c.q.pending| ==> c.q.pending[i].Priority() == 0
    ensures var m := c.q.pending[0];
            StepCell(c, Op.Pump)
               == c.(q := HandOver(c.q, 0, h), ledger := c.ledger.(sent := c.ledger.sent + [Delivery(m, h)]))
  {
    HeadIsBest(c.q.pending, 1);
  }

  lemma {:induction false} HeadIsBest(items: seq<Message>, i: nat)
    requires 1 <= i <= |items| && forall k :: 0 <= k < |items| ==> items[k].Priority() == 0
    ensures BestFrom(items, i, 0) == 0
    decreases |items| - i
  {
    if i < |items| {
      HeadIsBest(items, i + 1);
    }
  }

  /** Two messages published to the only queue, nothing delivered yet. */
  lemma TwoWaiting(maxDeliveries: int, retryDelayMs: Option<int>, ttlMs: Option<int>)
    returns (events: seq<Event>, c: Cell)
    ensures Reaches(events, c) && c.owed == 3
    ensures var messages := [Copy(2, "a", ttlMs), Copy(4, "b", None)];
            c.q == Queue(OneQueue(maxDeliveries, retryDelayMs), messages, map[], [0], map[], 0, map[])
    ensures c.ledger.sent == [] && c.parked == {} && c.ledger.expired == {} && c.key == "t s"
    ensures ttlMs == Some(0) ==> Copy(2, "a", ttlMs) in c.timers
  {
    events := [Joining(maxDeliveries, retryDelayMs)];
    Joined(maxDeliveries, retryDelayMs);
    Sent(events, "a", ttlMs);
    events := events + [Sending("a", ttlMs)];
    Sent(events, "b", None);
    events := events + [Sending("b", None)];
    c := Run(INIT, events).cells[0];
  }

  /** Consumer 0 is alone on a single-active queue of default-priority messages, and free. */
  predicate Alone(c: Cell) {
    && c.owed > 0 && c.q.consumers == [0] && c.q.inflight == map[] && c.q.pending != []
    && c.q.config.singleActiveConsumer && !c.q.config.partitionByGroup
    && forall i :: 0 <= i < |c.q.pending| ==> c.q.pending[i].Priority() == 0
  }

  /** The head is delivered to consumer 0 and acked, put back, or parked. */
  lemma HeadTurn(events: seq<Event>, c: Cell, kind: SettleKind) returns (events': seq<Event>, c': Cell)
    requires Reaches(events, c) && Alone(c)
    requires kind.Ack? || (kind.Requeue? && c.q.Count(c.q.pending[0]) + 1 < c.q.config.maxDeliveries)
    ensures Reaches(events', c')
    ensures var m := c.q.pending[0];
            var outcome := Decide(c.q.config, c.q.Count(m) + 1, kind);
            && c'.q == c.q.(pending := c.q.pending[1..] + (if outcome.Requeued? then [m] else []),
                            counts := c.q.counts[m := c.q.Count(m) + 1])
            && c'.parked == c.parked + (if outcome.Parked? then {m} else {})
            && c'.ledger.sent == c.ledger.sent + [Delivery(m, 0)]
            && c'.timers == c.timers && c'.owed > 0
  {
    hide Reaches, PumpCell;
    var m := c.q.pending[0];
    HeadGoes(c, 0);
    events', c' := Step(events, c, Op.Pump);
    events', c' := Step(events', c', Settle(m, 0, kind));
    assert map[m := 0 as Handler] - {m} == map[];
  }

  /** A requeueing nack lets the next message of the lane overtake: the first comes after the second. */
  lemma RequeueBreaksOrder() returns (events: seq<Event>)
    ensures exists c :: Reaches(events, c) && Ordered(c.q.config) && !SentInOrder(c, OfPriority(0))
  {
    var a, b := Copy(2, "a", None), Copy(4, "b", None);
    var c: Cell;
    events, c := TwoWaiting(3, None, None);
    hide Reaches, StepCell;
    events, c := HeadTurn(events, c, Requeue);
    events, c := HeadTurn(events, c, Ack);
    events, c := HeadTurn(events, c, Ack);
    assert c.ledger.sent == [Delivery(a, 0), Delivery(b, 0), Delivery(a, 0)];
    assert c.ledger.sent[1].msg.id > c.ledger.sent[2].msg.id;
    assert LaneOf(c.q.config, a) == LaneOf(c.q.config, b) == OfPriority(0);
    assert Reaches(events, c);
  }

  // ---------------------------------------------------------------- settling an old delivery

  /** One message published to the only queue, not delivered yet. */
  lemma OneQueued(maxDeliveries: int) returns (events: seq<Event>, c: Cell)
    ensures Reaches(events, c) && c.owed > 0
    ensures c.q == Queue(OneQueue(maxDeliveries, None), [Copy(2, "a", None)], map[], [0], map[], 0, map[])
    ensures c.ledger.sent == [] && c.ledger.requeued == multiset{} && c.ledger.acked == {}
  {
    events := [Joining(maxDeliveries, None)];
    Joined(maxDeliveries, None);
    Sent(events, "a", None);
    events := events + [Sending("a", None)];
    c := Run(INIT, events).cells[0];
  }

  /**
   * A handler that nacks for requeue and then acks, on the same delivery: the message comes back to it in
   * between, and the ack ends the second delivery, which nobody has settled.
   */
  lemma AckAfterNackEndsTheRedelivery() returns (events: seq<Event>)
    ensures exists c, m ::
      && Reaches(events, c)
      && c.ledger.sent == [Delivery(m, 0), Delivery(m, 0)]
      && c.ledger.requeued == multiset{m}
      && var c' := StepCell(c, Through(c, 0, Ack));
         c'.ledger.sent == c.ledger.sent && Ended(c, c', 1) && m in c'.ledger.acked
  {
    var a := Copy(2, "a", None);
    var c: Cell;
    events, c := OneQueued(3);
    hide Reaches, PumpCell;
    HeadGoes(c, 0);
    events, c := Step(events, c, Op.Pump);
    assert c.q.inflight == map[a := 0] && c.ledger.sent == [Delivery(a, 0)];
    NackPutsBack(c, a);
    events, c := Step(events, c, Through(c, 0, Requeue));
    hide StepCell;
    events, c := HeadHeld(events, c);
    SecondEnds(c, a);
    assert Reaches(events, c);
  }

  lemma NackPutsBack(c: Cell, m: Message)
    requires c.q.inflight == map[m := 0] && c.q.Count(m) < c.q.config.maxDeliveries && c.q.config.retryDelayMs == None
    ensures var c' := StepCell(c, Settle(m, 0, Requeue));
            && c'.q == c.q.(inflight := map[], pending := c.q.pending + [m])
            && c'.owed > 0 && c'.ledger == c.ledger.(requeued := c.ledger.requeued + multiset{m})
  {
    assert c.q.inflight - {m} == map[];
  }

  lemma SecondEnds(c: Cell, m: Message)
    requires c.ledger.sent == [Delivery(m, 0), Delivery(m, 0)] && c.q.inflight == map[m := 0]
    ensures var c' := StepCell(c, Through(c, 0, Ack));
            c'.ledger.sent == c.ledger.sent && Ended(c, c', 1) && m in c'.ledger.acked
  {
    SettleEndsTheMessage(c, 0, Ack, 1);
    assert IsLast(c.ledger.sent, 1);
  }

  // ---------------------------------------------------------------- drops and the delivery limit

  /** The copy waits, and has no deliveries left. */
  predicate Spent(c: Cell, m: Message) {
    (m in c.q.pending || m in c.parked) && c.q.Count(m) >= Limit(c.q.config)
  }

  lemma DropSpendsTheHeld(c: Cell, m: Message, h: Handler)
    requires !Spent(c, m)
    ensures Spent(DetachCell(c, h), m) <==> m in Held(c.q, h) && c.q.Count(m) >= Limit(c.q.config)
  {
    var listed := Listed(Held(c.q, h));
    assert m in listed <==> m in multiset(listed);
    hide Held, Listed;
  }

  lemma ExpireSpendsNobody(c: Cell, m: Message, x: Message)
    requires !Spent(c, m)
    ensures !Spent(ExpireCell(c, x), m)
  {
    RemoveFirstKeepsOthers(c.q.pending, x, m);
  }

  lemma PumpSpendsNobody(c: Cell, m: Message)
    requires Conserved(c) && !Spent(c, m)
    ensures !Spent(PumpCell(c), m)
  {
    hide PumpBlock;
    PumpIsExact(c.q);
    if c.owed > 0 && PumpBlock(c.q).Sent? {
      var Sent(q', i, x, h) := PumpBlock(c.q);
      assert x in c.q.pending;
      LiveIsNotDone(c, x);
      AtMostOnePlace(c, x);
      MultisetOfRemoveAt(c.q.pending, i);
      assert multiset(q'.pending)[x] == 0;
      assert q'.Count(m) == c.q.Count(m) + One(m == x);
      assert m in q'.pending ==> m in multiset(c.q.pending);
    }
  }

  lemma EnqueueSpendsNobody(c: Cell, m: Message, x: Message)
    requires CellOk(c) && !Spent(c, m) && Newer(c, x)
    ensures !Spent(EnqueueCell(c, x), m)
  {
    assert x !in c.ledger.enqueued;
    assert c.q.Count(x) == 0;
  }

  lemma SettleSpendsNobody(c: Cell, m: Message, x: Message, h: Handler, kind: SettleKind)
    requires !Spent(c, m)
    ensures !Spent(SettleCell(c, x, h, kind), m)
  {
    hide SettleCell;
    SettleIsExact(c, x, h, kind);
  }

  /**
   * The one step that queues a message for a delivery beyond its limit: a drop of the consumer that
   * holds it on its last delivery.
   */
  lemma OnlyDropsExceedTheLimit(c: Cell, op: Op, m: Message)
    requires CellOk(c) && Admissible(c, op) && !Spent(c, m)
    ensures Spent(StepCell(c, op), m)
            <==> op.Detach? && m in Held(c.q, op.handler) && c.q.Count(m) >= Limit(c.q.config)
  {
    assert Conserved(c);
    hide PumpCell, EnqueueCell, SettleCell, DetachCell, ExpireCell, CellOk, Conserved, Held;
    match op
    case Enqueue(x) => EnqueueSpendsNobody(c, m, x);
    case Attach(h) =>
    case Detach(h) => DropSpendsTheHeld(c, m, h);
    case Pump => PumpSpendsNobody(c, m);
    case Settle(x, h, kind) => SettleSpendsNobody(c, m, x, h, kind);
    case Retry(x) =>
    case Expire(x) => ExpireSpendsNobody(c, m, x);
  }

  /** The head is delivered to consumer 0, who keeps it. */
  lemma HeadHeld(events: seq<Event>, c: Cell) returns (events': seq<Event>, c': Cell)
    requires Reaches(events, c) && Alone(c)
    ensures Reaches(events', c')
    ensures var m := c.q.pending[0];
            && c'.q
               == c.q.(pending := c.q.pending[1..], counts := c.q.counts[m := c.q.Count(m) + 1],
                       inflight := map[m := 0])
            && c' == c.(q := c'.q, ledger := c.ledger.(sent := c.ledger.sent + [Delivery(m, 0)]))
  {
    hide Reaches, PumpCell;
    HeadGoes(c, 0);
    events', c' := Step(events, c, Op.Pump);
  }

  /** Consumer 0 drops, holding a message, and joins again. */
  lemma DropAndRejoin(events: seq<Event>, c: Cell, m: Message, maxDeliveries: int)
    returns (events': seq<Event>, c': Cell)
    requires Reaches(events, c) && c.key == "t s" && c.q.consumers == [0] && c.q.inflight == map[m := 0]
    ensures Reaches(events', c')
    ensures c'.q == c.q.(pending := [m] + c.q.pending, inflight := map[])
    ensures c'.owed > 0 && c'.ledger.sent == c.ledger.sent
  {
    hide Reaches;
    DropReturns(c.q, m);
    hide DropBlock;
    events', c' := Step(events, c, Detach(0));
    events' := Rejoin(events', c', maxDeliveries);
    c' := AttachCell(c', 0);
  }

  lemma DropReturns(q: Queue, m: Message)
    requires q.inflight == map[m := 0] && q.consumers == [0]
    ensures DropBlock(q, 0) == q.(consumers := [], pending := [m] + q.pending, inflight := map[])
  {
    SingleHeld(q, 0, m);
    hide Listed, Held;
    assert q.inflight - {m} == map[];
  }

  /** A consumer joins the only queue again. */
  lemma Rejoin(events: seq<Event>, c: Cell, maxDeliveries: int) returns (events': seq<Event>)
    requires Reaches(events, c) && c.key == "t s"
    ensures Reaches(events', AttachCell(c, 0))
  {
    events' := events + [Joining(maxDeliveries, None)];
    RunOneMore(INIT, events, Joining(maxDeliveries, None));
    assert Key("t", "s") == "t s";
  }

  /** A message granted one delivery is delivered twice, its consumer having dropped. */
  lemma DropExceedsTheLimit() returns (events: seq<Event>)
    ensures exists c, m :: Reaches(events, c) && TimesSent(c.ledger.sent, m) > Limit(c.q.config)
  {
    var a := Copy(2, "a", None);
    var c: Cell;
    events, c := TwoWaiting(1, None, None);
    hide Reaches;
    events, c := HeadHeld(events, c);
    events, c := DropAndRejoin(events, c, a, 1);
    events, c := HeadHeld(events, c);
    SentOneMore([], Delivery(a, 0), a);
    SentOneMore([Delivery(a, 0)], Delivery(a, 0), a);
    assert c.ledger.sent == [Delivery(a, 0)] + [Delivery(a, 0)] && [] + [Delivery(a, 0)] == [Delivery(a, 0)];
    assert Reaches(events, c) && TimesSent(c.ledger.sent, a) == 2 > Limit(c.q.config);
  }

  // ---------------------------------------------------------------- expiry

  /** An expiry takes a message exactly when it is pending or in flight at that moment. */
  lemma ExpiryTakesExactlyTheUnconsumed(c: Cell, m: Message)
    requires Conserved(c) && m in c.timers && m !in c.ledger.expired
    ensures m in ExpireCell(c, m).ledger.expired <==> m in c.q.pending || m in c.q.inflight
    ensures m !in ExpireCell(c, m).timers
  {
  }

  /** Without a timer an unexpired copy never expires. */
  lemma {:induction false} NoTimerNoExpiry(b: Bus, events: seq<Event>, i: nat, m: Message)
    requires BusOk(b) && i < |b.cells| && m in b.cells[i].ledger.enqueued
    requires m !in b.cells[i].timers && m !in b.cells[i].ledger.expired
    ensures i < |Run(b, events).cells| && m !in Run(b, events).cells[i].ledger.expired
    decreases |events|
  {
    hide BusOk;
    if events != [] {
      var op := QueueMoves(b, events[0], i);
      ApplyKeepsOk(b, events[0]);
      if op.Some? {
        StepArmsNoOld(b.cells[i], op.value, m);
      }
      NoTimerNoExpiry(Apply(b, events[0]), events[1..], i, m);
    }
  }

  lemma StepArmsNoOld(c: Cell, op: Op, m: Message)
    requires Admissible(c, op) && m in c.ledger.enqueued && m !in c.timers && m !in c.ledger.expired
    ensures var c' := StepCell(c, op); m in c'.ledger.enqueued && m !in c'.timers && m !in c'.ledger.expired
  {
    hide PumpBlock;
    if op.Pump? {
      PumpIsExact(c.q);
    }
  }

  lemma ExpiryFindsNothing(c: Cell, m: Message)
    requires m in c.timers && m !in c.q.pending && m !in c.q.inflight
    ensures StepCell(c, Expire(m)) == c.(timers := c.timers - {m})
  {
  }

  /** A delayed retry misses its expiry for good: the timer finds it nowhere, and no run ever expires it. */
  lemma ParkedMessageNeverExpires(b: Bus, i: nat, m: Message, events: seq<Event>)
    requires BusOk(b) && i < |b.cells| && m in b.cells[i].parked && m in b.cells[i].timers
    ensures var b' := Apply(b, OnQueue(i, Expire(m)));
            && b'.cells[i] == b.cells[i].(timers := b.cells[i].timers - {m})
            && b'.transit == b.transit
            && i < |Run(b', events).cells| && m !in Run(b', events).cells[i].ledger.expired
  {
    assert Settled(b.cells[i], b.seqNo);
    LiveIsNotDone(b.cells[i], m);
    ExpiryFindsNothing(b.cells[i], m);
    ApplyKeepsOk(b, OnQueue(i, Expire(m)));
    hide BusOk, Run, StepCell;
    NoTimerNoExpiry(Apply(b, OnQueue(i, Expire(m))), events, i, m);
  }

  /** A run on which that happens: the message is delivered again after its expiry timer fired. */
  lemma DeliveredAfterItsExpiry() returns (events: seq<Event>)
    ensures exists c, m: Message :: Reaches(events, c) && m.Expires() && m !in c.timers && m in c.q.inflight
  {
    var a, b := Copy(2, "a", Some(0)), Copy(4, "b", None);
    var c: Cell;
    events, c := TwoWaiting(3, Some(1), Some(0));
    hide Reaches, StepCell;
    events, c := HeadTurn(events, c, Requeue);
    ExpiryFindsNothing(c, a);
    events, c := Step(events, c, Expire(a));
    events, c := HeadTurn(events, c, Ack);
    RetryBrings(c, a);
    events, c := Step(events, c, Retry(a));
    events, c := HeadHeld(events, c);
    assert Reaches(events, c) && a.Expires() && a !in c.timers && a in c.q.inflight;
  }

  lemma RetryBrings(c: Cell, m: Message)
    requires m in c.parked
    ensures StepCell(c, Retry(m))
            == c.(q := c.q.(pending := c.q.pending + [m]), parked := c.parked - {m}, owed := c.owed + 1)
  {
  }

  /** With consumer 0 busy, each owed pump of the only queue stops without delivering. */
  lemma {:induction false} PumpsStop(events: seq<Event>, c: Cell) returns (events': seq<Event>, c': Cell)
    requires Reaches(events, c) && c.q.inflight != map[]
    requires c.q.config.singleActiveConsumer && !c.q.config.partitionByGroup
    ensures Reaches(events', c') && c' == c.(owed := 0, ledger := c'.ledger)
    decreases c.owed
  {
    hide Reaches;
    events', c' := events, c;
    if c.owed > 0 {
      events', c' := Step(events, c, Op.Pump);
      events', c' := PumpsStop(events', c');
    }
  }

  /** A run that loses a wake-up: a message could be delivered, and no thread will ever pump. */
  lemma ExpiryLosesAWakeUp() returns (events: seq<Event>)
    ensures exists c :: Reaches(events, c) && CanDeliver(c.q) && c.owed == 0
  {
    var a, b := Copy(2, "a", Some(0)), Copy(4, "b", None);
    var c: Cell;
    events, c := TwoWaiting(3, None, Some(0));
    hide Reaches, StepCell;
    events, c := HeadHeld(events, c);
    events, c := PumpsStop(events, c);
    ExpiryFrees(c, a);
    events, c := Step(events, c, Expire(a));
    assert Reaches(events, c) && CanDeliver(c.q) && c.owed == 0;
  }

  lemma ExpiryFrees(c: Cell, m: Message)
    requires m in c.timers && m !in c.q.pending && c.q.inflight == map[m := 0]
    ensures var c' := StepCell(c, Expire(m));
            c'.q == c.q.(inflight := map[]) && c'.owed == c.owed
  {
    assert c.q.inflight - {m} == map[];
  }
}
