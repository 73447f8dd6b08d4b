/** What every reachable bus satisfies, whatever the interleaving of threads and timers. */
module BusInvariants {
  import opened Wrappers
  import opened BusTypes
  import opened QueueSteps
  import opened QueueCells
  import opened BusMachine
  import opened GroupScan
  import opened Custody
  import opened Accounts
  import opened Holders
  import opened WakeUp
  import opened Lanes

  /** Everything promised about one queue. */
  ghost predicate CellOk(c: Cell) {
    && Conserved(c)
    && WellHeld(c.q)
    && Awake(c)
    && Balanced(c) && c.ledger.lapsed <= c.ledger.expired
    && Bounded(c)
    && Tidy(c)
  }

  lemma StepKeepsCellOk(c: Cell, op: Op)
    requires CellOk(c) && Admissible(c, op)
    ensures CellOk(StepCell(c, op))
  {
    StepConserves(c, op);
    StepKeepsHeld(c, op);
    StepKeepsAwake(c, op);
    StepBalances(c, op);
    StepBounds(c, op);
    StepKeepsTidy(c, op);
  }

  lemma NewCellIsOk(key: string, config: QueueConfig, start: nat, seeds: seq<Message>)
    requires IdsAscend(seeds)
    ensures CellOk(NewCell(key, config, start, seeds))
  {
    var c := NewCell(key, config, start, seeds);
    forall m ensures Places(c, m) == multiset(c.ledger.enqueued)[m] {
    }
    forall m
      ensures c.q.Count(m) == TimesSent(c.ledger.sent, m)
      ensures c.q.Count(m) == TimesEnded(c, m) + One(m in c.q.inflight)
    {
    }
  }

  // ---------------------------------------------------------------- ids

  ghost predicate LogAscends(entries: seq<LogEntry>, seqNo: nat) {
    && (forall i :: 0 <= i < |entries| ==> entries[i].msg.id <= seqNo)
    && (forall i, j :: 0 <= i < j < |entries| ==> entries[i].msg.id < entries[j].msg.id)
  }

  /** The counter is ahead of every id in use. */
  ghost predicate IdsBelow(s: seq<Message>, seqNo: nat) {
    forall i :: 0 <= i < |s| ==> s[i].id <= seqNo
  }

  ghost predicate KeysDistinct(cells: seq<Cell>) {
    forall i, j :: 0 <= i < j < |cells| ==> cells[i].key != cells[j].key
  }

  ghost predicate Settled(c: Cell, seqNo: nat) {
    CellOk(c) && IdsBelow(c.ledger.enqueued, seqNo)
  }

  ghost predicate BusOk(b: Bus) {
    && (forall i :: 0 <= i < |b.cells| ==> Settled(b.cells[i], b.seqNo))
    && (forall t :: t in b.log ==> LogAscends(b.log[t], b.seqNo))
    && KeysDistinct(b.cells)
  }

  lemma {:induction false} TakersGrow(cells: seq<Cell>, m: nat, n: nat, topic: string, key: string)
    requires m <= n <= |cells|
    ensures Takers(cells, m, topic, key) <= Takers(cells, n, topic, key)
    ensures m < n && Takes(cells[m], topic, key) ==> Takers(cells, m, topic, key) < Takers(cells, n, topic, key)
    decreases n
  {
    if m < n {
      TakersGrow(cells, m, n - 1, topic, key);
    }
  }

  lemma LaterStillSettled(c: Cell, low: nat, high: nat)
    requires Settled(c, low) && low <= high
    ensures Settled(c, high)
  {
  }

  lemma EnqueueSettles(c: Cell, m: Message, low: nat, high: nat)
    requires Settled(c, low) && low < m.id <= high
    ensures Settled(EnqueueCell(c, m), high)
  {
    StepKeepsCellOk(c, Enqueue(m));
  }

  lemma FanOutSettles(b: Bus, i: nat, topic: string, body: string, key: string, options: Option<PublishOptions>,
                      high: nat)
    requires i < |b.cells| && Settled(b.cells[i], b.seqNo)
    requires high == b.seqNo + 1 + Takers(b.cells, |b.cells|, topic, key)
    ensures Settled(FanOut(b, topic, body, key, options)[i], high)
  {
    TakersGrow(b.cells, i, |b.cells|, topic, key);
    if Takes(b.cells[i], topic, key) {
      EnqueueSettles(b.cells[i], CopyFor(b, i, topic, body, key, options), b.seqNo, high);
    } else {
      LaterStillSettled(b.cells[i], b.seqNo, high);
    }
  }

  lemma LogEntryAscends(entries: seq<LogEntry>, e: LogEntry, seqNo: nat, high: nat)
    requires LogAscends(entries, seqNo) && seqNo < e.msg.id <= high
    ensures LogAscends(entries + [e], high)
  {
  }

  lemma PublishedLogAscends(b: Bus, topic: string, e: LogEntry, high: nat, t: string)
    requires BusOk(b) && b.seqNo < e.msg.id <= high
    requires t in b.log[topic := LogOf(b, topic) + [e]]
    ensures LogAscends(b.log[topic := LogOf(b, topic) + [e]][t], high)
  {
    if t == topic {
      LogEntryAscends(LogOf(b, topic), e, b.seqNo, high);
    } else {
      assert LogAscends(b.log[t], b.seqNo);
    }
  }

  /** Replacing the queues and the logs by settled ones with the same keys. */
  lemma RebuiltIsOk(b: Bus, b': Bus)
    requires BusOk(b) && |b'.cells| == |b.cells|
    requires forall i :: 0 <= i < |b'.cells| ==> Settled(b'.cells[i], b'.seqNo)
    requires forall i :: 0 <= i < |b'.cells| ==> b'.cells[i].key == b.cells[i].key
    requires forall t :: t in b'.log ==> LogAscends(b'.log[t], b'.seqNo)
    ensures BusOk(b')
  {
  }

  lemma PublishKeepsOk(b: Bus, topic: string, body: string, key: string, options: Option<PublishOptions>,
                       origin: Option<Republish>)
    requires BusOk(b)
    ensures BusOk(PublishBlock(b, topic, body, key, options, origin))
  {
    hide CellOk, Takes;
    if !Duplicate(b, options) {
      var b' := PublishBlock(b, topic, body, key, options, origin);
      var e := LogEntry(Message(b.seqNo + 1, body, key, options), origin);
      forall i | 0 <= i < |b'.cells| ensures Settled(b'.cells[i], b'.seqNo) {
        FanOutSettles(b, i, topic, body, key, options, b'.seqNo);
      }
      forall t | t in b'.log ensures LogAscends(b'.log[t], b'.seqNo) {
        PublishedLogAscends(b, topic, e, b'.seqNo, t);
      }
      RebuiltIsOk(b, b');
    }
  }

  lemma {:induction false} SeedsAscend(config: QueueConfig, entries: seq<LogEntry>, seqNo: nat)
    requires LogAscends(entries, seqNo)
    ensures IdsAscend(Seeds(config, entries)) && IdsBelow(Seeds(config, entries), seqNo)
    ensures entries != [] ==> IdsBelow(Seeds(config, entries), entries[|entries| - 1].msg.id)
  {
    if entries != [] {
      var n := |entries| - 1;
      assert LogAscends(entries[..n], seqNo);
      SeedsAscend(config, entries[..n], seqNo);
      if n > 0 {
        assert entries[..n][n - 1] == entries[n - 1];
      }
    }
  }

  lemma CreatedIsSettled(b: Bus, key: string, topic: string, opts: SubscribeOptions)
    requires BusOk(b)
    ensures Settled(Created(b, key, topic, opts), b.seqNo)
  {
    SeedsAscend(ConfigOf(topic, opts), LogOf(b, topic), b.seqNo);
    if opts.streamReplay {
      NewCellIsOk(key, ConfigOf(topic, opts), 0, Seeds(ConfigOf(topic, opts), LogOf(b, topic)));
    } else {
      NewCellIsOk(key, ConfigOf(topic, opts), |LogOf(b, topic)|, []);
    }
  }

  lemma AttachSettles(c: Cell, h: Handler, low: nat, high: nat)
    requires Settled(c, low) && low <= high
    ensures Settled(AttachCell(c, h), high)
  {
    StepKeepsCellOk(c, Attach(h));
  }

  lemma SubscribeKeepsOk(b: Bus, topic: string, h: Handler, opts: SubscribeOptions)
    requires BusOk(b)
    ensures BusOk(SubscribeBlock(b, topic, h, opts))
  {
    hide CellOk;
    var b' := SubscribeBlock(b, topic, h, opts);
    var key := SubscribeKey(b, topic, opts);
    var i := Find(b.cells, key);
    var cells := if i < |b.cells| then b.cells else b.cells + [Created(b, key, topic, opts)];
    if i == |b.cells| {
      CreatedIsSettled(b, key, topic, opts);
    }
    AttachSettles(cells[i], h, b.seqNo, b'.seqNo);
    forall j | 0 <= j < |b'.cells| ensures Settled(b'.cells[j], b'.seqNo) && b'.cells[j].key == cells[j].key {
      if j != i {
        LaterStillSettled(cells[j], b.seqNo, b'.seqNo);
      }
    }
    forall t | t in b'.log ensures LogAscends(b'.log[t], b'.seqNo) {
      assert LogAscends(b.log[t], b.seqNo);
    }
  }

  lemma LocalKeepsEnqueued(c: Cell, op: Op)
    requires Local(op)
    ensures StepCell(c, op).ledger.enqueued == c.ledger.enqueued
    ensures StepCell(c, op).ledger.start == c.ledger.start
    ensures StepCell(c, op).key == c.key && StepCell(c, op).q.config == c.q.config
  {
    hide PumpBlock;
    if op.Pump? {
      PumpIsExact(c.q);
    }
  }

  lemma QueueBlockKeepsOk(b: Bus, i: nat, op: Op)
    requires BusOk(b) && i < |b.cells| && Local(op)
    ensures BusOk(QueueBlock(b, i, op))
  {
    hide CellOk, StepCell;
    StepKeepsCellOk(b.cells[i], op);
    LocalKeepsEnqueued(b.cells[i], op);
  }

  lemma ApplyKeepsOk(b: Bus, e: Event)
    requires BusOk(b)
    ensures BusOk(Apply(b, e))
  {
    hide CellOk, PublishBlock, SubscribeBlock, QueueBlock;
    match e
    case Publish(topic, body, key, options) => PublishKeepsOk(b, topic, body, key.GetOr(topic), options, None);
    case Subscribe(topic, h, opts) => SubscribeKeepsOk(b, topic, h, opts);
    case OnQueue(i, op) =>
      if i < |b.cells| && Local(op) {
        QueueBlockKeepsOk(b, i, op);
      }
    case Forward(r) =>
      if r in b.transit {
        var b1 := b.(transit := b.transit - multiset{r});
        assert BusOk(b1);
        PublishKeepsOk(b1, r.Address(), r.msg.body, r.msg.routingKey, None, Some(r));
      }
  }

  lemma {:induction false} RunKeepsOk(b: Bus, events: seq<Event>)
    requires BusOk(b)
    ensures BusOk(Run(b, events))
    decreases |events|
  {
    if events != [] {
      ApplyKeepsOk(b, events[0]);
      RunKeepsOk(Apply(b, events[0]), events[1..]);
    }
  }

  /** Every bus reached from the empty one is in order. */
  lemma ReachableIsOk(events: seq<Event>)
    ensures BusOk(Run(INIT, events))
  {
    RunKeepsOk(INIT, events);
  }

  /** The queue at `i` makes at most one step of its own in any event. */
  lemma QueueMoves(b: Bus, e: Event, i: nat) returns (op: Option<Op>)
    requires BusOk(b) && i < |b.cells|
    ensures i < |Apply(b, e).cells|
    ensures op.None? ==> Apply(b, e).cells[i] == b.cells[i]
    ensures op.Some? ==> Admissible(b.cells[i], op.value) && Apply(b, e).cells[i] == StepCell(b.cells[i], op.value)
    ensures op.Some? ==> op.value.Enqueue? || op.value.Attach? || e == OnQueue(i, op.value)
    ensures e.OnQueue? && e.queue == i && Local(e.op) ==> op == Some(e.op)
    ensures op.Some? && op.value.Attach? ==> e.Subscribe? && SubscribeKey(b, e.topic, e.opts) == b.cells[i].key
  {
    hide CellOk;
    assert Settled(b.cells[i], b.seqNo);
    op := None;
    match e
    case Publish(topic, body, key, options) =>
      if !Duplicate(b, options) && Takes(b.cells[i], topic, key.GetOr(topic)) {
        op := Some(Enqueue(CopyFor(b, i, topic, body, key.GetOr(topic), options)));
      }
    case Subscribe(topic, h, opts) =>
      if Find(b.cells, SubscribeKey(b, topic, opts)) == i {
        op := Some(Attach(h));
      }
    case OnQueue(j, local) =>
      if j == i && Local(local) {
        op := Some(local);
      }
    case Forward(r) =>
      var b1 := b.(transit := b.transit - multiset{r});
      if r in b.transit && Takes(b.cells[i], r.Address(), r.msg.routingKey) {
        op := Some(Enqueue(CopyFor(b1, i, r.Address(), r.msg.body, r.msg.routingKey, None)));
      }
  }

  /** No step changes a queue's key, its configuration or where its history starts. */
  lemma StepKeepsIdentity(c: Cell, op: Op)
    ensures var c' := StepCell(c, op);
            c'.key == c.key && c'.q.config == c.q.config && c'.ledger.start == c.ledger.start
  {
    hide PumpCell;
    if Local(op) {
      LocalKeepsEnqueued(c, op);
    }
  }

  lemma {:induction false} RunKeepsIdentity(b: Bus, events: seq<Event>, i: nat)
    requires BusOk(b) && i < |b.cells|
    ensures i < |Run(b, events).cells|
    ensures var c, c' := b.cells[i], Run(b, events).cells[i];
            c'.key == c.key && c'.q.config == c.q.config && c'.ledger.start == c.ledger.start
    decreases |events|
  {
    hide BusOk, StepCell, Apply;
    if events != [] {
      var op := QueueMoves(b, events[0], i);
      if op.Some? {
        StepKeepsIdentity(b.cells[i], op.value);
      }
      ApplyKeepsOk(b, events[0]);
      RunKeepsIdentity(Apply(b, events[0]), events[1..], i);
    }
  }

  /** Only a subscribe adds a queue, under the key it asked for. */
  lemma NewQueueHasItsKey(b: Bus, e: Event, i: nat)
    requires |b.cells| <= i < |Apply(b, e).cells|
    ensures e.Subscribe?
    ensures Apply(b, e).cells[i].key == SubscribeKey(b, e.topic, e.opts)
            && Apply(b, e).cells[i].q.config.topic == e.topic
  {
    hide StepCell, Seeds;
  }
}
