/** On a `PartitionByGroup` queue the `SingleActiveConsumer` flag changes nothing, in any step and over any run. */
module Partitioning {
  import opened Wrappers
  import opened BusTypes
  import opened QueueSteps
  import opened QueueCells
  import opened BusMachine
  import opened BusInvariants

  function WithSingleActive(q: Queue, flag: bool): Queue {
    q.(config := q.config.(singleActiveConsumer := flag))
  }

  function Flagged(c: Cell, flag: bool): Cell {
    c.(q := WithSingleActive(c.q, flag))
  }

  lemma PumpCellIgnores(c: Cell, flag: bool)
    requires c.q.config.partitionByGroup
    ensures PumpCell(Flagged(c, flag)) == Flagged(PumpCell(c), flag)
  {
    hide PumpBlock;
    PumpIgnoresSingleActive(c.q, flag);
  }

  lemma SettleCellIgnores(c: Cell, m: Message, h: Handler, kind: SettleKind, flag: bool)
    ensures SettleCell(Flagged(c, flag), m, h, kind) == Flagged(SettleCell(c, m, h, kind), flag)
  {
    SettleIgnoresSingleActive(c.q, m, h, kind, flag);
    hide SettleBlock, WithSingleActive;
    var (q, outcome) := SettleBlock(c.q, m, h, kind);
    match outcome
    case Ignored =>
    case Acked =>
    case DeadLettered =>
    case Requeued =>
    case Parked =>
  }

  lemma DetachCellIgnores(c: Cell, h: Handler, flag: bool)
    ensures DetachCell(Flagged(c, flag), h) == Flagged(DetachCell(c, h), flag)
  {
    DropIgnoresSingleActive(c.q, h, flag);
    hide DropBlock, Held;
  }

  /** On a partitioned queue the single-active flag changes no step at all. */
  lemma PartitioningHidesSingleActive(c: Cell, op: Op, flag: bool)
    requires c.q.config.partitionByGroup
    ensures StepCell(Flagged(c, flag), op) == Flagged(StepCell(c, op), flag)
  {
    hide PumpCell, SettleCell, DetachCell;
    match op
    case Pump => PumpCellIgnores(c, flag);
    case Settle(m, h, kind) => SettleCellIgnores(c, m, h, kind, flag);
    case Detach(h) => DetachCellIgnores(c, h, flag);
    case _ =>
  }

  /** Nor does it change what the step leaves to republish. */
  lemma EmitsIgnoresSingleActive(i: nat, c: Cell, op: Op, flag: bool)
    ensures Emits(i, Flagged(c, flag), op) == Emits(i, c, op)
  {
    match op
    case Settle(m, h, kind) =>
      SettleIgnoresSingleActive(c.q, m, h, kind, flag);
      hide SettleBlock;
    case _ =>
  }

  /** The same queue, with the flag as given if it is partitioned. */
  function Reflagged(c: Cell, flag: bool): Cell {
    if c.q.config.partitionByGroup then Flagged(c, flag) else c
  }

  function ReflaggedBus(b: Bus, flag: bool): Bus {
    b.(cells := ReflaggedCells(b.cells, flag))
  }

  function ReflaggedCells(cells: seq<Cell>, flag: bool): (r: seq<Cell>)
    ensures |r| == |cells|
  {
    seq(|cells|, i requires 0 <= i < |cells| => Reflagged(cells[i], flag))
  }

  lemma ReflaggedChanges(cells: seq<Cell>, flag: bool, c: Cell, i: nat)
    ensures ReflaggedCells(cells + [c], flag) == ReflaggedCells(cells, flag) + [Reflagged(c, flag)]
    ensures i < |cells| ==> ReflaggedCells(cells[i := c], flag) == ReflaggedCells(cells, flag)[i := Reflagged(c, flag)]
    ensures i < |cells| ==> ReflaggedCells(cells, flag)[i] == Reflagged(cells[i], flag)
  {
    hide Reflagged;
  }

  /** The same event, with the flag as given in the options of a partitioned subscription. */
  function ReflaggedEvent(e: Event, flag: bool): Event {
    if e.Subscribe? && e.opts.partitionByGroup then e.(opts := e.opts.(singleActiveConsumer := flag)) else e
  }

  function ReflaggedEvents(events: seq<Event>, flag: bool): (r: seq<Event>)
    ensures |r| == |events|
  {
    seq(|events|, i requires 0 <= i < |events| => ReflaggedEvent(events[i], flag))
  }

  lemma StepIgnoresReflagging(c: Cell, op: Op, flag: bool)
    ensures StepCell(Reflagged(c, flag), op) == Reflagged(StepCell(c, op), flag)
  {
    StepKeepsIdentity(c, op);
    if c.q.config.partitionByGroup {
      PartitioningHidesSingleActive(c, op, flag);
    }
    hide StepCell;
  }

  lemma {:induction false} TakersIgnoreReflagging(b: Bus, n: nat, topic: string, key: string, flag: bool)
    requires n <= |b.cells|
    ensures Takers(ReflaggedBus(b, flag).cells, n, topic, key) == Takers(b.cells, n, topic, key)
  {
    hide QueueConfig.Matches;
    if n > 0 {
      TakersIgnoreReflagging(b, n - 1, topic, key, flag);
      MatchesIgnoresFlag(b.cells[n - 1], key, flag);
    }
  }

  lemma MatchesIgnoresFlag(c: Cell, key: string, flag: bool)
    ensures Reflagged(c, flag).q.config.Matches(key) == c.q.config.Matches(key)
    ensures Reflagged(c, flag).q.config.topic == c.q.config.topic && Reflagged(c, flag).key == c.key
  {
  }

  lemma FanOutIgnoresReflagging(b: Bus, i: nat, topic: string, body: string, key: string,
                                options: Option<PublishOptions>, flag: bool)
    requires i < |b.cells|
    ensures FanOut(ReflaggedBus(b, flag), topic, body, key, options)[i]
            == Reflagged(FanOut(b, topic, body, key, options)[i], flag)
  {
    TakersIgnoreReflagging(b, i, topic, key, flag);
    MatchesIgnoresFlag(b.cells[i], key, flag);
    var m := CopyFor(b, i, topic, body, key, options);
    StepIgnoresReflagging(b.cells[i], Enqueue(m), flag);
    hide QueueConfig.Matches, Takers, Reflagged;
  }

  lemma PublishIgnoresReflagging(b: Bus, topic: string, body: string, key: string, options: Option<PublishOptions>,
                                 origin: Option<Republish>, flag: bool)
    ensures PublishBlock(ReflaggedBus(b, flag), topic, body, key, options, origin)
            == ReflaggedBus(PublishBlock(b, topic, body, key, options, origin), flag)
  {
    TakersIgnoreReflagging(b, |b.cells|, topic, key, flag);
    forall i | 0 <= i < |b.cells|
      ensures FanOut(ReflaggedBus(b, flag), topic, body, key, options)[i]
              == Reflagged(FanOut(b, topic, body, key, options)[i], flag)
    {
      FanOutIgnoresReflagging(b, i, topic, body, key, options, flag);
    }
    hide Takes, Takers, Reflagged, CopyFor;
  }

  lemma {:induction false} SeedsIgnoreFlag(config: QueueConfig, entries: seq<LogEntry>, flag: bool)
    ensures Seeds(config.(singleActiveConsumer := flag), entries) == Seeds(config, entries)
  {
    if entries != [] {
      SeedsIgnoreFlag(config, entries[..|entries| - 1], flag);
    }
  }

  lemma {:induction false} FindIgnoresReflagging(a: seq<Cell>, b: seq<Cell>, key: string)
    requires |a| == |b| && forall i :: 0 <= i < |a| ==> a[i].key == b[i].key
    ensures Find(a, key) == Find(b, key)
  {
    var i, j := Find(a, key), Find(b, key);
    if i < |a| {
      assert b[i].key == key;
    }
    if j < |b| {
      assert a[j].key == key;
    }
  }

  lemma CreatedIgnoresReflagging(b: Bus, key: string, topic: string, opts: SubscribeOptions, flag: bool)
    requires opts.partitionByGroup
    ensures Created(ReflaggedBus(b, flag), key, topic, opts.(singleActiveConsumer := flag))
            == Reflagged(Created(b, key, topic, opts), flag)
  {
    SeedsIgnoreFlag(ConfigOf(topic, opts), LogOf(b, topic), flag);
    hide Seeds;
  }

  /** The cells of a subscribe, from the queue it found or made. */
  function SubscribedTo(cells: seq<Cell>, i: nat, created: Cell, h: Handler): seq<Cell>
    requires i <= |cells|
  {
    if i < |cells| then cells[i := AttachCell(cells[i], h)] else cells + [AttachCell(created, h)]
  }

  lemma SubscribeIs(b: Bus, topic: string, h: Handler, opts: SubscribeOptions)
    ensures var key := SubscribeKey(b, topic, opts);
            SubscribeBlock(b, topic, h, opts)
            == b.(seqNo := SubscribeSeq(b, opts),
                  cells := SubscribedTo(b.cells, Find(b.cells, key), Created(b, key, topic, opts), h))
  {
    hide Created;
    var key := SubscribeKey(b, topic, opts);
    var c := Created(b, key, topic, opts);
    assert (b.cells + [c])[|b.cells| := AttachCell(c, h)] == b.cells + [AttachCell(c, h)];
  }

  lemma SubscribedToIgnores(cells: seq<Cell>, i: nat, created: Cell, h: Handler, flag: bool)
    requires i <= |cells|
    ensures SubscribedTo(ReflaggedCells(cells, flag), i, Reflagged(created, flag), h)
            == ReflaggedCells(SubscribedTo(cells, i, created, h), flag)
  {
    var c := if i < |cells| then cells[i] else created;
    StepIgnoresReflagging(c, Attach(h), flag);
    ReflaggedChanges(cells, flag, AttachCell(c, h), i);
    if i < |cells| {
      ReflaggedChanges(cells, flag, cells[i], i);
    }
    hide Reflagged, ReflaggedCells;
  }

  lemma SubscribeFindsTheSame(b: Bus, topic: string, opts: SubscribeOptions, flag: bool)
    ensures var b1 := ReflaggedBus(b, flag);
            var opts1 := if opts.partitionByGroup then opts.(singleActiveConsumer := flag) else opts;
            var key := SubscribeKey(b, topic, opts);
            && SubscribeKey(b1, topic, opts1) == key && SubscribeSeq(b1, opts1) == SubscribeSeq(b, opts)
            && Find(b1.cells, key) == Find(b.cells, key)
            && Created(b1, key, topic, opts1) == Reflagged(Created(b, key, topic, opts), flag)
  {
    var key := SubscribeKey(b, topic, opts);
    FindIgnoresReflagging(ReflaggedBus(b, flag).cells, b.cells, key);
    if opts.partitionByGroup {
      CreatedIgnoresReflagging(b, key, topic, opts, flag);
    }
    hide Seeds;
  }

  lemma SubscribeIgnoresReflagging(b: Bus, topic: string, h: Handler, opts: SubscribeOptions, flag: bool)
    ensures Apply(ReflaggedBus(b, flag), ReflaggedEvent(Subscribe(topic, h, opts), flag))
            == ReflaggedBus(SubscribeBlock(b, topic, h, opts), flag)
  {
    var b1 := ReflaggedBus(b, flag);
    var opts1 := if opts.partitionByGroup then opts.(singleActiveConsumer := flag) else opts;
    var key := SubscribeKey(b, topic, opts);
    SubscribeFindsTheSame(b, topic, opts, flag);
    SubscribeIs(b, topic, h, opts);
    SubscribeIs(b1, topic, h, opts1);
    SubscribedToIgnores(b.cells, Find(b.cells, key), Created(b, key, topic, opts), h, flag);
    hide Created, Seeds, SubscribeBlock, Reflagged, ReflaggedCells, SubscribedTo, SubscribeKey, SubscribeSeq, Find;
  }

  lemma QueueIgnoresReflagging(b: Bus, i: nat, op: Op, flag: bool)
    requires i < |b.cells|
    ensures QueueBlock(ReflaggedBus(b, flag), i, op) == ReflaggedBus(QueueBlock(b, i, op), flag)
  {
    StepIgnoresReflagging(b.cells[i], op, flag);
    if b.cells[i].q.config.partitionByGroup {
      EmitsIgnoresSingleActive(i, b.cells[i], op, flag);
    }
    assert Emits(i, Reflagged(b.cells[i], flag), op) == Emits(i, b.cells[i], op);
    hide StepCell, Emits, Reflagged;
  }

  lemma ApplyIgnoresReflagging(b: Bus, e: Event, flag: bool)
    ensures Apply(ReflaggedBus(b, flag), ReflaggedEvent(e, flag)) == ReflaggedBus(Apply(b, e), flag)
  {
    hide PublishBlock, SubscribeBlock, QueueBlock;
    match e
    case Publish(topic, body, key, options) =>
      PublishIgnoresReflagging(b, topic, body, key.GetOr(topic), options, None, flag);
    case Subscribe(topic, h, opts) => SubscribeIgnoresReflagging(b, topic, h, opts, flag);
    case OnQueue(i, op) =>
      if i < |b.cells| && Local(op) {
        QueueIgnoresReflagging(b, i, op, flag);
      }
    case Forward(r) =>
      if r in b.transit {
        var b1 := b.(transit := b.transit - multiset{r});
        PublishIgnoresReflagging(b1, r.Address(), r.msg.body, r.msg.routingKey, None, Some(r), flag);
        assert ReflaggedBus(b1, flag) == ReflaggedBus(b, flag).(transit := b1.transit);
      }
  }

  lemma {:induction false} RunIgnoresReflagging(b: Bus, events: seq<Event>, flag: bool)
    ensures Run(ReflaggedBus(b, flag), ReflaggedEvents(events, flag)) == ReflaggedBus(Run(b, events), flag)
    decreases |events|
  {
    hide Apply, ReflaggedEvent, ReflaggedBus;
    if events != [] {
      ApplyIgnoresReflagging(b, events[0], flag);
      RunIgnoresReflagging(Apply(b, events[0]), events[1..], flag);
      assert ReflaggedEvents(events, flag)[1..] == ReflaggedEvents(events[1..], flag);
    }
  }

  /** Over every run: set the flag of all partitioned subscriptions either way, and only the flag itself differs. */
  lemma PartitionedRunsHideSingleActive(events: seq<Event>, flag: bool)
    ensures Run(INIT, ReflaggedEvents(events, flag)) == ReflaggedBus(Run(INIT, events), flag)
  {
    RunIgnoresReflagging(INIT, events, flag);
    assert ReflaggedBus(INIT, flag) == INIT;
  }

  lemma SettleIgnoresSingleActive(q: Queue, m: Message, h: Handler, kind: SettleKind, flag: bool)
    ensures SettleBlock(WithSingleActive(q, flag), m, h, kind)
            == (WithSingleActive(SettleBlock(q, m, h, kind).0, flag), SettleBlock(q, m, h, kind).1)
  {
  }

  lemma DropIgnoresSingleActive(q: Queue, h: Handler, flag: bool)
    ensures Held(WithSingleActive(q, flag), h) == Held(q, h)
    ensures DropBlock(WithSingleActive(q, flag), h) == WithSingleActive(DropBlock(q, h), flag)
  {
  }

  lemma PumpIgnoresSingleActive(q: Queue, flag: bool)
    requires q.config.partitionByGroup
    ensures var p, p' := PumpBlock(q), PumpBlock(WithSingleActive(q, flag));
            && p'.queue == WithSingleActive(p.queue, flag)
            && (p.Idle? <==> p'.Idle?)
            && (p.Sent? ==> p'.index == p.index && p'.msg == p.msg && p'.to == p.to)
  {
    hide ScanGroups;
  }
}
