/**
 * The whole bus as a machine of lock blocks. An event names one block and its arguments; a
 * block that is not due leaves the bus as it is, so every list of events is a run and every
 * interleaving of threads and timers is such a list.
 */
module BusMachine {
  import opened Wrappers
  import opened Words
  import opened BusTypes
  import opened QueueSteps
  import opened QueueCells

  datatype Cause = Poisoned | Lapsed

  /** A dead-letter or expiry publish on its way: which copy of which queue caused it. */
  datatype Republish = Republish(queue: nat, topic: string, msg: Message, cause: Cause) {
    function Address(): string {
      match cause
      case Poisoned => DeadLetterAddress(topic)
      case Lapsed => ExpiryAddress(topic)
    }
  }

  /** A line of a topic's log; `origin` is history, telling republishes from outside publishes. */
  datatype LogEntry = LogEntry(msg: Message, origin: Option<Republish>)

  datatype Bus = Bus(
    cells: seq<Cell>,                   // queues in order of creation; none is ever removed
    seen: set<string>,                  // dedup ids
    log: map<string, seq<LogEntry>>,    // append-only log of each topic
    seqNo: nat,                         // the counter behind every id
    transit: multiset<Republish>)       // republishes that threads still have to perform

  datatype Event =
    | Publish(topic: string, body: string, key: Option<string>, options: Option<PublishOptions>)
    | Subscribe(topic: string, handler: Handler, opts: SubscribeOptions)
    | OnQueue(queue: nat, op: Op)       // drop, pump, settle, retry timer, expiry timer
    | Forward(r: Republish)             // perform a republish in transit

  const INIT := Bus([], {}, map[], 0, multiset{})

  function LogOf(b: Bus, topic: string): seq<LogEntry> {
    if topic in b.log then b.log[topic] else []
  }

  // ---------------------------------------------------------------- publish

  predicate Takes(c: Cell, topic: string, key: string) {
    c.q.config.topic == topic && c.q.config.Matches(key)
  }

  /** How many of the first `n` queues take a copy. */
  function Takers(cells: seq<Cell>, n: nat, topic: string, key: string): nat
    requires n <= |cells|
  {
    if n == 0 then 0
    else Takers(cells, n - 1, topic, key) + (if Takes(cells[n - 1], topic, key) then 1 else 0)
  }

  /** The copy that the queue at index `i` takes; queues draw ids in order of creation. */
  function CopyFor(b: Bus, i: nat, topic: string, body: string, key: string, options: Option<PublishOptions>): Message
    requires i <= |b.cells|
  {
    Message(b.seqNo + 2 + Takers(b.cells, i, topic, key), body, key, options)
  }

  function FanOut(b: Bus, topic: string, body: string, key: string, options: Option<PublishOptions>): seq<Cell> {
    seq(|b.cells|, i requires 0 <= i < |b.cells| =>
      if Takes(b.cells[i], topic, key) then EnqueueCell(b.cells[i], CopyFor(b, i, topic, body, key, options))
      else b.cells[i])
  }

  predicate Duplicate(b: Bus, options: Option<PublishOptions>) {
    options.Some? && options.value.dedupId.Some? && options.value.dedupId.value in b.seen
  }

  function DedupIds(options: Option<PublishOptions>): set<string> {
    if options.Some? && options.value.dedupId.Some? then {options.value.dedupId.value} else {}
  }

  /** The lock block of `Publish`. */
  function PublishBlock(b: Bus, topic: string, body: string, key: string, options: Option<PublishOptions>,
                        origin: Option<Republish>): Bus
  {
    if Duplicate(b, options) then b
    else
      var entry := LogEntry(Message(b.seqNo + 1, body, key, options), origin);
      b.(seen := b.seen + DedupIds(options),
         log := b.log[topic := LogOf(b, topic) + [entry]],
         seqNo := b.seqNo + 1 + Takers(b.cells, |b.cells|, topic, key),
         cells := FanOut(b, topic, body, key, options))
  }

  // ---------------------------------------------------------------- subscribe

  function Key(topic: string, subscriberId: string): string {
    topic + " " + subscriberId
  }

  /** The index of the queue with this key, or the number of queues when there is none. */
  function Find(cells: seq<Cell>, key: string): (i: nat)
    ensures i <= |cells|
    ensures i < |cells| ==> cells[i].key == key
    ensures forall j :: 0 <= j < i ==> cells[j].key != key
  {
    if cells == [] then 0
    else if cells[0].key == key then 0
    else
      var i := Find(cells[1..], key);
      assert forall j :: 1 <= j < i + 1 ==> cells[j] == cells[1..][j - 1];
      i + 1
  }

  /** The logged messages that a replaying queue is seeded with. */
  function Seeds(config: QueueConfig, entries: seq<LogEntry>): seq<Message> {
    if entries == [] then []
    else
      var n := |entries| - 1;
      Seeds(config, entries[..n])
      + (if config.Matches(entries[n].msg.routingKey) then [entries[n].msg] else [])
  }

  function Created(b: Bus, key: string, topic: string, opts: SubscribeOptions): Cell {
    var config := ConfigOf(topic, opts);
    var entries := LogOf(b, topic);
    if opts.streamReplay then NewCell(key, config, 0, Seeds(config, entries))
    else NewCell(key, config, |entries|, [])
  }

  function SubscribeSeq(b: Bus, opts: SubscribeOptions): nat {
    if opts.subscriberId.Some? then b.seqNo else b.seqNo + 1
  }

  function SubscribeKey(b: Bus, topic: string, opts: SubscribeOptions): string {
    Key(topic, opts.subscriberId.GetOr("sub-" + Decimal(SubscribeSeq(b, opts))))
  }

  /** The lock block of `Subscribe`: join the queue with this key, creating it first if need be. */
  function SubscribeBlock(b: Bus, topic: string, h: Handler, opts: SubscribeOptions): Bus {
    var key := SubscribeKey(b, topic, opts);
    var i := Find(b.cells, key);
    var cells := if i < |b.cells| then b.cells else b.cells + [Created(b, key, topic, opts)];
    b.(seqNo := SubscribeSeq(b, opts), cells := cells[i := AttachCell(cells[i], h)])
  }

  // ---------------------------------------------------------------- everything else

  /** The republish that a step on queue `i` leaves a thread to perform. */
  function Emits(i: nat, c: Cell, op: Op): multiset<Republish> {
    match op
    case Settle(m, h, kind) =>
      if SettleBlock(c.q, m, h, kind).1.DeadLettered? && c.q.config.deadLetter
      then multiset{Republish(i, c.q.config.topic, m, Poisoned)} else multiset{}
    case Expire(m) =>
      if m in c.timers && RemoveUnconsumed(c.q, m).1
      then multiset{Republish(i, c.q.config.topic, m, Lapsed)} else multiset{}
    case _ => multiset{}
  }

  ghost function QueueBlock(b: Bus, i: nat, op: Op): Bus
    requires i < |b.cells|
  {
    b.(cells := b.cells[i := StepCell(b.cells[i], op)],
       transit := b.transit + Emits(i, b.cells[i], op))
  }

  /** Copies enter a queue only by publishing, consumers only by subscribing. */
  predicate Local(op: Op) {
    !op.Enqueue? && !op.Attach?
  }

  ghost function Apply(b: Bus, e: Event): Bus {
    match e
    case Publish(topic, body, key, options) => PublishBlock(b, topic, body, key.GetOr(topic), options, None)
    case Subscribe(topic, h, opts) => SubscribeBlock(b, topic, h, opts)
    case OnQueue(i, op) => if i < |b.cells| && Local(op) then QueueBlock(b, i, op) else b
    case Forward(r) =>
      if r in b.transit
      then PublishBlock(b.(transit := b.transit - multiset{r}), r.Address(), r.msg.body, r.msg.routingKey, None,
                        Some(r))
      else b
  }

  /** The bus after a list of events. */
  ghost function Run(b: Bus, events: seq<Event>): Bus
    decreases |events|
  {
    if events == [] then b else Run(Apply(b, events[0]), events[1..])
  }

  lemma {:induction false} RunOfConcat(b: Bus, es: seq<Event>, fs: seq<Event>)
    ensures Run(b, es + fs) == Run(Run(b, es), fs)
    decreases |es|
  {
    if es == [] {
      assert es + fs == fs;
    } else {
      assert (es + fs)[1..] == es[1..] + fs;
      RunOfConcat(Apply(b, es[0]), es[1..], fs);
    }
  }

  lemma RunOneMore(b: Bus, events: seq<Event>, e: Event)
    ensures Run(b, events + [e]) == Apply(Run(b, events), e)
  {
    RunOfConcat(b, events, [e]);
    assert [e][1..] == [];
  }

  /** One event further along a list. */
  lemma RunOfPrefix(b: Bus, events: seq<Event>, n: nat)
    requires n < |events|
    ensures Run(b, events[..n + 1]) == Apply(Run(b, events[..n]), events[n])
  {
    assert events[..n + 1] == events[..n] + [events[n]];
    RunOneMore(b, events[..n], events[n]);
  }
}
