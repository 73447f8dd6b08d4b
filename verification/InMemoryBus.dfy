/**
 * The bus object: its dictionaries, its counter and its queue objects. Each lock block is a
 * method, proved to do to the object what the machine's event does to the machine.
 */
module InMemoryBus {
  import opened Wrappers
  import opened Words
  import opened BusTypes
  import opened QueueSteps
  import opened QueueCells
  import opened BusMachine
  import opened BusInvariants
  import opened Holders
  import opened InMemoryQueue
  import opened StepOutcomes
  import opened Settlements
  import opened RoundRobin
  import opened GroupScan

  /** The queues on a topic, in order of creation: what `_byTopic` records. */
  ghost function OnTopic(order: seq<BusQueue>, topic: string): seq<BusQueue> {
    if order == [] then []
    else
      var n := |order| - 1;
      OnTopic(order[..n], topic) + (if order[n].config.topic == topic then [order[n]] else [])
  }

  lemma OnTopicOneMore(order: seq<BusQueue>, k: nat, topic: string)
    requires k < |order|
    ensures OnTopic(order[..k + 1], topic)
            == OnTopic(order[..k], topic) + (if order[k].config.topic == topic then [order[k]] else [])
  {
    assert order[..k + 1][..k] == order[..k];
  }

  lemma {:induction false} OnTopicPrefix(order: seq<BusQueue>, k: nat, topic: string)
    requires k <= |order|
    ensures OnTopic(order[..k], topic) <= OnTopic(order, topic)
    ensures OnTopic(order[..k], topic) == OnTopic(order, topic) ==>
              forall i :: k <= i < |order| ==> order[i].config.topic != topic
    decreases |order| - k
  {
    if k < |order| {
      OnTopicOneMore(order, k, topic);
      OnTopicPrefix(order, k + 1, topic);
    } else {
      assert order[..k] == order;
    }
  }

  function Messages(entries: seq<LogEntry>): seq<Message> {
    seq(|entries|, i requires 0 <= i < |entries| => entries[i].msg)
  }

  /** Queues that no copy reaches add no takers. */
  lemma {:induction false} NoMoreTakers(cells: seq<Cell>, k: nat, n: nat, topic: string, key: string)
    requires k <= n <= |cells|
    requires forall i :: k <= i < n ==> !Takes(cells[i], topic, key)
    ensures Takers(cells, n, topic, key) == Takers(cells, k, topic, key)
    decreases n
  {
    if k < n {
      NoMoreTakers(cells, k, n - 1, topic, key);
    }
  }

  lemma WholeOrder(order: seq<BusQueue>, topic: string)
    ensures OnTopic(order[..|order|], topic) == OnTopic(order, topic)
  {
    assert order[..|order|] == order;
  }

  /** The next queue, in order of creation, that is on the topic is the next target. */
  lemma {:induction false} NextTarget(order: seq<BusQueue>, topic: string, targets: seq<BusQueue>, j: nat, from: nat)
    returns (k: nat)
    requires targets == OnTopic(order, topic) && j < |targets|
    requires from <= |order| && OnTopic(order[..from], topic) == targets[..j]
    ensures from <= k < |order| && order[k] == targets[j] && order[k].config.topic == topic
    ensures OnTopic(order[..k + 1], topic) == targets[..j + 1]
    ensures forall i :: from <= i < k ==> order[i].config.topic != topic
    decreases |order| - from
  {
    if from == |order| {
      assert false by {
        WholeOrder(order, topic);
      }
    } else {
      OnTopicOneMore(order, from, topic);
      if order[from].config.topic == topic {
        k := from;
        OnTopicPrefix(order, from + 1, topic);
        var next := OnTopic(order[..from + 1], topic);
        assert next == targets[..j] + [order[from]] && next <= targets;
        assert targets[..j + 1] == next;
      } else {
        k := NextTarget(order, topic, targets, j, from + 1);
      }
    }
  }

  /** The queues of a fan-out. */
  function FannedQueues(b: Bus, topic: string, body: string, key: string,
                        options: Option<PublishOptions>): (r: seq<Queue>)
    ensures |r| == |b.cells|
  {
    Queues(FanOut(b, topic, body, key, options))
  }

  function Queues(cells: seq<Cell>): (r: seq<Queue>)
    ensures |r| == |cells|
  {
    seq(|cells|, i requires 0 <= i < |cells| => cells[i].q)
  }

  lemma FannedAt(b: Bus, i: nat, topic: string, body: string, key: string, options: Option<PublishOptions>)
    requires i < |b.cells|
    ensures FannedQueues(b, topic, body, key, options)[i]
            == if Takes(b.cells[i], topic, key)
               then b.cells[i].q.(pending := b.cells[i].q.pending + [CopyFor(b, i, topic, body, key, options)])
               else b.cells[i].q
  {
    hide Takes;
  }

  /** Queues off the topic are the same before and after a fan-out, and take no copy. */
  lemma OffTopic(b: Bus, m: nat, n: nat, topic: string, body: string, key: string, options: Option<PublishOptions>)
    requires m <= n <= |b.cells| && forall i :: m <= i < n ==> b.cells[i].q.config.topic != topic
    ensures FannedQueues(b, topic, body, key, options)[m..n] == Queues(b.cells)[m..n]
    ensures Takers(b.cells, n, topic, key) == Takers(b.cells, m, topic, key)
  {
    NoMoreTakers(b.cells, m, n, topic, key);
    forall i | m <= i < n ensures FannedQueues(b, topic, body, key, options)[i] == Queues(b.cells)[i] {
      FannedAt(b, i, topic, body, key, options);
    }
  }

  /** The first `k` of one list, the rest of the other: a fan-out under way. */
  function Mixed(done: seq<Queue>, todo: seq<Queue>, k: nat): (r: seq<Queue>)
    requires |done| == |todo| && k <= |done|
    ensures |r| == |done|
  {
    done[..k] + todo[k..]
  }

  lemma MixedSkips(done: seq<Queue>, todo: seq<Queue>, m: nat, n: nat)
    requires |done| == |todo| && m <= n <= |done| && done[m..n] == todo[m..n]
    ensures Mixed(done, todo, m) == Mixed(done, todo, n)
  {
    assert done[..n] == done[..m] + done[m..n];
    assert todo[m..] == todo[m..n] + todo[n..];
  }

  lemma NothingDone(order: seq<BusQueue>, done: seq<Queue>, todo: seq<Queue>, cells: seq<Cell>, topic: string,
                    key: string)
    requires |done| == |todo|
    ensures OnTopic(order[..0], topic) == [] && Mixed(done, todo, 0) == todo && Takers(cells, 0, topic, key) == 0
  {
  }

  lemma AllDone(done: seq<Queue>, todo: seq<Queue>)
    requires |done| == |todo|
    ensures Mixed(done, todo, |done|) == done
  {
  }

  /** One step of the fan-out: the queue at `n`, on the topic, takes its copy if its filter matches. */
  lemma OneTarget(b: Bus, n: nat, topic: string, body: string, key: string, options: Option<PublishOptions>)
    requires n < |b.cells| && b.cells[n].q.config.topic == topic
    ensures var before, after := Queues(b.cells), FannedQueues(b, topic, body, key, options);
            var views := Mixed(after, before, n);
            var matches := b.cells[n].q.config.Matches(key);
            && Mixed(after, before, n + 1)
               == (if matches
                   then views[n := views[n].(pending := views[n].pending
                                             + [Message(b.seqNo + 2 + Takers(b.cells, n, topic, key), body, key,
                                                        options)])]
                   else views)
            && Takers(b.cells, n + 1, topic, key) == Takers(b.cells, n, topic, key) + (if matches then 1 else 0)
  {
    hide QueueConfig.Matches;
    FannedAt(b, n, topic, body, key, options);
    MixedNext(FannedQueues(b, topic, body, key, options), Queues(b.cells), n);
    hide FannedQueues, Mixed;
  }

  lemma MixedNext(done: seq<Queue>, todo: seq<Queue>, n: nat)
    requires |done| == |todo| && n < |done|
    ensures Mixed(done, todo, n)[n] == todo[n]
    ensures Mixed(done, todo, n + 1) == Mixed(done, todo, n)[n := done[n]]
  {
  }

  ghost predicate SameConfigs(order: seq<BusQueue>, cells: seq<Cell>) {
    |order| == |cells| && forall i :: 0 <= i < |order| ==> order[i].config == cells[i].q.config
  }

  /** On to the next target: the queues passed over are off the topic and stay as they are. */
  lemma SkipToTarget(order: seq<BusQueue>, b: Bus, topic: string, body: string, key: string,
                     options: Option<PublishOptions>,
                     targets: seq<BusQueue>, j: nat, k: nat) returns (n: nat)
    requires SameConfigs(order, b.cells) && targets == OnTopic(order, topic) && j < |targets|
    requires k <= |order| && OnTopic(order[..k], topic) == targets[..j]
    ensures k <= n < |order| && order[n] == targets[j] && order[n].config.topic == topic
    ensures order[n].config == b.cells[n].q.config
    ensures OnTopic(order[..n + 1], topic) == targets[..j + 1]
    ensures Takers(b.cells, n, topic, key) == Takers(b.cells, k, topic, key)
    ensures Mixed(FannedQueues(b, topic, body, key, options), Queues(b.cells), n)
            == Mixed(FannedQueues(b, topic, body, key, options), Queues(b.cells), k)
  {
    n := NextTarget(order, topic, targets, j, k);
    OffTopic(b, k, n, topic, body, key, options);
    MixedSkips(FannedQueues(b, topic, body, key, options), Queues(b.cells), k, n);
  }

  /** After the last target nothing on the topic is left. */
  lemma SkipTheRest(order: seq<BusQueue>, b: Bus, topic: string, body: string, key: string,
                    options: Option<PublishOptions>, k: nat)
    requires SameConfigs(order, b.cells) && k <= |order| && OnTopic(order[..k], topic) == OnTopic(order, topic)
    ensures Takers(b.cells, |b.cells|, topic, key) == Takers(b.cells, k, topic, key)
    ensures Mixed(FannedQueues(b, topic, body, key, options), Queues(b.cells), k)
            == FannedQueues(b, topic, body, key, options)
  {
    OnTopicPrefix(order, k, topic);
    OffTopic(b, k, |order|, topic, body, key, options);
    MixedSkips(FannedQueues(b, topic, body, key, options), Queues(b.cells), k, |order|);
    AllDone(FannedQueues(b, topic, body, key, options), Queues(b.cells));
  }

  /** The queues by key are exactly the queues. */
  ghost predicate KeysIndexed(order: seq<BusQueue>, cells: seq<Cell>, queues: map<string, BusQueue>) {
    && |order| == |cells|
    && (forall i :: 0 <= i < |order| ==> cells[i].key in queues && queues[cells[i].key] == order[i])
    && (forall k :: k in queues ==> exists i :: 0 <= i < |cells| && cells[i].key == k)
  }

  ghost predicate TopicsIndexed(order: seq<BusQueue>, byTopic: map<string, seq<BusQueue>>) {
    forall t :: OnTopic(order, t) == if t in byTopic then byTopic[t] else []
  }

  lemma KeysIndexedGrow(order: seq<BusQueue>, cells: seq<Cell>, queues: map<string, BusQueue>, queue: BusQueue,
                        cell: Cell)
    requires KeysIndexed(order, cells, queues) && cell.key !in queues
    ensures KeysIndexed(order + [queue], cells + [cell], queues[cell.key := queue])
  {
    var cells', queues' := cells + [cell], queues[cell.key := queue];
    assert cells'[|order|].key == cell.key;
    forall k | k in queues' ensures exists i :: 0 <= i < |cells'| && cells'[i].key == k {
      if k != cell.key {
        var i :| 0 <= i < |cells| && cells[i].key == k;
        assert cells'[i].key == k;
      }
    }
  }

  lemma TopicsIndexedGrow(order: seq<BusQueue>, byTopic: map<string, seq<BusQueue>>, queue: BusQueue)
    requires TopicsIndexed(order, byTopic)
    ensures var topic := queue.config.topic;
            TopicsIndexed(order + [queue],
                          byTopic[topic := (if topic in byTopic then byTopic[topic] else []) + [queue]])
  {
    forall t
      ensures OnTopic(order + [queue], t) == OnTopic(order, t) + (if queue.config.topic == t then [queue] else [])
    {
      OnTopicOfNew(order, queue, t);
    }
    hide OnTopic;
  }

  class InMemoryBus {
    var queues: map<string, BusQueue>
    var byTopic: map<string, seq<BusQueue>>
    var seenDedupIds: set<string>
    var streamLog: map<string, seq<Message>>
    var seqNo: nat
    ghost var order: seq<BusQueue>   // the queue objects in order of creation
    ghost var model: Bus             // the machine state this object stands for

    ghost function Lists(): set<PendingQueue>
      reads this
    {
      set q | q in order :: q.pending
    }

    ghost predicate Distinct()
      reads this
    {
      forall i, j :: 0 <= i < j < |order| ==> order[i] != order[j] && order[i].pending != order[j].pending
    }

    /** The queue objects show these states. */
    ghost predicate Shows(views: seq<Queue>)
      reads this, order, Lists()
    {
      |order| == |views| && forall i :: 0 <= i < |order| ==> order[i].View() == views[i]
    }

    ghost predicate Indexed()
      reads this
    {
      KeysIndexed(order, model.cells, queues) && TopicsIndexed(order, byTopic)
    }

    /** The logs, the dedup ids and the counter are the machine's. */
    ghost predicate Recorded(b: Bus)
      reads this
    {
      LogsRecorded(b) && seenDedupIds == b.seen && seqNo == b.seqNo
    }

    ghost predicate LogsRecorded(b: Bus)
      reads this
    {
      streamLog.Keys == b.log.Keys && forall t :: t in streamLog ==> streamLog[t] == Messages(b.log[t])
    }

    ghost predicate Valid()
      reads this, order, Lists()
    {
      Distinct() && Shows(Queues(model.cells)) && Indexed() && Recorded(model) && BusOk(model)
    }

    constructor ()
      ensures Valid() && model == INIT && order == []
    {
      queues := map[];
      byTopic := map[];
      seenDedupIds := {};
      streamLog := map[];
      seqNo := 0;
      order := [];
      model := INIT;
      new;
      ReachableIsOk([]);
    }

    // -------------------------------------------------------------- publish

    /** One copy into the queue at index `k`. */
    method EnqueueAt(queue: BusQueue, msg: Message, ghost k: nat, ghost views: seq<Queue>)
      requires Distinct() && Shows(views) && k < |order| && order[k] == queue
      modifies queue.pending
      ensures Shows(views[k := views[k].(pending := views[k].pending + [msg])])
    {
      queue.pending.Enqueue(msg);
    }

    /** One turn of the publish loop: a copy for the next queue on the topic, if its filter matches. */
    method EnqueueIfMatching(queue: BusQueue, topic: string, body: string, key: string, options: Option<PublishOptions>,
                             ghost b: Bus, ghost n: nat)
      requires Distinct() && n < |order| == |b.cells| && order[n] == queue
      requires queue.config == b.cells[n].q.config && queue.config.topic == topic
      requires Shows(Mixed(FannedQueues(b, topic, body, key, options), Queues(b.cells), n))
      requires seqNo == b.seqNo + 1 + Takers(b.cells, n, topic, key)
      modifies this`seqNo, queue.pending
      ensures Shows(Mixed(FannedQueues(b, topic, body, key, options), Queues(b.cells), n + 1))
      ensures seqNo == b.seqNo + 1 + Takers(b.cells, n + 1, topic, key)
    {
      hide Queues, FannedQueues, Takes, Takers, QueueConfig.Matches, Mixed;
      OneTarget(b, n, topic, body, key, options);
      var matches := queue.Matches(key);
      if matches {
        seqNo := seqNo + 1;
        ghost var views := Mixed(FannedQueues(b, topic, body, key, options), Queues(b.cells), n);
        EnqueueAt(queue, Message(seqNo, body, key, options), n, views);
      }
    }

    /** The publish loop over the queues on the topic. */
    method EnqueueCopies(targets: seq<BusQueue>, topic: string, body: string, key: string,
                         options: Option<PublishOptions>, ghost b: Bus)
      requires Distinct() && Shows(Queues(b.cells)) && targets == OnTopic(order, topic) && seqNo == b.seqNo + 1
      requires SameConfigs(order, b.cells)
      modifies this`seqNo, Lists()
      ensures Shows(FannedQueues(b, topic, body, key, options))
      ensures seqNo == b.seqNo + 1 + Takers(b.cells, |b.cells|, topic, key)
    {
      hide Queues, FannedQueues, Takers, OnTopic, Mixed;
      ghost var before, after := Queues(b.cells), FannedQueues(b, topic, body, key, options);
      NothingDone(order, after, before, b.cells, topic, key);
      var j := 0;
      ghost var k := 0;
      while j < |targets|
        invariant 0 <= j <= |targets| && 0 <= k <= |order| && OnTopic(order[..k], topic) == targets[..j]
        invariant seqNo == b.seqNo + 1 + Takers(b.cells, k, topic, key)
        invariant Shows(Mixed(after, before, k))
      {
        ghost var n := SkipToTarget(order, b, topic, body, key, options, targets, j, k);
        EnqueueIfMatching(targets[j], topic, body, key, options, b, n);
        k := n + 1;
        j := j + 1;
      }
      SkipTheRest(order, b, topic, body, key, options, k);
    }

    /** The object already shows the machine's next state; the queues and their keys are the same. */
    ghost method Follow(b: Bus)
      requires Distinct() && Shows(Queues(b.cells)) && Indexed() && Recorded(b) && BusOk(b)
      requires |b.cells| == |model.cells| && forall i :: 0 <= i < |b.cells| ==> b.cells[i].key == model.cells[i].key
      modifies this`model
      ensures Valid() && model == b
    {
      hide BusOk, Queues, OnTopic;
      model := b;
    }

    /** A line in the topic's log, under the next number. */
    method AppendToLog(topic: string, body: string, key: string, options: Option<PublishOptions>,
                       ghost origin: Option<Republish>)
      requires LogsRecorded(model) && seqNo == model.seqNo && !Duplicate(model, options)
      modifies this`seqNo, this`streamLog
      ensures seqNo == old(seqNo) + 1
      ensures LogsRecorded(BusMachine.PublishBlock(model, topic, body, key, options, origin))
    {
      PublishedLogs(model, topic, body, key, options, origin);
      hide BusMachine.PublishBlock;
      var log := if topic in streamLog then streamLog[topic] else [];
      seqNo := seqNo + 1;
      streamLog := streamLog[topic := log + [Message(seqNo, body, key, options)]];
    }

    /** A publish that dedup lets through: the log line, then the copies. */
    method PublishFresh(topic: string, body: string, key: string, options: Option<PublishOptions>,
                        ghost origin: Option<Republish>)
      requires Distinct() && Shows(Queues(model.cells)) && Indexed() && LogsRecorded(model) && BusOk(model)
      requires seqNo == model.seqNo && !Duplicate(model, options) && seenDedupIds == model.seen + DedupIds(options)
      modifies this`seqNo, this`streamLog, this`model, Lists()
      ensures Valid() && model == BusMachine.PublishBlock(old(model), topic, body, key, options, origin)
    {
      hide BusOk, FannedQueues, OnTopic, Takers, Messages, Queues;
      ghost var b := model;
      AppendToLog(topic, body, key, options, origin);
      var targets := if topic in byTopic then byTopic[topic] else [];
      ShownConfigs(b.cells);
      EnqueueCopies(targets, topic, body, key, options, b);
      PublishedQueues(b, topic, body, key, options, origin);
      PublishKeepsOk(b, topic, body, key, options, origin);
      ghost var b' := BusMachine.PublishBlock(b, topic, body, key, options, origin);
      hide BusMachine.PublishBlock, Duplicate, DedupIds;
      Follow(b');
    }

    /** The lock block of `Publish`. */
    method PublishBlock(topic: string, body: string, routingKey: Option<string>, options: Option<PublishOptions>,
                        ghost origin: Option<Republish>)
      requires Valid()
      modifies this`seqNo, this`streamLog, this`seenDedupIds, this`model, Lists()
      ensures Valid()
      ensures model == BusMachine.PublishBlock(old(model), topic, body, routingKey.GetOr(topic), options, origin)
    {
      hide BusOk, OnTopic, Messages, Queues, FanOut;
      var key := routingKey.GetOr(topic);
      if options.Some? && options.value.dedupId.Some? {
        var dup := options.value.dedupId.value;
        if dup in seenDedupIds {
          return;
        }
        seenDedupIds := seenDedupIds + {dup};
      }
      PublishFresh(topic, body, key, options, origin);
    }

    lemma ShownConfigs(cells: seq<Cell>)
      requires Shows(Queues(cells))
      ensures SameConfigs(order, cells)
    {
      forall i | 0 <= i < |order| ensures order[i].config == cells[i].q.config {
        assert order[i].View() == Queues(cells)[i];
      }
    }

    // -------------------------------------------------------------- subscribe

    /** Seed a brand-new queue with the retained log. */
    method Replay(queue: BusQueue, log: seq<Message>, ghost entries: seq<LogEntry>)
      requires queue.pending.items == [] && log == Messages(entries)
      modifies queue.pending
      ensures queue.pending.items == Seeds(queue.config, entries)
    {
      hide QueueConfig.Matches;
      var i := 0;
      assert entries[..0] == [];
      while i < |log|
        invariant 0 <= i <= |log|
        invariant queue.pending.items == Seeds(queue.config, entries[..i])
      {
        assert entries[..i + 1][..i] == entries[..i];
        var matches := queue.Matches(log[i].routingKey);
        if matches {
          queue.pending.Enqueue(log[i]);
        }
        i := i + 1;
      }
      assert entries[..i] == entries;
    }

    /** The queue of a new key, with the replayed history when the subscription asks for it. */
    method NewQueue(topic: string, opts: SubscribeOptions, ghost key: string) returns (queue: BusQueue)
      requires LogsRecorded(model)
      ensures fresh(queue) && fresh(queue.pending)
      ensures queue.View() == Created(model, key, topic, opts).q
    {
      hide QueueConfig.Matches;
      queue := new BusQueue(ConfigOf(topic, opts));
      if opts.streamReplay && topic in streamLog {
        Replay(queue, streamLog[topic], LogOf(model, topic));
      }
    }

    /** Enter a new queue in the dictionaries. */
    method Index(key: string, queue: BusQueue, ghost cell: Cell)
      requires Distinct() && Shows(Queues(model.cells)) && Indexed() && key !in queues
      requires queue.View() == cell.q && cell.key == key
      requires forall q :: q in order ==> q != queue && q.pending != queue.pending
      modifies this`queues, this`byTopic, this`order, this`model
      ensures order == old(order) + [queue] && model == old(model).(cells := old(model).cells + [cell])
      ensures Distinct() && Shows(Queues(model.cells)) && Indexed()
    {
      hide KeysIndexed, TopicsIndexed, Queues;
      KeysIndexedGrow(order, model.cells, queues, queue, cell);
      TopicsIndexedGrow(order, byTopic, queue);
      List(queue, cell);
      hide Shows, Distinct;
      var topic := queue.config.topic;
      queues := queues[key := queue];
      byTopic := byTopic[topic := (if topic in byTopic then byTopic[topic] else []) + [queue]];
    }

    ghost method List(queue: BusQueue, cell: Cell)
      requires Distinct() && Shows(Queues(model.cells)) && queue.View() == cell.q
      requires forall q :: q in order ==> q != queue && q.pending != queue.pending
      modifies this`order, this`model
      ensures order == old(order) + [queue] && model == old(model).(cells := old(model).cells + [cell])
      ensures Distinct() && Shows(Queues(model.cells))
    {
      hide Queues;
      QueuesOneMore(model.cells, cell);
      order := order + [queue];
      model := model.(cells := model.cells + [cell]);
    }

    /** One more consumer on the queue at `i`. */
    method AttachAt(queue: BusQueue, handler: Handler, ghost i: nat)
      requires Distinct() && Shows(Queues(model.cells)) && i < |order| && order[i] == queue
      modifies queue`consumers
      ensures Shows(Queues(model.cells[i := AttachCell(model.cells[i], handler)]))
    {
      QueuesChanged(model.cells, i, AttachCell(model.cells[i], handler));
      ghost var views := Queues(model.cells);
      assert order[i].View() == views[i];
      hide Queues;
      queue.consumers := queue.consumers + [handler];
    }

    /** Create the queue of a new key. */
    method CreateQueue(key: string, topic: string, opts: SubscribeOptions) returns (queue: BusQueue)
      requires Distinct() && Shows(Queues(model.cells)) && Indexed() && LogsRecorded(model) && key !in queues
      modifies this`queues, this`byTopic, this`order, this`model
      ensures Distinct() && Shows(Queues(model.cells)) && Indexed() && LogsRecorded(model)
      ensures model == old(model).(cells := old(model).cells + [Created(old(model), key, topic, opts)])
      ensures order == old(order) + [queue] && fresh(queue) && fresh(queue.pending)
    {
      hide Created, Queues, Indexed;
      queue := NewQueue(topic, opts, key);
      CreatedKey(model, key, topic, opts);
      Index(key, queue, Created(model, key, topic, opts));
    }

    /** Find the queue of the key, or create it. */
    method QueueFor(key: string, topic: string, opts: SubscribeOptions) returns (queue: BusQueue)
      requires Distinct() && Shows(Queues(model.cells)) && Indexed() && LogsRecorded(model) && KeysDistinct(model.cells)
      modifies this`queues, this`byTopic, this`order, this`model
      ensures Distinct() && Shows(Queues(model.cells)) && Indexed() && LogsRecorded(model)
      ensures model == old(model).(cells := Joined(old(model), key, topic, opts))
      ensures var i := Find(old(model).cells, key); i < |order| && order[i] == queue
      ensures order == old(order) || order == old(order) + [queue]
      ensures order != old(order) ==> fresh(queue) && fresh(queue.pending)
    {
      hide Created, OnTopic, Queues, Shows;
      KeyIsIndexed(key);
      if key in queues {
        queue := queues[key];
      } else {
        queue := CreateQueue(key, topic, opts);
      }
    }

    /** The dictionary and the machine find the same queue. */
    lemma KeyIsIndexed(key: string)
      requires Indexed() && KeysDistinct(model.cells)
      ensures key in queues <==> Find(model.cells, key) < |model.cells|
      ensures key in queues ==> queues[key] == order[Find(model.cells, key)]
    {
      hide OnTopic;
      if key in queues {
        var i :| 0 <= i < |model.cells| && model.cells[i].key == key;
        FindIsExact(model.cells, key, i);
      }
    }

    /** The queue of the key, with one more consumer. */
    method Join(key: string, topic: string, handler: Handler, opts: SubscribeOptions) returns (queue: BusQueue)
      requires Distinct() && Shows(Queues(model.cells)) && Indexed() && LogsRecorded(model) && KeysDistinct(model.cells)
      modifies this`queues, this`byTopic, this`order, this`model, order
      ensures model == old(model).(cells := Joined(old(model), key, topic, opts))
      ensures var i := Find(old(model).cells, key);
              i < |model.cells| && Shows(Queues(model.cells[i := AttachCell(model.cells[i], handler)]))
      ensures Distinct() && Indexed() && LogsRecorded(model)
      ensures queue in order && (order == old(order) || order == old(order) + [queue])
      ensures order != old(order) ==> fresh(queue) && fresh(queue.pending)
    {
      hide OnTopic, Queues, Created, Joined, KeysDistinct;
      ghost var i := Find(model.cells, key);
      queue := QueueFor(key, topic, opts);
      AttachAt(queue, handler, i);
    }

    /** The subscriber id asked for, or the next anonymous one. */
    method NameSubscriber(topic: string, opts: SubscribeOptions) returns (key: string)
      requires seqNo == model.seqNo && Distinct() && Shows(Queues(model.cells)) && Indexed() && LogsRecorded(model)
      modifies this`seqNo
      ensures Distinct() && Shows(Queues(model.cells)) && Indexed() && LogsRecorded(model)
      ensures seqNo == SubscribeSeq(model, opts) && key == SubscribeKey(model, topic, opts)
    {
      hide Queues, OnTopic;
      var subscriberId: string;
      if opts.subscriberId.Some? {
        subscriberId := opts.subscriberId.value;
      } else {
        seqNo := seqNo + 1;
        subscriberId := "sub-" + Decimal(seqNo);
      }
      key := Key(topic, subscriberId);
    }

    /** The lock block of `Subscribe`. */
    method SubscribeBlock(topic: string, handler: Handler, opts: SubscribeOptions) returns (queue: BusQueue)
      requires Valid()
      modifies this, order
      ensures Valid() && model == BusMachine.SubscribeBlock(old(model), topic, handler, opts)
      ensures queue in order && (order == old(order) || order == old(order) + [queue])
      ensures order != old(order) ==> fresh(queue) && fresh(queue.pending)
    {
      hide Shows, BusOk, Indexed, Queues, Joined, BusMachine.SubscribeBlock, KeysDistinct, SubscribeKey, Distinct, Find;
      ghost var b := model;
      ghost var b' := BusMachine.SubscribeBlock(b, topic, handler, opts);
      SubscribeKeepsOk(b, topic, handler, opts);
      SubscribedCells(b, topic, handler, opts);
      OkKeys(b);
      var key := NameSubscriber(topic, opts);
      queue := Join(key, topic, handler, opts);
      Follow(b');
    }

    // -------------------------------------------------------------- one queue at a time

    /** The object already shows the queue at `i` one step on. */
    ghost method Advance(i: nat, op: Op)
      requires i < |order| == |model.cells| && Local(op)
      requires Distinct() && Indexed() && Recorded(model) && BusOk(model)
      requires Shows(Queues(model.cells)[i := StepCell(model.cells[i], op).q])
      modifies this`model
      ensures Valid() && model == Apply(old(model), OnQueue(i, op))
    {
      hide BusOk, Queues, OnTopic, StepCell;
      QueueBlockKeepsOk(model, i, op);
      LocalKeepsEnqueued(model.cells[i], op);
      QueuesChanged(model.cells, i, StepCell(model.cells[i], op));
      Follow(QueueBlock(model, i, op));
    }

    /** One turn of a thread's `Pump`: the delivery to make, or nothing and the thread is done. */
    method PumpTurn(queue: BusQueue, ghost i: nat) returns (next: Option<(Message, Handler)>)
      requires Valid() && i < |order| && order[i] == queue && model.cells[i].owed > 0
      modifies this`model, queue, queue.pending
      ensures Valid() && model == Apply(old(model), OnQueue(i, Op.Pump))
      ensures next == Turn(old(model).cells[i].q)
    {
      hide BusOk, OnTopic, PumpBlock, StepCell;
      TurnIsRecorded(model.cells[i]);
      ShownAt(Queues(model.cells), i);
      next := queue.PumpOnce();
      hide Queues;
      Advance(i, Op.Pump);
    }

    lemma ShownAt(views: seq<Queue>, i: nat)
      requires Shows(views) && i < |order|
      ensures order[i].View() == views[i]
    {
    }

    /** The lock block of `Settle`: what became of the message. */
    method SettleBlock(queue: BusQueue, msg: Message, consumer: Handler, kind: SettleKind, ghost i: nat)
      returns (outcome: Outcome)
      requires Valid() && i < |order| && order[i] == queue
      modifies this`model, queue, queue.pending
      ensures Valid() && model == Apply(old(model), OnQueue(i, Settle(msg, consumer, kind)))
      ensures outcome == QueueSteps.SettleBlock(old(model).cells[i].q, msg, consumer, kind).1
    {
      hide BusOk, OnTopic;
      ShownAt(Queues(model.cells), i);
      outcome := queue.Settle(msg, consumer, kind);
      assert queue.View() == StepCell(model.cells[i], Settle(msg, consumer, kind)).q;
      hide StepCell, Queues;
      Advance(i, Settle(msg, consumer, kind));
    }

    /** The lock block of the drop callback. */
    method DropBlock(queue: BusQueue, handler: Handler, ghost i: nat)
      requires Valid() && i < |order| && order[i] == queue
      modifies this`model, queue, queue.pending
      ensures Valid() && model == Apply(old(model), OnQueue(i, Detach(handler)))
    {
      OkIsPrefetchOne(model, i);
      hide BusOk, OnTopic;
      ShownAt(Queues(model.cells), i);
      queue.Drop(handler);
      assert queue.View() == StepCell(model.cells[i], Detach(handler)).q;
      hide StepCell, Queues;
      Advance(i, Detach(handler));
    }

    /** The retry timer of a parked message fires. */
    method RetryBlock(queue: BusQueue, msg: Message, ghost i: nat)
      requires Valid() && i < |order| && order[i] == queue && msg in model.cells[i].parked
      modifies this`model, queue.pending
      ensures Valid() && model == Apply(old(model), OnQueue(i, Retry(msg)))
    {
      hide BusOk, OnTopic;
      ShownAt(Queues(model.cells), i);
      queue.pending.Enqueue(msg);
      assert queue.View() == StepCell(model.cells[i], Retry(msg)).q;
      hide StepCell, Queues;
      Advance(i, Retry(msg));
    }

    /** The expiry timer of a message fires: whether a copy goes to the expiry address. */
    method ExpiryBlock(queue: BusQueue, msg: Message, ghost i: nat) returns (removed: bool)
      requires Valid() && i < |order| && order[i] == queue && msg in model.cells[i].timers
      modifies this`model, queue, queue.pending
      ensures Valid() && model == Apply(old(model), OnQueue(i, Expire(msg)))
      ensures removed == (msg in old(model).cells[i].q.pending || msg in old(model).cells[i].q.inflight)
    {
      hide BusOk, OnTopic;
      ShownAt(Queues(model.cells), i);
      removed := queue.RemoveUnconsumed(msg);
      assert queue.View() == StepCell(model.cells[i], Expire(msg)).q;
      hide StepCell, Queues;
      Advance(i, Expire(msg));
    }

    /** A dead-letter or expiry publish that a thread still owes. */
    method Forward(ghost r: Republish, address: string, body: string, routingKey: string)
      requires Valid() && r in model.transit
      requires address == r.Address() && body == r.msg.body && routingKey == r.msg.routingKey
      modifies this`seqNo, this`streamLog, this`seenDedupIds, this`model, Lists()
      ensures Valid() && model == Apply(old(model), Event.Forward(r))
    {
      hide OnTopic, BusMachine.PublishBlock, Queues, CellOk;
      model := model.(transit := model.transit - multiset{r});
      PublishBlock(address, body, Some(routingKey), None, Some(r));
    }
  }

  /** The delivery that a turn of `Pump` makes. */
  function Turn(q: Queue): Option<(Message, Handler)> {
    match PumpBlock(q)
    case Idle(_) => None
    case Sent(_, _, m, c) => Some((m, c))
  }

  /** A turn is entered in the ledger as it is made; the thread is done when it makes none. */
  lemma TurnIsRecorded(c: Cell)
    requires c.owed > 0
    ensures var c' := StepCell(c, Op.Pump);
            && c'.q == PumpBlock(c.q).queue
            && c'.ledger.sent == c.ledger.sent
               + (match Turn(c.q) case None => [] case Some((m, h)) => [Delivery(m, h)])
            && c'.owed == c.owed - (if Turn(c.q).None? then 1 else 0)
  {
    hide PumpBlock;
  }

  lemma OkIsPrefetchOne(b: Bus, i: nat)
    requires BusOk(b) && i < |b.cells|
    ensures PrefetchOne(b.cells[i].q)
  {
    assert Settled(b.cells[i], b.seqNo);
  }

  /** The machine's cells of a `Subscribe`, before the consumer is attached. */
  ghost function Joined(b: Bus, key: string, topic: string, opts: SubscribeOptions): seq<Cell> {
    if Find(b.cells, key) < |b.cells| then b.cells else b.cells + [Created(b, key, topic, opts)]
  }

  lemma SubscribedCells(b: Bus, topic: string, h: Handler, opts: SubscribeOptions)
    ensures var key := SubscribeKey(b, topic, opts);
            var i := Find(b.cells, key);
            var joined := Joined(b, key, topic, opts);
            var b' := BusMachine.SubscribeBlock(b, topic, h, opts);
            && i < |joined|
            && b' == b.(seqNo := SubscribeSeq(b, opts), cells := joined[i := AttachCell(joined[i], h)])
            && |b'.cells| == |joined| && forall j :: 0 <= j < |joined| ==> b'.cells[j].key == joined[j].key
  {
    hide Created;
  }

  lemma CreatedKey(b: Bus, key: string, topic: string, opts: SubscribeOptions)
    ensures Created(b, key, topic, opts).key == key
  {
  }

  /** A key is found exactly when some queue has it. */
  lemma FindIsExact(cells: seq<Cell>, key: string, i: nat)
    requires KeysDistinct(cells) && i < |cells| && cells[i].key == key
    ensures Find(cells, key) == i
  {
  }

  lemma QueuesChanged(cells: seq<Cell>, i: nat, c: Cell)
    requires i < |cells|
    ensures Queues(cells[i := c]) == Queues(cells)[i := c.q]
  {
  }

  lemma OkKeys(b: Bus)
    requires BusOk(b)
    ensures KeysDistinct(b.cells)
  {
    hide Settled;
  }

  lemma QueuesOneMore(cells: seq<Cell>, c: Cell)
    ensures Queues(cells + [c]) == Queues(cells) + [c.q]
  {
  }

  lemma OnTopicOfNew(order: seq<BusQueue>, queue: BusQueue, t: string)
    ensures OnTopic(order + [queue], t) == OnTopic(order, t) + (if queue.config.topic == t then [queue] else [])
  {
    assert (order + [queue])[..|order|] == order;
  }

  lemma PublishedQueues(b: Bus, topic: string, body: string, key: string, options: Option<PublishOptions>,
                        origin: Option<Republish>)
    requires !Duplicate(b, options)
    ensures var b' := BusMachine.PublishBlock(b, topic, body, key, options, origin);
            && Queues(b'.cells) == FannedQueues(b, topic, body, key, options)
            && b'.seen == b.seen + DedupIds(options)
            && b'.seqNo == b.seqNo + 1 + Takers(b.cells, |b.cells|, topic, key)
            && |b'.cells| == |b.cells| && forall i :: 0 <= i < |b.cells| ==> b'.cells[i].key == b.cells[i].key
  {
    hide Takes;
  }

  lemma PublishedLogs(b: Bus, topic: string, body: string, key: string, options: Option<PublishOptions>,
                      origin: Option<Republish>)
    requires !Duplicate(b, options)
    ensures var b' := BusMachine.PublishBlock(b, topic, body, key, options, origin);
            && b'.log.Keys == b.log.Keys + {topic}
            && Messages(b'.log[topic]) == Messages(LogOf(b, topic)) + [Message(b.seqNo + 1, body, key, options)]
            && forall t :: t in b.log && t != topic ==> b'.log[t] == b.log[t]
  {
    hide FanOut;
  }

  // -------------------------------------------------------------- what a handler settles with

  /**
   * The object handed to a handler with delivery `k` of the queue at `i`. Settling sets `settled` and
   * asks the bus, which knows nothing of `settled`, whatever it was before.
   */
  class IncomingBusMessage {
    const bus: InMemoryBus
    const queue: BusQueue
    const msg: Message
    const consumer: Handler
    ghost const i: nat
    ghost const k: nat
    var settled: bool

    ghost predicate Valid()
      reads this, bus, bus.order, bus.Lists()
    {
      && bus.Valid() && i < |bus.order| && bus.order[i] == queue
      && i < |bus.model.cells| && k < |bus.model.cells[i].ledger.sent|
      && bus.model.cells[i].ledger.sent[k] == Delivery(msg, consumer)
    }

    constructor (bus: InMemoryBus, queue: BusQueue, msg: Message, consumer: Handler, ghost i: nat, ghost k: nat)
      requires bus.Valid() && i < |bus.order| && bus.order[i] == queue
      requires i < |bus.model.cells| && k < |bus.model.cells[i].ledger.sent|
      requires bus.model.cells[i].ledger.sent[k] == Delivery(msg, consumer)
      ensures Valid() && !settled
      ensures this.bus == bus && this.queue == queue && this.i == i && this.k == k
    {
      hide BusOk, OnTopic, Queues;
      this.bus := bus;
      this.queue := queue;
      this.msg := msg;
      this.consumer := consumer;
      this.i := i;
      this.k := k;
      settled := false;
    }

    method MarkSettled()
      requires Valid()
      modifies this`settled
      ensures Valid() && settled
    {
      hide BusOk, OnTopic, Queues;
      settled := true;
    }

    method AckAsync()
      requires Valid()
      modifies this`settled, bus`model, queue, queue.pending
      ensures Valid() && settled
      ensures bus.model == Apply(old(bus.model), OnQueue(i, Through(old(bus.model).cells[i], k, Ack)))
    {
      hide InMemoryBus.Valid;
      SettleKeepsSent(bus.model.cells[i], msg, consumer, Ack);
      MarkSettled();
      var _ := bus.SettleBlock(queue, msg, consumer, Ack, i);
    }

    method NackAsync(requeue: bool)
      requires Valid()
      modifies this`settled, bus`model, queue, queue.pending
      ensures Valid() && settled
      ensures bus.model
              == Apply(old(bus.model),
                       OnQueue(i, Through(old(bus.model).cells[i], k, if requeue then Requeue else Dead)))
    {
      hide InMemoryBus.Valid;
      var kind := if requeue then Requeue else Dead;
      SettleKeepsSent(bus.model.cells[i], msg, consumer, kind);
      MarkSettled();
      var _ := bus.SettleBlock(queue, msg, consumer, kind, i);
    }
  }

  // -------------------------------------------------------------- the first delivery

  /** One queue on the topic, which hears the topic as a key, with one idle consumer. */
  ghost predicate OneIdle(b: Bus, topic: string, h: Handler) {
    && |b.cells| == 1
    && b.cells[0].q == Queue(b.cells[0].q.config, [], map[], [h], map[], 0, map[])
    && b.cells[0].q.config.topic == topic
    && Hears(b.cells[0].q.config.kind, b.cells[0].q.config.routingKey, topic)
  }

  /** One queue, whose next turn of an owed pump delivers this body under this key. */
  ghost predicate OneDue(b: Bus, body: string, key: string, h: Handler) {
    && |b.cells| == 1 && b.cells[0].owed > 0
    && Turn(b.cells[0].q).Some? && Turn(b.cells[0].q).value.1 == h
    && Turn(b.cells[0].q).value.0.body == body && Turn(b.cells[0].q).value.0.routingKey == key
  }

  /** In particular an unfiltered topic subscriber, whatever the topic. */
  lemma UnfilteredHearsEverything(topic: string)
    ensures Hears(Topic, None, topic) && Hears(Topic, Some(""), topic) && Hears(Fanout, None, topic)
  {
  }

  method OpenFor(topic: string, handler: Handler, opts: SubscribeOptions) returns (bus: InMemoryBus, queue: BusQueue)
    requires Hears(opts.kind, opts.routingKey, topic)
    ensures fresh(bus) && fresh(queue) && fresh(queue.pending)
    ensures bus.Valid() && bus.order == [queue] && OneIdle(bus.model, topic, handler)
  {
    hide BusMachine.SubscribeBlock, BusOk, OnTopic, Queues, OneIdle;
    OneSubscriber(topic, handler, opts);
    bus := new InMemoryBus();
    queue := bus.SubscribeBlock(topic, handler, opts);
    OneIdleIsOne(bus.model, topic, handler);
    assert |bus.order| == 1;
  }

  method PublishFirst(bus: InMemoryBus, queue: BusQueue, topic: string, body: string, ghost h: Handler)
    requires bus.Valid() && bus.order == [queue] && OneIdle(bus.model, topic, h)
    modifies bus, queue.pending
    ensures bus.Valid() && bus.order == [queue] && OneDue(bus.model, body, topic, h)
  {
    hide BusMachine.PublishBlock, BusOk, OnTopic, Queues, OneIdle, OneDue;
    OneWaiting(bus.model, topic, body, h);
    assert bus.Lists() == {queue.pending};
    bus.PublishBlock(topic, body, None, None, None);
  }

  /**
   * A new bus hands its one subscriber the first message published to its topic: a fanout subscriber, an unfiltered
   * one, or one whose pattern aligns with the topic.
   */
  method FirstDelivery(topic: string, body: string, handler: Handler, opts: SubscribeOptions)
    returns (next: Option<(Message, Handler)>)
    requires Hears(opts.kind, opts.routingKey, topic)
    ensures next.Some? && next.value.1 == handler
    ensures next.value.0.body == body && next.value.0.routingKey == topic
  {
    hide InMemoryBus.Valid, PumpBlock, OneIdle;
    var bus, queue := OpenFor(topic, handler, opts);
    PublishFirst(bus, queue, topic, body, handler);
    next := bus.PumpTurn(queue, 0);
  }

  lemma OneIdleIsOne(b: Bus, topic: string, h: Handler)
    requires OneIdle(b, topic, h)
    ensures |b.cells| == 1
  {
  }

  lemma OneSubscriber(topic: string, h: Handler, opts: SubscribeOptions)
    requires Hears(opts.kind, opts.routingKey, topic)
    ensures OneIdle(BusMachine.SubscribeBlock(INIT, topic, h, opts), topic, h)
  {
    assert LogOf(INIT, topic) == [];
    hide Hears;
  }

  lemma OneWaiting(b: Bus, topic: string, body: string, h: Handler)
    requires OneIdle(b, topic, h)
    ensures OneDue(BusMachine.PublishBlock(b, topic, body, topic, None, None), body, topic, h)
  {
    MatchesIsHearing(b.cells[0].q.config, topic);
    hide Hears, QueueConfig.Matches;
    assert Takers(b.cells, 0, topic, topic) == 0;
    var c := BusMachine.PublishBlock(b, topic, body, topic, None, None).cells[0];
    assert |c.q.pending| == 1;
    PumpIsExact(c.q);
    assert SomeFree(c.q.consumers, c.q.Busy()) by {
      assert h in c.q.consumers && h !in c.q.Busy();
    }
    hide PumpBlock;
    assert Eligible(c.q, c.q.pending[0]);
  }
}
