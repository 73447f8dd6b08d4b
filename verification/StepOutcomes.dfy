/**
 * What each step of the bus comes to for its callers: in terms of the options they gave and the places
 * a copy can be in, and of nothing that the steps are made of.
 */
module StepOutcomes {
  import opened Wrappers
  import opened BusTypes
  import opened TopicMatching
  import opened Words
  import opened QueueSteps
  import opened QueueCells
  import opened BusMachine
  import opened GroupScan
  import opened PriorityDrain
  import opened Holders
  import opened InMemoryQueue

  // ---------------------------------------------------------------- settling

  /** The message is in flight, and this consumer holds it. */
  predicate HeldBy(b: Bus, i: nat, m: Message, h: Handler) {
    i < |b.cells| && m in b.cells[i].q.inflight && b.cells[i].q.inflight[m] == h
  }

  /** Only queue `i` and the republishes under way differ. */
  predicate OnlyQueue(b: Bus, b': Bus, i: nat) {
    && |b'.cells| == |b.cells|
    && b' == b.(cells := b'.cells, transit := b'.transit)
    && forall j :: 0 <= j < |b.cells| && j != i ==> b'.cells[j] == b.cells[j]
  }

  /** The copy has left flight and a thread owes the queue a pump; where it went, the ledger and the places say. */
  ghost predicate LeftFlight(c: Cell, c': Cell, m: Message) {
    && c'.q.inflight == c.q.inflight - {m}
    && c'.q == c.q.(inflight := c'.q.inflight, pending := c'.q.pending)
    && c'.owed == c.owed + 1 && c'.key == c.key && c'.timers == c.timers
    && c'.ledger == c.ledger.(acked := c'.ledger.acked, dead := c'.ledger.dead, exhausted := c'.ledger.exhausted,
                              requeued := c'.ledger.requeued)
  }

  /** An ack by the holder takes the copy out of flight for good, and nothing else happens. */
  lemma AckByTheHolder(b: Bus, i: nat, m: Message, h: Handler)
    requires HeldBy(b, i, m, h)
    ensures var b' := Apply(b, OnQueue(i, Settle(m, h, Ack)));
            var c, c' := b.cells[i], b'.cells[i];
            && OnlyQueue(b, b', i) && LeftFlight(c, c', m) && b'.transit == b.transit
            && c'.q.pending == c.q.pending && c'.parked == c.parked
            && c'.ledger.acked == c.ledger.acked + {m}
            && c'.ledger.dead == c.ledger.dead && c'.ledger.requeued == c.ledger.requeued
  {
  }

  /** The copy has died: on a dead-lettering queue exactly its republish is under way, on any other nothing. */
  ghost predicate Died(b: Bus, b': Bus, i: nat, m: Message)
    requires i < |b.cells|
  {
    && OnlyQueue(b, b', i) && LeftFlight(b.cells[i], b'.cells[i], m)
    && b'.cells[i].q.pending == b.cells[i].q.pending && b'.cells[i].parked == b.cells[i].parked
    && b'.cells[i].ledger.dead == b.cells[i].ledger.dead + {m}
    && b'.cells[i].ledger.acked == b.cells[i].ledger.acked
    && b'.cells[i].ledger.requeued == b.cells[i].ledger.requeued
    && b'.transit == b.transit + (if b.cells[i].q.config.deadLetter
                                  then multiset{Republish(i, b.cells[i].q.config.topic, m, Poisoned)} else multiset{})
  }

  /** A reject by the holder kills the copy, under every configuration and whatever its delivery count. */
  lemma RejectByTheHolder(b: Bus, i: nat, m: Message, h: Handler)
    requires HeldBy(b, i, m, h)
    ensures Died(b, Apply(b, OnQueue(i, Settle(m, h, Dead))), i, m)
  {
  }

  /**
   * A nack for requeue by the holder: with the limit reached the copy dies; below it the copy goes to the back of
   * the queue when there is no delay, and is parked when there is one, dead-lettering queue or not.
   */
  lemma RequeueByTheHolder(b: Bus, i: nat, m: Message, h: Handler)
    requires HeldBy(b, i, m, h)
    ensures var b' := Apply(b, OnQueue(i, Settle(m, h, Requeue)));
            var c, c' := b.cells[i], b'.cells[i];
            var count := if m in c.q.counts then c.q.counts[m] else 0;
            var delay := c.q.config.retryDelayMs;
            && (count >= c.q.config.maxDeliveries ==> Died(b, b', i, m))
            && (count < c.q.config.maxDeliveries ==>
                  && OnlyQueue(b, b', i) && LeftFlight(c, c', m) && b'.transit == b.transit
                  && c'.ledger.dead == c.ledger.dead && c'.ledger.acked == c.ledger.acked
                  && c'.ledger.requeued == c.ledger.requeued + multiset{m}
                  && (delay == None || delay.value <= 0 ==> c'.q.pending == c.q.pending + [m] && c'.parked == c.parked)
                  && (delay.Some? && delay.value > 0 ==> c'.q.pending == c.q.pending && c'.parked == c.parked + {m}))
  {
  }

  /** A parked copy whose delay is over goes to the back of the queue. */
  lemma DelayedRetry(b: Bus, i: nat, m: Message)
    requires i < |b.cells| && m in b.cells[i].parked
    ensures var b' := Apply(b, OnQueue(i, Retry(m)));
            && OnlyQueue(b, b', i) && b'.transit == b.transit
            && b'.cells[i] == b.cells[i].(q := b.cells[i].q.(pending := b.cells[i].q.pending + [m]),
                                          parked := b.cells[i].parked - {m}, owed := b.cells[i].owed + 1)
  {
  }

  /** An expiry timer removes the copy if it is pending or in flight, and then exactly its republish is under way. */
  lemma ExpiryTimer(b: Bus, i: nat, m: Message)
    requires i < |b.cells| && m in b.cells[i].timers
    ensures var b' := Apply(b, OnQueue(i, Expire(m)));
            var c, c' := b.cells[i], b'.cells[i];
            && OnlyQueue(b, b', i) && c'.timers == c.timers - {m} && c'.parked == c.parked && c'.owed == c.owed
            && (if m in c.q.pending || m in c.q.inflight
                then b'.transit == b.transit + multiset{Republish(i, c.q.config.topic, m, Lapsed)}
                     && c'.ledger.expired == c.ledger.expired + {m}
                else b'.transit == b.transit && c' == c.(timers := c'.timers))
            && (m in c.q.pending ==> c'.q.inflight == c.q.inflight
                                     && multiset(c'.q.pending) == multiset(c.q.pending) - multiset{m})
            && (m !in c.q.pending ==> c'.q.inflight == c.q.inflight - {m} && c'.q.pending == c.q.pending)
  {
    var c := b.cells[i];
    if m in c.q.pending {
      var k := RemoveFirstIsRemoveAt(c.q.pending, m);
      MultisetOfRemoveAt(c.q.pending, k);
    }
  }

  /** The first place of the consumer in the list is closed up. */
  ghost predicate LeftTheList(before: seq<Handler>, after: seq<Handler>, h: Handler) {
    exists k :: 0 <= k < |before| && before[k] == h && h !in before[..k] && after == before[..k] + before[k + 1..]
  }

  lemma DropLeavesTheList(q: Queue, h: Handler)
    requires h in q.consumers
    ensures LeftTheList(q.consumers, DropBlock(q, h).consumers, h)
  {
    var k := RemoveFirstIsRemoveAt(q.consumers, h);
    hide Listed, Held, RemoveFirst;
  }

  lemma DropReturnsTheHeld(q: Queue, h: Handler)
    requires PrefetchOne(q)
    ensures forall m :: m in q.inflight && q.inflight[m] == h ==>
              DropBlock(q, h).pending == [m] + q.pending && DropBlock(q, h).inflight == q.inflight - {m}
    ensures (forall m :: m in q.inflight ==> q.inflight[m] != h) ==>
              DropBlock(q, h).pending == q.pending && DropBlock(q, h).inflight == q.inflight
  {
    if forall m :: m in q.inflight ==> q.inflight[m] != h {
      assert Held(q, h) == {} && Listed({}) == [];
    }
    forall m | m in q.inflight && q.inflight[m] == h
      ensures DropBlock(q, h).pending == [m] + q.pending && DropBlock(q, h).inflight == q.inflight - {m}
    {
      SingleHeld(q, h, m);
    }
  }

  /**
   * A consumer that drops leaves the list, and on a queue that keeps prefetch one the copy it holds, if it holds one,
   * goes back to the front; whatever its delivery count, nothing dies.
   */
  lemma DropReturnsToTheFront(b: Bus, i: nat, h: Handler)
    requires i < |b.cells| && PrefetchOne(b.cells[i].q) && h in b.cells[i].q.consumers
    ensures var b' := Apply(b, OnQueue(i, Detach(h)));
            var c, c' := b.cells[i], b'.cells[i];
            && OnlyQueue(b, b', i) && b'.transit == b.transit && c'.owed == c.owed + 1
            && c'.ledger == c.ledger.(returned := c'.ledger.returned)
            && LeftTheList(c.q.consumers, c'.q.consumers, h)
            && (forall m :: m in c.q.inflight && c.q.inflight[m] == h ==>
                  c'.q.pending == [m] + c.q.pending && c'.q.inflight == c.q.inflight - {m})
            && ((forall m :: m in c.q.inflight ==> c.q.inflight[m] != h) ==>
                  c'.q.pending == c.q.pending && c'.q.inflight == c.q.inflight)
  {
    DropLeavesTheList(b.cells[i].q, h);
    DropReturnsTheHeld(b.cells[i].q, h);
    hide DropBlock, LeftTheList, PrefetchOne, Held;
  }

  // ---------------------------------------------------------------- publishing

  /** A subscriber of this kind and with this routing key hears the key. */
  ghost predicate Hears(kind: TopologyKind, routingKey: Option<string>, key: string) {
    || kind == Fanout || routingKey == None || routingKey == Some("")
    || exists runs :: Alignment(Split(routingKey.value), Split(key), runs)
  }

  lemma MatchesIsHearing(config: QueueConfig, key: string)
    ensures config.Matches(key) <==> Hears(config.kind, config.routingKey, key)
  {
    if config.routingKey.Some? {
      AcceptsIffAligned(Split(config.routingKey.value), Split(key));
    }
    hide Alignment, Accepts;
  }

  /** The options carry a dedup id that the bus has seen. */
  predicate Repeated(b: Bus, options: Option<PublishOptions>) {
    options.Some? && options.value.dedupId.Some? && options.value.dedupId.value in b.seen
  }

  /** A publish that repeats a dedup id does nothing. */
  lemma RepeatedPublish(b: Bus, topic: string, body: string, key: Option<string>, options: Option<PublishOptions>)
    requires Repeated(b, options)
    ensures Apply(b, Publish(topic, body, key, options)) == b
  {
  }

  /** Any other is remembered by its dedup id, if it has one, and adds one line to the log of its topic. */
  lemma PublishIsLogged(b: Bus, topic: string, body: string, key: Option<string>, options: Option<PublishOptions>)
    requires !Repeated(b, options)
    ensures var b' := Apply(b, Publish(topic, body, key, options));
            var before := if topic in b.log then b.log[topic] else [];
            && b'.seen == (if options.Some? && options.value.dedupId.Some?
                           then b.seen + {options.value.dedupId.value} else b.seen)
            && b'.transit == b.transit && b.seqNo < b'.seqNo
            && b'.log.Keys == b.log.Keys + {topic}
            && (forall t :: t in b.log && t != topic ==> b'.log[t] == b.log[t])
            && |b'.log[topic]| == |before| + 1 && before <= b'.log[topic]
            && var line := b'.log[topic][|before|];
               line.msg.body == body && line.msg.options == options && line.origin == None
               && line.msg.routingKey == (if key.Some? then key.value else topic)
  {
    hide FanOut;
  }

  /** One copy of the message has come in at the back, with a timer if it carries a time to live of zero or more. */
  ghost predicate TookOne(c: Cell, c': Cell, m: Message) {
    && c'.q == c.q.(pending := c.q.pending + [m])
    && c'.owed == c.owed + 1 && c'.key == c.key && c'.parked == c.parked
    && c'.timers == (if m.options.Some? && m.options.value.ttlMs.Some? && m.options.value.ttlMs.value >= 0
                     then c.timers + {m} else c.timers)
    && c'.ledger == c.ledger.(enqueued := c.ledger.enqueued + [m])
  }

  /**
   * A publish gives exactly one copy, under a new number, to every queue of its topic that hears the key: a fanout
   * one, one without a routing key or with an empty one, and one whose pattern aligns with the key. Every other
   * queue stays as it is. Without a key the topic is the key.
   */
  lemma PublishReaches(b: Bus, topic: string, body: string, key: Option<string>, options: Option<PublishOptions>,
                       i: nat)
    requires i < |b.cells| && !Repeated(b, options)
    ensures var b' := Apply(b, Publish(topic, body, key, options));
            var c, k := b.cells[i], if key.Some? then key.value else topic;
            && |b'.cells| == |b.cells|
            && (c.q.config.topic == topic && Hears(c.q.config.kind, c.q.config.routingKey, k) ==>
                  exists m: Message ::
                    && TookOne(c, b'.cells[i], m) && b.seqNo < m.id
                    && m.body == body && m.routingKey == k && m.options == options)
            && (!(c.q.config.topic == topic && Hears(c.q.config.kind, c.q.config.routingKey, k)) ==> b'.cells[i] == c)
  {
    var c, k := b.cells[i], if key.Some? then key.value else topic;
    MatchesIsHearing(c.q.config, k);
    hide Hears, QueueConfig.Matches, Takers;
    var m := CopyFor(b, i, topic, body, k, options);
    if Takes(c, topic, k) {
      assert TookOne(c, Apply(b, Publish(topic, body, key, options)).cells[i], m);
    }
  }

  // ---------------------------------------------------------------- subscribing

  /** The logged messages that a subscriber of this kind and routing key hears, in order. */
  ghost function Heard(entries: seq<LogEntry>, kind: TopologyKind, routingKey: Option<string>): seq<Message> {
    if entries == [] then []
    else
      (if Hears(kind, routingKey, entries[0].msg.routingKey) then [entries[0].msg] else [])
      + Heard(entries[1..], kind, routingKey)
  }

  lemma {:induction false} HeardOneMore(entries: seq<LogEntry>, e: LogEntry, kind: TopologyKind,
                                        routingKey: Option<string>)
    ensures Heard(entries + [e], kind, routingKey)
            == Heard(entries, kind, routingKey) + (if Hears(kind, routingKey, e.msg.routingKey) then [e.msg] else [])
  {
    hide Hears;
    if entries == [] {
      assert entries + [e] == [e] && [e][1..] == [];
      assert Heard([e][1..], kind, routingKey) == [];
    } else {
      assert (entries + [e])[1..] == entries[1..] + [e];
      HeardOneMore(entries[1..], e, kind, routingKey);
    }
  }

  lemma {:induction false} SeedsAreHeard(config: QueueConfig, entries: seq<LogEntry>)
    ensures Seeds(config, entries) == Heard(entries, config.kind, config.routingKey)
  {
    hide Hears, QueueConfig.Matches;
    if entries != [] {
      var n := |entries| - 1;
      SeedsAreHeard(config, entries[..n]);
      HeardOneMore(entries[..n], entries[n], config.kind, config.routingKey);
      assert entries == entries[..n] + [entries[n]];
      MatchesIsHearing(config, entries[n].msg.routingKey);
    }
  }

  /** The id that a subscriber goes by: the one it asked for, or the next number. */
  function SubscriberName(b: Bus, opts: SubscribeOptions): string {
    if opts.subscriberId.Some? then opts.subscriberId.value else "sub-" + Decimal(b.seqNo + 1)
  }

  /**
   * A subscriber whose key no queue has gets a queue of its own, set up by its options (three deliveries unless it
   * says otherwise), with itself as only consumer. With `StreamReplay` the queue starts with every logged message of
   * its topic that it hears, without it with none; replay arms no timers.
   */
  lemma FirstSubscribe(b: Bus, topic: string, h: Handler, opts: SubscribeOptions)
    requires forall j :: 0 <= j < |b.cells| ==> b.cells[j].key != topic + " " + SubscriberName(b, opts)
    ensures var b' := Apply(b, Subscribe(topic, h, opts));
            && |b'.cells| == |b.cells| + 1 && b'.cells[..|b.cells|] == b.cells
            && b'.log == b.log && b'.seen == b.seen && b'.transit == b.transit
            && var c := b'.cells[|b.cells|];
               var deliveries := if opts.maxDeliveries.Some? then opts.maxDeliveries.value else 3;
               && c.key == topic + " " + SubscriberName(b, opts)
               && c.q.config == QueueConfig(topic, opts.kind, opts.routingKey, deliveries, opts.deadLetter,
                                            opts.retryDelayMs, opts.partitionByGroup, opts.singleActiveConsumer)
               && c.q.consumers == [h] && c.q.inflight == map[] && c.owed == 1 && c.timers == {} && c.parked == {}
               && c.q.pending == if opts.streamReplay && topic in b.log
                                 then Heard(b.log[topic], opts.kind, opts.routingKey) else []
  {
    SeedsAreHeard(ConfigOf(topic, opts), LogOf(b, topic));
    assert Heard([], opts.kind, opts.routingKey) == [];
    hide Seeds, Heard;
  }

  /** Any other joins the queue with its key, as last consumer; the queue's options stay, and nothing is replayed. */
  lemma LaterSubscribe(b: Bus, topic: string, h: Handler, opts: SubscribeOptions, i: nat)
    requires i < |b.cells| && b.cells[i].key == topic + " " + SubscriberName(b, opts)
    requires forall j :: 0 <= j < i ==> b.cells[j].key != topic + " " + SubscriberName(b, opts)
    ensures var b' := Apply(b, Subscribe(topic, h, opts));
            && OnlyQueue(b.(seqNo := b'.seqNo), b', i) && b'.transit == b.transit
            && b'.cells[i] == b.cells[i].(q := b.cells[i].q.(consumers := b.cells[i].q.consumers + [h]),
                                          owed := b.cells[i].owed + 1)
  {
    hide Seeds, Created;
    assert Find(b.cells, SubscribeKey(b, topic, opts)) == i;
  }

  // ---------------------------------------------------------------- delivering

  /** The priority a message was published with; none counts as zero. */
  function PublishedPriority(m: Message): int {
    if m.options.Some? && m.options.value.priority.Some? then m.options.value.priority.value else 0
  }

  /** The group a message was published in; none counts as the empty one. */
  function PublishedGroup(m: Message): string {
    if m.options.Some? && m.options.value.groupId.Some? then m.options.value.groupId.value else ""
  }

  lemma PublishedTerms(m: Message)
    ensures m.Priority() == PublishedPriority(m) && m.Group() == PublishedGroup(m)
  {
  }

  /** The copy at `k` was delivered to `h`: out of pending into flight, counted and recorded once. */
  ghost predicate DeliveredOne(c: Cell, c': Cell, k: nat, h: Handler) {
    && k < |c.q.pending| && h in c.q.consumers && (forall x :: x in c.q.inflight ==> c.q.inflight[x] != h)
    && var m := c.q.pending[k];
    && c'.q.pending == c.q.pending[..k] + c.q.pending[k + 1..]
    && c'.q.inflight == c.q.inflight[m := h]
    && c'.q.counts == c.q.counts[m := (if m in c.q.counts then c.q.counts[m] else 0) + 1]
    && c'.q.consumers == c.q.consumers && c'.q.config == c.q.config && c'.owed == c.owed
    && c'.ledger.sent == c.ledger.sent + [Delivery(m, h)]
  }

  /** A turn delivers one copy to a free consumer, or nothing, and then the thread is done. */
  lemma PumpDelivers(b: Bus, i: nat)
    requires i < |b.cells| && b.cells[i].owed > 0
    ensures var b' := Apply(b, OnQueue(i, Op.Pump));
            var c, c' := b.cells[i], b'.cells[i];
            && OnlyQueue(b, b', i) && b'.transit == b.transit
            && if c'.ledger.sent == c.ledger.sent
               then c'.owed == c.owed - 1 && c'.q.pending == c.q.pending && c'.q.inflight == c.q.inflight
               else exists k: nat, h: Handler :: DeliveredOne(c, c', k, h)
  {
    var c := b.cells[i];
    hide PumpBlock;
    PumpIsExact(c.q);
    if PumpBlock(c.q).Sent? {
      var Sent(q', k, m, h) := PumpBlock(c.q);
      assert h in c.q.consumers && h !in c.q.Busy();
      assert forall x :: x in c.q.inflight ==> c.q.inflight[x] in c.q.Busy();
      assert DeliveredOne(c, PumpCell(c), k, h);
    }
  }

  /**
   * On a queue that is not partitioned, what is delivered was published with the highest priority of all that is
   * pending, and is the earliest of those.
   */
  lemma HighestPriorityFirst(b: Bus, i: nat)
    requires i < |b.cells| && b.cells[i].owed > 0 && !b.cells[i].q.config.partitionByGroup
    ensures var c, c' := b.cells[i], Apply(b, OnQueue(i, Op.Pump)).cells[i];
            c'.ledger.sent != c.ledger.sent ==>
              exists k: nat, h: Handler ::
                && DeliveredOne(c, c', k, h)
                && (forall j :: 0 <= j < |c.q.pending| ==>
                      PublishedPriority(c.q.pending[j]) <= PublishedPriority(c.q.pending[k]))
                && (forall j :: 0 <= j < k ==>
                      PublishedPriority(c.q.pending[j]) < PublishedPriority(c.q.pending[k]))
  {
    var c := b.cells[i];
    if c.q.pending != [] && c.q.consumers != [] {
      BestIsFirstMax(c.q.pending);
      var k := Best(c.q.pending);
      hide PumpBlock;
      PumpIsExact(c.q);
      forall j | 0 <= j < |c.q.pending| ensures c.q.pending[j].Priority() == PublishedPriority(c.q.pending[j]) {
        PublishedTerms(c.q.pending[j]);
      }
      if PumpBlock(c.q).Sent? {
        var h := PumpBlock(c.q).to;
        assert forall x :: x in c.q.inflight ==> c.q.inflight[x] in c.q.Busy();
        assert DeliveredOne(c, PumpCell(c), PumpBlock(c.q).index, h);
      }
    }
  }

  /** The attached consumer that the queue's table gives for the group, if there is one. */
  function GroupOwner(q: Queue, group: string): Option<Handler> {
    if group in q.affinity && q.affinity[group] in q.consumers then Some(q.affinity[group]) else None
  }

  /** A message of the group may be delivered: its owner is free, or it has none and somebody is. */
  ghost predicate GroupMayGo(q: Queue, group: string) {
    var owner := GroupOwner(q, group);
    if owner.Some? then forall x :: x in q.inflight ==> q.inflight[x] != owner.value
    else exists h :: h in q.consumers && forall x :: x in q.inflight ==> q.inflight[x] != h
  }

  lemma EligibleIsMayGo(q: Queue, m: Message)
    ensures Eligible(q, m) <==> GroupMayGo(q, PublishedGroup(m))
  {
    PublishedTerms(m);
    forall h ensures h in q.Busy() <==> !(forall x :: x in q.inflight ==> q.inflight[x] != h) {
    }
  }

  /** The earliest copy whose group may go, to the group's owner if it has one, who owns the group from then on. */
  ghost predicate GroupTurn(q: Queue, q': Queue, k: nat, h: Handler) {
    && k < |q.pending|
    && var group := PublishedGroup(q.pending[k]);
    && GroupMayGo(q, group)
    && (forall j :: 0 <= j < k ==> !GroupMayGo(q, PublishedGroup(q.pending[j])))
    && GroupOwner(q, group) in {None, Some(h)} && GroupOwner(q', group) == Some(h)
    && forall g :: g != group ==> GroupOwner(q', g) == GroupOwner(q, g)
  }

  lemma SentIsGroupTurn(q: Queue, q': Queue, k: nat, h: Handler)
    requires q.config.partitionByGroup && SentEffect(q, q', k, h)
    ensures GroupTurn(q, q', k, h)
  {
    forall j | 0 <= j < |q.pending|
      ensures Eligible(q, q.pending[j]) <==> GroupMayGo(q, PublishedGroup(q.pending[j]))
    {
      EligibleIsMayGo(q, q.pending[j]);
    }
    PublishedTerms(q.pending[k]);
    forall g ensures GroupOwner(q, g) == Owner(q.affinity, q.consumers, g) {
    }
    forall g ensures GroupOwner(q', g) == Owner(q'.affinity, q.consumers, g) {
    }
    hide GroupMayGo, Eligible, PublishedGroup, Message.Group, Owner, GroupOwner;
  }

  lemma SentIsDelivered(c: Cell, c': Cell, k: nat, h: Handler)
    requires SentEffect(c.q, c'.q, k, h) && c' == c.(q := c'.q, ledger := c'.ledger)
    requires c'.ledger == c.ledger.(sent := c.ledger.sent + [Delivery(c.q.pending[k], h)])
    ensures DeliveredOne(c, c', k, h)
  {
    assert forall x :: x in c.q.inflight ==> c.q.inflight[x] in c.q.Busy();
  }

  lemma NoGroupMayGo(q: Queue)
    requires q.config.partitionByGroup && q.consumers != []
    ensures CanDeliver(q) <==> exists j :: 0 <= j < |q.pending| && GroupMayGo(q, PublishedGroup(q.pending[j]))
  {
    forall j | 0 <= j < |q.pending|
      ensures Eligible(q, q.pending[j]) <==> GroupMayGo(q, PublishedGroup(q.pending[j]))
    {
      EligibleIsMayGo(q, q.pending[j]);
    }
    hide GroupMayGo, Eligible, PublishedGroup;
  }

  /**
   * On a partitioned queue the earliest pending message whose group may go is delivered, to the group's owner if it
   * has one, and its consumer owns the group from then on; nothing is delivered exactly when no group may go.
   */
  lemma GroupsGoInTurn(b: Bus, i: nat)
    requires i < |b.cells| && b.cells[i].owed > 0
    requires b.cells[i].q.config.partitionByGroup && b.cells[i].q.consumers != []
    ensures var c, c' := b.cells[i], Apply(b, OnQueue(i, Op.Pump)).cells[i];
            && (c'.ledger.sent == c.ledger.sent <==>
                  !exists j :: 0 <= j < |c.q.pending| && GroupMayGo(c.q, PublishedGroup(c.q.pending[j])))
            && (c'.ledger.sent != c.ledger.sent ==>
                  exists k: nat, h: Handler :: DeliveredOne(c, c', k, h) && GroupTurn(c.q, c'.q, k, h))
  {
    PumpIsTheCells(b, i);
    hide Apply;
    GroupTurnOrNone(b.cells[i]);
  }

  lemma PumpIsTheCells(b: Bus, i: nat)
    requires i < |b.cells|
    ensures Apply(b, OnQueue(i, Op.Pump)).cells == b.cells[i := PumpCell(b.cells[i])]
  {
    hide PumpCell;
  }

  lemma GroupTurnOrNone(c: Cell)
    requires c.owed > 0 && c.q.config.partitionByGroup && c.q.consumers != []
    ensures var c' := PumpCell(c);
            && (c'.ledger.sent == c.ledger.sent <==>
                  !exists j :: 0 <= j < |c.q.pending| && GroupMayGo(c.q, PublishedGroup(c.q.pending[j])))
            && (c'.ledger.sent != c.ledger.sent ==>
                  exists k: nat, h: Handler :: DeliveredOne(c, c', k, h) && GroupTurn(c.q, c'.q, k, h))
  {
    NoGroupMayGo(c.q);
    hide PumpBlock, CanDeliver, SentEffect, GroupMayGo, PublishedGroup, GroupTurn;
    PumpIsExact(c.q);
    if PumpBlock(c.q).Sent? {
      var Sent(q', k, m, h) := PumpBlock(c.q);
      SentIsGroupTurn(c.q, q', k, h);
      SentIsDelivered(c, PumpCell(c), k, h);
    }
  }

  /**
   * On any other queue something is delivered exactly when something is pending and somebody may take it: the first
   * consumer of a single-active queue when nothing is in flight, and anybody who holds nothing on a plain one.
   */
  lemma SomebodyTakesIt(b: Bus, i: nat)
    requires i < |b.cells| && b.cells[i].owed > 0 && !b.cells[i].q.config.partitionByGroup
    ensures var c, c' := b.cells[i], Apply(b, OnQueue(i, Op.Pump)).cells[i];
            && (c'.ledger.sent != c.ledger.sent <==>
                  && c.q.pending != [] && c.q.consumers != []
                  && if c.q.config.singleActiveConsumer then c.q.inflight == map[]
                     else exists h :: h in c.q.consumers && forall x :: x in c.q.inflight ==> c.q.inflight[x] != h)
            && (c'.ledger.sent != c.ledger.sent && c.q.config.singleActiveConsumer ==>
                  c'.ledger.sent[|c.ledger.sent|].to == c.q.consumers[0])
  {
    var c := b.cells[i];
    hide PumpBlock;
    PumpIsExact(c.q);
    forall h ensures h in c.q.Busy() <==> !(forall x :: x in c.q.inflight ==> c.q.inflight[x] != h) {
    }
  }

  // ---------------------------------------------------------------- runs

  /** A named fanout subscription on a plain queue, dead-lettering, and a publish with a priority. */
  function Plainly(maxDeliveries: Option<int>): SubscribeOptions {
    SubscribeOptions(Fanout, None, Some("s"), true, maxDeliveries, None, false, false, false)
  }

  function WithPriority(priority: int): Option<PublishOptions> {
    Some(PublishOptions(Some(priority), None, None, None, None, None, map[]))
  }

  /** One idle consumer on the only queue, a plain one of this topic, with these copies pending. */
  ghost predicate Backlog(b: Bus, topic: string, h: Handler, pending: seq<Message>) {
    && |b.cells| == 1 && b.cells[0].owed > 0
    && b.cells[0].q == Queue(b.cells[0].q.config, pending, map[], [h], map[], 0, map[])
    && b.cells[0].q.config == QueueConfig(topic, Fanout, None, 3, true, None, false, false)
    && b.cells[0].ledger.sent == []
  }

  lemma Opens(topic: string, h: Handler)
    ensures Backlog(Apply(INIT, Subscribe(topic, h, Plainly(None))), topic, h, [])
    ensures var b := Apply(INIT, Subscribe(topic, h, Plainly(None)));
            b.seqNo == 0 && b.log == map[] && b.transit == multiset{}
  {
    hide Seeds;
  }

  lemma PilesUp(b: Bus, topic: string, h: Handler, pending: seq<Message>, body: string, options: Option<PublishOptions>)
    requires Backlog(b, topic, h, pending) && (options.Some? ==> options.value.dedupId == None)
    ensures var b' := Apply(b, Publish(topic, body, None, options));
            && Backlog(b', topic, h, pending + [Message(b.seqNo + 2, body, topic, options)])
            && b'.seqNo == b.seqNo + 2 && b'.transit == b.transit && b'.log.Keys == b.log.Keys + {topic}
  {
    assert Takers(b.cells, 0, topic, topic) == 0;
    assert Takers(b.cells, 1, topic, topic) == 1;
  }

  /** What was published later, with a higher priority, is delivered first. */
  lemma LaterButHigherGoesFirst(topic: string, h: Handler, low: int, high: int)
    requires low < high
    ensures var events := [Subscribe(topic, h, Plainly(None)), Publish(topic, "first", None, WithPriority(low)),
                           Publish(topic, "second", None, WithPriority(high)), OnQueue(0, Op.Pump)];
            var b := Run(INIT, events);
            |b.cells| == 1 && |b.cells[0].ledger.sent| == 1 && b.cells[0].ledger.sent[0].msg.body == "second"
  {
    var e0, e1 := Subscribe(topic, h, Plainly(None)), Publish(topic, "first", None, WithPriority(low));
    var e2, e3 := Publish(topic, "second", None, WithPriority(high)), OnQueue(0, Op.Pump);
    RunOfFour(e0, e1, e2, e3);
    var b1 := Apply(Apply(INIT, e0), e1);
    Opens(topic, h);
    var first, second := Message(2, "first", topic, WithPriority(low)), Message(4, "second", topic, WithPriority(high));
    hide Apply, Run, Backlog;
    PilesUp(Apply(INIT, e0), topic, h, [], "first", WithPriority(low));
    PilesUp(b1, topic, h, [] + [first], "second", WithPriority(high));
    assert [] + [first] + [second] == [first, second];
    HigherGoesOut(Apply(b1, e2), topic, h, first, second);
  }

  lemma HigherGoesOut(b: Bus, topic: string, h: Handler, first: Message, second: Message)
    requires Backlog(b, topic, h, [first, second]) && PublishedPriority(first) < PublishedPriority(second)
    ensures var b' := Apply(b, OnQueue(0, Op.Pump));
            |b'.cells| == 1 && b'.cells[0].ledger.sent == [Delivery(second, h)]
  {
    SomebodyTakesIt(b, 0);
    HighestPriorityFirst(b, 0);
    PumpDelivers(b, 0);
    hide Apply;
    var c' := Apply(b, OnQueue(0, Op.Pump)).cells[0];
    var k: nat, g: Handler :| DeliveredOne(b.cells[0], c', k, g) && forall j :: 0 <= j < 2 ==>
      PublishedPriority(b.cells[0].q.pending[j]) <= PublishedPriority(b.cells[0].q.pending[k]);
    assert b.cells[0].q.pending[1] == second;
    assert k == 1;
  }

  /** The only pending copy goes to the only consumer. */
  lemma OnlyOneGoesOut(b: Bus, topic: string, h: Handler, m: Message)
    requires Backlog(b, topic, h, [m])
    ensures var b' := Apply(b, OnQueue(0, Op.Pump));
            && HeldBy(b', 0, m, h) && b'.log == b.log && b'.transit == b.transit
            && b'.cells[0].q.config == b.cells[0].q.config && b'.cells[0].ledger.sent == [Delivery(m, h)]
  {
    SomebodyTakesIt(b, 0);
    PumpDelivers(b, 0);
    hide Apply;
  }

  lemma RunOfFour(e0: Event, e1: Event, e2: Event, e3: Event)
    ensures Run(INIT, [e0, e1, e2, e3]) == Apply(Apply(Apply(Apply(INIT, e0), e1), e2), e3)
  {
    RunOneMore(INIT, [], e0);
    RunOneMore(INIT, [e0], e1);
    RunOneMore(INIT, [e0, e1], e2);
    RunOneMore(INIT, [e0, e1, e2], e3);
    assert [] + [e0] == [e0] && [e0] + [e1] == [e0, e1];
    assert [e0, e1] + [e2] == [e0, e1, e2] && [e0, e1, e2] + [e3] == [e0, e1, e2, e3];
    hide Apply, Run;
  }
}
