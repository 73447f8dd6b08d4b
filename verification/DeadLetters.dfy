/**
 * Republishing is exact: each dead copy of a dead-lettering queue, and each expired copy, is
 * logged once on its dead-letter or expiry address, or its republish is still in transit.
 */
module DeadLetters {
  import opened Wrappers
  import opened BusTypes
  import opened QueueSteps
  import opened QueueCells
  import opened BusMachine
  import opened Custody
  import opened BusInvariants

  /** A queue's history calls for the republish. */
  predicate Due(cells: seq<Cell>, r: Republish) {
    && r.queue < |cells|
    && var c := cells[r.queue];
    && r.topic == c.q.config.topic
    && match r.cause
       case Poisoned => c.q.config.deadLetter && r.msg in c.ledger.dead
       case Lapsed => r.msg in c.ledger.expired
  }

  function TimesLogged(entries: seq<LogEntry>, r: Republish): nat {
    if entries == [] then 0
    else TimesLogged(entries[..|entries| - 1], r) + One(entries[|entries| - 1].origin == Some(r))
  }

  /** In transit plus logged at its address: once if due, never otherwise. */
  ghost predicate RepublishedOnce(b: Bus) {
    forall r: Republish :: b.transit[r] + TimesLogged(LogOf(b, r.Address()), r) == One(Due(b.cells, r))
  }

  /** A republished line carries the dead copy's body and routing key, no options, at the right address. */
  predicate FaithfulEntry(topic: string, e: LogEntry) {
    e.origin.Some? ==>
      && topic == e.origin.value.Address()
      && e.msg.body == e.origin.value.msg.body
      && e.msg.routingKey == e.origin.value.msg.routingKey
      && e.msg.options == None
  }

  ghost predicate FaithfulLogs(b: Bus) {
    forall t, k :: t in b.log && 0 <= k < |b.log[t]| ==> FaithfulEntry(t, b.log[t][k])
  }

  lemma LoggedOneMore(entries: seq<LogEntry>, e: LogEntry, r: Republish)
    ensures TimesLogged(entries + [e], r) == TimesLogged(entries, r) + One(e.origin == Some(r))
  {
    assert (entries + [e])[..|entries|] == entries;
  }

  /** A publish logs one line under its origin and leaves what is due alone. */
  lemma PublishCounts(b: Bus, topic: string, body: string, key: string, options: Option<PublishOptions>,
                      origin: Option<Republish>, r: Republish)
    requires origin.Some? ==> topic == origin.value.Address() && options.None?
    ensures var b' := PublishBlock(b, topic, body, key, options, origin);
            && TimesLogged(LogOf(b', r.Address()), r) == TimesLogged(LogOf(b, r.Address()), r) + One(origin == Some(r))
            && Due(b'.cells, r) == Due(b.cells, r)
            && b'.transit == b.transit
  {
    hide Due, FanOut, Takers;
    PublishDuesNothing(b, topic, body, key, options, origin, r);
    if !Duplicate(b, options) {
      var e := LogEntry(Message(b.seqNo + 1, body, key, options), origin);
      LoggedOneMore(LogOf(b, topic), e, r);
      hide TimesLogged;
    }
  }

  lemma PublishDuesNothing(b: Bus, topic: string, body: string, key: string, options: Option<PublishOptions>,
                           origin: Option<Republish>, r: Republish)
    ensures Due(PublishBlock(b, topic, body, key, options, origin).cells, r) == Due(b.cells, r)
  {
    hide Takes, Takers;
  }

  lemma PublishKeepsFaith(b: Bus, topic: string, body: string, key: string, options: Option<PublishOptions>,
                          origin: Option<Republish>)
    requires FaithfulLogs(b)
    requires FaithfulEntry(topic, LogEntry(Message(b.seqNo + 1, body, key, options), origin))
    ensures FaithfulLogs(PublishBlock(b, topic, body, key, options, origin))
  {
    if !Duplicate(b, options) {
      var b' := PublishBlock(b, topic, body, key, options, origin);
      forall t, k | t in b'.log && 0 <= k < |b'.log[t]| ensures FaithfulEntry(t, b'.log[t][k]) {
        if t in b.log && k < |b.log[t]| {
          assert FaithfulEntry(t, b.log[t][k]);
        }
      }
    }
  }

  // ---------------------------------------------------------------- steps on one queue

  lemma SettleEmits(c: Cell, i: nat, m: Message, h: Handler, kind: SettleKind, r: Republish)
    requires Conserved(c)
    ensures var c' := SettleCell(c, m, h, kind);
            && c'.ledger.expired == c.ledger.expired
            && Emits(i, c, Settle(m, h, kind))[r]
               + One(r.queue == i && r.topic == c.q.config.topic && r.cause.Poisoned? && c.q.config.deadLetter
                     && r.msg in c.ledger.dead)
               == One(r.queue == i && r.topic == c.q.config.topic && r.cause.Poisoned? && c.q.config.deadLetter
                      && r.msg in c'.ledger.dead)
  {
    if m in c.q.inflight {
      LiveIsNotDone(c, m);
    }
    hide Conserved;
  }

  lemma ExpireEmits(c: Cell, i: nat, m: Message, r: Republish)
    requires Conserved(c)
    ensures var c' := ExpireCell(c, m);
            && c'.ledger.dead == c.ledger.dead
            && Emits(i, c, Expire(m))[r]
               + One(r.queue == i && r.topic == c.q.config.topic && r.cause.Lapsed? && r.msg in c.ledger.expired)
               == One(r.queue == i && r.topic == c.q.config.topic && r.cause.Lapsed? && r.msg in c'.ledger.expired)
  {
    if m in c.q.pending || m in c.q.inflight {
      LiveIsNotDone(c, m);
    }
    hide Conserved;
  }

  /** What a local step adds to the dead and the expired is exactly what it emits. */
  lemma EmitsExactly(b: Bus, i: nat, op: Op, r: Republish)
    requires i < |b.cells| && Local(op) && Conserved(b.cells[i])
    ensures Emits(i, b.cells[i], op)[r] + One(Due(b.cells, r)) == One(Due(QueueBlock(b, i, op).cells, r))
  {
    hide PumpBlock, Conserved, SettleCell, ExpireCell, SettleBlock, RemoveUnconsumed;
    var c := b.cells[i];
    LocalKeepsEnqueued(c, op);
    match op
    case Settle(m, h, kind) => SettleEmits(c, i, m, h, kind, r);
    case Expire(m) => ExpireEmits(c, i, m, r);
    case _ =>
  }

  lemma QueueBlockKeepsOnce(b: Bus, i: nat, op: Op)
    requires RepublishedOnce(b) && i < |b.cells| && Local(op) && Conserved(b.cells[i])
    ensures RepublishedOnce(QueueBlock(b, i, op))
  {
    var b' := QueueBlock(b, i, op);
    forall r ensures b'.transit[r] + TimesLogged(LogOf(b', r.Address()), r) == One(Due(b'.cells, r)) {
      EmitsExactly(b, i, op, r);
      assert b.transit[r] + TimesLogged(LogOf(b, r.Address()), r) == One(Due(b.cells, r));
    }
  }

  lemma SubscribeKeepsOnce(b: Bus, topic: string, h: Handler, opts: SubscribeOptions)
    requires RepublishedOnce(b)
    ensures RepublishedOnce(SubscribeBlock(b, topic, h, opts))
  {
    var b' := SubscribeBlock(b, topic, h, opts);
    forall r ensures b'.transit[r] + TimesLogged(LogOf(b', r.Address()), r) == One(Due(b'.cells, r)) {
      assert b.transit[r] + TimesLogged(LogOf(b, r.Address()), r) == One(Due(b.cells, r));
      assert LogOf(b', r.Address()) == LogOf(b, r.Address());
    }
  }

  lemma PublishKeepsOnce(b: Bus, topic: string, body: string, key: string, options: Option<PublishOptions>)
    requires RepublishedOnce(b)
    ensures RepublishedOnce(PublishBlock(b, topic, body, key, options, None))
  {
    var b' := PublishBlock(b, topic, body, key, options, None);
    forall r ensures b'.transit[r] + TimesLogged(LogOf(b', r.Address()), r) == One(Due(b'.cells, r)) {
      PublishCounts(b, topic, body, key, options, None, r);
      assert b.transit[r] + TimesLogged(LogOf(b, r.Address()), r) == One(Due(b.cells, r));
    }
  }

  lemma ForwardKeepsOnce(b: Bus, s: Republish)
    requires RepublishedOnce(b)
    ensures RepublishedOnce(Apply(b, Forward(s)))
  {
    hide PublishBlock, Due;
    if s in b.transit {
      var b1 := b.(transit := b.transit - multiset{s});
      var b' := Apply(b, Forward(s));
      forall r ensures b'.transit[r] + TimesLogged(LogOf(b', r.Address()), r) == One(Due(b'.cells, r)) {
        PublishCounts(b1, s.Address(), s.msg.body, s.msg.routingKey, None, Some(s), r);
        assert b.transit[r] + TimesLogged(LogOf(b, r.Address()), r) == One(Due(b.cells, r));
        assert LogOf(b1, r.Address()) == LogOf(b, r.Address());
      }
    }
  }

  lemma ApplyKeepsOnce(b: Bus, e: Event)
    requires BusOk(b) && RepublishedOnce(b)
    ensures RepublishedOnce(Apply(b, e))
  {
    match e
    case Publish(topic, body, key, options) => PublishKeepsOnce(b, topic, body, key.GetOr(topic), options);
    case Subscribe(topic, h, opts) => SubscribeKeepsOnce(b, topic, h, opts);
    case OnQueue(i, op) =>
      if i < |b.cells| && Local(op) {
        assert Settled(b.cells[i], b.seqNo);
        QueueBlockKeepsOnce(b, i, op);
      }
    case Forward(r) => ForwardKeepsOnce(b, r);
  }

  lemma ApplyKeepsFaith(b: Bus, e: Event)
    requires FaithfulLogs(b)
    ensures FaithfulLogs(Apply(b, e))
  {
    match e
    case Publish(topic, body, key, options) => PublishKeepsFaith(b, topic, body, key.GetOr(topic), options, None);
    case Subscribe(topic, h, opts) =>
    case OnQueue(i, op) =>
    case Forward(r) =>
      if r in b.transit {
        var b1 := b.(transit := b.transit - multiset{r});
        assert FaithfulLogs(b1);
        PublishKeepsFaith(b1, r.Address(), r.msg.body, r.msg.routingKey, None, Some(r));
      }
  }

  lemma {:induction false} RunKeepsOnce(b: Bus, events: seq<Event>)
    requires BusOk(b) && RepublishedOnce(b) && FaithfulLogs(b)
    ensures RepublishedOnce(Run(b, events)) && FaithfulLogs(Run(b, events))
    decreases |events|
  {
    if events != [] {
      ApplyKeepsOk(b, events[0]);
      ApplyKeepsOnce(b, events[0]);
      ApplyKeepsFaith(b, events[0]);
      RunKeepsOnce(Apply(b, events[0]), events[1..]);
    }
  }

  /**
   * Over every run: each dead copy of a dead-lettering queue, and each expired copy, has exactly
   * one line at its address or one republish in transit; nothing else has; and every such line
   * carries the copy's body and routing key.
   */
  lemma DeadLettersAreConserved(events: seq<Event>)
    ensures RepublishedOnce(Run(INIT, events)) && FaithfulLogs(Run(INIT, events))
  {
    RunKeepsOnce(INIT, events);
  }
}
