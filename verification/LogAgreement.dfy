/** Each queue's history is its topic's log, from where the queue started, through its filter. */
module LogAgreement {
  import opened Wrappers
  import opened BusTypes
  import opened TopicMatching
  import opened QueueCells
  import opened BusMachine
  import opened BusInvariants

  /** A message up to the id its copy was given. */
  function Content(m: Message): Message {
    m.(id := 0)
  }

  /** Two messages have the same content exactly when body, key and options agree. */
  lemma SameContentExactly(a: Message, b: Message)
    ensures Content(a) == Content(b) <==> a.body == b.body && a.routingKey == b.routingKey && a.options == b.options
  {
  }

  function Contents(s: seq<Message>): (r: seq<Message>)
    ensures |r| == |s|
  {
    seq(|s|, i requires 0 <= i < |s| => Content(s[i]))
  }

  /** The copies a queue first took are the logged messages that match, in order. */
  ghost predicate Agrees(c: Cell, entries: seq<LogEntry>) {
    && c.ledger.start <= |entries|
    && Contents(c.ledger.enqueued) == Contents(Seeds(c.q.config, entries[c.ledger.start..]))
  }

  ghost predicate LogsAgree(b: Bus) {
    forall i :: 0 <= i < |b.cells| ==> Agrees(b.cells[i], LogOf(b, b.cells[i].q.config.topic))
  }

  lemma SeedsOneMore(config: QueueConfig, entries: seq<LogEntry>, e: LogEntry)
    ensures Seeds(config, entries + [e])
            == Seeds(config, entries) + (if config.Matches(e.msg.routingKey) then [e.msg] else [])
  {
    assert (entries + [e])[..|entries|] == entries;
  }

  /** A new log line, and a copy for the queue exactly when its filter matches. */
  lemma TakenAgrees(c: Cell, entries: seq<LogEntry>, e: LogEntry, m: Message)
    requires Agrees(c, entries) && Content(m) == Content(e.msg)
    ensures c.q.config.Matches(e.msg.routingKey) ==> Agrees(EnqueueCell(c, m), entries + [e])
    ensures !c.q.config.Matches(e.msg.routingKey) ==> Agrees(c, entries + [e])
  {
    var tail := entries[c.ledger.start..];
    assert (entries + [e])[c.ledger.start..] == tail + [e];
    SeedsOneMore(c.q.config, tail, e);
    ContentsOneMore(c.ledger.enqueued, m);
    ContentsOneMore(Seeds(c.q.config, tail), e.msg);
    assert Seeds(c.q.config, tail) + [] == Seeds(c.q.config, tail);
    hide Seeds, Contents, QueueConfig.Matches;
  }

  lemma ContentsOneMore(s: seq<Message>, m: Message)
    ensures Contents(s + [m]) == Contents(s) + [Content(m)]
  {
  }

  /** The log after a publish, as the topic of one queue sees it. */
  lemma FannedAgrees(b: Bus, i: nat, topic: string, e: LogEntry)
    requires i < |b.cells| && Agrees(b.cells[i], LogOf(b, b.cells[i].q.config.topic))
    requires e.msg.id == b.seqNo + 1
    ensures var c := FanOut(b, topic, e.msg.body, e.msg.routingKey, e.msg.options)[i];
            && c.q.config == b.cells[i].q.config
            && Agrees(c, if c.q.config.topic == topic then LogOf(b, topic) + [e] else LogOf(b, c.q.config.topic))
  {
    hide Agrees, TopicMatch;
    var c := b.cells[i];
    if c.q.config.topic == topic {
      TakenAgrees(c, LogOf(b, topic), e, CopyFor(b, i, topic, e.msg.body, e.msg.routingKey, e.msg.options));
    }
  }

  lemma PublishKeepsAgreement(b: Bus, topic: string, body: string, key: string, options: Option<PublishOptions>,
                              origin: Option<Republish>)
    requires LogsAgree(b)
    ensures LogsAgree(PublishBlock(b, topic, body, key, options, origin))
  {
    hide Agrees, Takes;
    if !Duplicate(b, options) {
      var b' := PublishBlock(b, topic, body, key, options, origin);
      var e := LogEntry(Message(b.seqNo + 1, body, key, options), origin);
      forall i | 0 <= i < |b'.cells| ensures Agrees(b'.cells[i], LogOf(b', b'.cells[i].q.config.topic)) {
        FannedAgrees(b, i, topic, e);
      }
    }
  }

  lemma CreatedAgrees(b: Bus, key: string, topic: string, opts: SubscribeOptions)
    ensures Agrees(Created(b, key, topic, opts), LogOf(b, topic))
    ensures Created(b, key, topic, opts).ledger.start == (if opts.streamReplay then 0 else |LogOf(b, topic)|)
  {
    var entries := LogOf(b, topic);
    assert entries[0..] == entries && entries[|entries|..] == [];
  }

  lemma SubscribeKeepsAgreement(b: Bus, topic: string, h: Handler, opts: SubscribeOptions)
    requires LogsAgree(b)
    ensures LogsAgree(SubscribeBlock(b, topic, h, opts))
  {
    var key := SubscribeKey(b, topic, opts);
    CreatedAgrees(b, key, topic, opts);
    CreatedTopic(b, key, topic, opts);
    hide Agrees, Created;
    var b' := SubscribeBlock(b, topic, h, opts);
    forall i | 0 <= i < |b'.cells| ensures Agrees(b'.cells[i], LogOf(b', b'.cells[i].q.config.topic)) {
      var c := if i < |b.cells| then b.cells[i] else Created(b, key, topic, opts);
      AttachedAgrees(c, h, LogOf(b, c.q.config.topic));
    }
  }

  lemma CreatedTopic(b: Bus, key: string, topic: string, opts: SubscribeOptions)
    ensures Created(b, key, topic, opts).q.config.topic == topic
  {
  }

  lemma AttachedAgrees(c: Cell, h: Handler, entries: seq<LogEntry>)
    requires Agrees(c, entries)
    ensures Agrees(AttachCell(c, h), entries)
  {
  }

  lemma QueueKeepsAgreement(b: Bus, i: nat, op: Op)
    requires LogsAgree(b) && i < |b.cells| && Local(op)
    ensures LogsAgree(QueueBlock(b, i, op))
  {
    LocalKeepsEnqueued(b.cells[i], op);
    hide StepCell, Emits, Seeds;
    var c, c' := b.cells[i], StepCell(b.cells[i], op);
    SameHistoryAgrees(c, c', LogOf(b, c.q.config.topic));
    hide Agrees;
    var b' := QueueBlock(b, i, op);
    forall j | 0 <= j < |b'.cells| ensures Agrees(b'.cells[j], LogOf(b', b'.cells[j].q.config.topic)) {
      assert j != i ==> b'.cells[j] == b.cells[j];
    }
  }

  lemma SameHistoryAgrees(c: Cell, c': Cell, entries: seq<LogEntry>)
    requires Agrees(c, entries)
    requires c'.ledger.enqueued == c.ledger.enqueued && c'.ledger.start == c.ledger.start && c'.q.config == c.q.config
    ensures Agrees(c', entries)
  {
  }

  lemma ForwardKeepsAgreement(b: Bus, r: Republish)
    requires LogsAgree(b)
    ensures LogsAgree(Apply(b, Forward(r)))
  {
    if r in b.transit {
      var b1 := b.(transit := b.transit - multiset{r});
      assert LogsAgree(b1) by {
        hide Agrees;
      }
      PublishKeepsAgreement(b1, r.Address(), r.msg.body, r.msg.routingKey, None, Some(r));
    }
    hide LogsAgree, PublishBlock;
  }

  lemma ApplyKeepsAgreement(b: Bus, e: Event)
    requires LogsAgree(b)
    ensures LogsAgree(Apply(b, e))
  {
    hide PublishBlock, SubscribeBlock, QueueBlock, LogsAgree;
    match e
    case Publish(topic, body, key, options) => PublishKeepsAgreement(b, topic, body, key.GetOr(topic), options, None);
    case Subscribe(topic, h, opts) => SubscribeKeepsAgreement(b, topic, h, opts);
    case OnQueue(i, op) =>
      if i < |b.cells| && Local(op) {
        QueueKeepsAgreement(b, i, op);
      }
    case Forward(r) => ForwardKeepsAgreement(b, r);
  }

  lemma {:induction false} RunKeepsAgreement(b: Bus, events: seq<Event>)
    requires LogsAgree(b)
    ensures LogsAgree(Run(b, events))
    decreases |events|
  {
    if events != [] {
      ApplyKeepsAgreement(b, events[0]);
      RunKeepsAgreement(Apply(b, events[0]), events[1..]);
    }
  }

  /** Two configurations filter alike. */
  predicate SameFilter(a: QueueConfig, b: QueueConfig) {
    a.topic == b.topic && a.kind == b.kind && a.routingKey == b.routingKey
  }

  lemma {:induction false} SameFilterSameSeeds(a: QueueConfig, b: QueueConfig, entries: seq<LogEntry>)
    requires SameFilter(a, b)
    ensures Seeds(a, entries) == Seeds(b, entries)
  {
    if entries != [] {
      SameFilterSameSeeds(a, b, entries[..|entries| - 1]);
    }
  }

  /** In every reachable bus each queue's first enqueues are the matching part of the log. */
  lemma HistoryIsFilteredLog(events: seq<Event>, i: nat)
    requires i < |Run(INIT, events).cells|
    ensures var b := Run(INIT, events);
            Agrees(b.cells[i], LogOf(b, b.cells[i].q.config.topic))
  {
    RunKeepsAgreement(INIT, events);
  }

  /** The event creates the queue at `i`: only the first subscribe of a key does. */
  ghost predicate Creates(b: Bus, e: Event, i: nat) {
    e.Subscribe? && i == |b.cells| < |Apply(b, e).cells|
  }

  lemma CreatedCell(b: Bus, e: Event, i: nat)
    requires Creates(b, e, i)
    ensures var c := Apply(b, e).cells[i];
            && c.q.config == ConfigOf(e.topic, e.opts)
            && c.ledger.start == (if e.opts.streamReplay then 0 else |LogOf(b, e.topic)|)
  {
    CreatedAgrees(b, SubscribeKey(b, e.topic, e.opts), e.topic, e.opts);
    hide Seeds;
  }

  /**
   * The history of a queue, whatever happens after its creation: the matching part of its topic's log,
   * from the first line when it was created for replay, and from the first line after its creation when not.
   */
  lemma HistoryStartsWithTheOption(events: seq<Event>, n: nat, i: nat)
    requires n < |events| && Creates(Run(INIT, events[..n]), events[n], i)
    ensures var b0, b := Run(INIT, events[..n]), Run(INIT, events);
            var e := events[n];
            var start := if e.opts.streamReplay then 0 else |LogOf(b0, e.topic)|;
            && i < |b.cells| && b.cells[i].q.config == ConfigOf(e.topic, e.opts)
            && start <= |LogOf(b, e.topic)|
            && Contents(b.cells[i].ledger.enqueued)
               == Contents(Seeds(ConfigOf(e.topic, e.opts), LogOf(b, e.topic)[start..]))
  {
    var b0, e, rest := Run(INIT, events[..n]), events[n], events[n + 1..];
    hide Run, Apply, Creates, Seeds, ConfigOf;
    assert events == events[..n] + ([e] + rest);
    RunOfConcat(INIT, events[..n], [e] + rest);
    RunOfFirst(b0, e, rest);
    CreatedCell(b0, e, i);
    CreatesIsIn(b0, e, i);
    ReachableIsOk(events[..n]);
    ApplyKeepsOk(b0, e);
    RunKeepsIdentity(Apply(b0, e), rest, i);
    HistoryIsFilteredLog(events, i);
    assert ConfigOf(e.topic, e.opts).topic == e.topic by {
      ConfigTopic(e.topic, e.opts);
    }
  }

  lemma ConfigTopic(topic: string, opts: SubscribeOptions)
    ensures ConfigOf(topic, opts).topic == topic
  {
  }

  lemma CreatesIsIn(b: Bus, e: Event, i: nat)
    requires Creates(b, e, i)
    ensures i < |Apply(b, e).cells|
  {
  }

  lemma RunOfFirst(b: Bus, e: Event, rest: seq<Event>)
    ensures Run(b, [e] + rest) == Run(Apply(b, e), rest)
  {
    assert ([e] + rest)[1..] == rest;
  }

  /** Two subscribers for replay with the same filter have the same history, whenever they attached. */
  lemma ReplayersSeeTheSameHistory(events: seq<Event>, m: nat, i: nat, n: nat, j: nat)
    requires m < |events| && Creates(Run(INIT, events[..m]), events[m], i) && events[m].opts.streamReplay
    requires n < |events| && Creates(Run(INIT, events[..n]), events[n], j) && events[n].opts.streamReplay
    requires SameFilter(ConfigOf(events[m].topic, events[m].opts), ConfigOf(events[n].topic, events[n].opts))
    ensures var b := Run(INIT, events);
            && i < |b.cells| && j < |b.cells|
            && Contents(b.cells[i].ledger.enqueued) == Contents(b.cells[j].ledger.enqueued)
  {
    var b := Run(INIT, events);
    HistoryStartsWithTheOption(events, m, i);
    HistoryStartsWithTheOption(events, n, j);
    SameFilterSameSeeds(ConfigOf(events[m].topic, events[m].opts), ConfigOf(events[n].topic, events[n].opts),
                        LogOf(b, events[m].topic)[0..]);
    hide Run, Seeds, Creates;
  }
}
