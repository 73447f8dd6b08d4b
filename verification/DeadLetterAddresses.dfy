/** Where dead letters and expired messages end up, by the names their subscribers use. */
module DeadLetterAddresses {
  import opened Wrappers
  import opened BusTypes
  import opened QueueSteps
  import opened QueueCells
  import opened BusMachine
  import opened Custody
  import opened LogAgreement
  import opened DeadLetters
  import opened StepOutcomes

  /** The line stems from the queue's dead copy, or its expired one. */
  predicate StemsFrom(b: Bus, t: string, line: LogEntry) {
    line.origin.Some? ==>
      var r := line.origin.value;
      && line.msg.body == r.msg.body && line.msg.routingKey == r.msg.routingKey && line.msg.options == None
      && r.queue < |b.cells| && b.cells[r.queue].q.config.topic == r.topic
      && match r.cause
         case Poisoned =>
           t == r.topic + ".dlq" && b.cells[r.queue].q.config.deadLetter && r.msg in b.cells[r.queue].ledger.dead
         case Lapsed => t == r.topic + ".expiry" && r.msg in b.cells[r.queue].ledger.expired
  }

  lemma {:induction false} LoggedAtLeastOnce(entries: seq<LogEntry>, k: nat, r: Republish)
    requires k < |entries| && entries[k].origin == Some(r)
    ensures TimesLogged(entries, r) >= 1
  {
    if k < |entries| - 1 {
      LoggedAtLeastOnce(entries[..|entries| - 1], k, r);
    }
  }

  /**
   * In every run each republished line in the log of a topic stems from a dead copy of a dead-lettering queue on some
   * topic t, and then stands in the log of "t.dlq", or from an expired copy of a queue on t, and then in that of
   * "t.expiry"; body and routing key are the copy's, and there are no options.
   */
  lemma LinesStandAtTheirAddress(events: seq<Event>, t: string, k: nat)
    requires var b := Run(INIT, events); t in b.log && k < |b.log[t]|
    ensures StemsFrom(Run(INIT, events), t, Run(INIT, events).log[t][k])
  {
    DeadLettersAreConserved(events);
    var b := Run(INIT, events);
    hide Run;
    var line := b.log[t][k];
    assert FaithfulEntry(t, line);
    if line.origin.Some? {
      var r := line.origin.value;
      LoggedAtLeastOnce(b.log[t], k, r);
      assert b.transit[r] + TimesLogged(LogOf(b, r.Address()), r) == One(Due(b.cells, r));
    }
  }

  /** And each dead or expired copy has exactly one such line there, or its republish is still under way. */
  lemma EachHasOneLine(events: seq<Event>, i: nat, m: Message)
    requires i < |Run(INIT, events).cells|
    ensures var b := Run(INIT, events);
            var c := b.cells[i];
            var dlq, expiry := c.q.config.topic + ".dlq", c.q.config.topic + ".expiry";
            var dead := Republish(i, c.q.config.topic, m, Poisoned);
            var lapsed := Republish(i, c.q.config.topic, m, Lapsed);
            && (m in c.ledger.dead && c.q.config.deadLetter ==>
                  b.transit[dead] + TimesLogged(if dlq in b.log then b.log[dlq] else [], dead) == 1)
            && (m in c.ledger.expired ==>
                  b.transit[lapsed] + TimesLogged(if expiry in b.log then b.log[expiry] else [], lapsed) == 1)
  {
    DeadLettersAreConserved(events);
    var b := Run(INIT, events);
    hide Run;
    var dead := Republish(i, b.cells[i].q.config.topic, m, Poisoned);
    var lapsed := Republish(i, b.cells[i].q.config.topic, m, Lapsed);
    assert b.transit[dead] + TimesLogged(LogOf(b, dead.Address()), dead) == One(Due(b.cells, dead));
    assert b.transit[lapsed] + TimesLogged(LogOf(b, lapsed.Address()), lapsed) == One(Due(b.cells, lapsed));
  }

  lemma EndsDiffer(s: string, t: string)
    ensures s + ".dlq" != t + ".expiry"
    ensures s + ".dlq" == t + ".dlq" <==> s == t
  {
    var a, b, c := s + ".dlq", t + ".expiry", t + ".dlq";
    assert a[|a| - 1] == 'q' && b[|b| - 1] == 'y';
    assert a[..|a| - 4] == s && c[..|c| - 4] == t;
  }

  lemma {:induction false} SeedIsALine(config: QueueConfig, entries: seq<LogEntry>, k: nat) returns (n: nat)
    requires k < |Seeds(config, entries)|
    ensures n < |entries| && entries[n].msg == Seeds(config, entries)[k]
  {
    hide QueueConfig.Matches;
    var last := |entries| - 1;
    if k < |Seeds(config, entries[..last])| {
      n := SeedIsALine(config, entries[..last], k);
    } else {
      n := last;
    }
  }

  /** The copy is of this line, which somebody published or a dead letter of a queue on the topic left. */
  predicate AddressedTo(topic: string, line: LogEntry, m: Message) {
    && line.msg.body == m.body && line.msg.routingKey == m.routingKey && line.msg.options == m.options
    && (line.origin == None || (line.origin.value.cause == Poisoned && line.origin.value.topic == topic))
  }

  /**
   * A queue subscribed to "t.dlq" takes only what somebody published there and the dead letters of queues on t: no
   * expired message, and none of another topic.
   */
  lemma DlqTakesOnlyDeadLetters(events: seq<Event>, i: nat, t: string, k: nat)
    requires var b := Run(INIT, events);
             i < |b.cells| && b.cells[i].q.config.topic == t + ".dlq" && k < |b.cells[i].ledger.enqueued|
    ensures var b := Run(INIT, events);
            var m := b.cells[i].ledger.enqueued[k];
            && t + ".dlq" in b.log
            && exists n :: 0 <= n < |b.log[t + ".dlq"]| && AddressedTo(t, b.log[t + ".dlq"][n], m)
  {
    var b := Run(INIT, events);
    var c, topic := b.cells[i], t + ".dlq";
    HistoryIsFilteredLog(events, i);
    var entries := LogOf(b, topic);
    var tail := entries[c.ledger.start..];
    var seeds := Seeds(c.q.config, tail);
    assert Contents(c.ledger.enqueued)[k] == Contents(seeds)[k];
    var n := SeedIsALine(c.q.config, tail, k);
    var at := c.ledger.start + n;
    assert entries[at] == tail[n];
    LinesStandAtTheirAddress(events, topic, at);
    hide Run, Seeds;
    if entries[at].origin.Some? {
      EndsDiffer(t, entries[at].origin.value.topic);
    }
    assert AddressedTo(t, b.log[topic][at], c.ledger.enqueued[k]);
  }

  /** A republish logs one line, at "t.dlq" for a dead copy of a queue on t and at "t.expiry" for a lapsed one. */
  lemma ForwardLogs(b: Bus, r: Republish)
    requires r in b.transit
    ensures var b' := Apply(b, Forward(r));
            var at := r.topic + (if r.cause.Poisoned? then ".dlq" else ".expiry");
            var before := if at in b.log then b.log[at] else [];
            && b'.transit == b.transit - multiset{r} && b'.seen == b.seen
            && b'.log.Keys == b.log.Keys + {at} && (forall t :: t in b.log && t != at ==> b'.log[t] == b.log[t])
            && |b'.log[at]| == |before| + 1 && before <= b'.log[at]
            && var line := b'.log[at][|before|];
               && line.msg.body == r.msg.body && line.msg.routingKey == r.msg.routingKey && line.msg.options == None
               && line.origin == Some(r)
  {
    hide FanOut;
    assert b.seen + {} == b.seen;
  }

  /** Published, delivered, rejected and forwarded: one line at "t.dlq", and none at "t.expiry". */
  lemma RejectedGoesToTheDlq(topic: string, h: Handler, body: string)
    ensures var m := Message(2, body, topic, None);
            var events := [Subscribe(topic, h, Plainly(None)), Publish(topic, body, None, None), OnQueue(0, Op.Pump),
                           OnQueue(0, Settle(m, h, Dead)), Forward(Republish(0, topic, m, Poisoned))];
            var b := Run(INIT, events);
            && topic + ".dlq" in b.log && |b.log[topic + ".dlq"]| == 1 && b.log[topic + ".dlq"][0].msg.body == body
            && topic + ".expiry" !in b.log && b.transit == multiset{}
  {
    hide Apply, Run, Backlog;
    var m := Message(2, body, topic, None);
    var e0, e1, e2 := Subscribe(topic, h, Plainly(None)), Publish(topic, body, None, None), OnQueue(0, Op.Pump);
    RunOfFive(e0, e1, e2, OnQueue(0, Settle(m, h, Dead)), Forward(Republish(0, topic, m, Poisoned)));
    FirstIsOut(topic, h, body);
    RejectIsForwarded(Apply(Apply(Apply(INIT, e0), e1), e2), topic, m, h);
  }

  lemma RunOfFive(e0: Event, e1: Event, e2: Event, e3: Event, e4: Event)
    ensures Run(INIT, [e0, e1, e2, e3, e4]) == Apply(Apply(Apply(Apply(Apply(INIT, e0), e1), e2), e3), e4)
  {
    RunOfFour(e0, e1, e2, e3);
    RunOneMore(INIT, [e0, e1, e2, e3], e4);
    assert [e0, e1, e2, e3] + [e4] == [e0, e1, e2, e3, e4];
    hide Apply, Run;
  }

  /** Subscribed, published and delivered. */
  lemma FirstIsOut(topic: string, h: Handler, body: string)
    ensures var m := Message(2, body, topic, None);
            var b0 := Apply(INIT, Subscribe(topic, h, Plainly(None)));
            var b := Apply(Apply(b0, Publish(topic, body, None, None)), OnQueue(0, Op.Pump));
            && HeldBy(b, 0, m, h) && b.cells[0].q.config.topic == topic && b.cells[0].q.config.deadLetter
            && b.log.Keys == {topic} && b.transit == multiset{}
  {
    var m := Message(2, body, topic, None);
    var b0 := Apply(INIT, Subscribe(topic, h, Plainly(None)));
    Opens(topic, h);
    hide Apply, Backlog;
    PilesUp(b0, topic, h, [], body, None);
    assert [] + [m] == [m];
    BacklogConfig(Apply(b0, Publish(topic, body, None, None)), topic, h, [m]);
    OnlyOneGoesOut(Apply(b0, Publish(topic, body, None, None)), topic, h, m);
  }

  lemma BacklogConfig(b: Bus, topic: string, h: Handler, pending: seq<Message>)
    requires Backlog(b, topic, h, pending)
    ensures |b.cells| == 1 && b.cells[0].q.config.topic == topic && b.cells[0].q.config.deadLetter
  {
  }

  lemma RejectIsForwarded(b: Bus, topic: string, m: Message, h: Handler)
    requires HeldBy(b, 0, m, h) && b.cells[0].q.config.topic == topic && b.cells[0].q.config.deadLetter
    requires b.log.Keys == {topic} && b.transit == multiset{}
    ensures var b' := Apply(Apply(b, OnQueue(0, Settle(m, h, Dead))), Forward(Republish(0, topic, m, Poisoned)));
            && topic + ".dlq" in b'.log && |b'.log[topic + ".dlq"]| == 1 && b'.log[topic + ".dlq"][0].msg.body == m.body
            && topic + ".expiry" !in b'.log && b'.transit == multiset{}
  {
    var b3 := Apply(b, OnQueue(0, Settle(m, h, Dead)));
    LongerNames(topic);
    RejectByTheHolder(b, 0, m, h);
    hide Apply;
    ForwardLogs(b3, Republish(0, topic, m, Poisoned));
  }

  lemma LongerNames(topic: string)
    ensures topic + ".dlq" != topic && topic + ".expiry" != topic && topic + ".expiry" != topic + ".dlq"
  {
    assert |topic + ".dlq"| > |topic| && |topic + ".expiry"| > |topic + ".dlq"|;
  }
}
