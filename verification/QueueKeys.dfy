/** The key of a queue joins topic and subscriber id with a space: when that tells queues apart. */
module QueueKeys {
  import opened BusTypes
  import opened QueueCells
  import opened BusMachine
  import opened BusInvariants
  import opened Wrappers
  import opened Words

  /** Two pairs share a key exactly when the longer topic runs on, past a space, into the other's subscriber. */
  lemma KeysClashExactly(t1: string, s1: string, t2: string, s2: string)
    requires |t1| <= |t2|
    ensures Key(t1, s1) == Key(t2, s2)
            <==> (t1 == t2 && s1 == s2) || exists w :: t2 == t1 + " " + w && s1 == w + " " + s2
  {
    if Key(t1, s1) == Key(t2, s2) {
      var k := Key(t1, s1);
      assert t1 == k[..|t1|] && t2 == k[..|t2|];
      if |t1| == |t2| {
        assert s1 == k[|t1| + 1..] && s2 == k[|t2| + 1..];
      } else {
        var w := t2[|t1| + 1..];
        assert t2[|t1|] == k[|t1|] == ' ';
        assert t2 == t1 + " " + w;
        assert s1 == k[|t1| + 1..] && s2 == k[|t2| + 1..];
        assert s1 == w + " " + s2;
      }
    }
    if w :| t2 == t1 + " " + w && s1 == w + " " + s2 {
      assert t1 + " " + (w + " " + s2) == t1 + " " + w + " " + s2;
    }
  }

  /** A topic can be mistaken for a shorter one exactly when it contains a space. */
  lemma TopicIsMistakenExactly(t2: string)
    ensures (exists t1, s1, s2 :: |t1| < |t2| && Key(t1, s1) == Key(t2, s2)) <==> ' ' in t2
  {
    if t1, s1, s2 :| |t1| < |t2| && Key(t1, s1) == Key(t2, s2) {
      KeysClashExactly(t1, s1, t2, s2);
    }
    if ' ' in t2 {
      var j :| 0 <= j < |t2| && t2[j] == ' ';
      var t1, w := t2[..j], t2[j + 1..];
      assert t2 == t1 + " " + w;
      KeysClashExactly(t1, w + " ", t2, "");
      assert w + " " + "" == w + " ";
      assert |t1| < |t2| && Key(t1, w + " ") == Key(t2, "");
    }
  }

  ghost predicate KeyedByTopic(c: Cell) {
    exists s :: c.key == Key(c.q.config.topic, s)
  }

  lemma ApplyKeepsKeyed(b: Bus, e: Event)
    requires BusOk(b) && forall i :: 0 <= i < |b.cells| ==> KeyedByTopic(b.cells[i])
    ensures forall i :: 0 <= i < |Apply(b, e).cells| ==> KeyedByTopic(Apply(b, e).cells[i])
  {
    var b' := Apply(b, e);
    hide BusOk, StepCell, Apply;
    forall i | 0 <= i < |b'.cells| ensures KeyedByTopic(b'.cells[i]) {
      if i < |b.cells| {
        var op := QueueMoves(b, e, i);
        if op.Some? {
          StepKeepsIdentity(b.cells[i], op.value);
        }
      } else {
        NewQueueHasItsKey(b, e, i);
        assert KeyedByTopic(b'.cells[i]);
      }
    }
  }

  lemma {:induction false} RunKeepsKeyed(b: Bus, events: seq<Event>)
    requires BusOk(b) && forall i :: 0 <= i < |b.cells| ==> KeyedByTopic(b.cells[i])
    ensures forall i :: 0 <= i < |Run(b, events).cells| ==> KeyedByTopic(Run(b, events).cells[i])
    decreases |events|
  {
    if events != [] {
      ApplyKeepsKeyed(b, events[0]);
      ApplyKeepsOk(b, events[0]);
      RunKeepsKeyed(Apply(b, events[0]), events[1..]);
    }
  }

  /** After any run on topics without spaces, a subscriber joins a queue of the topic it asked for. */
  lemma SubscribersJoinTheirOwnTopic(events: seq<Event>, topic: string, h: Handler, opts: SubscribeOptions)
    requires ' ' !in topic
    requires var b := Run(INIT, events); forall i :: 0 <= i < |b.cells| ==> ' ' !in b.cells[i].q.config.topic
    ensures var b := Run(INIT, events);
            var b' := Apply(b, Subscribe(topic, h, opts));
            var i := Find(b.cells, SubscribeKey(b, topic, opts));
            && i < |b'.cells| && b'.cells[i].q.config.topic == topic
            && b'.cells[i].q.consumers != [] && b'.cells[i].q.consumers[|b'.cells[i].q.consumers| - 1] == h
  {
    ReachableIsOk([]);
    RunKeepsKeyed(INIT, events);
    var b := Run(INIT, events);
    var key := SubscribeKey(b, topic, opts);
    var i := Find(b.cells, key);
    hide Run, Seeds;
    if i < |b.cells| {
      var own := b.cells[i].q.config.topic;
      var s :| b.cells[i].key == Key(own, s);
      var id := opts.subscriberId.GetOr("sub-" + Decimal(SubscribeSeq(b, opts)));
      if |own| <= |topic| {
        KeysClashExactly(own, s, topic, id);
      } else {
        KeysClashExactly(topic, id, own, s);
      }
    }
  }

  // ---------------------------------------------------------------- joining another topic's queue

  /** The subscriber id that a queue's key ends with. */
  function OwnSubscriber(c: Cell): string {
    var n := |c.q.config.topic| + 1;
    if n <= |c.key| then c.key[n..] else ""
  }

  /** The id a subscriber goes by. */
  function NameOf(b: Bus, opts: SubscribeOptions): string {
    opts.subscriberId.GetOr("sub-" + Decimal(SubscribeSeq(b, opts)))
  }

  /**
   * Of the queue's topic and the subscriber's, the longer one runs on, past a space, into the other's
   * subscriber id.
   */
  ghost predicate RunsOn(c: Cell, topic: string, id: string) {
    exists w ::
      || (c.q.config.topic == topic + " " + w && id == w + " " + OwnSubscriber(c))
      || (topic == c.q.config.topic + " " + w && OwnSubscriber(c) == w + " " + id)
  }

  lemma OwnKey(c: Cell)
    requires KeyedByTopic(c)
    ensures c.key == Key(c.q.config.topic, OwnSubscriber(c))
  {
    var s :| c.key == Key(c.q.config.topic, s);
    assert c.key[|c.q.config.topic| + 1..] == s;
  }

  /** A queue of another topic has the subscriber's key exactly when one topic runs on into the other's subscriber. */
  lemma ForeignKeyExactly(c: Cell, topic: string, id: string)
    requires KeyedByTopic(c)
    ensures c.key == Key(topic, id) && c.q.config.topic != topic <==> RunsOn(c, topic, id)
  {
    OwnKey(c);
    var own, s := c.q.config.topic, OwnSubscriber(c);
    hide OwnSubscriber, Key;
    if |own| <= |topic| {
      KeysClashExactly(own, s, topic, id);
    } else {
      KeysClashExactly(topic, id, own, s);
    }
  }

  lemma FoundAt(cells: seq<Cell>, key: string, i: nat)
    requires KeysDistinct(cells) && i < |cells| && cells[i].key == key
    ensures Find(cells, key) == i
  {
  }

  /**
   * After every run, a subscriber joins a queue of another topic if and only if there is a queue whose topic
   * runs on, past a space, into the subscriber's id, or whose subscriber's id the topic runs on into.
   */
  lemma JoinsAnotherTopicExactly(events: seq<Event>, topic: string, opts: SubscribeOptions)
    ensures var b := Run(INIT, events);
            var i := Find(b.cells, SubscribeKey(b, topic, opts));
            i < |b.cells| && b.cells[i].q.config.topic != topic
            <==> exists j :: 0 <= j < |b.cells| && RunsOn(b.cells[j], topic, NameOf(b, opts))
  {
    ReachableIsOk([]);
    ReachableIsOk(events);
    RunKeepsKeyed(INIT, events);
    var b := Run(INIT, events);
    var key := SubscribeKey(b, topic, opts);
    hide Run, KeyedByTopic, RunsOn;
    assert KeysDistinct(b.cells);
    forall j | 0 <= j < |b.cells|
      ensures RunsOn(b.cells[j], topic, NameOf(b, opts))
              <==> b.cells[j].key == key && b.cells[j].q.config.topic != topic
      ensures b.cells[j].key == key ==> Find(b.cells, key) == j
    {
      ForeignKeyExactly(b.cells[j], topic, NameOf(b, opts));
      if b.cells[j].key == key {
        FoundAt(b.cells, key, j);
      }
    }
    hide BusOk, KeysDistinct;
  }

  lemma RunOfTwo(e: Event, f: Event)
    ensures Run(INIT, [e, f]) == Apply(Apply(INIT, e), f)
  {
    RunOneMore(INIT, [e], f);
    RunOneMore(INIT, [], e);
    assert [e] + [f] == [e, f] && [] + [e] == [e];
  }

  /** A run on which that happens: the subscriber of "a" ends up on the queue of "a b". */
  lemma JoinsAnotherTopic()
    ensures var b := Run(INIT, [Subscribe("a b", 0, Named("c")), Subscribe("a", 1, Named("b c"))]);
            |b.cells| == 1 && b.cells[0].q.config.topic == "a b" && b.cells[0].q.consumers == [0, 1]
  {
    RunOfTwo(Subscribe("a b", 0, Named("c")), Subscribe("a", 1, Named("b c")));
    assert Key("a b", "c") == Key("a", "b c");
    hide Run;
  }

  function Named(id: string): SubscribeOptions {
    SubscribeOptions(Fanout, None, Some(id), true, None, None, false, false, false)
  }

  // ---------------------------------------------------------------- anonymous subscribers

  /** The event asks for this key by an id of its own choice. */
  predicate AsksFor(e: Event, key: string) {
    e.Subscribe? && e.opts.subscriberId.Some? && Key(e.topic, e.opts.subscriberId.value) == key
  }

  /** Somebody asked for the key, or an anonymous subscriber was given it. */
  ghost predicate HasCause(events: seq<Event>, seqNo: nat, key: string) {
    || (exists n :: 0 <= n < |events| && AsksFor(events[n], key))
    || (exists topic, m: nat :: m <= seqNo && key == Key(topic, "sub-" + Decimal(m)))
  }

  lemma CounterOnlyGrows(b: Bus, e: Event)
    ensures b.seqNo <= Apply(b, e).seqNo
  {
    hide StepCell, Created;
  }

  lemma CauseStays(events: seq<Event>, low: nat, e: Event, high: nat, key: string)
    requires HasCause(events, low, key) && low <= high
    ensures HasCause(events + [e], high, key)
  {
    if n :| 0 <= n < |events| && AsksFor(events[n], key) {
      assert (events + [e])[n] == events[n];
    }
  }

  lemma NewKeyHasCause(events: seq<Event>, b: Bus, e: Event)
    requires e.Subscribe?
    ensures HasCause(events + [e], Apply(b, e).seqNo, SubscribeKey(b, e.topic, e.opts))
  {
    assert (events + [e])[|events|] == e;
    assert Apply(b, e).seqNo == SubscribeSeq(b, e.opts) by {
      hide Created;
    }
  }

  /** Every queue of a run has its key from somewhere. */
  lemma {:induction false} KeysHaveCauses(events: seq<Event>)
    ensures forall i :: 0 <= i < |Run(INIT, events).cells|
              ==> HasCause(events, Run(INIT, events).seqNo, Run(INIT, events).cells[i].key)
    decreases |events|
  {
    if events != [] {
      var n := |events| - 1;
      var before, e := events[..n], events[n];
      var b := Run(INIT, before);
      assert events == before + [e];
      KeysHaveCauses(before);
      RunOneMore(INIT, before, e);
      ReachableIsOk(before);
      CounterOnlyGrows(b, e);
      var b' := Apply(b, e);
      hide Run, BusOk, Apply, StepCell, HasCause;
      forall i | 0 <= i < |b'.cells| ensures HasCause(events, b'.seqNo, b'.cells[i].key) {
        if i < |b.cells| {
          var op := QueueMoves(b, e, i);
          if op.Some? {
            StepKeepsIdentity(b.cells[i], op.value);
          }
          CauseStays(before, b.seqNo, e, b'.seqNo, b.cells[i].key);
        } else {
          NewQueueHasItsKey(b, e, i);
          NewKeyHasCause(before, b, e);
        }
      }
    }
  }

  lemma SubscribedIsThere(b: Bus, e: Event, key: string)
    requires AsksFor(e, key)
    ensures exists i :: 0 <= i < |Apply(b, e).cells| && Apply(b, e).cells[i].key == key
  {
    hide Seeds;
    var i := Find(b.cells, key);
    assert Apply(b, e).cells[i].key == key;
  }

  /** A key that was asked for has a queue. */
  lemma AskedIsThere(events: seq<Event>, n: nat, key: string)
    requires n < |events| && AsksFor(events[n], key)
    ensures exists i :: 0 <= i < |Run(INIT, events).cells| && Run(INIT, events).cells[i].key == key
  {
    var b', rest := Run(INIT, events[..n + 1]), events[n + 1..];
    ReachableIsOk(events[..n + 1]);
    RunOfPrefix(INIT, events, n);
    SubscribedIsThere(Run(INIT, events[..n]), events[n], key);
    assert events == events[..n + 1] + rest;
    RunOfConcat(INIT, events[..n + 1], rest);
    hide Run, BusOk, Apply;
    var i :| 0 <= i < |b'.cells| && b'.cells[i].key == key;
    RunKeepsIdentity(b', rest, i);
  }

  lemma NumberedKeysDiffer(t1: string, m: nat, t2: string, n: nat)
    requires Key(t1, "sub-" + Decimal(m)) == Key(t2, "sub-" + Decimal(n))
    ensures m == n
  {
    var s1, s2 := "sub-" + Decimal(m), "sub-" + Decimal(n);
    DecimalIsSpaceFree(m);
    DecimalIsSpaceFree(n);
    assert ' ' !in s1 && ' ' !in s2;
    if |t1| <= |t2| {
      KeysClashExactly(t1, s1, t2, s2);
    } else {
      KeysClashExactly(t2, s2, t1, s1);
    }
    assert s1[4..] == Decimal(m) && s2[4..] == Decimal(n);
    DecimalIsInjective(m, n);
  }

  /**
   * After every run, an anonymous subscriber gets a queue of its own if and only if nobody before it asked by
   * name for the key it is given.
   */
  lemma AnonymousGetsItsOwnExactly(events: seq<Event>, topic: string, opts: SubscribeOptions)
    requires opts.subscriberId.None?
    ensures var b := Run(INIT, events);
            var key := SubscribeKey(b, topic, opts);
            Find(b.cells, key) == |b.cells| <==> !exists n :: 0 <= n < |events| && AsksFor(events[n], key)
  {
    var b := Run(INIT, events);
    var key := SubscribeKey(b, topic, opts);
    KeysHaveCauses(events);
    if n :| 0 <= n < |events| && AsksFor(events[n], key) {
      AskedIsThere(events, n, key);
    }
    var i := Find(b.cells, key);
    hide Run;
    if i < |b.cells| && !exists n :: 0 <= n < |events| && AsksFor(events[n], key) {
      var t, m: nat :| m <= b.seqNo && key == Key(t, "sub-" + Decimal(m));
      NumberedKeysDiffer(t, m, topic, b.seqNo + 1);
    }
  }

  function Unnamed(): SubscribeOptions {
    Named("").(subscriberId := None)
  }

  /** A subscriber who asks for "sub-1" first: the anonymous one that follows shares its queue. */
  lemma AnonymousSharesAQueue()
    ensures var b := Run(INIT, [Subscribe("t", 0, Named("sub-1")), Subscribe("t", 1, Unnamed())]);
            |b.cells| == 1 && b.cells[0].q.consumers == [0, 1]
  {
    RunOfTwo(Subscribe("t", 0, Named("sub-1")), Subscribe("t", 1, Unnamed()));
    assert "sub-" + Decimal(1) == "sub-1";
    hide Run;
  }
}
