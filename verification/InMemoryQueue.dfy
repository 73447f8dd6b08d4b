/**
 * The queue objects of the in-memory bus, with the loops of the program, each method proved
 * against the function that says what its lock block does to the queue's state.
 */
module InMemoryQueue {
  import opened Wrappers
  import opened BusTypes
  import opened QueueSteps
  import opened QueueCells
  import opened GroupScan
  import opened Holders
  import opened Lanes
  import TopicMatching
  import WakeUp

  class PendingQueue {
    var items: seq<Message>

    constructor ()
      ensures items == []
    {
      items := [];
    }

    method Enqueue(msg: Message)
      modifies this
      ensures items == old(items) + [msg]
    {
      items := items + [msg];
    }

    method EnqueueFront(msg: Message)
      modifies this
      ensures items == [msg] + old(items)
    {
      items := [msg] + items;
    }

    method Remove(msg: Message) returns (removed: bool)
      modifies this
      ensures removed == (msg in old(items))
      ensures items == RemoveFirst(old(items), msg)
    {
      removed := msg in items;
      if !removed {
        RemoveFirstOfAbsent(items, msg);
      }
      items := RemoveFirst(items, msg);
    }

    method TakeAt(index: nat)
      requires index < |items|
      modifies this
      ensures items == RemoveAt(old(items), index)
    {
      items := items[..index] + items[index + 1..];
    }

    method DequeueHighestPriority() returns (msg: Message)
      requires items != []
      modifies this
      ensures msg == old(items)[Best(old(items))]
      ensures items == RemoveAt(old(items), Best(old(items)))
    {
      var best, i := 0, 1;
      while i < |items|
        invariant 1 <= i <= |items| && best < |items|
        invariant items == old(items)
        invariant BestFrom(items, i, best) == Best(items)
      {
        if items[i].Priority() > items[best].Priority() {
          best := i;
        }
        i := i + 1;
      }
      msg := items[best];
      TakeAt(best);
    }
  }

  class BusQueue {
    const config: QueueConfig
    const pending: PendingQueue
    var inflight: map<Message, Handler>
    var consumers: seq<Handler>
    var groupAffinity: map<string, Handler>
    var rr: nat
    var deliveryCounts: map<Message, nat>

    constructor (config: QueueConfig)
      ensures fresh(pending)
      ensures this.config == config
      ensures View() == Queue(config, [], map[], [], map[], 0, map[])
    {
      this.config := config;
      pending := new PendingQueue();
      inflight := map[];
      consumers := [];
      groupAffinity := map[];
      rr := 0;
      deliveryCounts := map[];
    }

    /** The queue's state as a value. */
    function View(): Queue
      reads this, pending
    {
      Queue(config, pending.items, inflight, consumers, groupAffinity, rr, deliveryCounts)
    }

    method Matches(messageKey: string) returns (matched: bool)
      ensures matched == config.Matches(messageKey)
    {
      if config.kind == Fanout {
        return true;
      }
      if config.routingKey.None? || config.routingKey.value == "" {
        return true;
      }
      matched := TopicMatching.ComputeTopicMatch(config.routingKey.value, messageKey);
    }

    method PickFreeConsumer(busy: set<Handler>) returns (free: Option<Handler>)
      requires consumers != []
      modifies this`rr
      ensures (free, rr) == Pick(consumers, busy, old(rr), |consumers|)
    {
      free := None;
      var i := 0;
      while i < |consumers|
        invariant 0 <= i <= |consumers|
        invariant Pick(consumers, busy, rr, |consumers| - i) == Pick(consumers, busy, old(rr), |consumers|)
      {
        var c := consumers[rr % |consumers|];
        rr := rr + 1;
        if c !in busy {
          return Some(c);
        }
        i := i + 1;
      }
    }

    method NextConsumer() returns (free: Option<Handler>)
      modifies this`rr
      ensures (free, rr) == QueueSteps.NextConsumer(old(View()))
    {
      if consumers == [] {
        return None;
      }
      if config.singleActiveConsumer {
        free := if inflight == map[] then Some(consumers[0]) else None;
        return;
      }
      free := PickFreeConsumer(inflight.Values);
    }

    method NextGroupDelivery() returns (next: Option<(Message, Handler)>)
      requires consumers != [] && pending.items != []
      modifies this`groupAffinity, this`rr, pending
      ensures var scan := ScanGroups(old(pending.items), consumers, inflight.Values, 0, old(groupAffinity), old(rr));
              && groupAffinity == scan.affinity && rr == scan.rr
              && match scan.found
                 case None => next == None && pending.items == old(pending.items)
                 case Some((i, c)) =>
                   next == Some((old(pending.items)[i], c)) && pending.items == RemoveAt(old(pending.items), i)
    {
      var busy := inflight.Values;
      next := None;
      var i := 0;
      while i < |pending.items|
        invariant 0 <= i <= |pending.items| && pending.items == old(pending.items)
        invariant ScanGroups(pending.items, consumers, busy, i, groupAffinity, rr)
                  == ScanGroups(old(pending.items), consumers, busy, 0, old(groupAffinity), old(rr))
      {
        var msg := pending.items[i];
        var group := msg.Group();
        var owner: Option<Handler> := if group in groupAffinity then Some(groupAffinity[group]) else None;
        if owner.Some? && owner.value !in consumers {
          groupAffinity := groupAffinity - {group};
          owner := None;
        }
        if owner.Some? {
          if owner.value !in busy {
            pending.TakeAt(i);
            return Some((msg, owner.value));
          }
        } else {
          assert groupAffinity == groupAffinity - {group};
          var free := PickFreeConsumer(busy);
          if free.Some? {
            groupAffinity := groupAffinity[group := free.value];
            pending.TakeAt(i);
            return Some((msg, free.value));
          }
        }
        i := i + 1;
      }
    }

    /** One turn of the Pump loop, under the lock. */
    method PumpOnce() returns (next: Option<(Message, Handler)>)
      modifies this, pending
      ensures match PumpBlock(old(View()))
              case Idle(q) => next == None && View() == q
              case Sent(q, _, m, c) => next == Some((m, c)) && View() == q
    {
      hide ScanGroups, Best, QueueSteps.NextConsumer;
      if pending.items == [] || consumers == [] {
        return None;
      }
      var msg: Message;
      var consumer: Handler;
      if config.partitionByGroup {
        var found := NextGroupDelivery();
        if found.None? {
          return None;
        }
        msg, consumer := found.value.0, found.value.1;
      } else {
        var free := NextConsumer();
        if free.None? {
          return None;
        }
        consumer := free.value;
        msg := pending.DequeueHighestPriority();
      }
      var count := if msg in deliveryCounts then deliveryCounts[msg] else 0;
      deliveryCounts := deliveryCounts[msg := count + 1];
      inflight := inflight[msg := consumer];
      return Some((msg, consumer));
    }

    /** The lock block of `Settle`: what became of the message. */
    method Settle(msg: Message, consumer: Handler, kind: SettleKind) returns (outcome: Outcome)
      modifies this, pending
      ensures (View(), outcome) == SettleBlock(old(View()), msg, consumer, kind)
    {
      if msg !in inflight || inflight[msg] != consumer {
        return Ignored;
      }
      inflight := inflight - {msg};
      match kind {
        case Ack =>
          outcome := Acked;
        case Dead =>
          outcome := DeadLettered;
        case Requeue =>
          var count := if msg in deliveryCounts then deliveryCounts[msg] else 0;
          if count >= config.maxDeliveries {
            outcome := DeadLettered;
          } else if config.retryDelayMs.Some? && config.retryDelayMs.value > 0 {
            outcome := Parked;
          } else {
            pending.Enqueue(msg);
            outcome := Requeued;
          }
      }
    }

    /** The lock block of the drop callback, on a queue that keeps prefetch one. */
    method Drop(handler: Handler)
      requires PrefetchOne(View())
      modifies this, pending
      ensures View() == DropBlock(old(View()), handler)
    {
      consumers := RemoveFirst(consumers, handler);
      var left := set m | m in inflight && inflight[m] == handler;
      ghost var held := left;
      HeldIsAtMostOne(View(), handler);
      while left != {}
        invariant View() == old(View()).(consumers := RemoveFirst(old(consumers), handler),
                                         inflight := inflight, pending := pending.items)
        invariant left <= held && held == Held(old(View()), handler) && (left == held || left == {})
        invariant inflight == old(inflight) - (held - left)
        invariant pending.items == (if left == {} then Listed(held) else []) + old(pending.items)
        decreases |left|
      {
        var m :| m in left;
        SingleHeld(old(View()), handler, m);
        inflight := inflight - {m};
        pending.EnqueueFront(m);
        left := left - {m};
      }
      assert held - left == held;
    }

    /** True when the message was still pending or in flight, and now is neither. */
    method RemoveUnconsumed(msg: Message) returns (removed: bool)
      modifies this, pending
      ensures (View(), removed) == QueueSteps.RemoveUnconsumed(old(View()), msg)
    {
      removed := pending.Remove(msg);
      if removed {
        return;
      }
      RemoveFirstOfAbsent(old(pending.items), msg);
      removed := msg in inflight;
      if !removed {
        assert inflight - {msg} == inflight;
      }
      inflight := inflight - {msg};
    }

    /** The whole Pump loop, run without interruption: it stops with nothing left to deliver. */
    method Pump() returns (ghost sent: seq<Delivery>)
      modifies this, pending
      ensures (View(), sent) == Drained(old(View()))
      ensures !CanDeliver(View())
    {
      sent := [];
      ghost var start := View();
      assert [] + Drained(start).1 == Drained(start).1;
      while true
        invariant SoFar(start, sent, View())
        decreases |pending.items|
      {
        ghost var before := View();
        SoFarContinues(start, sent, before);
        hide PumpBlock, SoFar, CanDeliver, Drained;
        var next := PumpOnce();
        if next.None? {
          return;
        }
        sent := sent + [Delivery(next.value.0, next.value.1)];
      }
    }
  }

  /** Having made these deliveries, the loop stands at `now`, on the way to where it ends. */
  ghost predicate SoFar(start: Queue, sent: seq<Delivery>, now: Queue) {
    Drained(start) == (Drained(now).0, sent + Drained(now).1)
  }

  lemma SoFarContinues(start: Queue, sent: seq<Delivery>, now: Queue)
    requires SoFar(start, sent, now)
    ensures PumpBlock(now).Idle? ==>
              Drained(start) == (PumpBlock(now).queue, sent) && !CanDeliver(PumpBlock(now).queue)
    ensures PumpBlock(now).Sent? ==>
              && SoFar(start, sent + [Delivery(PumpBlock(now).msg, PumpBlock(now).to)], PumpBlock(now).queue)
              && |PumpBlock(now).queue.pending| < |now.pending|
  {
    DrainedIsFirstAndRest(now);
    hide Drained, CanDeliver;
    match PumpBlock(now)
    case Idle(q) =>
      IdleForGood(now);
      assert sent + [] == sent;
    case Sent(q, i, m, c) =>
      assert sent + ([Delivery(m, c)] + Drained(q).1) == sent + [Delivery(m, c)] + Drained(q).1;
  }

  /** What an uninterrupted Pump makes of a queue, and what it delivers on the way. */
  function Drained(q: Queue): (Queue, seq<Delivery>)
    decreases |q.pending|
  {
    match PumpBlock(q)
    case Idle(q') => (q', [])
    case Sent(q', i, m, c) =>
      assert |q'.pending| < |q.pending| by {
        PumpIsExact(q);
      }
      var (q'', rest) := Drained(q');
      (q'', [Delivery(m, c)] + rest)
  }

  lemma IdleForGood(q: Queue)
    requires PumpBlock(q).Idle?
    ensures !CanDeliver(PumpBlock(q).queue)
    ensures Drained(q) == (PumpBlock(q).queue, [])
  {
    PumpIsExact(q);
    WakeUp.IdleStaysIdle(q, PumpBlock(q).queue);
  }

  lemma DrainedIsFirstAndRest(q: Queue)
    ensures match PumpBlock(q)
            case Idle(q') => Drained(q) == (q', [])
            case Sent(q', i, m, c) =>
              Drained(q) == (Drained(q').0, [Delivery(m, c)] + Drained(q').1) && |q'.pending| < |q.pending|
  {
    PumpIsExact(q);
    hide PumpBlock;
  }

  lemma SingleHeld(q: Queue, h: Handler, m: Message)
    requires PrefetchOne(q) && m in Held(q, h)
    ensures Held(q, h) == {m} && Listed(Held(q, h)) == [m]
  {
    HeldIsAtMostOne(q, h);
    assert multiset(Listed(Held(q, h)))[m] == 1;
  }

  /** The turns of one owed pump in the machine of lock blocks, until it goes idle. */
  ghost function Turns(c: Cell, n: nat): Cell
    decreases n
  {
    if n == 0 then c else Turns(PumpCell(c), n - 1)
  }

  /** The uninterrupted loop is one interleaving of the machine: turn by turn, the same queue and deliveries. */
  lemma {:induction false} PumpIsItsTurns(c: Cell)
    requires c.owed > 0
    ensures var (q', sent) := Drained(c.q);
            var c' := Turns(c, |sent| + 1);
            c'.q == q' && c'.ledger.sent == c.ledger.sent + sent && c'.owed == c.owed - 1
    decreases |c.q.pending|
  {
    DrainedIsFirstAndRest(c.q);
    hide Drained, PumpBlock;
    match PumpBlock(c.q)
    case Idle(q') =>
      assert Turns(PumpCell(c), 0) == PumpCell(c);
    case Sent(q', i, m, h) =>
      PumpIsItsTurns(PumpCell(c));
      assert c.ledger.sent + [Delivery(m, h)] + Drained(q').1 == c.ledger.sent + ([Delivery(m, h)] + Drained(q').1);
  }
}
