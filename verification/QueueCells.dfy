/**
 * A queue together with the work that waits outside the lock for it, and a ledger of what has
 * happened to it so far. The ledger records history only: no step reads it to decide anything.
 */
module QueueCells {
  import opened BusTypes
  import opened QueueSteps

  datatype Delivery = Delivery(msg: Message, to: Handler)

  datatype Ledger = Ledger(
    start: nat,                   // log offset the queue's history begins at
    enqueued: seq<Message>,       // first enqueues, in order
    sent: seq<Delivery>,          // deliveries, in order
    returned: multiset<Message>,  // handed back by a dropped consumer
    requeued: multiset<Message>,  // nacked and put back, at once or after a delay
    acked: set<Message>,
    dead: set<Message>,
    exhausted: set<Message>,      // the dead ones nacked for requeue with no deliveries left
    expired: set<Message>,
    lapsed: set<Message>,         // the expired ones that were in flight
    stranded: bool)               // an expiry freed a consumer and no pump has gone idle since

  datatype Cell = Cell(
    key: string,                  // the queue's dictionary key
    q: Queue,
    owed: nat,                    // pumps that threads still have to run on the queue
    parked: set<Message>,         // delayed retries whose timer runs
    timers: set<Message>,         // expiry timers that run
    ledger: Ledger)

  datatype Op =
    | Enqueue(msg: Message)
    | Attach(handler: Handler)
    | Detach(handler: Handler)
    | Pump
    | Settle(msg: Message, handler: Handler, kind: SettleKind)
    | Retry(msg: Message)
    | Expire(msg: Message)

  function EnqueueCell(c: Cell, m: Message): Cell {
    c.(q := c.q.(pending := c.q.pending + [m]),
       owed := c.owed + 1,
       timers := if m.Expires() then c.timers + {m} else c.timers,
       ledger := c.ledger.(enqueued := c.ledger.enqueued + [m]))
  }

  function AttachCell(c: Cell, h: Handler): Cell {
    c.(q := c.q.(consumers := c.q.consumers + [h]), owed := c.owed + 1)
  }

  ghost function DetachCell(c: Cell, h: Handler): Cell {
    c.(q := DropBlock(c.q, h),
       owed := c.owed + 1,
       ledger := c.ledger.(returned := c.ledger.returned + multiset(Held(c.q, h))))
  }

  /** One turn of the Pump loop by a thread that owes the queue a pump. */
  function PumpCell(c: Cell): Cell {
    if c.owed == 0 then c
    else
      match PumpBlock(c.q)
      case Idle(q') => c.(q := q', owed := c.owed - 1, ledger := c.ledger.(stranded := false))
      case Sent(q', _, m, h) => c.(q := q', ledger := c.ledger.(sent := c.ledger.sent + [Delivery(m, h)]))
  }

  function SettleCell(c: Cell, m: Message, h: Handler, kind: SettleKind): Cell {
    var (q', outcome) := SettleBlock(c.q, m, h, kind);
    var c' := c.(q := q', owed := c.owed + 1);
    match outcome
    case Ignored => c
    case Acked => c'.(ledger := c.ledger.(acked := c.ledger.acked + {m}))
    case DeadLettered =>
      c'.(ledger := c.ledger.(dead := c.ledger.dead + {m},
                              exhausted := if kind.Requeue? then c.ledger.exhausted + {m} else c.ledger.exhausted))
    case Requeued => c'.(ledger := c.ledger.(requeued := c.ledger.requeued + multiset{m}))
    case Parked => c'.(parked := c.parked + {m}, ledger := c.ledger.(requeued := c.ledger.requeued + multiset{m}))
  }

  /** The retry timer of a parked message fires. */
  function RetryCell(c: Cell, m: Message): Cell {
    if m !in c.parked then c
    else c.(q := c.q.(pending := c.q.pending + [m]), parked := c.parked - {m}, owed := c.owed + 1)
  }

  /** The expiry timer of a message fires: no pump follows, whatever was removed. */
  function ExpireCell(c: Cell, m: Message): Cell {
    if m !in c.timers then c
    else
      var (q', removed) := RemoveUnconsumed(c.q, m);
      var c' := c.(q := q', timers := c.timers - {m});
      if !removed then c'
      else if m in c.q.pending then c'.(ledger := c.ledger.(expired := c.ledger.expired + {m}))
      else c'.(ledger := c.ledger.(expired := c.ledger.expired + {m}, lapsed := c.ledger.lapsed + {m},
                                   stranded := true))
  }

  ghost function StepCell(c: Cell, op: Op): Cell {
    match op
    case Enqueue(m) => EnqueueCell(c, m)
    case Attach(h) => AttachCell(c, h)
    case Detach(h) => DetachCell(c, h)
    case Pump => PumpCell(c)
    case Settle(m, h, kind) => SettleCell(c, m, h, kind)
    case Retry(m) => RetryCell(c, m)
    case Expire(m) => ExpireCell(c, m)
  }

  /** A queue just created, seeded with the replayed copies; replay arms no timers. */
  function NewCell(key: string, config: QueueConfig, start: nat, seeds: seq<Message>): Cell {
    Cell(key, Queue(config, seeds, map[], [], map[], 0, map[]), 0, {}, {},
         Ledger(start, seeds, [], multiset{}, multiset{}, {}, {}, {}, {}, {}, false))
  }

  // ---------------------------------------------------------------- the shape of a settlement

  /** What an effective settlement changes: the copy leaves flight for exactly one other place. */
  ghost predicate SettleEffect(c: Cell, c': Cell, m: Message, outcome: Outcome) {
    && m in c.q.inflight
    && c'.q == c.q.(inflight := c.q.inflight - {m}, pending := c'.q.pending)
    && c' == c.(q := c'.q, owed := c.owed + 1, parked := c'.parked, ledger := c'.ledger)
    && c'.ledger == c.ledger.(requeued := c'.ledger.requeued, acked := c'.ledger.acked,
                              dead := c'.ledger.dead, exhausted := c'.ledger.exhausted)
    && c'.q.pending == (if outcome.Requeued? then c.q.pending + [m] else c.q.pending)
    && c'.parked == (if outcome.Parked? then c.parked + {m} else c.parked)
    && c'.ledger.requeued
       == (if outcome.Requeued? || outcome.Parked? then c.ledger.requeued + multiset{m} else c.ledger.requeued)
    && c'.ledger.acked == (if outcome.Acked? then c.ledger.acked + {m} else c.ledger.acked)
    && c'.ledger.dead == (if outcome.DeadLettered? then c.ledger.dead + {m} else c.ledger.dead)
    && c'.ledger.exhausted in {c.ledger.exhausted, c.ledger.exhausted + {m}}
    && (c'.ledger.exhausted != c.ledger.exhausted ==> outcome.DeadLettered? && c.q.Count(m) >= c.q.config.maxDeliveries)
    && (outcome.Requeued? || outcome.Parked? ==> c.q.Count(m) < c.q.config.maxDeliveries)
  }

  /** A settle by anyone but the holder changes nothing; by the holder, it has the shape above. */
  lemma SettleIsExact(c: Cell, m: Message, h: Handler, kind: SettleKind)
    ensures m in c.q.inflight && c.q.inflight[m] == h
            ==> SettleEffect(c, SettleCell(c, m, h, kind), m, Decide(c.q.config, c.q.Count(m), kind))
    ensures !(m in c.q.inflight && c.q.inflight[m] == h) ==> SettleCell(c, m, h, kind) == c
  {
  }
}
