/** Delivery accounting: where every delivery of a copy ended, and how many there can be. */
module Accounts {
  import opened BusTypes
  import opened QueueSteps
  import opened QueueCells
  import opened GroupScan
  import opened Custody

  /** Delivery attempts a copy is granted: even a limit below one allows the first. */
  function Limit(config: QueueConfig): nat {
    if config.maxDeliveries < 1 then 1 else config.maxDeliveries
  }

  /** How often the copy was delivered, by the record of deliveries. */
  function TimesSent(sent: seq<Delivery>, m: Message): nat {
    if sent == [] then 0
    else TimesSent(sent[..|sent| - 1], m) + One(sent[|sent| - 1].msg == m)
  }

  /** How often a delivery of the copy has come to an end, by the way it ended. */
  function TimesEnded(c: Cell, m: Message): nat {
    c.ledger.returned[m] + c.ledger.requeued[m] + One(m in c.ledger.acked) + One(m in c.ledger.dead)
    + One(m in c.ledger.lapsed)
  }

  /** Every counted delivery was made, and has ended in one way or is still in flight. */
  ghost predicate Balanced(c: Cell) {
    && (forall m :: c.q.Count(m) == TimesSent(c.ledger.sent, m))
    && (forall m :: c.q.Count(m) == TimesEnded(c, m) + One(m in c.q.inflight))
  }

  /** Effective settlements: acks, dead-letterings and requeues. */
  function TimesSettled(c: Cell, m: Message): nat {
    c.ledger.requeued[m] + One(m in c.ledger.acked) + One(m in c.ledger.dead)
  }

  /** Effective settlements never exceed deliveries. */
  lemma SettledAtMostSent(c: Cell, m: Message)
    requires Balanced(c)
    ensures TimesSettled(c, m) <= TimesSent(c.ledger.sent, m)
  {
    assert c.q.Count(m) == TimesEnded(c, m) + One(m in c.q.inflight);
  }

  lemma SentOneMore(sent: seq<Delivery>, d: Delivery, m: Message)
    ensures TimesSent(sent + [d], m) == TimesSent(sent, m) + One(d.msg == m)
  {
    assert (sent + [d])[..|sent|] == sent;
  }

  lemma PumpBalances(c: Cell)
    requires Balanced(c) && Conserved(c)
    ensures Balanced(PumpCell(c))
  {
    hide PumpBlock;
    PumpIsExact(c.q);
    var c' := PumpCell(c);
    if c.owed > 0 && PumpBlock(c.q).Sent? {
      var Sent(q', i, m, h) := PumpBlock(c.q);
      LiveIsNotDone(c, m);
      assert m !in c.q.inflight by {
        assert m in c.q.pending;
      }
      forall x ensures c'.q.Count(x) == TimesSent(c'.ledger.sent, x)
                    && c'.q.Count(x) == TimesEnded(c', x) + One(x in c'.q.inflight) {
        assert c.q.Count(x) == TimesSent(c.ledger.sent, x);
        assert c.q.Count(x) == TimesEnded(c, x) + One(x in c.q.inflight);
        SentOneMore(c.ledger.sent, Delivery(m, h), x);
      }
    }
  }

  lemma DetachBalances(c: Cell, h: Handler)
    requires Balanced(c)
    ensures Balanced(DetachCell(c, h))
  {
    var c' := DetachCell(c, h);
    forall x ensures c'.q.Count(x) == TimesEnded(c', x) + One(x in c'.q.inflight) {
      assert c.q.Count(x) == TimesEnded(c, x) + One(x in c.q.inflight);
    }
    assert forall x :: c.q.Count(x) == TimesSent(c.ledger.sent, x) ==> c'.q.Count(x) == TimesSent(c'.ledger.sent, x);
  }

  lemma SettledBalances(c: Cell, c': Cell, m: Message, outcome: Outcome)
    requires Balanced(c) && Conserved(c) && SettleEffect(c, c', m, outcome) && !outcome.Ignored?
    ensures Balanced(c')
  {
    LiveIsNotDone(c, m);
    forall x ensures c'.q.Count(x) == TimesEnded(c', x) + One(x in c'.q.inflight) {
      assert c.q.Count(x) == TimesEnded(c, x) + One(x in c.q.inflight);
    }
    forall x ensures c'.q.Count(x) == TimesSent(c'.ledger.sent, x) {
      assert c.q.Count(x) == TimesSent(c.ledger.sent, x);
    }
  }

  lemma SettleBalances(c: Cell, m: Message, h: Handler, kind: SettleKind)
    requires Balanced(c) && Conserved(c)
    ensures Balanced(SettleCell(c, m, h, kind))
  {
    SettleIsExact(c, m, h, kind);
    if m in c.q.inflight && c.q.inflight[m] == h {
      SettledBalances(c, SettleCell(c, m, h, kind), m, Decide(c.q.config, c.q.Count(m), kind));
    }
  }

  lemma ExpireBalances(c: Cell, m: Message)
    requires Balanced(c) && Conserved(c) && c.ledger.lapsed <= c.ledger.expired
    ensures Balanced(ExpireCell(c, m))
  {
    var c' := ExpireCell(c, m);
    if m in c.timers && m in c.q.inflight {
      LiveIsNotDone(c, m);
    }
    forall x ensures c'.q.Count(x) == TimesEnded(c', x) + One(x in c'.q.inflight) {
      assert c.q.Count(x) == TimesEnded(c, x) + One(x in c.q.inflight);
    }
    assert forall x :: c.q.Count(x) == TimesSent(c.ledger.sent, x) ==> c'.q.Count(x) == TimesSent(c'.ledger.sent, x);
  }

  lemma StepBalances(c: Cell, op: Op)
    requires Balanced(c) && Conserved(c) && c.ledger.lapsed <= c.ledger.expired
    ensures Balanced(StepCell(c, op))
    ensures StepCell(c, op).ledger.lapsed <= StepCell(c, op).ledger.expired
  {
    hide PumpBlock, Balanced, Conserved;
    match op
    case Enqueue(m) => SameBooks(c, StepCell(c, op));
    case Attach(h) => SameBooks(c, StepCell(c, op));
    case Detach(h) => DetachBalances(c, h);
    case Pump => PumpBalances(c);
    case Settle(m, h, kind) => SettleBalances(c, m, h, kind);
    case Retry(m) => SameBooks(c, StepCell(c, op));
    case Expire(m) => ExpireBalances(c, m);
  }

  lemma SameBooks(c: Cell, c': Cell)
    requires Balanced(c)
    requires c'.q.counts == c.q.counts && c'.q.inflight == c.q.inflight
    requires c'.ledger == c.ledger.(enqueued := c'.ledger.enqueued)
    ensures Balanced(c')
  {
    forall x ensures c'.q.Count(x) == TimesSent(c'.ledger.sent, x)
                  && c'.q.Count(x) == TimesEnded(c', x) + One(x in c'.q.inflight) {
      assert c.q.Count(x) == TimesSent(c.ledger.sent, x);
      assert c.q.Count(x) == TimesEnded(c, x) + One(x in c.q.inflight);
    }
  }

  // ---------------------------------------------------------------- bounded redelivery

  /** A copy that waits has a delivery left; no copy has had more than its limit; drops give one back. */
  ghost predicate Bounded(c: Cell) {
    && (forall m :: c.q.Count(m) <= Limit(c.q.config) + c.ledger.returned[m])
    && (forall m :: m in c.q.pending || m in c.parked ==> c.q.Count(m) < Limit(c.q.config) + c.ledger.returned[m])
    && (forall m :: m in c.ledger.exhausted ==>
          m in c.ledger.dead && c.q.Count(m) >= c.q.config.maxDeliveries && c.q.Count(m) >= 1)
    && (forall m :: m !in c.ledger.enqueued ==> c.q.Count(m) == 0 && c.ledger.returned[m] == 0)
  }

  lemma EnqueueBounds(c: Cell, m: Message)
    requires Bounded(c) && Newer(c, m)
    ensures Bounded(EnqueueCell(c, m))
  {
    assert m !in c.ledger.enqueued;
    assert c.q.Count(m) == 0;
    assert forall x :: EnqueueCell(c, m).q.Count(x) == c.q.Count(x);
  }

  lemma PumpBounds(c: Cell)
    requires Bounded(c) && Conserved(c)
    ensures Bounded(PumpCell(c))
  {
    hide PumpBlock;
    PumpIsExact(c.q);
    var c' := PumpCell(c);
    if c.owed > 0 && PumpBlock(c.q).Sent? {
      var Sent(q', i, m, h) := PumpBlock(c.q);
      assert m in c.q.pending;
      LiveIsNotDone(c, m);
      AtMostOnePlace(c, m);
      MultisetOfRemoveAt(c.q.pending, i);
      assert m !in c'.q.pending by {
        assert multiset(c'.q.pending)[m] == 0;
      }
      forall x ensures c'.q.Count(x) == c.q.Count(x) + One(x == m) {
      }
      forall x | x in c'.q.pending ensures x in c.q.pending {
      }
    }
  }

  lemma DetachBounds(c: Cell, h: Handler)
    requires Bounded(c) && Conserved(c)
    ensures Bounded(DetachCell(c, h))
  {
    var c' := DetachCell(c, h);
    var held := Held(c.q, h);
    assert forall x :: c'.q.Count(x) == c.q.Count(x);
    forall x | x in c'.q.pending ensures x in held || x in c.q.pending {
      assert x in multiset(Listed(held)) || x in c.q.pending;
    }
    forall x | x in held ensures x in c.ledger.enqueued {
      LiveIsNotDone(c, x);
    }
  }

  lemma InFlightStanding(c: Cell, m: Message)
    requires Bounded(c) && Conserved(c) && Balanced(c) && m in c.q.inflight
    ensures m in c.ledger.enqueued && m !in c.ledger.exhausted && c.q.Count(m) >= 1
  {
    LiveIsNotDone(c, m);
    assert c.q.Count(m) == TimesEnded(c, m) + One(m in c.q.inflight);
  }

  lemma SettledBounds(c: Cell, c': Cell, m: Message, outcome: Outcome)
    requires Bounded(c) && Conserved(c) && Balanced(c) && SettleEffect(c, c', m, outcome)
    ensures Bounded(c')
  {
    InFlightStanding(c, m);
    hide Conserved, Balanced;
    forall x ensures c'.q.Count(x) == c.q.Count(x) {
    }
    forall x | x in c'.q.pending || x in c'.parked ensures x == m || x in c.q.pending || x in c.parked {
    }
    forall x | x in c'.ledger.exhausted ensures x in c'.ledger.dead {
    }
  }

  lemma SettleBounds(c: Cell, m: Message, h: Handler, kind: SettleKind)
    requires Bounded(c) && Conserved(c) && Balanced(c)
    ensures Bounded(SettleCell(c, m, h, kind))
  {
    SettleIsExact(c, m, h, kind);
    if m in c.q.inflight && c.q.inflight[m] == h {
      SettledBounds(c, SettleCell(c, m, h, kind), m, Decide(c.q.config, c.q.Count(m), kind));
    }
  }

  /** Steps that neither count a delivery nor record an end only move copies about. */
  lemma MovedBounds(c: Cell, c': Cell)
    requires Bounded(c)
    requires c'.q.config == c.q.config && c'.q.counts == c.q.counts
    requires forall x :: x in c'.q.pending || x in c'.parked ==> x in c.q.pending || x in c.parked
    requires c'.ledger.enqueued == c.ledger.enqueued && c'.ledger.returned == c.ledger.returned
    requires c'.ledger.exhausted == c.ledger.exhausted && c'.ledger.dead == c.ledger.dead
    ensures Bounded(c')
  {
    forall x ensures c'.q.Count(x) == c.q.Count(x) {
    }
  }

  lemma ExpireBounds(c: Cell, m: Message)
    requires Bounded(c)
    ensures Bounded(ExpireCell(c, m))
  {
    hide Bounded;
    forall x | x in RemoveFirst(c.q.pending, m) ensures x in c.q.pending {
      RemoveFirstKeepsOthers(c.q.pending, m, x);
    }
    MovedBounds(c, ExpireCell(c, m));
  }

  lemma StepBounds(c: Cell, op: Op)
    requires Bounded(c) && Conserved(c) && Balanced(c) && Admissible(c, op)
    ensures Bounded(StepCell(c, op))
  {
    hide Bounded, PumpBlock, SettleBlock, Conserved, Balanced;
    match op
    case Enqueue(m) => EnqueueBounds(c, m);
    case Attach(h) => MovedBounds(c, AttachCell(c, h));
    case Detach(h) => DetachBounds(c, h);
    case Pump => PumpBounds(c);
    case Settle(m, h, kind) => SettleBounds(c, m, h, kind);
    case Retry(m) => MovedBounds(c, RetryCell(c, m));
    case Expire(m) => ExpireBounds(c, m);
  }

  /**
   * A copy that was never acked, rejected, expired or returned by a drop, and is no longer
   * pending, in flight or parked, was delivered exactly its limit and then died.
   */
  lemma AlwaysRequeuedIsDeliveredExactlyLimit(c: Cell, m: Message)
    requires Conserved(c) && Bounded(c)
    requires m in c.ledger.enqueued
    requires m !in c.q.pending && m !in c.q.inflight && m !in c.parked
    requires m !in c.ledger.acked && m !in c.ledger.expired && c.ledger.returned[m] == 0
    requires m in c.ledger.dead ==> m in c.ledger.exhausted
    ensures m in c.ledger.dead && c.q.Count(m) == Limit(c.q.config)
  {
    ExactlyOnePlace(c, m);
  }
}
