/** No lost wake-up: while something can be delivered, some thread still owes the queue a pump. */
module WakeUp {
  import opened Wrappers
  import opened BusTypes
  import opened QueueSteps
  import opened QueueCells
  import opened RoundRobin
  import opened GroupScan
  import opened Holders

  /** Nothing deliverable is forgotten, save what an expiry freed and no pump has looked at. */
  ghost predicate Awake(c: Cell) {
    && (CanDeliver(c.q) ==> c.owed > 0 || c.ledger.stranded)
    && (c.ledger.stranded ==> c.ledger.lapsed != {})
  }

  lemma IdleStaysIdle(q: Queue, q': Queue)
    requires !CanDeliver(q) && IdleEffect(q, q')
    ensures !CanDeliver(q')
  {
    if q.config.partitionByGroup {
      forall i | 0 <= i < |q'.pending| ensures !Eligible(q', q'.pending[i]) {
        assert !Eligible(q, q.pending[i]) || q.consumers == [];
        assert Owner(q.affinity, q.consumers, q.pending[i].Group())
               == Owner(q'.affinity, q.consumers, q.pending[i].Group());
      }
    }
  }

  lemma PumpKeepsAwake(c: Cell)
    requires Awake(c)
    ensures Awake(PumpCell(c))
  {
    hide PumpBlock;
    PumpIsExact(c.q);
    if c.owed > 0 && PumpBlock(c.q).Idle? {
      IdleStaysIdle(c.q, PumpBlock(c.q).queue);
    }
  }

  /** Taking a pending message away makes nothing new deliverable. */
  lemma FewerPending(q: Queue, i: nat)
    requires i < |q.pending|
    requires CanDeliver(q.(pending := RemoveAt(q.pending, i)))
    ensures CanDeliver(q)
  {
    var q' := q.(pending := RemoveAt(q.pending, i));
    if q.config.partitionByGroup {
      var j :| 0 <= j < |q'.pending| && Eligible(q', q'.pending[j]);
      var k := if j < i then j else j + 1;
      assert q'.pending[j] == q.pending[k] && Eligible(q, q.pending[k]);
    }
  }

  lemma StepKeepsAwake(c: Cell, op: Op)
    requires Awake(c)
    ensures Awake(StepCell(c, op))
  {
    match op
    case Enqueue(m) =>
    case Attach(h) =>
    case Detach(h) =>
    case Pump => PumpKeepsAwake(c);
    case Settle(m, h, kind) =>
    case Retry(m) =>
    case Expire(m) =>
      if m in c.timers && m in c.q.pending {
        var i := RemoveFirstIsRemoveAt(c.q.pending, m);
        if CanDeliver(StepCell(c, op).q) {
          FewerPending(c.q, i);
        }
      }
  }

  // ---------------------------------------------------------------- the one step that can lose it

  /** Some pending message is waiting for just this consumer, or for anybody. */
  ghost predicate WaitingFor(q: Queue, h: Handler) {
    exists i :: 0 <= i < |q.pending| &&
      (q.config.partitionByGroup ==> Owner(q.affinity, q.consumers, q.pending[i].Group()) in {None, Some(h)})
  }

  lemma FreedConsumer(q: Queue, m: Message)
    requires WellHeld(q) && !CanDeliver(q) && m in q.inflight
    ensures CanDeliver(q.(inflight := q.inflight - {m})) <==> WaitingFor(q, q.inflight[m])
  {
    var h := q.inflight[m];
    var q' := q.(inflight := q.inflight - {m});
    assert h in q.consumers && h in q.Busy();
    forall x | x in q'.inflight ensures q'.inflight[x] != h && q'.inflight[x] in q.Busy() {
      assert q'.inflight[x] == q.inflight[x];
    }
    forall b | b in q.Busy() && b != h ensures b in q'.Busy() {
      var x :| x in q.inflight && q.inflight[x] == b;
      assert x in q'.inflight && q'.inflight[x] == b;
    }
    assert SomeFree(q.consumers, q'.Busy());
    if q.config.partitionByGroup {
      forall i | 0 <= i < |q.pending|
        ensures Eligible(q', q.pending[i]) <==> Owner(q.affinity, q.consumers, q.pending[i].Group()) in {None, Some(h)}
      {
        assert !Eligible(q, q.pending[i]);
      }
    } else if q.config.singleActiveConsumer {
      forall x | x in q.inflight ensures x == m {
        assert q.inflight[x] == q.consumers[0] == h;
      }
      assert q'.inflight == map[];
    }
    if q.pending != [] && !q.config.partitionByGroup {
      var first := q.pending[0];
      assert WaitingFor(q, h);
    }
  }

  /** Something can be delivered, and no thread owes the queue a pump. */
  ghost predicate Asleep(c: Cell) {
    CanDeliver(c.q) && c.owed == 0
  }

  /**
   * The expiry takes a message out of flight while no pump is owed and a pending message is waiting for
   * the consumer it frees.
   */
  ghost predicate LosesWakeUp(c: Cell, op: Op) {
    && op.Expire? && op.msg in c.timers && c.owed == 0
    && op.msg !in c.q.pending && op.msg in c.q.inflight
    && WaitingFor(c.q, c.q.inflight[op.msg])
  }

  /** Exactly when an expiry loses a wake-up, whatever earlier expiries did. */
  lemma ExpiryLosesWakeUpExactly(c: Cell, m: Message)
    requires WellHeld(c.q) && !Asleep(c)
    ensures Asleep(ExpireCell(c, m)) <==> LosesWakeUp(c, Expire(m))
  {
    if m in c.timers && c.owed == 0 {
      if m in c.q.pending {
        var i := RemoveFirstIsRemoveAt(c.q.pending, m);
        if CanDeliver(ExpireCell(c, m).q) {
          FewerPending(c.q, i);
        }
      } else if m in c.q.inflight {
        FreedConsumer(c.q, m);
      }
    }
  }

  lemma PumpStaysAwake(c: Cell)
    requires !Asleep(c)
    ensures !Asleep(PumpCell(c))
  {
    hide PumpBlock;
    PumpIsExact(c.q);
    if c.owed > 0 && PumpBlock(c.q).Idle? {
      IdleStaysIdle(c.q, PumpBlock(c.q).queue);
    }
  }

  /** No other step loses one. */
  lemma StepSleepsExactly(c: Cell, op: Op)
    requires WellHeld(c.q) && !Asleep(c)
    ensures Asleep(StepCell(c, op)) <==> LosesWakeUp(c, op)
  {
    hide PumpCell, CanDeliver;
    match op
    case Pump => PumpStaysAwake(c);
    case Settle(m, h, kind) => SettleIsExact(c, m, h, kind);
    case Expire(m) => ExpiryLosesWakeUpExactly(c, m);
    case _ =>
  }
}
