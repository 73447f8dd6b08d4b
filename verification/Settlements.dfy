/**
 * Which delivery a settlement ends. A handler settles through the object it was given with its
 * delivery, but the bus looks only at the message and who holds it.
 */
module Settlements {
  import opened BusTypes
  import opened QueueSteps
  import opened QueueCells
  import opened BusMachine
  import opened GroupScan
  import opened BusInvariants

  /** The delivery is the latest of its message; deliveries are known by their place in the record. */
  predicate IsLast(sent: seq<Delivery>, k: nat)
    requires k < |sent|
  {
    forall l :: k < l < |sent| ==> sent[l].msg != sent[k].msg
  }

  /** The delivery is under way: its consumer holds its message, which has not been delivered since. */
  predicate UnderWay(c: Cell, k: nat)
    requires k < |c.ledger.sent|
  {
    Holds(c, c.ledger.sent[k]) && IsLast(c.ledger.sent, k)
  }

  predicate Holds(c: Cell, d: Delivery) {
    d.msg in c.q.inflight && c.q.inflight[d.msg] == d.to
  }

  /** What settling through the object of delivery `k` asks of the queue. */
  function Through(c: Cell, k: nat, kind: SettleKind): Op
    requires k < |c.ledger.sent|
  {
    Settle(c.ledger.sent[k].msg, c.ledger.sent[k].to, kind)
  }

  /** Whatever is in flight is held by the consumer of its latest delivery. */
  ghost predicate HeldByLast(c: Cell) {
    forall m :: m in c.q.inflight ==>
      exists k :: 0 <= k < |c.ledger.sent| && c.ledger.sent[k] == Delivery(m, c.q.inflight[m])
                  && IsLast(c.ledger.sent, k)
  }

  lemma FewerHeldByLast(c: Cell, c': Cell)
    requires HeldByLast(c) && c'.ledger.sent == c.ledger.sent
    requires forall m :: m in c'.q.inflight ==> m in c.q.inflight && c'.q.inflight[m] == c.q.inflight[m]
    ensures HeldByLast(c')
  {
  }

  lemma SentHeldByLast(c: Cell, c': Cell, m: Message, h: Handler)
    requires HeldByLast(c) && c'.ledger.sent == c.ledger.sent + [Delivery(m, h)]
             && c'.q.inflight == c.q.inflight[m := h]
    ensures HeldByLast(c')
  {
    var n := |c.ledger.sent|;
    forall x | x in c'.q.inflight
      ensures exists k :: 0 <= k < |c'.ledger.sent| && c'.ledger.sent[k] == Delivery(x, c'.q.inflight[x])
                        && IsLast(c'.ledger.sent, k)
    {
      if x == m {
        assert c'.ledger.sent[n] == Delivery(m, h) && IsLast(c'.ledger.sent, n);
      } else {
        var k :| 0 <= k < n && c.ledger.sent[k] == Delivery(x, c.q.inflight[x]) && IsLast(c.ledger.sent, k);
        assert c'.ledger.sent[k] == c.ledger.sent[k] && IsLast(c'.ledger.sent, k);
      }
    }
  }

  lemma StepKeepsHeldByLast(c: Cell, op: Op)
    requires HeldByLast(c)
    ensures HeldByLast(StepCell(c, op))
  {
    hide PumpBlock, HeldByLast;
    var c' := StepCell(c, op);
    if op.Pump? {
      PumpIsExact(c.q);
      if c.owed > 0 && PumpBlock(c.q).Sent? {
        SentHeldByLast(c, c', PumpBlock(c.q).msg, PumpBlock(c.q).to);
      } else {
        FewerHeldByLast(c, c');
      }
    } else {
      if op.Settle? {
        SettleIsExact(c, op.msg, op.handler, op.kind);
      }
      FewerHeldByLast(c, c');
    }
  }

  lemma ApplyKeepsHeldByLast(b: Bus, e: Event)
    requires BusOk(b) && forall i :: 0 <= i < |b.cells| ==> HeldByLast(b.cells[i])
    ensures forall i :: 0 <= i < |Apply(b, e).cells| ==> HeldByLast(Apply(b, e).cells[i])
  {
    var b' := Apply(b, e);
    hide BusOk, StepCell, Apply, HeldByLast;
    forall i | 0 <= i < |b'.cells| ensures HeldByLast(b'.cells[i]) {
      if i < |b.cells| {
        var op := QueueMoves(b, e, i);
        if op.Some? {
          StepKeepsHeldByLast(b.cells[i], op.value);
        }
      } else {
        NewQueueHoldsNothing(b, e, i);
      }
    }
  }

  lemma NewQueueHoldsNothing(b: Bus, e: Event, i: nat)
    requires |b.cells| <= i < |Apply(b, e).cells|
    ensures HeldByLast(Apply(b, e).cells[i])
  {
    hide StepCell, Seeds;
    assert e.Subscribe? && Apply(b, e).cells[i].q.inflight == map[];
  }

  lemma {:induction false} RunKeepsHeldByLast(b: Bus, events: seq<Event>)
    requires BusOk(b) && forall i :: 0 <= i < |b.cells| ==> HeldByLast(b.cells[i])
    ensures forall i :: 0 <= i < |Run(b, events).cells| ==> HeldByLast(Run(b, events).cells[i])
    decreases |events|
  {
    if events != [] {
      ApplyKeepsHeldByLast(b, events[0]);
      ApplyKeepsOk(b, events[0]);
      RunKeepsHeldByLast(Apply(b, events[0]), events[1..]);
    }
  }

  /** In every run a message in flight is held by the consumer of its latest delivery, and by no other delivery. */
  lemma HolderHasTheLatestDelivery(events: seq<Event>, i: nat, m: Message)
    requires i < |Run(INIT, events).cells| && m in Run(INIT, events).cells[i].q.inflight
    ensures var c := Run(INIT, events).cells[i];
            exists k :: 0 <= k < |c.ledger.sent| && c.ledger.sent[k] == Delivery(m, c.q.inflight[m])
                        && IsLast(c.ledger.sent, k) && UnderWay(c, k)
                        && forall l :: 0 <= l < |c.ledger.sent| && UnderWay(c, l) && c.ledger.sent[l].msg == m
                                  ==> l == k
  {
    ReachableIsOk([]);
    RunKeepsHeldByLast(INIT, events);
    var c := Run(INIT, events).cells[i];
    assert HeldByLast(c);
    hide Run;
    var k :| 0 <= k < |c.ledger.sent| && c.ledger.sent[k] == Delivery(m, c.q.inflight[m]) && IsLast(c.ledger.sent, k);
    assert UnderWay(c, k);
    forall l | 0 <= l < |c.ledger.sent| && UnderWay(c, l) && c.ledger.sent[l].msg == m ensures l == k {
      LatestIsUnique(c.ledger.sent, k, l);
    }
  }

  lemma LatestIsUnique(sent: seq<Delivery>, k: nat, l: nat)
    requires k < |sent| && l < |sent| && sent[k].msg == sent[l].msg && IsLast(sent, k) && IsLast(sent, l)
    ensures k == l
  {
  }

  /** The step ended the delivery: it was under way, and is so no more. */
  predicate Ended(c: Cell, c': Cell, l: nat)
    requires l < |c.ledger.sent| && c'.ledger.sent == c.ledger.sent
  {
    UnderWay(c, l) && !UnderWay(c', l)
  }

  lemma SettleKeepsSent(c: Cell, m: Message, h: Handler, kind: SettleKind)
    ensures SettleCell(c, m, h, kind).ledger.sent == c.ledger.sent
  {
    SettleIsExact(c, m, h, kind);
  }

  /** The delivery ended by a settlement is of the settled message. */
  lemma SettleEndsTheMessage(c: Cell, k: nat, kind: SettleKind, l: nat)
    requires k < |c.ledger.sent| && l < |c.ledger.sent|
    ensures var c' := StepCell(c, Through(c, k, kind));
            && c'.ledger.sent == c.ledger.sent
            && (Ended(c, c', l)
                <==> UnderWay(c, l) && Holds(c, c.ledger.sent[k]) && c.ledger.sent[l].msg == c.ledger.sent[k].msg)
  {
    SettleIsExact(c, c.ledger.sent[k].msg, c.ledger.sent[k].to, kind);
    hide SettleCell, IsLast;
  }

  /**
   * In every run, settling through the object of delivery `k` ends its own delivery exactly when that is
   * under way, and ends another delivery exactly when `k` is not the latest delivery of its message and
   * the same consumer holds the message again. It never ends more than one.
   */
  lemma SettleEndsAnotherDeliveryExactly(events: seq<Event>, i: nat, k: nat, kind: SettleKind)
    requires i < |Run(INIT, events).cells| && k < |Run(INIT, events).cells[i].ledger.sent|
    ensures var b := Run(INIT, events);
            var c, b' := b.cells[i], Apply(b, OnQueue(i, Through(b.cells[i], k, kind)));
            && i < |b'.cells| && b'.cells[i].ledger.sent == c.ledger.sent
            && (Ended(c, b'.cells[i], k) <==> UnderWay(c, k))
            && ((exists l :: 0 <= l < |c.ledger.sent| && l != k && Ended(c, b'.cells[i], l))
                <==> !IsLast(c.ledger.sent, k) && Holds(c, c.ledger.sent[k]))
            && (forall l, l2 :: 0 <= l < |c.ledger.sent| && 0 <= l2 < |c.ledger.sent|
                  && Ended(c, b'.cells[i], l) && Ended(c, b'.cells[i], l2)
                  ==> l == l2)
  {
    var b := Run(INIT, events);
    var c := b.cells[i];
    var c' := StepCell(c, Through(c, k, kind));
    assert Apply(b, OnQueue(i, Through(c, k, kind))).cells[i] == c';
    if Holds(c, c.ledger.sent[k]) {
      HolderHasTheLatestDelivery(events, i, c.ledger.sent[k].msg);
    }
    hide Run, Apply;
    SettleEndsExactly(c, k, kind);
  }

  lemma SettleEndsExactly(c: Cell, k: nat, kind: SettleKind)
    requires k < |c.ledger.sent|
    requires Holds(c, c.ledger.sent[k]) ==>
               exists l :: 0 <= l < |c.ledger.sent| && UnderWay(c, l) && c.ledger.sent[l].msg == c.ledger.sent[k].msg
    ensures var c' := StepCell(c, Through(c, k, kind));
            && c'.ledger.sent == c.ledger.sent
            && (Ended(c, c', k) <==> UnderWay(c, k))
            && ((exists l :: 0 <= l < |c.ledger.sent| && l != k && Ended(c, c', l))
                <==> !IsLast(c.ledger.sent, k) && Holds(c, c.ledger.sent[k]))
            && (forall l, l2 :: 0 <= l < |c.ledger.sent| && 0 <= l2 < |c.ledger.sent|
                  && Ended(c, c', l) && Ended(c, c', l2)
                  ==> l == l2)
  {
    var sent, c' := c.ledger.sent, StepCell(c, Through(c, k, kind));
    SettleEndsTheMessage(c, k, kind, k);
    hide StepCell, IsLast;
    forall l | 0 <= l < |sent|
      ensures Ended(c, c', l) <==> UnderWay(c, l) && Holds(c, sent[k]) && sent[l].msg == sent[k].msg
      ensures UnderWay(c, l) && UnderWay(c, k) && sent[l].msg == sent[k].msg ==> l == k
    {
      SettleEndsTheMessage(c, k, kind, l);
      if UnderWay(c, l) && UnderWay(c, k) && sent[l].msg == sent[k].msg {
        LatestIsUnique(sent, k, l);
      }
    }
    forall l, l2 | 0 <= l < |sent| && 0 <= l2 < |sent| && Ended(c, c', l) && Ended(c, c', l2) ensures l == l2 {
      LatestIsUnique(sent, l, l2);
    }
    if Holds(c, sent[k]) && !IsLast(sent, k) {
      var l :| 0 <= l < |sent| && UnderWay(c, l) && sent[l].msg == sent[k].msg;
      assert Ended(c, c', l);
    }
  }
}
