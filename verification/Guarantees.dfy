/**
 * What the bus guarantees over every run: any list of publishes, subscribes, drops, pumps,
 * settles, retry timers, expiry timers and republishes, in any interleaving.
 */
module Guarantees {
  import opened Wrappers
  import opened BusTypes
  import opened QueueSteps
  import opened QueueCells
  import opened BusMachine
  import opened RoundRobin
  import opened GroupScan
  import opened Custody
  import opened Accounts
  import opened Holders
  import opened WakeUp
  import opened Lanes
  import opened BusInvariants

  lemma ReachableCellIsOk(events: seq<Event>, i: nat)
    requires i < |Run(INIT, events).cells|
    ensures CellOk(Run(INIT, events).cells[i])
  {
    hide CellOk;
    ReachableIsOk(events);
    var b := Run(INIT, events);
    assert Settled(b.cells[i], b.seqNo);
  }

  // ---------------------------------------------------------------- wake-ups

  /** Every consumer that this message could go to holds a message already. */
  ghost predicate MustWait(q: Queue, m: Message) {
    if q.config.partitionByGroup then
      match Owner(q.affinity, q.consumers, m.Group())
      case Some(owner) => owner in q.Busy()
      case None => forall h :: h in q.consumers ==> h in q.Busy()
    else if q.config.singleActiveConsumer then q.inflight != map[]
    else forall h :: h in q.consumers ==> h in q.Busy()
  }

  lemma NothingDeliverableIsWaiting(q: Queue)
    ensures !CanDeliver(q) <==> q.consumers == [] || forall i :: 0 <= i < |q.pending| ==> MustWait(q, q.pending[i])
  {
    forall i | 0 <= i < |q.pending|
      ensures q.config.partitionByGroup ==> (Eligible(q, q.pending[i]) <==> !MustWait(q, q.pending[i]))
    {
    }
    if q.pending != [] && !q.config.partitionByGroup {
      assert MustWait(q, q.pending[0]) <==>
        if q.config.singleActiveConsumer then q.inflight != map[] else !SomeFree(q.consumers, q.Busy());
    }
  }

  /** After the first `n` events something can be delivered on queue `i`, and nobody owes it a pump. */
  ghost predicate SleepsAfter(events: seq<Event>, n: nat, i: nat)
    requires n <= |events|
  {
    var b := Run(INIT, events[..n]);
    i < |b.cells| && Asleep(b.cells[i])
  }

  /** Event `n` is an expiry on queue `i` that loses a wake-up. */
  ghost predicate LosesAt(events: seq<Event>, n: nat, i: nat)
    requires n < |events|
  {
    var b := Run(INIT, events[..n]);
    i < |b.cells| && events[n].OnQueue? && events[n].queue == i && LosesWakeUp(b.cells[i], events[n].op)
  }

  /** From a moment at which the queue is not asleep, one event puts it to sleep exactly when it loses a wake-up. */
  lemma OneEventSleepsExactly(events: seq<Event>, n: nat, i: nat)
    requires n < |events| && !SleepsAfter(events, n, i)
    ensures SleepsAfter(events, n + 1, i) <==> LosesAt(events, n, i)
  {
    var b := Run(INIT, events[..n]);
    RunOfPrefix(INIT, events, n);
    ReachableIsOk(events[..n]);
    hide Run, BusOk, Asleep, LosesWakeUp, StepCell, Apply;
    if i < |b.cells| {
      var op := QueueMoves(b, events[n], i);
      ReachableCellIsHeld(events[..n], i);
      if op.Some? {
        StepSleepsExactly(b.cells[i], op.value);
      }
      OnlyExpiryLoses(b.cells[i], if op.Some? then op.value else Op.Pump);
      if events[n].OnQueue? && events[n].queue == i && !Local(events[n].op) {
        OnlyExpiryLoses(b.cells[i], events[n].op);
      }
    } else if i < |Apply(b, events[n]).cells| {
      NewQueueIsOwedAPump(b, events[n], i);
    }
  }

  lemma OnlyExpiryLoses(c: Cell, op: Op)
    ensures LosesWakeUp(c, op) ==> op.Expire? && Local(op)
  {
  }

  lemma NewQueueIsOwedAPump(b: Bus, e: Event, i: nat)
    requires |b.cells| <= i < |Apply(b, e).cells|
    ensures !Asleep(Apply(b, e).cells[i])
  {
    hide StepCell, Seeds, CanDeliver;
    assert Apply(b, e).cells[i].owed > 0;
  }

  lemma ReachableCellIsHeld(events: seq<Event>, i: nat)
    requires i < |Run(INIT, events).cells|
    ensures WellHeld(Run(INIT, events).cells[i].q)
  {
    ReachableCellIsOk(events, i);
  }

  /** While no event has lost one, no wake-up is lost. */
  lemma {:induction false} AwakeSoFar(events: seq<Event>, n: nat, i: nat)
    requires n <= |events| && forall m :: 0 <= m < n ==> !LosesAt(events, m, i)
    ensures !SleepsAfter(events, n, i)
  {
    hide LosesAt;
    if n > 0 {
      AwakeSoFar(events, n - 1, i);
      OneEventSleepsExactly(events, n - 1, i);
    } else {
      assert events[..0] == [];
    }
  }

  /**
   * No lost wake-up: along a run it holds at every moment of a queue that a thread owes it a pump, or that
   * whatever is pending really has to wait, if and only if no expiry along the run takes a message out of
   * flight while no pump is owed and a pending message waits for the consumer it frees.
   */
  lemma NoLostWakeUp(events: seq<Event>, i: nat)
    ensures (forall n :: 0 <= n <= |events| ==> !SleepsAfter(events, n, i))
            <==> (forall n :: 0 <= n < |events| ==> !LosesAt(events, n, i))
    ensures forall n :: 0 <= n <= |events| && i < |Run(INIT, events[..n]).cells| ==>
              var c := Run(INIT, events[..n]).cells[i];
              SleepsAfter(events, n, i)
              <==> !(c.owed > 0 || c.q.consumers == []
                     || forall k :: 0 <= k < |c.q.pending| ==> MustWait(c.q, c.q.pending[k]))
  {
    forall n | 0 <= n <= |events| && i < |Run(INIT, events[..n]).cells|
      ensures var c := Run(INIT, events[..n]).cells[i];
              SleepsAfter(events, n, i)
              <==> !(c.owed > 0 || c.q.consumers == []
                     || forall k :: 0 <= k < |c.q.pending| ==> MustWait(c.q, c.q.pending[k]))
    {
      NothingDeliverableIsWaiting(Run(INIT, events[..n]).cells[i].q);
      hide CanDeliver, MustWait;
    }
    hide SleepsAfter, LosesAt, MustWait;
    if forall n :: 0 <= n < |events| ==> !LosesAt(events, n, i) {
      forall n | 0 <= n <= |events| ensures !SleepsAfter(events, n, i) {
        AwakeSoFar(events, n, i);
      }
    }
    if forall n :: 0 <= n <= |events| ==> !SleepsAfter(events, n, i) {
      forall n | 0 <= n < |events| ensures !LosesAt(events, n, i) {
        OneEventSleepsExactly(events, n, i);
      }
    }
  }

  /**
   * In particular: if no expiry ever took a message of the queue out of flight, then either some
   * thread still owes the queue a pump, or whatever is pending really has to wait.
   */
  lemma NothingLapsedNothingLost(events: seq<Event>, i: nat)
    requires i < |Run(INIT, events).cells| && Run(INIT, events).cells[i].ledger.lapsed == {}
    ensures var c := Run(INIT, events).cells[i];
            c.owed > 0 || c.q.consumers == [] || forall k :: 0 <= k < |c.q.pending| ==> MustWait(c.q, c.q.pending[k])
  {
    ReachableCellIsOk(events, i);
    NothingDeliverableIsWaiting(Run(INIT, events).cells[i].q);
  }

  /** Whatever expiries did, a pump that stops leaves nothing deliverable. */
  lemma APumpThatStopsLeavesNothing(c: Cell)
    requires c.owed > 0 && PumpBlock(c.q).Idle?
    ensures !CanDeliver(PumpCell(c).q) && !PumpCell(c).ledger.stranded
  {
    PumpIsExact(c.q);
    IdleStaysIdle(c.q, PumpBlock(c.q).queue);
  }

  // ---------------------------------------------------------------- conservation

  /** Every copy a queue ever took is in exactly one of six places; what it never took is in none. */
  lemma CopiesAreConserved(events: seq<Event>, i: nat, m: Message)
    requires i < |Run(INIT, events).cells|
    ensures var c := Run(INIT, events).cells[i];
            && multiset(c.q.pending)[m] <= 1
            && Places(c, m) == (if m in c.ledger.enqueued then 1 else 0)
            && multiset(c.ledger.enqueued)[m] <= 1
  {
    ReachableCellIsOk(events, i);
    var c := Run(INIT, events).cells[i];
    AtMostOnePlace(c, m);
    AscendingOccursOnce(c.ledger.enqueued, m);
  }

  /** A settle by anyone but the present holder changes nothing in the whole bus. */
  lemma StaleSettleIsInvisible(b: Bus, i: nat, m: Message, h: Handler, kind: SettleKind)
    requires i < |b.cells| && !(m in b.cells[i].q.inflight && b.cells[i].q.inflight[m] == h)
    ensures Apply(b, OnQueue(i, Settle(m, h, kind))) == b
  {
    SettleIsExact(b.cells[i], m, h, kind);
    assert b.cells[i := b.cells[i]] == b.cells;
  }

  /** Every delivery ends once at most: settled, returned by a drop, or taken by expiry; or it is in flight. */
  lemma DeliveriesAreAccountedFor(events: seq<Event>, i: nat, m: Message)
    requires i < |Run(INIT, events).cells|
    ensures var c := Run(INIT, events).cells[i];
            && TimesSent(c.ledger.sent, m)
               == TimesSettled(c, m) + c.ledger.returned[m] + One(m in c.ledger.lapsed) + One(m in c.q.inflight)
            && c.q.Count(m) == TimesSent(c.ledger.sent, m)
  {
    ReachableCellIsOk(events, i);
    var c := Run(INIT, events).cells[i];
    assert c.q.Count(m) == TimesSent(c.ledger.sent, m);
    assert c.q.Count(m) == TimesEnded(c, m) + One(m in c.q.inflight);
  }

  // ---------------------------------------------------------------- holders

  /**
   * Prefetch one; every holder attached; on a partitioned queue one message per group in flight, held
   * by the group's owner; on a single-active queue only the first consumer holding anything.
   */
  lemma HoldersAreInOrder(events: seq<Event>, i: nat, x: Message, y: Message)
    requires i < |Run(INIT, events).cells|
    requires x in Run(INIT, events).cells[i].q.inflight && y in Run(INIT, events).cells[i].q.inflight
    ensures var q := Run(INIT, events).cells[i].q;
            && q.inflight[x] in q.consumers
            && (x != y ==> q.inflight[x] != q.inflight[y])
            && (q.config.partitionByGroup ==> Owner(q.affinity, q.consumers, x.Group()) == Some(q.inflight[x]))
            && (q.config.partitionByGroup && x.Group() == y.Group() ==> x == y)
            && (q.config.singleActiveConsumer && !q.config.partitionByGroup
                ==> x == y && q.inflight[x] == q.consumers[0])
  {
    ReachableCellIsOk(events, i);
    var q := Run(INIT, events).cells[i].q;
    assert WellHeld(q);
    if q.config.partitionByGroup && x.Group() == y.Group() {
      OneInFlightPerGroup(q, x, y);
    }
  }

  // ---------------------------------------------------------------- order

  /** No delivery of the lane is of a copy enqueued before one already delivered. */
  ghost predicate FollowsPublishOrder(c: Cell, lane: Lane) {
    forall k, l, p, r ::
      0 <= k < l < |c.ledger.sent|
      && LaneOf(c.q.config, c.ledger.sent[k].msg) == lane && LaneOf(c.q.config, c.ledger.sent[l].msg) == lane
      && 0 <= p < |c.ledger.enqueued| && c.ledger.enqueued[p] == c.ledger.sent[k].msg
      && 0 <= r < |c.ledger.enqueued| && c.ledger.enqueued[r] == c.ledger.sent[l].msg
      ==> p <= r
  }

  lemma InOrderFollowsPublishOrder(c: Cell, lane: Lane)
    requires SentInOrder(c, lane) && IdsAscend(c.ledger.enqueued)
    ensures FollowsPublishOrder(c, lane)
  {
  }

  /**
   * After the first `n` events the lane of queue `i` stands in publish order, if the queue is there and keeps
   * any order.
   */
  ghost predicate OrderedAfter(events: seq<Event>, n: nat, i: nat, lane: Lane)
    requires n <= |events|
  {
    var b := Run(INIT, events[..n]);
    i < |b.cells| && Ordered(b.cells[i].q.config) ==> LaneInOrder(b.cells[i], lane)
  }

  /** Event `n` puts a message of the lane back where it disturbs the lane. */
  ghost predicate DisturbsAt(events: seq<Event>, n: nat, i: nat, lane: Lane)
    requires n < |events|
  {
    var b := Run(INIT, events[..n]);
    && i < |b.cells| && Ordered(b.cells[i].q.config)
    && events[n].OnQueue? && events[n].queue == i && Disturbs(b.cells[i], events[n].op, lane)
  }

  lemma DisturbingIsLocal(c: Cell, op: Op, lane: Lane)
    ensures Disturbs(c, op, lane) ==> Local(op)
  {
    hide LanePending, ComesBackInOrder, Decide;
  }

  lemma NewQueueIsInOrder(b: Bus, e: Event, i: nat, lane: Lane)
    requires BusOk(b) && |b.cells| <= i < |Apply(b, e).cells|
    ensures LaneInOrder(Apply(b, e).cells[i], lane)
  {
    NewQueueIsSeeded(b, e, i);
    SeedsAscend(ConfigOf(e.topic, e.opts), LogOf(b, e.topic), b.seqNo);
    hide StepCell, BusOk, LaneOf, Apply, Seeds;
    FreshIsInOrder(Apply(b, e).cells[i], lane);
  }

  lemma NewQueueIsSeeded(b: Bus, e: Event, i: nat)
    requires |b.cells| <= i < |Apply(b, e).cells|
    ensures e.Subscribe?
    ensures var c := Apply(b, e).cells[i];
            && c.q.pending in {[], Seeds(ConfigOf(e.topic, e.opts), LogOf(b, e.topic))}
            && c.q.inflight == map[] && c.ledger.sent == []
  {
    hide StepCell, Seeds;
  }

  lemma FreshIsInOrder(c: Cell, lane: Lane)
    requires IdsAscend(c.q.pending) && c.q.inflight == map[] && c.ledger.sent == []
    ensures LaneInOrder(c, lane)
  {
    hide LaneOf;
  }

  /** From a moment at which the lane is in order, one event keeps it exactly when it does not disturb it. */
  lemma OneEventKeepsOrderExactly(events: seq<Event>, n: nat, i: nat, lane: Lane)
    requires n < |events| && OrderedAfter(events, n, i, lane)
    ensures OrderedAfter(events, n + 1, i, lane) <==> !DisturbsAt(events, n, i, lane)
  {
    var b := Run(INIT, events[..n]);
    RunOfPrefix(INIT, events, n);
    ReachableIsOk(events[..n]);
    if i < |b.cells| {
      ReachableCellKeepsBooks(events[..n], i);
      hide Run, BusOk, LaneInOrder, Disturbs, StepCell, Apply, Conserved, Balanced, Sourced, WellHeld, Ordered;
      var op := QueueMoves(b, events[n], i);
      if op.Some? {
        StepKeepsIdentity(b.cells[i], op.value);
        if Ordered(b.cells[i].q.config) {
          StepKeepsLaneExactly(b.cells[i], op.value, lane);
        }
        DisturbingIsLocal(b.cells[i], op.value, lane);
      }
      if events[n].OnQueue? {
        DisturbingIsLocal(b.cells[i], events[n].op, lane);
      }
    } else if i < |Apply(b, events[n]).cells| {
      NewQueueIsInOrder(b, events[n], i, lane);
    }
  }

  lemma ReachableCellKeepsBooks(events: seq<Event>, i: nat)
    requires i < |Run(INIT, events).cells|
    ensures var c := Run(INIT, events).cells[i];
            Conserved(c) && Balanced(c) && Sourced(c) && WellHeld(c.q) && IdsAscend(c.ledger.enqueued)
  {
    ReachableCellIsOk(events, i);
  }

  lemma {:induction false} OrderedSoFar(events: seq<Event>, n: nat, i: nat, lane: Lane)
    requires n <= |events| && forall m :: 0 <= m < n ==> !DisturbsAt(events, m, i, lane)
    ensures OrderedAfter(events, n, i, lane)
  {
    hide DisturbsAt;
    if n > 0 {
      hide OrderedAfter;
      OrderedSoFar(events, n - 1, i, lane);
      OneEventKeepsOrderExactly(events, n - 1, i, lane);
    } else {
      assert events[..0] == [];
    }
  }

  /**
   * Along every run: a lane (a group of a partitioned queue, a priority of a single-active one) stands in
   * publish order at every moment if and only if no settle puts a message of it straight back while another
   * of it is pending, and no delayed retry of it comes back with another pending or a newer one delivered.
   */
  lemma LaneStaysInOrderExactly(events: seq<Event>, i: nat, lane: Lane)
    ensures (forall n :: 0 <= n <= |events| ==> OrderedAfter(events, n, i, lane))
            <==> (forall n :: 0 <= n < |events| ==> !DisturbsAt(events, n, i, lane))
  {
    hide OrderedAfter, DisturbsAt;
    if forall n :: 0 <= n < |events| ==> !DisturbsAt(events, n, i, lane) {
      forall n | 0 <= n <= |events| ensures OrderedAfter(events, n, i, lane) {
        OrderedSoFar(events, n, i, lane);
      }
    }
    if forall n :: 0 <= n <= |events| ==> OrderedAfter(events, n, i, lane) {
      forall n | 0 <= n < |events| ensures !DisturbsAt(events, n, i, lane) {
        OneEventKeepsOrderExactly(events, n, i, lane);
      }
    }
  }

  /** Then the deliveries of the lane follow publish order, across any number of failovers. */
  lemma DeliveryFollowsPublishOrder(events: seq<Event>, i: nat, lane: Lane)
    requires i < |Run(INIT, events).cells| && Ordered(Run(INIT, events).cells[i].q.config)
    requires forall n :: 0 <= n < |events| ==> !DisturbsAt(events, n, i, lane)
    ensures FollowsPublishOrder(Run(INIT, events).cells[i], lane)
  {
    LaneStaysInOrderExactly(events, i, lane);
    assert events[..|events|] == events;
    assert OrderedAfter(events, |events|, i, lane);
    ReachableCellKeepsBooks(events, i);
    InOrderFollowsPublishOrder(Run(INIT, events).cells[i], lane);
    hide FollowsPublishOrder;
  }

  /**
   * In particular in a lane of which nothing was ever nacked back, whatever was in others; and a copy that
   * was never nacked back is delivered again only as often as drops returned it.
   */
  lemma UnnackedLaneFollowsPublishOrder(events: seq<Event>, i: nat, lane: Lane)
    requires i < |Run(INIT, events).cells|
    requires var c := Run(INIT, events).cells[i]; Ordered(c.q.config) && NeverRequeued(c, lane)
    ensures var c := Run(INIT, events).cells[i];
            && FollowsPublishOrder(c, lane)
            && forall m :: m !in c.ledger.requeued ==> TimesSent(c.ledger.sent, m) <= c.ledger.returned[m] + 1
  {
    ReachableCellIsOk(events, i);
    var c := Run(INIT, events).cells[i];
    assert LaneInOrder(c, lane) && IdsAscend(c.ledger.enqueued);
    InOrderFollowsPublishOrder(c, lane);
    forall m | m !in c.ledger.requeued ensures TimesSent(c.ledger.sent, m) <= c.ledger.returned[m] + 1 {
      RepeatsOnlyAfterDrops(c, m);
    }
    hide CellOk, FollowsPublishOrder;
  }

  // ---------------------------------------------------------------- redelivery

  /** Deliveries of a copy never exceed its limit plus the times a drop returned it. */
  lemma RedeliveryIsBounded(events: seq<Event>, i: nat, m: Message)
    requires i < |Run(INIT, events).cells|
    ensures var c := Run(INIT, events).cells[i];
            c.q.Count(m) == TimesSent(c.ledger.sent, m) <= Limit(c.q.config) + c.ledger.returned[m]
  {
    ReachableCellIsOk(events, i);
  }

  /**
   * A copy that is done, and was only ever nacked for requeue (with or without a retry delay), was
   * delivered exactly its limit and then died.
   */
  lemma AlwaysRequeuedDiesAtItsLimit(events: seq<Event>, i: nat, m: Message)
    requires i < |Run(INIT, events).cells|
    requires var c := Run(INIT, events).cells[i];
             && m in c.ledger.enqueued && m !in c.q.pending && m !in c.q.inflight && m !in c.parked
             && m !in c.ledger.acked && m !in c.ledger.expired && c.ledger.returned[m] == 0
             && (m in c.ledger.dead ==> m in c.ledger.exhausted)
    ensures var c := Run(INIT, events).cells[i];
            m in c.ledger.dead && TimesSent(c.ledger.sent, m) == Limit(c.q.config)
  {
    ReachableCellIsOk(events, i);
    var c := Run(INIT, events).cells[i];
    AlwaysRequeuedIsDeliveredExactlyLimit(c, m);
    assert c.q.Count(m) == TimesSent(c.ledger.sent, m);
  }

  // ---------------------------------------------------------------- expiry

  /** Only copies that carry a time to live have a timer, and only they have expired. */
  ghost predicate OnlyTimedExpire(c: Cell) {
    forall m :: m in c.timers || m in c.ledger.expired ==> m.Expires()
  }

  lemma StepKeepsTimed(c: Cell, op: Op)
    requires OnlyTimedExpire(c)
    ensures OnlyTimedExpire(StepCell(c, op))
  {
    hide PumpBlock;
    match op
    case Pump => PumpIsExact(c.q);
    case Settle(m, h, kind) => SettleIsExact(c, m, h, kind);
    case _ =>
  }

  /** Each queue of the run is one the bus had, a step on, or new with no timers. */
  lemma ApplyKeepsTimed(b: Bus, e: Event)
    requires BusOk(b) && forall i :: 0 <= i < |b.cells| ==> OnlyTimedExpire(b.cells[i])
    ensures forall i :: 0 <= i < |Apply(b, e).cells| ==> OnlyTimedExpire(Apply(b, e).cells[i])
  {
    var b' := Apply(b, e);
    hide BusOk, StepCell, Apply, OnlyTimedExpire;
    forall i | 0 <= i < |b'.cells| ensures OnlyTimedExpire(b'.cells[i]) {
      if i < |b.cells| {
        var op := QueueMoves(b, e, i);
        if op.Some? {
          StepKeepsTimed(b.cells[i], op.value);
        }
      } else {
        NewQueueHasNoTimers(b, e, i);
      }
    }
  }

  lemma NewQueueHasNoTimers(b: Bus, e: Event, i: nat)
    requires |b.cells| <= i < |Apply(b, e).cells|
    ensures OnlyTimedExpire(Apply(b, e).cells[i])
  {
    hide StepCell, Seeds;
    assert e.Subscribe? && Apply(b, e).cells[i].timers == {} && Apply(b, e).cells[i].ledger.expired == {};
  }

  lemma {:induction false} RunKeepsTimed(b: Bus, events: seq<Event>)
    requires BusOk(b) && forall i :: 0 <= i < |b.cells| ==> OnlyTimedExpire(b.cells[i])
    ensures forall i :: 0 <= i < |Run(b, events).cells| ==> OnlyTimedExpire(Run(b, events).cells[i])
    decreases |events|
  {
    if events != [] {
      ApplyKeepsTimed(b, events[0]);
      ApplyKeepsOk(b, events[0]);
      RunKeepsTimed(Apply(b, events[0]), events[1..]);
    }
  }

  /** In every run only copies published with a time to live of zero or more ever expire. */
  lemma OnlyTimedMessagesExpire(events: seq<Event>, i: nat, m: Message)
    requires i < |Run(INIT, events).cells| && m in Run(INIT, events).cells[i].ledger.expired
    ensures m.options.Some? && m.options.value.ttlMs.Some? && m.options.value.ttlMs.value >= 0
  {
    ReachableIsOk([]);
    RunKeepsTimed(INIT, events);
    assert OnlyTimedExpire(Run(INIT, events).cells[i]);
  }
}
