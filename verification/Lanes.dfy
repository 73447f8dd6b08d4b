/**
 * Delivery order. On a partitioned queue a lane is a group; on a single-active queue it is a
 * priority. A lane stays in publish order over every step except those that put a message of the
 * lane back behind others of it; what happens in other lanes does not matter.
 */
module Lanes {
  import opened BusTypes
  import opened QueueSteps
  import opened QueueCells
  import opened GroupScan
  import opened Custody
  import opened Accounts
  import opened Holders

  predicate Ordered(config: QueueConfig) {
    config.partitionByGroup || config.singleActiveConsumer
  }

  datatype Lane = OfGroup(group: string) | OfPriority(priority: int)

  function LaneOf(config: QueueConfig, m: Message): Lane {
    if config.partitionByGroup then OfGroup(m.Group()) else OfPriority(m.Priority())
  }

  /** Nothing of the lane was ever nacked back into the queue. */
  ghost predicate NeverRequeued(c: Cell, lane: Lane) {
    forall m :: m in c.ledger.requeued ==> LaneOf(c.q.config, m) != lane
  }

  /** Deliveries, retries and expiry timers are of copies the queue took. */
  ghost predicate Sourced(c: Cell) {
    && (forall k :: 0 <= k < |c.ledger.sent| ==> c.ledger.sent[k].msg in c.ledger.enqueued)
    && (forall m :: m in c.timers ==> m in c.ledger.enqueued)
    && (forall m :: m in c.parked ==> m in c.ledger.requeued)
  }

  ghost predicate LaneAscends(config: QueueConfig, s: seq<Message>, lane: Lane) {
    forall i, j :: 0 <= i < j < |s| && LaneOf(config, s[i]) == lane && LaneOf(config, s[j]) == lane
       ==> s[i].id < s[j].id
  }

  /** Everything delivered so far in the lane is no newer than this copy. */
  ghost predicate SentUpTo(c: Cell, m: Message, lane: Lane) {
    forall k :: 0 <= k < |c.ledger.sent| && LaneOf(c.q.config, c.ledger.sent[k].msg) == lane
       ==> c.ledger.sent[k].msg.id <= m.id
  }

  /** Deliveries of the lane never step back. */
  ghost predicate SentInOrder(c: Cell, lane: Lane) {
    forall k, l :: 0 <= k < l < |c.ledger.sent|
      && LaneOf(c.q.config, c.ledger.sent[k].msg) == lane && LaneOf(c.q.config, c.ledger.sent[l].msg) == lane
      ==> c.ledger.sent[k].msg.id <= c.ledger.sent[l].msg.id
  }

  /** What waits and what is in flight of the lane stands in publish order. */
  ghost predicate Ahead(c: Cell, lane: Lane) {
    && LaneAscends(c.q.config, c.q.pending, lane)
    && (forall m, i :: m in c.q.inflight && 0 <= i < |c.q.pending|
          && LaneOf(c.q.config, m) == lane && LaneOf(c.q.config, c.q.pending[i]) == lane
          ==> m.id < c.q.pending[i].id)
  }

  /** What was delivered of the lane stands in publish order, before what waits and what is in flight. */
  ghost predicate Behind(c: Cell, lane: Lane) {
    && (forall i :: 0 <= i < |c.q.pending| && LaneOf(c.q.config, c.q.pending[i]) == lane
          ==> SentUpTo(c, c.q.pending[i], lane))
    && (forall m :: m in c.q.inflight && LaneOf(c.q.config, m) == lane ==> SentUpTo(c, m, lane))
    && SentInOrder(c, lane)
  }

  /** Past, present and future of the lane stand in publish order. */
  ghost predicate LaneInOrder(c: Cell, lane: Lane) {
    Ahead(c, lane) && Behind(c, lane)
  }

  ghost predicate Tidy(c: Cell) {
    Sourced(c) && (Ordered(c.q.config) ==> forall lane :: NeverRequeued(c, lane) ==> LaneInOrder(c, lane))
  }

  // ---------------------------------------------------------------- sourcing

  lemma StepKeepsSourced(c: Cell, op: Op)
    requires Sourced(c) && Conserved(c)
    ensures Sourced(StepCell(c, op))
  {
    hide PumpBlock, Conserved;
    match op
    case Enqueue(m) =>
    case Attach(h) =>
    case Detach(h) =>
    case Pump =>
      PumpIsExact(c.q);
      if c.owed > 0 && PumpBlock(c.q).Sent? {
        assert PumpBlock(c.q).msg in c.q.pending;
        LiveIsNotDone(c, PumpBlock(c.q).msg);
      }
    case Settle(m, h, kind) => SettleIsExact(c, m, h, kind);
    case Retry(m) =>
    case Expire(m) =>
  }

  // ---------------------------------------------------------------- lanes, step by step

  lemma NewestOfAll(c: Cell, m: Message)
    requires Sourced(c) && Conserved(c) && Newer(c, m)
    ensures forall x :: x in c.q.pending || x in c.q.inflight ==> x.id < m.id
    ensures forall k :: 0 <= k < |c.ledger.sent| ==> c.ledger.sent[k].msg.id < m.id
  {
    forall x | x in c.q.pending || x in c.q.inflight || x in c.ledger.enqueued ensures x.id < m.id {
      if x !in c.ledger.enqueued {
        LiveIsNotDone(c, x);
      }
      assert x in c.ledger.enqueued;
    }
    forall k | 0 <= k < |c.ledger.sent| ensures c.ledger.sent[k].msg.id < m.id {
      assert c.ledger.sent[k].msg in c.ledger.enqueued;
    }
  }

  lemma EnqueueKeepsLane(c: Cell, m: Message, lane: Lane)
    requires LaneInOrder(c, lane) && Sourced(c) && Conserved(c) && Newer(c, m)
    ensures LaneInOrder(EnqueueCell(c, m), lane)
  {
    NewestOfAll(c, m);
    hide Conserved, Sourced, LaneOf;
    NewestKeepsAhead(c, EnqueueCell(c, m), m, lane);
    NewestKeepsBehind(c, EnqueueCell(c, m), m, lane);
  }

  lemma NewestKeepsAhead(c: Cell, c': Cell, m: Message, lane: Lane)
    requires Ahead(c, lane)
    requires c'.q == c.q.(pending := c.q.pending + [m])
    requires forall x :: x in c.q.pending || x in c.q.inflight ==> x.id < m.id
    ensures Ahead(c', lane)
  {
    hide LaneOf;
    assert forall i :: 0 <= i < |c.q.pending| ==> c.q.pending[i] in c.q.pending && c'.q.pending[i] == c.q.pending[i];
  }

  lemma NewestKeepsBehind(c: Cell, c': Cell, m: Message, lane: Lane)
    requires Behind(c, lane)
    requires c'.q == c.q.(pending := c.q.pending + [m]) && c'.ledger.sent == c.ledger.sent
    requires forall k :: 0 <= k < |c.ledger.sent| ==> c.ledger.sent[k].msg.id < m.id
    ensures Behind(c', lane)
  {
    hide LaneOf;
    forall i | 0 <= i < |c'.q.pending| && LaneOf(c.q.config, c'.q.pending[i]) == lane
      ensures SentUpTo(c', c'.q.pending[i], lane)
    {
      if i < |c.q.pending| {
        assert SentUpTo(c, c.q.pending[i], lane);
      }
    }
    forall x | x in c'.q.inflight && LaneOf(c.q.config, x) == lane ensures SentUpTo(c', x, lane) {
      assert SentUpTo(c, x, lane);
    }
  }

  /** Removing messages from pending or from flight disturbs no lane. */
  lemma FewerKeepsLane(c: Cell, c': Cell, lane: Lane)
    requires LaneInOrder(c, lane) && c'.q.config == c.q.config && c'.ledger.sent == c.ledger.sent
    requires forall m :: m in c'.q.inflight ==> m in c.q.inflight
    requires c'.q.pending == c.q.pending
             || exists i :: 0 <= i < |c.q.pending| && c'.q.pending == RemoveAt(c.q.pending, i)
    ensures LaneInOrder(c', lane)
  {
    hide LaneOf;
    FewerKeepsAhead(c, c', lane);
    assert forall j :: 0 <= j < |c'.q.pending| ==> c'.q.pending[j] in c.q.pending;
    FewerKeepsBehind(c, c', lane);
  }

  lemma FewerKeepsAhead(c: Cell, c': Cell, lane: Lane)
    requires Ahead(c, lane) && c'.q.config == c.q.config
    requires forall m :: m in c'.q.inflight ==> m in c.q.inflight
    requires c'.q.pending == c.q.pending
             || exists i :: 0 <= i < |c.q.pending| && c'.q.pending == RemoveAt(c.q.pending, i)
    ensures Ahead(c', lane)
  {
    hide LaneOf;
  }

  lemma FewerKeepsBehind(c: Cell, c': Cell, lane: Lane)
    requires Behind(c, lane) && c'.q.config == c.q.config && c'.ledger.sent == c.ledger.sent
    requires forall m :: m in c'.q.inflight ==> m in c.q.inflight || m in c.q.pending
    requires forall j :: 0 <= j < |c'.q.pending| ==> c'.q.pending[j] in c.q.pending || c'.q.pending[j] in c.q.inflight
    ensures Behind(c', lane)
  {
    hide LaneOf;
    forall x | (x in c.q.pending || x in c.q.inflight) && LaneOf(c.q.config, x) == lane ensures SentUpTo(c', x, lane) {
      assert SentUpTo(c, x, lane);
    }
  }

  /** The message handed over is the earliest of its lane, and alone of its lane in flight. */
  lemma SentIsEarliest(q: Queue, q': Queue, i: nat, h: Handler)
    requires Ordered(q.config) && WellHeld(q) && SentEffect(q, q', i, h)
    ensures forall j :: 0 <= j < i ==> LaneOf(q.config, q.pending[j]) != LaneOf(q.config, q.pending[i])
    ensures forall x :: x in q.inflight ==> LaneOf(q.config, x) != LaneOf(q.config, q.pending[i])
  {
    var m := q.pending[i];
    if q.config.partitionByGroup {
      forall j | 0 <= j < i ensures LaneOf(q.config, q.pending[j]) != LaneOf(q.config, m) {
        assert !Eligible(q, q.pending[j]);
      }
      forall x | x in q.inflight ensures LaneOf(q.config, x) != LaneOf(q.config, m) {
        assert q.inflight[x] in q.Busy();
      }
    }
  }

  /** The handover as the lanes see it. */
  ghost predicate HandedOver(c: Cell, c': Cell, i: nat, h: Handler) {
    && i < |c.q.pending|
    && c'.q.config == c.q.config
    && c'.q.pending == RemoveAt(c.q.pending, i)
    && c'.q.inflight == c.q.inflight[c.q.pending[i] := h]
    && c'.ledger.sent == c.ledger.sent + [Delivery(c.q.pending[i], h)]
    && (forall j :: 0 <= j < i ==> LaneOf(c.q.config, c.q.pending[j]) != LaneOf(c.q.config, c.q.pending[i]))
    && (forall x :: x in c.q.inflight ==> LaneOf(c.q.config, x) != LaneOf(c.q.config, c.q.pending[i]))
  }

  lemma HandedOverAhead(c: Cell, c': Cell, i: nat, h: Handler, lane: Lane)
    requires Ahead(c, lane) && HandedOver(c, c', i, h)
    ensures Ahead(c', lane)
  {
    hide LaneOf;
    forall m, j | m in c'.q.inflight && 0 <= j < |c'.q.pending|
                  && LaneOf(c'.q.config, m) == lane && LaneOf(c'.q.config, c'.q.pending[j]) == lane
      ensures m.id < c'.q.pending[j].id
    {
      var k := if j < i then j else j + 1;
      assert c'.q.pending[j] == c.q.pending[k];
    }
  }

  lemma HandedOverBehind(c: Cell, c': Cell, i: nat, h: Handler, lane: Lane)
    requires Ahead(c, lane) && Behind(c, lane) && HandedOver(c, c', i, h) && Ahead(c', lane)
    ensures Behind(c', lane)
  {
    hide LaneOf;
    var m := c.q.pending[i];
    assert LaneOf(c.q.config, m) == lane ==> SentUpTo(c, m, lane);
    assert m in c'.q.inflight;
    forall j | 0 <= j < |c'.q.pending| && LaneOf(c'.q.config, c'.q.pending[j]) == lane
      ensures SentUpTo(c', c'.q.pending[j], lane)
    {
      assert c'.q.pending[j] == c.q.pending[if j < i then j else j + 1];
      assert SentUpTo(c, c'.q.pending[j], lane);
    }
    forall x | x in c'.q.inflight && LaneOf(c'.q.config, x) == lane ensures SentUpTo(c', x, lane) {
      if x != m {
        assert SentUpTo(c, x, lane);
      }
    }
  }

  lemma SentKeepsLane(c: Cell, c': Cell, i: nat, h: Handler, lane: Lane)
    requires Ordered(c.q.config) && LaneInOrder(c, lane) && WellHeld(c.q) && SentEffect(c.q, c'.q, i, h)
    requires c'.ledger.sent == c.ledger.sent + [Delivery(c.q.pending[i], h)]
    ensures LaneInOrder(c', lane)
  {
    SentIsEarliest(c.q, c'.q, i, h);
    hide Ahead, Behind, WellHeld, LaneOf;
    HandedOverAhead(c, c', i, h, lane);
    HandedOverBehind(c, c', i, h, lane);
  }

  lemma PumpKeepsLane(c: Cell, lane: Lane)
    requires Ordered(c.q.config) && LaneInOrder(c, lane) && WellHeld(c.q)
    ensures LaneInOrder(PumpCell(c), lane)
  {
    hide PumpBlock, LaneInOrder;
    PumpIsExact(c.q);
    var c' := PumpCell(c);
    if c.owed > 0 {
      match PumpBlock(c.q)
      case Idle(q') => FewerKeepsLane(c, c', lane);
      case Sent(q', i, m, h) => SentKeepsLane(c, c', i, h, lane);
    }
  }

  /** A consumer holds at most one message, so at most one goes back to the front. */
  lemma HeldIsAtMostOne(q: Queue, h: Handler)
    requires PrefetchOne(q)
    ensures Listed(Held(q, h)) == [] || exists m :: m in q.inflight && q.inflight[m] == h && Listed(Held(q, h)) == [m]
  {
    var held, listed := Held(q, h), Listed(Held(q, h));
    if listed != [] {
      var m := listed[0];
      assert m in multiset(listed);
      forall i | 0 <= i < |listed| ensures listed[i] == m {
        assert listed[i] in multiset(listed);
      }
    }
  }

  lemma DetachKeepsLane(c: Cell, h: Handler, lane: Lane)
    requires Ordered(c.q.config) && LaneInOrder(c, lane) && WellHeld(c.q)
    ensures LaneInOrder(DetachCell(c, h), lane)
  {
    var c' := DetachCell(c, h);
    HeldIsAtMostOne(c.q, h);
    hide LaneInOrder;
    if Listed(Held(c.q, h)) == [] {
      assert c'.q.pending == c.q.pending;
      FewerKeepsLane(c, c', lane);
    } else {
      var m :| m in c.q.inflight && c.q.inflight[m] == h && Listed(Held(c.q, h)) == [m];
      ReturnedKeepsLane(c, c', m, lane);
    }
  }

  lemma ReturnedKeepsLane(c: Cell, c': Cell, m: Message, lane: Lane)
    requires LaneInOrder(c, lane) && WellHeld(c.q) && m in c.q.inflight
    requires c'.q.config == c.q.config && c'.ledger.sent == c.ledger.sent
    requires c'.q.pending == [m] + c.q.pending
    requires forall x :: x in c'.q.inflight ==> x in c.q.inflight && c.q.inflight[x] != c.q.inflight[m]
    requires Ordered(c.q.config)
    ensures LaneInOrder(c', lane)
  {
    forall x | x in c'.q.inflight ensures LaneOf(c.q.config, x) != LaneOf(c.q.config, m) {
      OneInFlightPerLane(c.q, x, m);
    }
    hide WellHeld, Ordered, LaneOf;
    ReturnedKeepsAhead(c, c', m, lane);
    assert forall j :: 0 <= j < |c'.q.pending| ==> c'.q.pending[j] in c.q.pending || c'.q.pending[j] == m;
    FewerKeepsBehind(c, c', lane);
  }

  lemma ReturnedKeepsAhead(c: Cell, c': Cell, m: Message, lane: Lane)
    requires Ahead(c, lane) && m in c.q.inflight
    requires c'.q.config == c.q.config && c'.q.pending == [m] + c.q.pending
    requires forall x :: x in c'.q.inflight ==> x in c.q.inflight && LaneOf(c.q.config, x) != LaneOf(c.q.config, m)
    ensures Ahead(c', lane)
  {
    hide LaneOf;
  }

  /** Two messages in flight on an ordered queue are in different lanes. */
  lemma OneInFlightPerLane(q: Queue, a: Message, b: Message)
    requires WellHeld(q) && Ordered(q.config) && a in q.inflight && b in q.inflight && a != b
    ensures LaneOf(q.config, a) != LaneOf(q.config, b)
  {
    if q.config.partitionByGroup {
      if a.Group() == b.Group() {
        OneInFlightPerGroup(q, a, b);
      }
    }
  }

  lemma ExpireKeepsLane(c: Cell, m: Message, lane: Lane)
    requires LaneInOrder(c, lane)
    ensures LaneInOrder(ExpireCell(c, m), lane)
  {
    hide LaneInOrder;
    if m in c.timers && m in c.q.pending {
      var i := RemoveFirstIsRemoveAt(c.q.pending, m);
    }
    FewerKeepsLane(c, ExpireCell(c, m), lane);
  }

  // ---------------------------------------------------------------- putting a message back

  /** Some pending message is of the lane. */
  predicate LanePending(c: Cell, lane: Lane) {
    exists i :: 0 <= i < |c.q.pending| && LaneOf(c.q.config, c.q.pending[i]) == lane
  }

  /**
   * A message of the lane put at the back, with none of the lane pending, none newer delivered, and none in
   * flight that is not older.
   */
  lemma BackKeepsLane(c: Cell, c': Cell, m: Message, lane: Lane)
    requires LaneInOrder(c, lane) && LaneOf(c.q.config, m) == lane && SentUpTo(c, m, lane) && !LanePending(c, lane)
    requires c'.q.config == c.q.config && c'.ledger.sent == c.ledger.sent
    requires c'.q.pending == c.q.pending + [m]
    requires forall x :: x in c'.q.inflight ==> x in c.q.inflight
    requires forall x :: x in c'.q.inflight && LaneOf(c.q.config, x) == lane ==> x.id < m.id
    ensures LaneInOrder(c', lane)
  {
    hide LaneOf;
    var n := |c.q.pending|;
    assert forall i :: 0 <= i < n ==> c'.q.pending[i] == c.q.pending[i] && LaneOf(c.q.config, c.q.pending[i]) != lane;
    assert c'.q.pending[n] == m && SentUpTo(c', m, lane);
    forall x | x in c'.q.inflight && LaneOf(c'.q.config, x) == lane ensures SentUpTo(c', x, lane) {
      assert SentUpTo(c, x, lane);
    }
  }

  /** A message of another lane at the back. */
  lemma OtherBackKeepsLane(c: Cell, c': Cell, m: Message, lane: Lane)
    requires LaneInOrder(c, lane) && LaneOf(c.q.config, m) != lane
    requires c'.q.config == c.q.config && c'.ledger.sent == c.ledger.sent
    requires c'.q.pending == c.q.pending + [m] && forall x :: x in c'.q.inflight ==> x in c.q.inflight
    ensures LaneInOrder(c', lane)
  {
    hide LaneOf;
    forall i | 0 <= i < |c'.q.pending| && LaneOf(c'.q.config, c'.q.pending[i]) == lane
      ensures SentUpTo(c', c'.q.pending[i], lane)
    {
      assert SentUpTo(c, c'.q.pending[i], lane);
    }
    forall x | x in c'.q.inflight && LaneOf(c'.q.config, x) == lane ensures SentUpTo(c', x, lane) {
      assert SentUpTo(c, x, lane);
    }
  }

  /**
   * Exactly when a settlement keeps a lane in publish order: unless it puts a message of the lane straight
   * back while another of the lane is pending.
   */
  lemma SettleKeepsOrderExactly(c: Cell, m: Message, h: Handler, kind: SettleKind, lane: Lane)
    requires WellHeld(c.q) && Ordered(c.q.config) && LaneInOrder(c, lane)
    requires m in c.q.inflight && c.q.inflight[m] == h
    ensures LaneInOrder(SettleCell(c, m, h, kind), lane)
            <==> !(Decide(c.q.config, c.q.Count(m), kind).Requeued? && LaneOf(c.q.config, m) == lane
                   && LanePending(c, lane))
  {
    SettleIsExact(c, m, h, kind);
    var c' := SettleCell(c, m, h, kind);
    hide SettleCell, WellHeld, Ordered, Decide, LaneOf;
    if !Decide(c.q.config, c.q.Count(m), kind).Requeued? {
      FewerKeepsLane(c, c', lane);
    } else {
      assert c'.q.pending[|c.q.pending|] == m;
      if i :| 0 <= i < |c.q.pending| && LaneOf(c.q.config, m) == lane && LaneOf(c.q.config, c.q.pending[i]) == lane {
        assert c'.q.pending[i] == c.q.pending[i] && m.id < c.q.pending[i].id;
      } else if LaneOf(c.q.config, m) == lane {
        AloneInFlight(c.q, m);
        BackKeepsLane(c, c', m, lane);
      } else {
        OtherBackKeepsLane(c, c', m, lane);
      }
    }
  }

  /** Nothing else of its lane is in flight. */
  lemma AloneInFlight(q: Queue, m: Message)
    requires WellHeld(q) && Ordered(q.config) && m in q.inflight
    ensures forall x :: x in q.inflight && x != m ==> LaneOf(q.config, x) != LaneOf(q.config, m)
  {
    forall x | x in q.inflight && x != m ensures LaneOf(q.config, x) != LaneOf(q.config, m) {
      OneInFlightPerLane(q, x, m);
    }
  }

  /** Something delivered is in the record of deliveries. */
  lemma {:induction false} SentSomewhere(sent: seq<Delivery>, m: Message)
    requires TimesSent(sent, m) > 0
    ensures exists k :: 0 <= k < |sent| && sent[k].msg == m
  {
    var n := |sent| - 1;
    if sent[n].msg != m {
      SentSomewhere(sent[..n], m);
      var k :| 0 <= k < n && sent[..n][k].msg == m;
      assert sent[k].msg == m;
    }
  }

  lemma OnceDelivered(c: Cell, m: Message) returns (k: nat)
    requires Conserved(c) && Balanced(c) && Sourced(c) && (m in c.q.inflight || m in c.parked)
    ensures k < |c.ledger.sent| && c.ledger.sent[k].msg == m && m in c.ledger.enqueued
  {
    LiveIsNotDone(c, m);
    assert c.q.Count(m) == TimesEnded(c, m) + One(m in c.q.inflight);
    assert c.q.Count(m) == TimesSent(c.ledger.sent, m);
    SentSomewhere(c.ledger.sent, m);
    k :| 0 <= k < |c.ledger.sent| && c.ledger.sent[k].msg == m;
  }

  /** Nothing of the lane is pending, and nothing of it newer than the message was delivered. */
  ghost predicate ComesBackInOrder(c: Cell, m: Message, lane: Lane) {
    !LanePending(c, lane) && SentUpTo(c, m, lane)
  }

  lemma RetryInOrder(c: Cell, m: Message, lane: Lane)
    requires Conserved(c) && Balanced(c) && Sourced(c) && WellHeld(c.q) && Ordered(c.q.config)
    requires LaneInOrder(c, lane) && m in c.parked
    requires LaneOf(c.q.config, m) == lane ==> ComesBackInOrder(c, m, lane)
    ensures LaneInOrder(RetryCell(c, m), lane)
  {
    LiveIsNotDone(c, m);
    if LaneOf(c.q.config, m) == lane {
      forall x | x in c.q.inflight && LaneOf(c.q.config, x) == lane ensures x.id < m.id {
        var l := OnceDelivered(c, x);
        var k := OnceDelivered(c, m);
      }
      hide Balanced, Conserved, LaneInOrder, LaneOf, WellHeld;
      BackKeepsLane(c, RetryCell(c, m), m, lane);
    } else {
      hide Balanced, Conserved, LaneOf, WellHeld;
      OtherBackKeepsLane(c, RetryCell(c, m), m, lane);
    }
  }

  lemma SentBeforePending(c: Cell, k: nat, lane: Lane)
    requires LaneInOrder(c, lane) && k < |c.ledger.sent| && LaneOf(c.q.config, c.ledger.sent[k].msg) == lane
    ensures forall i :: 0 <= i < |c.q.pending| && LaneOf(c.q.config, c.q.pending[i]) == lane
              ==> c.ledger.sent[k].msg.id <= c.q.pending[i].id
  {
    forall i | 0 <= i < |c.q.pending| && LaneOf(c.q.config, c.q.pending[i]) == lane
      ensures c.ledger.sent[k].msg.id <= c.q.pending[i].id
    {
      assert SentUpTo(c, c.q.pending[i], lane);
    }
  }

  lemma PendingBeforeBack(config: QueueConfig, s: seq<Message>, m: Message, lane: Lane)
    requires LaneAscends(config, s + [m], lane) && LaneOf(config, m) == lane
    ensures forall i :: 0 <= i < |s| && LaneOf(config, s[i]) == lane ==> s[i].id < m.id
  {
    var t := s + [m];
    assert t[|s|] == m && forall i :: 0 <= i < |s| ==> t[i] == s[i];
  }

  lemma RetryOutOfOrder(c: Cell, m: Message, lane: Lane)
    requires Conserved(c) && Balanced(c) && Sourced(c)
    requires LaneInOrder(c, lane) && m in c.parked && LaneOf(c.q.config, m) == lane
             && LaneInOrder(RetryCell(c, m), lane)
    ensures ComesBackInOrder(c, m, lane)
  {
    var c' := RetryCell(c, m);
    var n := |c.q.pending|;
    assert c'.q.pending[n] == m;
    var k := OnceDelivered(c, m);
    hide Conserved, Balanced, Sourced, LaneOf;
    assert SentUpTo(c', m, lane);
    SentBeforePending(c, k, lane);
    PendingBeforeBack(c.q.config, c.q.pending, m, lane);
  }

  /** Exactly when a delayed retry keeps a lane in publish order. */
  lemma RetryKeepsOrderExactly(c: Cell, m: Message, lane: Lane)
    requires Conserved(c) && Balanced(c) && Sourced(c) && WellHeld(c.q) && Ordered(c.q.config)
    requires LaneInOrder(c, lane) && m in c.parked
    ensures LaneInOrder(RetryCell(c, m), lane) <==> (LaneOf(c.q.config, m) == lane ==> ComesBackInOrder(c, m, lane))
  {
    hide Conserved, Balanced, Sourced, WellHeld, LaneInOrder, ComesBackInOrder, LaneOf;
    if LaneOf(c.q.config, m) == lane ==> ComesBackInOrder(c, m, lane) {
      RetryInOrder(c, m, lane);
    }
    if LaneOf(c.q.config, m) == lane && LaneInOrder(RetryCell(c, m), lane) {
      RetryOutOfOrder(c, m, lane);
    }
  }

  /** The step puts a message of the lane back where it disturbs the lane. */
  ghost predicate Disturbs(c: Cell, op: Op, lane: Lane) {
    match op
    case Settle(m, h, kind) =>
      && m in c.q.inflight && c.q.inflight[m] == h && LaneOf(c.q.config, m) == lane
      && Decide(c.q.config, c.q.Count(m), kind).Requeued? && LanePending(c, lane)
    case Retry(m) => m in c.parked && LaneOf(c.q.config, m) == lane && !ComesBackInOrder(c, m, lane)
    case _ => false
  }

  /** Exactly when a step keeps a lane in publish order, whatever the other lanes are like. */
  lemma StepKeepsLaneExactly(c: Cell, op: Op, lane: Lane)
    requires Conserved(c) && Balanced(c) && Sourced(c) && WellHeld(c.q) && Admissible(c, op)
    requires Ordered(c.q.config) && LaneInOrder(c, lane)
    ensures LaneInOrder(StepCell(c, op), lane) <==> !Disturbs(c, op, lane)
  {
    hide PumpCell, LaneInOrder, Conserved, Balanced, Sourced, WellHeld, ComesBackInOrder, LanePending, LaneOf, Decide;
    match op
    case Enqueue(m) => EnqueueKeepsLane(c, m, lane);
    case Attach(h) => FewerKeepsLane(c, AttachCell(c, h), lane);
    case Detach(h) => DetachKeepsLane(c, h, lane);
    case Pump => PumpKeepsLane(c, lane);
    case Settle(m, h, kind) =>
      if m in c.q.inflight && c.q.inflight[m] == h {
        SettleKeepsOrderExactly(c, m, h, kind, lane);
      } else {
        SettleIsExact(c, m, h, kind);
      }
    case Retry(m) =>
      if m in c.parked {
        RetryKeepsOrderExactly(c, m, lane);
      }
    case Expire(m) => ExpireKeepsLane(c, m, lane);
  }

  // ---------------------------------------------------------------- lanes in which nothing is put back

  /** Nacks are remembered, so a step after which a lane has seen none has put nothing of it back. */
  lemma NeverRequeuedNeverDisturbs(c: Cell, op: Op, lane: Lane)
    requires Sourced(c) && NeverRequeued(StepCell(c, op), lane)
    ensures NeverRequeued(c, lane) && !Disturbs(c, op, lane)
  {
    hide PumpBlock, LaneOf, LanePending, ComesBackInOrder;
    if op.Pump? {
      PumpIsExact(c.q);
    }
    if op.Settle? {
      SettleIsExact(c, op.msg, op.handler, op.kind);
    }
    assert StepCell(c, op).q.config == c.q.config;
    assert forall m :: m in c.ledger.requeued ==> m in StepCell(c, op).ledger.requeued;
  }

  lemma StepKeepsTidy(c: Cell, op: Op)
    requires Tidy(c) && Conserved(c) && Balanced(c) && WellHeld(c.q) && Admissible(c, op)
    ensures Tidy(StepCell(c, op))
  {
    hide PumpBlock, LaneInOrder, Conserved, Balanced, WellHeld, NeverRequeued, Disturbs;
    StepKeepsSourced(c, op);
    if op.Pump? {
      PumpIsExact(c.q);
    }
    if Ordered(c.q.config) {
      forall lane | NeverRequeued(StepCell(c, op), lane) ensures LaneInOrder(StepCell(c, op), lane) {
        NeverRequeuedNeverDisturbs(c, op, lane);
        StepKeepsLaneExactly(c, op, lane);
      }
    }
  }

  /** A copy that was never nacked back is delivered again only after a drop returned it. */
  lemma RepeatsOnlyAfterDrops(c: Cell, m: Message)
    requires Balanced(c) && Conserved(c) && m !in c.ledger.requeued && c.ledger.lapsed <= c.ledger.expired
    ensures TimesSent(c.ledger.sent, m) <= c.ledger.returned[m] + 1
  {
    AtMostOnePlace(c, m);
    assert c.q.Count(m) == TimesSent(c.ledger.sent, m) == TimesEnded(c, m) + One(m in c.q.inflight);
    assert Places(c, m) <= 1;
  }
}
