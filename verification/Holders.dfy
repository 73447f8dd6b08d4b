/** Who may hold what: prefetch one, attached holders, single-active and group ownership. */
module Holders {
  import opened Wrappers
  import opened BusTypes
  import opened QueueSteps
  import opened QueueCells
  import opened GroupScan

  /** No consumer holds two messages. */
  ghost predicate PrefetchOne(q: Queue) {
    forall a, b :: a in q.inflight && b in q.inflight && q.inflight[a] == q.inflight[b] ==> a == b
  }

  ghost predicate HoldersAttached(q: Queue) {
    forall m :: m in q.inflight ==> q.inflight[m] in q.consumers
  }

  /** On a single-active queue without partitioning only the first attached consumer holds anything. */
  ghost predicate FirstHolds(q: Queue) {
    q.config.singleActiveConsumer && !q.config.partitionByGroup ==>
      forall m :: m in q.inflight ==> q.consumers != [] && q.inflight[m] == q.consumers[0]
  }

  /** On a partitioned queue the holder of a message is the recorded owner of its group. */
  ghost predicate GroupsOwned(q: Queue) {
    q.config.partitionByGroup ==>
      forall m :: m in q.inflight ==> Owner(q.affinity, q.consumers, m.Group()) == Some(q.inflight[m])
  }

  ghost predicate WellHeld(q: Queue) {
    PrefetchOne(q) && HoldersAttached(q) && FirstHolds(q) && GroupsOwned(q)
  }

  /** A group has at most one message in flight. */
  lemma OneInFlightPerGroup(q: Queue, a: Message, b: Message)
    requires WellHeld(q) && q.config.partitionByGroup
    requires a in q.inflight && b in q.inflight && a.Group() == b.Group()
    ensures a == b
  {
    assert Some(q.inflight[a]) == Some(q.inflight[b]);
  }

  lemma FewerHeld(q: Queue, q': Queue, gone: set<Message>)
    requires WellHeld(q)
    requires q'.config == q.config && q'.consumers == q.consumers && q'.affinity == q.affinity
    requires q'.inflight == q.inflight - gone
    ensures WellHeld(q')
  {
    assert forall m :: m in q'.inflight ==> m in q.inflight && q'.inflight[m] == q.inflight[m];
  }

  lemma SameHeld(q: Queue, q': Queue)
    requires WellHeld(q) && q' == q.(pending := q'.pending)
    ensures WellHeld(q')
  {
  }

  lemma AttachKeepsHeld(q: Queue, h: Handler)
    requires WellHeld(q)
    ensures WellHeld(q.(consumers := q.consumers + [h]))
  {
    var q' := q.(consumers := q.consumers + [h]);
    forall m | m in q'.inflight ensures q'.consumers[0] == q.consumers[0] && q'.inflight[m] in q'.consumers {
      assert q.inflight[m] in q.consumers;
    }
  }

  lemma DropKeepsHeld(q: Queue, h: Handler)
    requires WellHeld(q)
    ensures WellHeld(DropBlock(q, h))
  {
    var q' := DropBlock(q, h);
    forall m | m in q'.inflight
      ensures m in q.inflight && q'.inflight[m] == q.inflight[m] != h
      ensures q'.inflight[m] in q'.consumers && q.consumers != []
      ensures q.consumers[0] == q.inflight[m] ==> q'.consumers != [] && q'.consumers[0] == q.consumers[0]
    {
      assert m !in Held(q, h);
      RemoveFirstKeepsOthers(q.consumers, h, q.inflight[m]);
    }
  }

  lemma SentKeepsHeld(q: Queue, q': Queue, i: nat, c: Handler)
    requires WellHeld(q) && SentEffect(q, q', i, c)
    ensures WellHeld(q')
  {
    var m := q.pending[i];
    forall x | x in q.inflight ensures q.inflight[x] != c {
      assert q.inflight[x] in q.Busy();
    }
    if q.config.partitionByGroup {
      forall x | x in q'.inflight ensures Owner(q'.affinity, q'.consumers, x.Group()) == Some(q'.inflight[x]) {
        if x != m {
          assert Owner(q.affinity, q.consumers, x.Group()) == Some(q.inflight[x]);
        }
      }
    }
  }

  lemma PumpKeepsHeld(q: Queue)
    requires WellHeld(q)
    ensures WellHeld(PumpBlock(q).queue)
  {
    hide PumpBlock;
    PumpIsExact(q);
    match PumpBlock(q)
    case Idle(q') =>
    case Sent(q', i, m, c) => SentKeepsHeld(q, q', i, c);
  }

  lemma StepKeepsHeld(c: Cell, op: Op)
    requires WellHeld(c.q)
    ensures WellHeld(StepCell(c, op).q)
  {
    hide PumpBlock, WellHeld;
    match op
    case Enqueue(m) => SameHeld(c.q, EnqueueCell(c, m).q);
    case Attach(h) => AttachKeepsHeld(c.q, h);
    case Detach(h) => DropKeepsHeld(c.q, h);
    case Pump => PumpKeepsHeld(c.q);
    case Settle(m, h, kind) =>
      if !SettleBlock(c.q, m, h, kind).1.Ignored? {
        FewerHeld(c.q, StepCell(c, op).q, {m});
      }
    case Retry(m) => SameHeld(c.q, RetryCell(c, m).q);
    case Expire(m) =>
      if m in c.timers && m !in c.q.pending {
        FewerHeld(c.q, StepCell(c, op).q, {m});
      } else {
        SameHeld(c.q, ExpireCell(c, m).q);
      }
  }

  /** A group stays with its owner for as long as the owner stays attached, whatever happens. */
  lemma OwnerChangesOnlyWhenItLeaves(c: Cell, op: Op, group: string, owner: Handler)
    requires Owner(c.q.affinity, c.q.consumers, group) == Some(owner)
    requires owner in StepCell(c, op).q.consumers
    ensures Owner(StepCell(c, op).q.affinity, StepCell(c, op).q.consumers, group) == Some(owner)
  {
    hide PumpBlock;
    if op.Pump? {
      PumpIsExact(c.q);
    }
  }
}
