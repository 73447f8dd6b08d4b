/** Round robin over whole runs: a free consumer of a plain queue does not wait for more than one round. */
module Fairness {
  import opened Wrappers
  import opened BusTypes
  import opened QueueSteps
  import opened QueueCells
  import opened BusMachine
  import opened RoundRobin
  import opened GroupScan
  import opened BusInvariants

  predicate Plain(config: QueueConfig) {
    !config.partitionByGroup && !config.singleActiveConsumer
  }

  /** Along the run nobody joins or leaves the queue. */
  ghost predicate ConsumersFixed(b: Bus, events: seq<Event>, i: nat)
    decreases |events|
  {
    && i < |b.cells|
    && (events != [] ==>
          var b' := Apply(b, events[0]);
          && i < |b'.cells| && b'.cells[i].q.consumers == b.cells[i].q.consumers
          && ConsumersFixed(b', events[1..], i))
  }

  /** Consumer `j` is free. */
  predicate Free(c: Cell, j: nat) {
    j < |c.q.consumers| && c.q.consumers[j] !in c.q.Busy()
  }

  /** How many more deliveries may pass the consumer over. */
  function Wait(c: Cell, j: nat): nat
    requires j < |c.q.consumers|
  {
    Distance(c.q.rr, j, |c.q.consumers|)
  }

  /** What one step does to a free consumer's wait. */
  ghost predicate Waited(c: Cell, c': Cell, j: nat)
    requires j < |c.q.consumers| && c'.q.consumers == c.q.consumers
  {
    || (c'.ledger.sent == c.ledger.sent && Free(c', j) && c'.q.rr == c.q.rr)
    || (exists d :: c'.ledger.sent == c.ledger.sent + [d]
                    && (d.to == c.q.consumers[j] || (Free(c', j) && Wait(c', j) < Wait(c, j))))
  }

  lemma PumpWaits(c: Cell, j: nat)
    requires Plain(c.q.config) && Free(c, j)
    ensures PumpCell(c).q.consumers == c.q.consumers && Waited(c, PumpCell(c), j)
  {
    var h := c.q.consumers[j];
    if c.owed > 0 && c.q.pending != [] {
      PickIsExact(c.q.consumers, c.q.Busy(), c.q.rr);
      assert SomeFree(c.q.consumers, c.q.Busy());
      var (free, rr) := Pick(c.q.consumers, c.q.Busy(), c.q.rr, |c.q.consumers|);
      if free.value != h {
        OvertakenOnce(c.q.consumers, c.q.Busy(), c.q.rr, |c.q.consumers|, j);
      }
      var c' := PumpCell(c);
      var m := c.q.pending[Best(c.q.pending)];
      assert c'.ledger.sent == c.ledger.sent + [Delivery(m, free.value)];
      assert c'.q.Busy() <= c.q.Busy() + {free.value};
    }
  }

  lemma StepWaits(c: Cell, op: Op, j: nat)
    requires Plain(c.q.config) && Free(c, j) && StepCell(c, op).q.consumers == c.q.consumers
    ensures Waited(c, StepCell(c, op), j)
  {
    hide PumpBlock;
    if op.Pump? {
      PumpWaits(c, j);
    } else {
      if op.Settle? {
        SettleIsExact(c, op.msg, op.handler, op.kind);
      }
      assert StepCell(c, op).q.Busy() <= c.q.Busy();
    }
  }

  lemma StepExtendsSent(c: Cell, op: Op)
    ensures c.ledger.sent <= StepCell(c, op).ledger.sent
  {
    hide PumpBlock;
    if op.Settle? {
      SettleIsExact(c, op.msg, op.handler, op.kind);
    }
  }

  /** The record of deliveries only grows. */
  lemma {:induction false} RunExtendsSent(b: Bus, events: seq<Event>, i: nat)
    requires BusOk(b) && i < |b.cells|
    ensures i < |Run(b, events).cells| && b.cells[i].ledger.sent <= Run(b, events).cells[i].ledger.sent
    decreases |events|
  {
    hide BusOk, Apply, StepCell;
    if events != [] {
      var op := QueueMoves(b, events[0], i);
      ApplyKeepsOk(b, events[0]);
      if op.Some? {
        StepExtendsSent(b.cells[i], op.value);
      }
      RunExtendsSent(Apply(b, events[0]), events[1..], i);
    }
  }

  /**
   * Of the deliveries in `all` after those in `sent`, one of the next `wait + 1` is to the consumer, if there
   * are that many.
   */
  ghost predicate ServedWithin(sent: seq<Delivery>, all: seq<Delivery>, wait: nat, h: Handler) {
    && sent <= all
    && (|all| > |sent| + wait ==> exists k :: |sent| <= k <= |sent| + wait && all[k].to == h)
  }

  lemma ServedOneLater(sent: seq<Delivery>, d: Delivery, all: seq<Delivery>, wait: nat, later: nat, h: Handler)
    requires ServedWithin(sent + [d], all, later, h) && later < wait
    ensures ServedWithin(sent, all, wait, h)
  {
  }

  lemma ServedNow(sent: seq<Delivery>, d: Delivery, all: seq<Delivery>, wait: nat)
    requires sent + [d] <= all
    ensures ServedWithin(sent, all, wait, d.to)
  {
    assert all[|sent|] == d;
  }

  /** A free consumer is served within its wait, however the run goes. */
  lemma {:induction false} ServedInTime(b: Bus, events: seq<Event>, i: nat, j: nat)
    requires BusOk(b) && ConsumersFixed(b, events, i)
    requires Plain(b.cells[i].q.config) && Free(b.cells[i], j)
    ensures i < |Run(b, events).cells|
    ensures var c := b.cells[i];
            ServedWithin(c.ledger.sent, Run(b, events).cells[i].ledger.sent, Wait(c, j), c.q.consumers[j])
    decreases |events|
  {
    hide BusOk, Apply, StepCell, ServedWithin, Distance;
    var c := b.cells[i];
    if events == [] {
      ServedLater(c.ledger.sent, Wait(c, j), c.q.consumers[j]);
    } else {
      var op := QueueMoves(b, events[0], i);
      var b' := Apply(b, events[0]);
      ApplyKeepsOk(b, events[0]);
      var c' := b'.cells[i];
      if op.None? {
        ServedInTime(b', events[1..], i, j);
      } else {
        StepKeepsIdentity(c, op.value);
        StepWaits(c, op.value, j);
        if c'.ledger.sent == c.ledger.sent && Free(c', j) && c'.q.rr == c.q.rr {
          ServedInTime(b', events[1..], i, j);
        } else {
          var d :| c'.ledger.sent == c.ledger.sent + [d]
                   && (d.to == c.q.consumers[j] || (Free(c', j) && Wait(c', j) < Wait(c, j)));
          RunExtendsSent(b', events[1..], i);
          var all := Run(b', events[1..]).cells[i].ledger.sent;
          if d.to == c.q.consumers[j] {
            ServedNow(c.ledger.sent, d, all, Wait(c, j));
          } else {
            ServedInTime(b', events[1..], i, j);
            ServedOneLater(c.ledger.sent, d, all, Wait(c, j), Wait(c', j), c.q.consumers[j]);
          }
        }
      }
    }
  }

  lemma ServedLater(sent: seq<Delivery>, wait: nat, h: Handler)
    ensures ServedWithin(sent, sent, wait, h)
  {
  }

  /**
   * On a plain queue of n consumers, from any reachable state and over any run in which nobody joins or
   * leaves: a consumer that is free at the start gets one of the next n deliveries.
   */
  lemma FreeConsumerIsServedWithinARound(before: seq<Event>, events: seq<Event>, i: nat, h: Handler)
    requires ConsumersFixed(Run(INIT, before), events, i)
    requires var q := Run(INIT, before).cells[i].q; Plain(q.config) && h in q.consumers && h !in q.Busy()
    ensures i < |Run(Run(INIT, before), events).cells|
    ensures var c, sent := Run(INIT, before).cells[i], Run(Run(INIT, before), events).cells[i].ledger.sent;
            && c.ledger.sent <= sent
            && (|sent| >= |c.ledger.sent| + |c.q.consumers| ==>
                  exists k :: |c.ledger.sent| <= k < |c.ledger.sent| + |c.q.consumers| && sent[k].to == h)
  {
    var b := Run(INIT, before);
    var c := b.cells[i];
    ReachableIsOk(before);
    var j :| 0 <= j < |c.q.consumers| && c.q.consumers[j] == h;
    hide Run, BusOk;
    ServedInTime(b, events, i, j);
  }

  // ---------------------------------------------------------------- partitioned queues

  /** With consumer `j` free the scan passes over owned groups, and its one pick is a round-robin pick. */
  lemma {:induction false} ScanPicksInTurn(pending: seq<Message>, consumers: seq<Handler>, busy: set<Handler>, i: nat,
                                           affinity: map<string, Handler>, rr: nat, j: nat)
    requires i <= |pending| && j < |consumers| && consumers[j] !in busy
    ensures var scan := ScanGroups(pending, consumers, busy, i, affinity, rr);
            match scan.found
            case None => scan.rr == rr
            case Some((r, c)) =>
              if Owner(affinity, consumers, pending[r].Group()).Some? then scan.rr == rr
              else c == consumers[j] || Distance(scan.rr, j, |consumers|) < Distance(rr, j, |consumers|)
    decreases |pending| - i
  {
    if i < |pending| {
      var group := pending[i].Group();
      if Owner(affinity, consumers, group).Some? {
        if affinity[group] in busy {
          ScanPicksInTurn(pending, consumers, busy, i + 1, affinity, rr, j);
        }
      } else {
        PickIsExact(consumers, busy, rr);
        assert SomeFree(consumers, busy);
        if Pick(consumers, busy, rr, |consumers|).0 != Some(consumers[j]) {
          OvertakenOnce(consumers, busy, rr, |consumers|, j);
        }
      }
    }
  }

  /** The step hands a message to somebody whose group has no attached owner. */
  predicate Assigns(c: Cell, op: Op) {
    && op.Pump? && c.owed > 0 && PumpBlock(c.q).Sent?
    && Owner(c.q.affinity, c.q.consumers, PumpBlock(c.q).msg.Group()).None?
  }

  /** What one step of a partitioned queue does to a free consumer's wait for a group. */
  ghost predicate WaitedForAGroup(c: Cell, op: Op, c': Cell, j: nat)
    requires j < |c.q.consumers| && c'.q.consumers == c.q.consumers
  {
    && c.ledger.sent <= c'.ledger.sent
    && ((exists k :: |c.ledger.sent| <= k < |c'.ledger.sent| && c'.ledger.sent[k].to == c.q.consumers[j])
        || (Free(c', j) && if Assigns(c, op) then Wait(c', j) < Wait(c, j) else Wait(c', j) == Wait(c, j)))
  }

  lemma PumpWaitsForAGroup(c: Cell, j: nat)
    requires c.q.config.partitionByGroup && Free(c, j)
    ensures PumpCell(c).q.consumers == c.q.consumers && WaitedForAGroup(c, Op.Pump, PumpCell(c), j)
  {
    var c' := PumpCell(c);
    if c.owed > 0 && c.q.pending != [] {
      ScanPicksInTurn(c.q.pending, c.q.consumers, c.q.Busy(), 0, c.q.affinity, c.q.rr, j);
      hide ScanGroups;
      if PumpBlock(c.q).Sent? {
        var d := Delivery(PumpBlock(c.q).msg, PumpBlock(c.q).to);
        assert c'.ledger.sent == c.ledger.sent + [d];
        assert c'.ledger.sent[|c.ledger.sent|] == d;
        assert c'.q.Busy() <= c.q.Busy() + {d.to};
      }
    }
  }

  lemma StepWaitsForAGroup(c: Cell, op: Op, j: nat)
    requires c.q.config.partitionByGroup && Free(c, j) && StepCell(c, op).q.consumers == c.q.consumers
    ensures WaitedForAGroup(c, op, StepCell(c, op), j)
  {
    hide PumpBlock;
    if op.Pump? {
      PumpWaitsForAGroup(c, j);
    } else {
      if op.Settle? {
        SettleIsExact(c, op.msg, op.handler, op.kind);
      }
      assert StepCell(c, op).q.Busy() <= c.q.Busy();
    }
  }

  /** How many deliveries along the run found their group without an attached owner. */
  ghost function Assignments(b: Bus, events: seq<Event>, i: nat): nat
    decreases |events|
  {
    if events == [] then 0
    else
      (if i < |b.cells| && events[0].OnQueue? && events[0].queue == i && Assigns(b.cells[i], events[0].op) then 1
       else 0)
      + Assignments(Apply(b, events[0]), events[1..], i)
  }

  ghost predicate ServedAfter(sent: seq<Delivery>, all: seq<Delivery>, h: Handler) {
    sent <= all && exists k :: |sent| <= k < |all| && all[k].to == h
  }

  lemma ServedAfterLonger(sent: seq<Delivery>, middle: seq<Delivery>, all: seq<Delivery>, h: Handler)
    requires sent <= middle <= all
    ensures ServedAfter(middle, all, h) ==> ServedAfter(sent, all, h)
    ensures ServedAfter(sent, middle, h) ==> ServedAfter(sent, all, h)
  {
    if k :| |sent| <= k < |middle| && middle[k].to == h {
      assert all[k] == middle[k];
    }
  }

  lemma {:induction false} GroupInTime(b: Bus, events: seq<Event>, i: nat, j: nat)
    requires BusOk(b) && ConsumersFixed(b, events, i)
    requires b.cells[i].q.config.partitionByGroup && Free(b.cells[i], j)
    ensures i < |Run(b, events).cells|
    ensures var c := b.cells[i];
            Assignments(b, events, i) > Wait(c, j) ==>
              ServedAfter(c.ledger.sent, Run(b, events).cells[i].ledger.sent, c.q.consumers[j])
    decreases |events|
  {
    hide BusOk, Apply, StepCell, ServedAfter, Distance, Assigns;
    if events != [] {
      var c, e := b.cells[i], events[0];
      var b' := Apply(b, e);
      var op := QueueMoves(b, e, i);
      ApplyKeepsOk(b, e);
      RunExtendsSent(b', events[1..], i);
      var c', all := b'.cells[i], Run(b', events[1..]).cells[i].ledger.sent;
      if op.None? {
        OnlyPumpsAssign(c, e);
        GroupInTime(b', events[1..], i, j);
      } else {
        StepKeepsIdentity(c, op.value);
        StepWaitsForAGroup(c, op.value, j);
        OnlyPumpsAssign(c, e);
        ServedAfterLonger(c.ledger.sent, c'.ledger.sent, all, c.q.consumers[j]);
        if Free(c', j) && Wait(c', j) <= Wait(c, j) {
          GroupInTime(b', events[1..], i, j);
        }
        ServedAtOnce(c.ledger.sent, c'.ledger.sent, c.q.consumers[j]);
      }
    }
  }

  lemma OnlyPumpsAssign(c: Cell, e: Event)
    ensures e.OnQueue? && Assigns(c, e.op) ==> Local(e.op)
  {
  }

  lemma ServedAtOnce(sent: seq<Delivery>, all: seq<Delivery>, h: Handler)
    requires sent <= all
    ensures (exists k :: |sent| <= k < |all| && all[k].to == h) ==> ServedAfter(sent, all, h)
  {
  }

  /**
   * On a partitioned queue of n consumers, from any reachable state and over any run in which nobody joins or leaves:
   * a consumer that is free at the start is delivered something by the time n groups have found an owner.
   */
  lemma FreeConsumerGetsAGroup(before: seq<Event>, events: seq<Event>, i: nat, h: Handler)
    requires ConsumersFixed(Run(INIT, before), events, i)
    requires var q := Run(INIT, before).cells[i].q; q.config.partitionByGroup && h in q.consumers && h !in q.Busy()
    requires Assignments(Run(INIT, before), events, i) >= |Run(INIT, before).cells[i].q.consumers|
    ensures i < |Run(Run(INIT, before), events).cells|
    ensures var c, sent := Run(INIT, before).cells[i], Run(Run(INIT, before), events).cells[i].ledger.sent;
            c.ledger.sent <= sent && exists k :: |c.ledger.sent| <= k < |sent| && sent[k].to == h
  {
    var b := Run(INIT, before);
    var c := b.cells[i];
    ReachableIsOk(before);
    var j :| 0 <= j < |c.q.consumers| && c.q.consumers[j] == h;
    hide Run, BusOk;
    GroupInTime(b, events, i, j);
  }
}
