/**
 * System-wide termination. With the subscriptions fixed, nothing published from outside and no
 * consumer dropped, only finitely many deliveries happen, however every delivery is settled and
 * in whatever order threads and timers run: poison messages cannot circulate for ever.
 */
module Termination {
  import opened Wrappers
  import opened BusTypes
  import opened QueueSteps
  import opened QueueCells
  import opened BusMachine
  import opened GroupScan
  import opened Custody
  import opened Accounts
  import opened Lanes
  import opened BusInvariants

  // ---------------------------------------------------------------- what a topic can cause

  function Longest(configs: seq<QueueConfig>): (n: nat)
    ensures forall i :: 0 <= i < |configs| ==> |configs[i].topic| <= n
  {
    if configs == [] then 0
    else
      var k := |configs| - 1;
      var rest := Longest(configs[..k]);
      assert forall i :: 0 <= i < k ==> configs[i] == configs[..k][i];
      if |configs[k].topic| > rest then |configs[k].topic| else rest
  }

  /** How much longer a topic can still get before no queue can be on it. */
  function Room(configs: seq<QueueConfig>, topic: string): nat {
    if |topic| > Longest(configs) then 0 else Longest(configs) + 1 - |topic|
  }

  /** The most deliveries that one plain publish to the topic can lead to. */
  function WeightOf(configs: seq<QueueConfig>, topic: string): nat
    decreases Room(configs, topic), 1, 0
  {
    if |topic| > Longest(configs) then 0 else WeightUpTo(configs, |configs|, topic)
  }

  function WeightUpTo(configs: seq<QueueConfig>, n: nat, topic: string): nat
    requires n <= |configs| && |topic| <= Longest(configs)
    decreases Room(configs, topic), 0, n
  {
    if n == 0 then 0
    else
      WeightUpTo(configs, n - 1, topic)
      + (if configs[n - 1].topic == topic then CopyWeight(configs, configs[n - 1]) else 0)
  }

  /** A fresh copy: its deliveries, then what its dead letter can lead to. */
  function CopyWeight(configs: seq<QueueConfig>, config: QueueConfig): nat
    requires |config.topic| <= Longest(configs)
    decreases Room(configs, config.topic), 0, 0
  {
    Limit(config) + (if config.deadLetter then WeightOf(configs, DeadLetterAddress(config.topic)) else 0)
  }

  // ---------------------------------------------------------------- what is still to come

  predicate Live(c: Cell, m: Message) {
    m in c.q.pending || m in c.q.inflight || m in c.parked
  }

  /** Deliveries a live copy still has before it must be acked or die. */
  function Remaining(c: Cell, m: Message): nat {
    var left := c.q.config.maxDeliveries - c.q.Count(m);
    if m in c.q.inflight then (if left > 0 then left else 0) else (if left > 1 then left else 1)
  }

  function MessageWeight(configs: seq<QueueConfig>, c: Cell, m: Message): nat {
    if !Live(c, m) then 0
    else
      Remaining(c, m)
      + (if c.q.config.deadLetter then WeightOf(configs, DeadLetterAddress(c.q.config.topic)) else 0)
      + (if m in c.timers then WeightOf(configs, ExpiryAddress(c.q.config.topic)) else 0)
  }

  function SumWeights(configs: seq<QueueConfig>, c: Cell, s: seq<Message>): nat {
    if s == [] then 0 else SumWeights(configs, c, s[..|s| - 1]) + MessageWeight(configs, c, s[|s| - 1])
  }

  /** Deliveries made so far, plus the most that the queue's live copies can still lead to. */
  function CellPotential(configs: seq<QueueConfig>, c: Cell): nat {
    SumWeights(configs, c, c.ledger.enqueued) + |c.ledger.sent|
  }

  function CellsPotential(configs: seq<QueueConfig>, cells: seq<Cell>): nat {
    if cells == [] then 0
    else CellsPotential(configs, cells[..|cells| - 1]) + CellPotential(configs, cells[|cells| - 1])
  }

  ghost function TransitWeight(configs: seq<QueueConfig>, transit: multiset<Republish>): nat
    decreases |transit|
  {
    if transit == multiset{} then 0
    else
      var r :| r in transit;
      WeightOf(configs, r.Address()) + TransitWeight(configs, transit - multiset{r})
  }

  function Configs(b: Bus): seq<QueueConfig> {
    seq(|b.cells|, i requires 0 <= i < |b.cells| => b.cells[i].q.config)
  }

  ghost function Potential(b: Bus): nat {
    CellsPotential(Configs(b), b.cells) + TransitWeight(Configs(b), b.transit)
  }

  function DeliveriesIn(cells: seq<Cell>): nat {
    if cells == [] then 0 else DeliveriesIn(cells[..|cells| - 1]) + |cells[|cells| - 1].ledger.sent|
  }

  // ---------------------------------------------------------------- sums

  /** One copy loses `d`, the others gain nothing. */
  lemma {:induction false} SumDrops(configs: seq<QueueConfig>, c: Cell, c': Cell, s: seq<Message>, m: Message, d: nat)
    requires IdsAscend(s)
    requires forall x :: x in s && x != m ==> MessageWeight(configs, c', x) <= MessageWeight(configs, c, x)
    requires MessageWeight(configs, c', m) + d <= MessageWeight(configs, c, m)
    ensures SumWeights(configs, c', s) + (if m in s then d else 0) <= SumWeights(configs, c, s)
  {
    if s != [] {
      var n := |s| - 1;
      SumDrops(configs, c, c', s[..n], m, d);
      assert s == s[..n] + [s[n]];
      hide MessageWeight;
    }
  }

  lemma {:induction false} SumOfConcat(configs: seq<QueueConfig>, c: Cell, s: seq<Message>, m: Message)
    ensures SumWeights(configs, c, s + [m]) == SumWeights(configs, c, s) + MessageWeight(configs, c, m)
  {
    assert (s + [m])[..|s|] == s;
  }

  lemma {:induction false} TransitSplits(configs: seq<QueueConfig>, transit: multiset<Republish>, r: Republish)
    requires r in transit
    ensures TransitWeight(configs, transit)
            == TransitWeight(configs, transit - multiset{r}) + WeightOf(configs, r.Address())
    decreases |transit|
  {
    hide WeightOf;
    var s :| s in transit
      && TransitWeight(configs, transit)
         == WeightOf(configs, s.Address()) + TransitWeight(configs, transit - multiset{s});
    if s != r {
      TransitSplits(configs, transit - multiset{s}, r);
      TransitSplits(configs, transit - multiset{r}, s);
      assert transit - multiset{s} - multiset{r} == transit - multiset{r} - multiset{s};
    }
  }

  lemma TransitGrows(configs: seq<QueueConfig>, transit: multiset<Republish>, r: Republish)
    ensures TransitWeight(configs, transit + multiset{r})
            == TransitWeight(configs, transit) + WeightOf(configs, r.Address())
  {
    TransitSplits(configs, transit + multiset{r}, r);
    assert transit + multiset{r} - multiset{r} == transit;
  }

  lemma {:induction false} CellsChange(configs: seq<QueueConfig>, cells: seq<Cell>, i: nat, c: Cell)
    requires i < |cells|
    ensures CellsPotential(configs, cells[i := c]) + CellPotential(configs, cells[i])
            == CellsPotential(configs, cells) + CellPotential(configs, c)
  {
    hide CellPotential;
    var n := |cells| - 1;
    if i < n {
      assert cells[i := c][..n] == cells[..n][i := c];
      CellsChange(configs, cells[..n], i, c);
    } else {
      assert cells[i := c][..n] == cells[..n];
    }
  }

  // ---------------------------------------------------------------- steps on one queue

  /** What a step's republish can lead to. */
  function Emitted(configs: seq<QueueConfig>, c: Cell, op: Op): nat {
    match op
    case Settle(m, h, kind) =>
      if SettleBlock(c.q, m, h, kind).1.DeadLettered? && c.q.config.deadLetter
      then WeightOf(configs, DeadLetterAddress(c.q.config.topic)) else 0
    case Expire(m) =>
      if m in c.timers && RemoveUnconsumed(c.q, m).1 then WeightOf(configs, ExpiryAddress(c.q.config.topic)) else 0
    case _ => 0
  }

  /** A copy that is counted, held and timed no more than before weighs no more. */
  lemma WeighsNoMore(configs: seq<QueueConfig>, c: Cell, c': Cell, x: Message)
    requires c'.q.config == c.q.config && c'.q.Count(x) == c.q.Count(x)
    requires x in c'.timers ==> x in c.timers
    requires x in c'.q.inflight <==> x in c.q.inflight
    requires x in c'.q.pending || x in c'.parked ==> x in c.q.pending || x in c.parked
    ensures MessageWeight(configs, c', x) <= MessageWeight(configs, c, x)
  {
    hide WeightOf;
  }

  lemma SentSpendsOne(configs: seq<QueueConfig>, c: Cell, c': Cell, i: nat, h: Handler)
    requires Conserved(c) && SentEffect(c.q, c'.q, i, h)
    requires c'.parked == c.parked && c'.timers == c.timers
    requires c'.ledger == c.ledger.(sent := c.ledger.sent + [Delivery(c.q.pending[i], h)])
    ensures CellPotential(configs, c') <= CellPotential(configs, c)
  {
    var m := c.q.pending[i];
    LiveIsNotDone(c, m);
    assert MessageWeight(configs, c', m) + 1 <= MessageWeight(configs, c, m) by {
      hide WeightOf, Conserved;
    }
    forall x | x != m ensures MessageWeight(configs, c', x) <= MessageWeight(configs, c, x) {
      hide MessageWeight, Conserved;
      assert x in c'.q.pending ==> x in c.q.pending;
      WeighsNoMore(configs, c, c', x);
    }
    hide MessageWeight;
    SumDrops(configs, c, c', c.ledger.enqueued, m, 1);
  }

  /** Steps that leave every copy where it is, or lose it, add nothing. */
  lemma NothingGained(configs: seq<QueueConfig>, c: Cell, c': Cell)
    requires c'.q.config == c.q.config && c'.q.counts == c.q.counts
    requires c'.q.inflight == c.q.inflight && c'.timers == c.timers && c'.ledger.sent == c.ledger.sent
    requires c'.ledger.enqueued == c.ledger.enqueued && IdsAscend(c.ledger.enqueued)
    requires forall x :: x in c'.q.pending || x in c'.parked ==> x in c.q.pending || x in c.parked
    ensures CellPotential(configs, c') <= CellPotential(configs, c)
  {
    hide MessageWeight;
    forall x ensures MessageWeight(configs, c', x) <= MessageWeight(configs, c, x) {
      WeighsNoMore(configs, c, c', x);
    }
    if c.ledger.enqueued != [] {
      SumDrops(configs, c, c', c.ledger.enqueued, c.ledger.enqueued[0], 0);
    }
  }

  /** The copy that a step takes away or moves on pays `d`; the others weigh no more. */
  lemma OnePays(configs: seq<QueueConfig>, c: Cell, c': Cell, m: Message, d: nat)
    requires Conserved(c) && (m in c.ledger.enqueued || d == 0)
    requires c'.q.config == c.q.config && c'.q.counts == c.q.counts && c'.timers <= c.timers
    requires c'.ledger.enqueued == c.ledger.enqueued && c'.ledger.sent == c.ledger.sent
    requires forall x :: x != m ==>
      && (x in c'.q.inflight <==> x in c.q.inflight)
      && (x in c'.q.pending || x in c'.parked ==> x in c.q.pending || x in c.parked)
    requires MessageWeight(configs, c', m) + d <= MessageWeight(configs, c, m)
    ensures CellPotential(configs, c') + d <= CellPotential(configs, c)
  {
    hide MessageWeight;
    forall x | x != m ensures MessageWeight(configs, c', x) <= MessageWeight(configs, c, x) {
      WeighsNoMore(configs, c, c', x);
    }
    SumDrops(configs, c, c', c.ledger.enqueued, m, d);
  }

  lemma SettledSpends(configs: seq<QueueConfig>, c: Cell, c': Cell, m: Message, outcome: Outcome, d: nat)
    requires Conserved(c) && SettleEffect(c, c', m, outcome) && !outcome.Ignored?
    requires d == if outcome.DeadLettered? && c.q.config.deadLetter
                  then WeightOf(configs, DeadLetterAddress(c.q.config.topic)) else 0
    ensures CellPotential(configs, c') + d <= CellPotential(configs, c)
  {
    LiveIsNotDone(c, m);
    assert MessageWeight(configs, c', m) + d <= MessageWeight(configs, c, m) by {
      hide WeightOf, Conserved;
    }
    hide MessageWeight, WeightOf;
    OnePays(configs, c, c', m, d);
  }

  /** The weight of a copy whose timer has just fired. */
  lemma ExpiredPays(configs: seq<QueueConfig>, c: Cell, m: Message)
    requires Conserved(c) && m in c.timers
    ensures Emitted(configs, c, Expire(m)) == 0 || m in c.ledger.enqueued
    ensures MessageWeight(configs, ExpireCell(c, m), m) + Emitted(configs, c, Expire(m)) <= MessageWeight(configs, c, m)
  {
    if Live(c, m) {
      LiveIsNotDone(c, m);
      AtMostOnePlace(c, m);
    }
    if m in c.q.pending {
      var i := RemoveFirstIsRemoveAt(c.q.pending, m);
      MultisetOfRemoveAt(c.q.pending, i);
      assert m !in ExpireCell(c, m).q.pending by {
        assert multiset(ExpireCell(c, m).q.pending)[m] == 0;
      }
    }
    hide WeightOf, Conserved;
  }

  lemma ExpiredSpends(configs: seq<QueueConfig>, c: Cell, m: Message)
    requires Conserved(c)
    ensures CellPotential(configs, ExpireCell(c, m)) + Emitted(configs, c, Expire(m)) <= CellPotential(configs, c)
  {
    if m in c.timers {
      ExpiredPays(configs, c, m);
      forall x | x in RemoveFirst(c.q.pending, m) ensures x in c.q.pending {
        RemoveFirstKeepsOthers(c.q.pending, m, x);
      }
      hide CellPotential, MessageWeight, Conserved, WeightOf;
      OnePays(configs, c, ExpireCell(c, m), m, Emitted(configs, c, Expire(m)));
    }
  }

  /** Every step but a drop pays for what it emits out of the queue's potential. */
  lemma StepSpends(configs: seq<QueueConfig>, c: Cell, op: Op)
    requires Conserved(c) && Local(op) && !op.Detach?
    ensures CellPotential(configs, StepCell(c, op)) + Emitted(configs, c, op) <= CellPotential(configs, c)
  {
    hide CellPotential, PumpBlock, Conserved, WeightOf;
    match op
    case Pump =>
      PumpIsExact(c.q);
      if c.owed > 0 {
        match PumpBlock(c.q)
        case Idle(_) => IdleSpends(configs, c, PumpCell(c));
        case Sent(_, i, _, h) => SentSpendsOne(configs, c, PumpCell(c), i, h);
      }
    case Settle(m, h, kind) =>
      SettleIsExact(c, m, h, kind);
      if m in c.q.inflight && c.q.inflight[m] == h {
        SettledSpends(configs, c, SettleCell(c, m, h, kind), m, Decide(c.q.config, c.q.Count(m), kind),
                      Emitted(configs, c, op));
      }
    case Retry(m) => RetrySpends(configs, c, m);
    case Expire(m) => ExpiredSpends(configs, c, m);
  }

  lemma IdleSpends(configs: seq<QueueConfig>, c: Cell, c': Cell)
    requires Conserved(c) && IdleEffect(c.q, c'.q)
    requires c'.parked == c.parked && c'.timers == c.timers && c'.ledger == c.ledger.(stranded := c'.ledger.stranded)
    ensures CellPotential(configs, c') <= CellPotential(configs, c)
  {
    NothingGained(configs, c, c');
  }

  lemma RetrySpends(configs: seq<QueueConfig>, c: Cell, m: Message)
    requires Conserved(c)
    ensures CellPotential(configs, RetryCell(c, m)) <= CellPotential(configs, c)
  {
    NothingGained(configs, c, RetryCell(c, m));
  }

  // ---------------------------------------------------------------- republishing

  /** A fresh copy without options weighs what its queue allows. */
  lemma FreshWeighs(configs: seq<QueueConfig>, c: Cell, m: Message)
    requires c.q.Count(m) == 0 && m in c.q.pending && m !in c.q.inflight && m !in c.timers
    requires |c.q.config.topic| <= Longest(configs)
    ensures MessageWeight(configs, c, m) == CopyWeight(configs, c.q.config)
  {
    hide WeightOf, Longest;
  }

  lemma TakingCosts(configs: seq<QueueConfig>, c: Cell, m: Message)
    requires Conserved(c) && Bounded(c) && Sourced(c) && Newer(c, m) && m.options.None?
    requires |c.q.config.topic| <= Longest(configs)
    ensures CellPotential(configs, EnqueueCell(c, m)) <= CellPotential(configs, c) + CopyWeight(configs, c.q.config)
  {
    hide MessageWeight, CopyWeight, Longest;
    var c' := EnqueueCell(c, m);
    var s := c.ledger.enqueued;
    assert m !in s;
    assert m !in c.q.inflight by {
      if m in c.q.inflight {
        LiveIsNotDone(c, m);
      }
    }
    assert c'.q.Count(m) == c.q.Count(m) == 0;
    FreshWeighs(configs, c', m);
    forall x | x in s ensures MessageWeight(configs, c', x) <= MessageWeight(configs, c, x) {
      WeighsNoMore(configs, c, c', x);
    }
    if s != [] {
      SumDrops(configs, c, c', s, s[0], 0);
    }
    SumOfConcat(configs, c', s, m);
  }

  /** One queue of the fan-out costs at most its share of the topic's weight. */
  lemma OneFanOutCosts(b: Bus, topic: string, body: string, key: string, n: nat)
    requires n < |b.cells| && Settled(b.cells[n], b.seqNo)
    ensures |b.cells[n].q.config.topic| <= Longest(Configs(b))
    ensures CellPotential(Configs(b), FanOut(b, topic, body, key, None)[n])
            <= CellPotential(Configs(b), b.cells[n])
               + (if b.cells[n].q.config.topic == topic then CopyWeight(Configs(b), b.cells[n].q.config) else 0)
  {
    hide CellPotential, CopyWeight;
    var configs := Configs(b);
    assert configs[n] == b.cells[n].q.config;
    if Takes(b.cells[n], topic, key) {
      TakingCosts(configs, b.cells[n], CopyFor(b, n, topic, body, key, None));
    }
  }

  lemma {:induction false} SharesAddUp(configs: seq<QueueConfig>, cells: seq<Cell>, cells': seq<Cell>, topic: string)
    requires |cells| == |cells'| <= |configs| && |topic| <= Longest(configs)
    requires forall i :: 0 <= i < |cells| ==>
      CellPotential(configs, cells'[i]) <= CellPotential(configs, cells[i])
                                           + (if configs[i].topic == topic then CopyWeight(configs, configs[i]) else 0)
    ensures CellsPotential(configs, cells') <= CellsPotential(configs, cells) + WeightUpTo(configs, |cells|, topic)
    decreases |cells|
  {
    hide CellPotential, CopyWeight;
    if cells != [] {
      var n := |cells| - 1;
      SharesAddUp(configs, cells[..n], cells'[..n], topic);
    }
  }

  /** Nobody takes a copy of a publish to a topic longer than any queue's. */
  lemma NobodyTakes(b: Bus, topic: string, body: string, key: string)
    requires |topic| > Longest(Configs(b))
    ensures FanOut(b, topic, body, key, None) == b.cells
  {
    forall i | 0 <= i < |b.cells| ensures !Takes(b.cells[i], topic, key) {
      assert Configs(b)[i] == b.cells[i].q.config;
    }
  }

  lemma RepublishCosts(b: Bus, topic: string, body: string, key: string)
    requires forall i :: 0 <= i < |b.cells| ==> Settled(b.cells[i], b.seqNo)
    ensures CellsPotential(Configs(b), FanOut(b, topic, body, key, None))
            <= CellsPotential(Configs(b), b.cells) + WeightOf(Configs(b), topic)
  {
    if |topic| > Longest(Configs(b)) {
      NobodyTakes(b, topic, body, key);
    } else {
      hide CellPotential, CopyWeight, Settled, Takes;
      var cells := FanOut(b, topic, body, key, None);
      forall i | 0 <= i < |b.cells|
        ensures CellPotential(Configs(b), cells[i])
                <= CellPotential(Configs(b), b.cells[i])
                   + (if Configs(b)[i].topic == topic then CopyWeight(Configs(b), Configs(b)[i]) else 0)
      {
        OneFanOutCosts(b, topic, body, key, i);
      }
      SharesAddUp(Configs(b), b.cells, cells, topic);
    }
  }

  // ---------------------------------------------------------------- the whole machine

  /** Nothing from outside: no publish, no subscription, no dropped consumer. */
  predicate Internal(e: Event) {
    e.Forward? || (e.OnQueue? && !e.op.Detach?)
  }

  lemma ConfigsKept(b: Bus, i: nat, op: Op)
    requires i < |b.cells| && Local(op)
    ensures Configs(QueueBlock(b, i, op)) == Configs(b)
  {
    LocalKeepsEnqueued(b.cells[i], op);
    hide StepCell, Emits;
  }

  lemma QueueBlockSpends(b: Bus, i: nat, op: Op)
    requires i < |b.cells| && Conserved(b.cells[i]) && Local(op) && !op.Detach?
    ensures Potential(QueueBlock(b, i, op)) <= Potential(b)
  {
    hide Conserved, StepCell, CellPotential, CellsPotential, TransitWeight, Emits, Emitted, Configs;
    ConfigsKept(b, i, op);
    var configs, c := Configs(b), b.cells[i];
    StepSpends(configs, c, op);
    CellsChange(configs, b.cells, i, StepCell(c, op));
    EmittedWeighs(configs, b.transit, i, c, op);
  }

  lemma EmittedWeighs(configs: seq<QueueConfig>, transit: multiset<Republish>, i: nat, c: Cell, op: Op)
    ensures TransitWeight(configs, transit + Emits(i, c, op))
            == TransitWeight(configs, transit) + Emitted(configs, c, op)
  {
    hide WeightOf, TransitWeight, SettleBlock, RemoveUnconsumed;
    if Emits(i, c, op) == multiset{} {
      assert transit + multiset{} == transit;
    } else {
      var cause := if op.Settle? then Poisoned else Lapsed;
      TransitGrows(configs, transit, Republish(i, c.q.config.topic, op.msg, cause));
    }
  }

  lemma ForwardSpends(b: Bus, r: Republish)
    requires BusOk(b) && r in b.transit
    ensures Configs(Apply(b, Forward(r))) == Configs(b)
    ensures Potential(Apply(b, Forward(r))) <= Potential(b)
  {
    hide CellOk, CellsPotential, WeightOf, TransitWeight, Takes;
    var b1 := b.(transit := b.transit - multiset{r});
    assert Configs(b1) == Configs(b);
    RepublishCosts(b1, r.Address(), r.msg.body, r.msg.routingKey);
    TransitSplits(Configs(b), b.transit, r);
    assert Configs(Apply(b, Forward(r))) == Configs(b);
  }

  lemma QueuesConserve(b: Bus, i: nat)
    requires BusOk(b) && i < |b.cells|
    ensures Conserved(b.cells[i])
  {
    assert Settled(b.cells[i], b.seqNo);
  }

  lemma ApplySpends(b: Bus, e: Event)
    requires BusOk(b) && Internal(e)
    ensures Potential(Apply(b, e)) <= Potential(b)
  {
    hide BusOk, Potential, PublishBlock, QueueBlock;
    match e
    case Forward(r) =>
      if r in b.transit {
        ForwardSpends(b, r);
      }
    case OnQueue(i, op) =>
      if i < |b.cells| && Local(op) {
        assert Conserved(b.cells[i]) by {
          QueuesConserve(b, i);
        }
        QueueBlockSpends(b, i, op);
      }
  }

  lemma {:induction false} RunSpends(b: Bus, events: seq<Event>)
    requires BusOk(b) && forall i :: 0 <= i < |events| ==> Internal(events[i])
    ensures Potential(Run(b, events)) <= Potential(b)
    decreases |events|
  {
    hide BusOk, Potential, Apply;
    if events != [] {
      ApplySpends(b, events[0]);
      ApplyKeepsOk(b, events[0]);
      RunSpends(Apply(b, events[0]), events[1..]);
    }
  }

  lemma {:induction false} DeliveriesWithinPotential(configs: seq<QueueConfig>, cells: seq<Cell>)
    ensures DeliveriesIn(cells) <= CellsPotential(configs, cells)
  {
    if cells != [] {
      DeliveriesWithinPotential(configs, cells[..|cells| - 1]);
    }
  }

  /**
   * From any reachable bus, every run without outside publishes, new subscriptions or drops
   * makes at most a fixed number of deliveries, known before the run starts.
   */
  lemma DeliveriesAreFinite(before: seq<Event>, events: seq<Event>)
    requires forall i :: 0 <= i < |events| ==> Internal(events[i])
    ensures var b := Run(INIT, before);
            DeliveriesIn(Run(b, events).cells) <= Potential(b)
  {
    var b := Run(INIT, before);
    ReachableIsOk(before);
    RunSpends(b, events);
    DeliveriesWithinPotential(Configs(Run(b, events)), Run(b, events).cells);
  }
}
