/**
 * The idempotent handler on a queue of the bus. The store marks a key before the inner handler
 * runs, so a delivery that comes back within the window is acked unprocessed.
 */
module IdempotentBus {
  import opened Wrappers
  import opened BusTypes
  import opened QueueSteps
  import opened QueueCells
  import opened BusMachine
  import opened BusInvariants
  import opened Settlements
  import opened Exceptions
  import Idempotency

  /** The queue the handlers consume from, and how they are set up; they share one store. */
  datatype Setup = Setup(queue: nat, keyOf: string -> string, ttlSeconds: int)

  /** What the inner handler does with a message; only an ack is a success. */
  datatype Verdict = Acks | Nacks(requeue: bool) | Silent

  /** How far a delivery's handler has come: the store has answered, or the handler is done. */
  datatype Stage = Told(duplicate: bool) | Done(duplicate: bool, succeeded: bool)

  datatype World = World(
    b: Bus,
    calls: seq<Idempotency.Call>,   // the calls the store has taken
    callers: seq<nat>,              // the delivery that made each
    stages: map<nat, Stage>,        // by delivery of the queue
    ackedBy: map<Message, nat>)     // the delivery whose ack took effect

  datatype Step =
    | OnBus(e: Event)                            // anything but a settle on the queue
    | Check(k: nat, now: int, down: bool)        // delivery k's handler asks the store
    | Finish(k: nat, verdict: Verdict)           // and runs the inner handler, or acks

  const START := World(INIT, [], [], map[], map[])

  predicate SettlesQueue(setup: Setup, e: Event) {
    e.OnQueue? && e.queue == setup.queue && e.op.Settle?
  }

  predicate Delivered(setup: Setup, w: World, k: nat) {
    setup.queue < |w.b.cells| && k < |w.b.cells[setup.queue].ledger.sent|
  }

  function DeliveryAt(setup: Setup, w: World, k: nat): Delivery
    requires Delivered(setup, w, k)
  {
    w.b.cells[setup.queue].ledger.sent[k]
  }

  function KeyAt(setup: Setup, w: World, k: nat): string
    requires Delivered(setup, w, k)
  {
    setup.keyOf(DeliveryAt(setup, w, k).msg.body)
  }

  function Checked(setup: Setup, w: World, k: nat, now: int, down: bool): World
    requires Delivered(setup, w, k)
  {
    if down then w.(stages := w.stages[k := Told(false)])
    else
      var call := Idempotency.Call(KeyAt(setup, w, k), setup.ttlSeconds, now);
      var duplicate := Idempotency.Duplicate(Idempotency.SeenAfter(w.calls), call.key, now);
      w.(calls := w.calls + [call], callers := w.callers + [k], stages := w.stages[k := Told(duplicate)])
  }

  /** The settlement that the handler of delivery `k` ends with, if it ends with one. */
  function Ending(duplicate: bool, verdict: Verdict): Option<SettleKind> {
    if duplicate then Some(Ack)
    else
      match verdict
      case Acks => Some(Ack)
      case Nacks(requeue) => Some(if requeue then Requeue else Dead)
      case Silent => None
  }

  ghost function Finished(setup: Setup, w: World, k: nat, verdict: Verdict): World
    requires Delivered(setup, w, k) && k in w.stages
  {
    var duplicate := w.stages[k].duplicate;
    var d := DeliveryAt(setup, w, k);
    var ending := Ending(duplicate, verdict);
    var w' := w.(stages := w.stages[k := Done(duplicate, !duplicate && verdict.Acks?)]);
    if ending.None? then w'
    else
      w'.(b := Apply(w.b, OnQueue(setup.queue, Settle(d.msg, d.to, ending.value))),
          ackedBy := if ending.value.Ack? && Holds(w.b.cells[setup.queue], d) then w.ackedBy[d.msg := k] else w.ackedBy)
  }

  ghost function Next(setup: Setup, w: World, step: Step): World {
    match step
    case OnBus(e) => if SettlesQueue(setup, e) then w else w.(b := Apply(w.b, e))
    case Check(k, now, down) =>
      if Delivered(setup, w, k) && k !in w.stages then Checked(setup, w, k, now, down) else w
    case Finish(k, verdict) =>
      if Delivered(setup, w, k) && k in w.stages && w.stages[k].Told? then Finished(setup, w, k, verdict) else w
  }

  ghost function Lives(setup: Setup, w: World, steps: seq<Step>): World
    decreases |steps|
  {
    if steps == [] then w else Lives(setup, Next(setup, w, steps[0]), steps[1..])
  }

  /** How a handler ends: a duplicate is acked, and otherwise the inner handler's verdict decides. */
  lemma HandlerEnds(setup: Setup, w: World, k: nat, verdict: Verdict)
    requires Delivered(setup, w, k) && k in w.stages && w.stages[k].Told?
    ensures var d := w.b.cells[setup.queue].ledger.sent[k];
            var told := w.stages[k].duplicate;
            var w' := Next(setup, w, Finish(k, verdict));
            && (told || verdict == Acks ==> w'.b == Apply(w.b, OnQueue(setup.queue, Settle(d.msg, d.to, Ack))))
            && (!told && verdict == Nacks(true) ==>
                  w'.b == Apply(w.b, OnQueue(setup.queue, Settle(d.msg, d.to, Requeue))))
            && (!told && verdict == Nacks(false) ==>
                  w'.b == Apply(w.b, OnQueue(setup.queue, Settle(d.msg, d.to, Dead))))
            && (!told && verdict == Silent ==> w'.b == w.b)
            && w'.stages == w.stages[k := Done(told, !told && verdict == Acks)]
  {
    hide Apply;
  }

  /** What a handler is told: nothing known, and nothing marked, by a store that is down. */
  lemma StoreAnswers(setup: Setup, w: World, k: nat, now: int, down: bool)
    requires Delivered(setup, w, k) && k !in w.stages
    ensures var d := w.b.cells[setup.queue].ledger.sent[k];
            var w' := Next(setup, w, Check(k, now, down));
            && w'.b == w.b && k in w'.stages && w'.stages[k].Told?
            && (down ==> w'.calls == w.calls && !w'.stages[k].duplicate)
            && (!down ==> w'.calls == w.calls + [Idempotency.Call(setup.keyOf(d.msg.body), setup.ttlSeconds, now)]
                          && w'.callers == w.callers + [k])
  {
    hide Idempotency.Duplicate, Idempotency.SeenAfter;
  }

  // ---------------------------------------------------------------- what every run keeps

  /** An inner run of the message succeeded. */
  ghost predicate Processed(setup: Setup, w: World, m: Message) {
    exists k :: k in w.stages && w.stages[k].Done? && w.stages[k].succeeded
                && Delivered(setup, w, k) && DeliveryAt(setup, w, k).msg == m
  }

  /** The message was acked, and no inner run of it ever succeeded. */
  ghost predicate AckedUnprocessed(setup: Setup, w: World, m: Message) {
    setup.queue < |w.b.cells| && m in w.b.cells[setup.queue].ledger.acked && !Processed(setup, w, m)
  }

  /** The handler was told that the key is not new, by the call it made. */
  ghost predicate ToldByCall(w: World, k: nat) {
    exists j :: 0 <= j < |w.calls| && |w.callers| == |w.calls| && w.callers[j] == k && !Idempotency.Fresh(w.calls, j)
  }

  ghost predicate CallsRecorded(setup: Setup, w: World) {
    && |w.callers| == |w.calls|
    && (forall j :: 0 <= j < |w.calls| ==> w.callers[j] in w.stages)
    && (forall j :: 0 <= j < |w.calls| ==>
          Delivered(setup, w, w.callers[j]) && w.calls[j].key == KeyAt(setup, w, w.callers[j]))
    && (forall k :: k in w.stages ==> Delivered(setup, w, k) && (w.stages[k].duplicate <==> ToldByCall(w, k)))
  }

  /** Delivery `k` acked the message, told a duplicate or having succeeded. */
  predicate Acker(setup: Setup, w: World, k: nat, m: Message) {
    && k in w.stages && w.stages[k].Done? && (w.stages[k].duplicate || w.stages[k].succeeded)
    && Delivered(setup, w, k) && DeliveryAt(setup, w, k).msg == m
  }

  function AckedSet(setup: Setup, b: Bus): set<Message> {
    if setup.queue < |b.cells| then b.cells[setup.queue].ledger.acked else {}
  }

  /** Acked messages are those some delivery acked. */
  ghost predicate AcksRecorded(setup: Setup, w: World) {
    AckedSet(setup, w.b) == w.ackedBy.Keys && forall m :: m in w.ackedBy ==> Acker(setup, w, w.ackedBy[m], m)
  }

  ghost predicate Ok(setup: Setup, w: World) {
    BusOk(w.b) && CallsRecorded(setup, w) && AcksRecorded(setup, w)
  }

  /** What a bus event does to the record of one queue: deliveries are added, and acks only by its own settles. */
  lemma EventKeepsRecord(b: Bus, e: Event, i: nat)
    requires BusOk(b) && i < |b.cells|
    ensures i < |Apply(b, e).cells| && b.cells[i].ledger.sent <= Apply(b, e).cells[i].ledger.sent
    ensures !(e.OnQueue? && e.queue == i && e.op.Settle?)
            ==> Apply(b, e).cells[i].ledger.acked == b.cells[i].ledger.acked
  {
    var op := QueueMoves(b, e, i);
    hide BusOk, Apply;
    if op.Some? {
      StepKeepsRecord(b.cells[i], op.value);
    }
    hide StepCell;
  }

  lemma StepKeepsRecord(c: Cell, op: Op)
    ensures c.ledger.sent <= StepCell(c, op).ledger.sent
    ensures !op.Settle? ==> StepCell(c, op).ledger.acked == c.ledger.acked
  {
    hide PumpBlock;
    if op.Settle? {
      SettleIsExact(c, op.msg, op.handler, op.kind);
    }
  }

  lemma NewQueueHasNoRecord(b: Bus, e: Event, i: nat)
    requires |b.cells| <= i < |Apply(b, e).cells|
    ensures Apply(b, e).cells[i].ledger.acked == {} && Apply(b, e).cells[i].ledger.sent == []
  {
    hide StepCell, Seeds;
  }

  /** The same records on a bus whose queue has delivered at least as much. */
  ghost predicate Extends(setup: Setup, w: World, w': World) {
    && (setup.queue < |w.b.cells| ==>
          setup.queue < |w'.b.cells|
          && w.b.cells[setup.queue].ledger.sent <= w'.b.cells[setup.queue].ledger.sent)
  }

  lemma ExtendsKeepsDeliveries(setup: Setup, w: World, w': World, k: nat)
    requires Extends(setup, w, w') && Delivered(setup, w, k)
    ensures Delivered(setup, w', k) && DeliveryAt(setup, w', k) == DeliveryAt(setup, w, k)
  {
  }

  lemma BusKeepsCalls(setup: Setup, w: World, b: Bus)
    requires CallsRecorded(setup, w) && Extends(setup, w, w.(b := b))
    ensures CallsRecorded(setup, w.(b := b))
  {
    var w' := w.(b := b);
    forall k | Delivered(setup, w, k)
      ensures Delivered(setup, w', k) && DeliveryAt(setup, w', k) == DeliveryAt(setup, w, k)
    {
      ExtendsKeepsDeliveries(setup, w, w', k);
    }
    assert forall k :: ToldByCall(w, k) <==> ToldByCall(w', k);
    hide ToldByCall, Delivered, DeliveryAt;
  }

  lemma BusKeepsAckers(setup: Setup, w: World, b: Bus)
    requires AcksRecorded(setup, w) && Extends(setup, w, w.(b := b)) && AckedSet(setup, b) == AckedSet(setup, w.b)
    ensures AcksRecorded(setup, w.(b := b))
  {
    var w' := w.(b := b);
    forall m | m in w.ackedBy ensures Acker(setup, w', w.ackedBy[m], m) {
      ExtendsKeepsDeliveries(setup, w, w', w.ackedBy[m]);
    }
    hide Acker;
  }

  lemma EventExtends(setup: Setup, w: World, e: Event)
    requires BusOk(w.b) && !SettlesQueue(setup, e)
    ensures var b' := Apply(w.b, e);
            Extends(setup, w, w.(b := b')) && AckedSet(setup, b') == AckedSet(setup, w.b)
  {
    hide BusOk, Apply;
    if setup.queue < |w.b.cells| {
      EventKeepsRecord(w.b, e, setup.queue);
    } else if setup.queue < |Apply(w.b, e).cells| {
      NewQueueHasNoRecord(w.b, e, setup.queue);
    }
  }

  lemma OnBusKeepsOk(setup: Setup, w: World, e: Event)
    requires Ok(setup, w)
    ensures Ok(setup, Next(setup, w, OnBus(e)))
  {
    if !SettlesQueue(setup, e) {
      EventExtends(setup, w, e);
      ApplyKeepsOk(w.b, e);
      hide BusOk, Apply, Extends, CallsRecorded, AcksRecorded, AckedSet;
      BusKeepsCalls(setup, w, Apply(w.b, e));
      BusKeepsAckers(setup, w, Apply(w.b, e));
    }
  }

  lemma FreshInFront(calls: seq<Idempotency.Call>, call: Idempotency.Call, j: nat)
    requires j < |calls|
    ensures Idempotency.Fresh(calls + [call], j) <==> Idempotency.Fresh(calls, j)
  {
    assert (calls + [call])[..j] == calls[..j];
  }

  lemma FreshAtEnd(calls: seq<Idempotency.Call>, call: Idempotency.Call)
    ensures Idempotency.Fresh(calls + [call], |calls|)
            <==> !Idempotency.Duplicate(Idempotency.SeenAfter(calls), call.key, call.now)
  {
    assert (calls + [call])[..|calls|] == calls;
  }

  /** A new call tells its own delivery, and what the others were told stays. */
  lemma CallTells(w: World, call: Idempotency.Call, k: nat, w': World)
    requires |w.callers| == |w.calls| && k !in w.callers
    requires w'.calls == w.calls + [call] && w'.callers == w.callers + [k]
    ensures ToldByCall(w', k) <==> Idempotency.Duplicate(Idempotency.SeenAfter(w.calls), call.key, call.now)
    ensures forall x :: x != k ==> (ToldByCall(w', x) <==> ToldByCall(w, x))
  {
    var n := |w.calls|;
    FreshAtEnd(w.calls, call);
    forall j | 0 <= j < n
      ensures Idempotency.Fresh(w'.calls, j) <==> Idempotency.Fresh(w.calls, j)
      ensures w'.callers[j] == w.callers[j] && w'.callers[j] != k
    {
      FreshInFront(w.calls, call, j);
    }
    assert w'.callers[n] == k;
    hide Idempotency.Fresh, Idempotency.Duplicate, Idempotency.SeenAfter;
    forall x | x != k ensures ToldByCall(w', x) <==> ToldByCall(w, x) {
      if j :| 0 <= j < n && w.callers[j] == x && !Idempotency.Fresh(w.calls, j) {
        assert w'.callers[j] == x && !Idempotency.Fresh(w'.calls, j);
      }
    }
  }

  lemma CheckKeepsCalls(setup: Setup, w: World, k: nat, now: int, down: bool)
    requires CallsRecorded(setup, w) && Delivered(setup, w, k) && k !in w.stages
    ensures CallsRecorded(setup, Checked(setup, w, k, now, down))
  {
    if down {
      OutageKeepsCalls(setup, w, k);
    } else {
      CallKeepsCalls(setup, w, k, now);
    }
  }

  lemma OutageKeepsCalls(setup: Setup, w: World, k: nat)
    requires CallsRecorded(setup, w) && Delivered(setup, w, k) && k !in w.stages
    ensures CallsRecorded(setup, w.(stages := w.stages[k := Told(false)]))
  {
    var w' := w.(stages := w.stages[k := Told(false)]);
    assert k !in w.callers;
    assert forall x :: ToldByCall(w', x) <==> ToldByCall(w, x);
    assert !ToldByCall(w, k);
    assert forall x :: Delivered(setup, w, x) <==> Delivered(setup, w', x);
    hide ToldByCall, Delivered;
  }

  lemma CallKeepsCalls(setup: Setup, w: World, k: nat, now: int)
    requires CallsRecorded(setup, w) && Delivered(setup, w, k) && k !in w.stages
    ensures CallsRecorded(setup, Checked(setup, w, k, now, false))
  {
    var w' := Checked(setup, w, k, now, false);
    assert k !in w.callers;
    CallTells(w, Idempotency.Call(KeyAt(setup, w, k), setup.ttlSeconds, now), k, w');
    assert forall x :: Delivered(setup, w, x) <==> Delivered(setup, w', x);
    hide ToldByCall, Delivered, Idempotency.SeenAfter, Idempotency.Duplicate;
  }

  /** A delivery that has not finished acked nothing, so its stage may change. */
  lemma StageKeepsAckers(setup: Setup, w: World, w': World, k: nat)
    requires AcksRecorded(setup, w) && (k in w.stages ==> w.stages[k].Told?)
    requires w'.b == w.b && w'.ackedBy == w.ackedBy && w'.stages.Keys == w.stages.Keys + {k}
    requires forall x :: x in w.stages && x != k ==> w'.stages[x] == w.stages[x]
    ensures AcksRecorded(setup, w')
  {
    forall m | m in w.ackedBy ensures Acker(setup, w', w.ackedBy[m], m) {
    }
    hide Acker;
  }

  lemma CheckKeepsOk(setup: Setup, w: World, k: nat, now: int, down: bool)
    requires Ok(setup, w)
    ensures Ok(setup, Next(setup, w, Check(k, now, down)))
  {
    if Delivered(setup, w, k) && k !in w.stages {
      CheckKeepsCalls(setup, w, k, now, down);
      hide CallsRecorded, BusOk, AcksRecorded;
      StageKeepsAckers(setup, w, Checked(setup, w, k, now, down), k);
    }
  }

  lemma SettleAcks(c: Cell, m: Message, h: Handler, kind: SettleKind)
    ensures var c' := StepCell(c, Settle(m, h, kind));
            && c'.ledger.sent == c.ledger.sent
            && c'.ledger.acked == if kind.Ack? && Holds(c, Delivery(m, h)) then c.ledger.acked + {m} else c.ledger.acked
  {
  }

  lemma QueueAfterSettle(b: Bus, i: nat, m: Message, h: Handler, kind: SettleKind)
    requires i < |b.cells|
    ensures var b' := Apply(b, OnQueue(i, Settle(m, h, kind)));
            |b'.cells| == |b.cells| && b'.cells[i] == StepCell(b.cells[i], Settle(m, h, kind))
  {
    hide StepCell, Emits;
  }

  /** What a delivery was told stays told. */
  lemma StageKeepsCalls(setup: Setup, w: World, k: nat, stage: Stage)
    requires CallsRecorded(setup, w) && k in w.stages && stage.duplicate == w.stages[k].duplicate
    ensures CallsRecorded(setup, w.(stages := w.stages[k := stage]))
  {
    var w' := w.(stages := w.stages[k := stage]);
    assert forall x :: ToldByCall(w, x) <==> ToldByCall(w', x);
    assert forall x :: Delivered(setup, w, x) <==> Delivered(setup, w', x);
    hide ToldByCall;
  }

  lemma AckerJoins(setup: Setup, w: World, w': World, m: Message, k: nat)
    requires AcksRecorded(setup, w) && Acker(setup, w, k, m)
    requires w' == w.(b := w'.b, ackedBy := w.ackedBy[m := k])
    requires Extends(setup, w, w') && AckedSet(setup, w'.b) == AckedSet(setup, w.b) + {m}
    ensures AcksRecorded(setup, w')
  {
    forall x | x in w'.ackedBy ensures Acker(setup, w', w'.ackedBy[x], x) {
      ExtendsKeepsDeliveries(setup, w, w', w'.ackedBy[x]);
    }
    hide Acker;
  }

  /** A settlement through delivery `k`: the queue's deliveries stay, and an ack by the holder acks the message. */
  lemma SettlementActs(setup: Setup, w: World, k: nat, kind: SettleKind)
    requires Delivered(setup, w, k)
    ensures var d := DeliveryAt(setup, w, k);
            var b' := Apply(w.b, OnQueue(setup.queue, Settle(d.msg, d.to, kind)));
            && Extends(setup, w, w.(b := b'))
            && AckedSet(setup, b')
               == AckedSet(setup, w.b) + (if kind.Ack? && Holds(w.b.cells[setup.queue], d) then {d.msg} else {})
  {
    var d := DeliveryAt(setup, w, k);
    QueueAfterSettle(w.b, setup.queue, d.msg, d.to, kind);
    SettleAcks(w.b.cells[setup.queue], d.msg, d.to, kind);
    hide Apply, StepCell;
  }

  /** The world after the settlement of a delivery whose handler is done. */
  ghost function Settled(setup: Setup, w: World, k: nat, kind: SettleKind): World
    requires Delivered(setup, w, k)
  {
    var d := DeliveryAt(setup, w, k);
    w.(b := Apply(w.b, OnQueue(setup.queue, Settle(d.msg, d.to, kind))),
       ackedBy := if kind.Ack? && Holds(w.b.cells[setup.queue], d) then w.ackedBy[d.msg := k] else w.ackedBy)
  }

  lemma SettlementKeepsRecords(setup: Setup, w: World, k: nat, kind: SettleKind)
    requires CallsRecorded(setup, w) && AcksRecorded(setup, w) && Delivered(setup, w, k)
    requires kind.Ack? ==> Acker(setup, w, k, DeliveryAt(setup, w, k).msg)
    ensures CallsRecorded(setup, Settled(setup, w, k, kind)) && AcksRecorded(setup, Settled(setup, w, k, kind))
  {
    var d, w' := DeliveryAt(setup, w, k), Settled(setup, w, k, kind);
    SettlementActs(setup, w, k, kind);
    hide CallsRecorded, AcksRecorded, Apply, AckedSet, Acker, Holds;
    assert Extends(setup, w, w');
    hide Extends, Delivered;
    BusKeepsCalls(setup, w, w'.b);
    CallsIgnoreAcks(setup, w.(b := w'.b), w');
    if kind.Ack? && Holds(w.b.cells[setup.queue], d) {
      AckerJoins(setup, w, w', d.msg, k);
    } else {
      BusKeepsAckers(setup, w, w'.b);
    }
  }

  lemma FinishKeepsRecords(setup: Setup, w: World, k: nat, verdict: Verdict)
    requires CallsRecorded(setup, w) && AcksRecorded(setup, w)
    requires Delivered(setup, w, k) && k in w.stages && w.stages[k].Told?
    ensures CallsRecorded(setup, Finished(setup, w, k, verdict)) && AcksRecorded(setup, Finished(setup, w, k, verdict))
  {
    var duplicate := w.stages[k].duplicate;
    var stage := Done(duplicate, !duplicate && verdict.Acks?);
    var w1 := w.(stages := w.stages[k := stage]);
    StageKeepsCalls(setup, w, k, stage);
    StageKeepsAckers(setup, w, w1, k);
    hide CallsRecorded, AcksRecorded, Apply;
    var ending := Ending(duplicate, verdict);
    if ending.Some? {
      SettlementKeepsRecords(setup, w1, k, ending.value);
    }
  }

  lemma CallsIgnoreAcks(setup: Setup, w: World, w': World)
    requires CallsRecorded(setup, w) && w' == w.(ackedBy := w'.ackedBy)
    ensures CallsRecorded(setup, w')
  {
    assert forall x :: ToldByCall(w, x) <==> ToldByCall(w', x);
    assert forall x :: Delivered(setup, w, x) <==> Delivered(setup, w', x);
    hide ToldByCall;
  }

  lemma FinishKeepsOk(setup: Setup, w: World, k: nat, verdict: Verdict)
    requires Ok(setup, w)
    ensures Ok(setup, Next(setup, w, Finish(k, verdict)))
  {
    if Delivered(setup, w, k) && k in w.stages && w.stages[k].Told? {
      FinishKeepsRecords(setup, w, k, verdict);
      var d := DeliveryAt(setup, w, k);
      var ending := Ending(w.stages[k].duplicate, verdict);
      if ending.Some? {
        ApplyKeepsOk(w.b, OnQueue(setup.queue, Settle(d.msg, d.to, ending.value)));
      }
      hide BusOk, Apply, CallsRecorded, AcksRecorded;
    }
  }

  lemma {:induction false} LivesKeepOk(setup: Setup, w: World, steps: seq<Step>)
    requires Ok(setup, w)
    ensures Ok(setup, Lives(setup, w, steps))
    decreases |steps|
  {
    hide Ok, Next;
    if steps != [] {
      var step := steps[0];
      match step {
        case OnBus(e) => OnBusKeepsOk(setup, w, e);
        case Check(k, now, down) => CheckKeepsOk(setup, w, k, now, down);
        case Finish(k, verdict) => FinishKeepsOk(setup, w, k, verdict);
      }
      LivesKeepOk(setup, Next(setup, w, step), steps[1..]);
    }
  }

  lemma StartIsOk(setup: Setup)
    ensures Ok(setup, START)
  {
    ReachableIsOk([]);
    hide BusOk;
  }

  // ---------------------------------------------------------------- when a message is acked unprocessed

  /** Call `j` fell into the window that an earlier call of its key opened, with no new window since. */
  ghost predicate InWindow(calls: seq<Idempotency.Call>, j: nat)
    requires j < |calls|
  {
    exists i :: 0 <= i < j && calls[i].key == calls[j].key && Idempotency.Fresh(calls, i)
                && Idempotency.NoneFreshBetween(calls, i, j, calls[j].key) && calls[j].now < calls[i].Expiry()
  }

  /**
   * Over every run of the bus and its idempotent handlers: a message is acked with no successful inner run if
   * and only if none of its inner runs succeeded and the delivery that acked it made a call inside the window
   * that an earlier call of its key had opened.
   */
  lemma AckedUnprocessedExactly(setup: Setup, steps: seq<Step>, m: Message)
    ensures var w := Lives(setup, START, steps);
            AckedUnprocessed(setup, w, m) <==>
              && !Processed(setup, w, m) && m in w.ackedBy
              && exists j :: 0 <= j < |w.calls| && |w.callers| == |w.calls| && w.callers[j] == w.ackedBy[m]
                           && InWindow(w.calls, j)
  {
    StartIsOk(setup);
    LivesKeepOk(setup, START, steps);
    var w := Lives(setup, START, steps);
    hide Lives, BusOk;
    forall j | 0 <= j < |w.calls| ensures InWindow(w.calls, j) <==> !Idempotency.Fresh(w.calls, j) {
      Idempotency.SuppressedExactlyInWindow(w.calls, j);
    }
    hide InWindow, Idempotency.Fresh;
    if m in w.ackedBy {
      var k := w.ackedBy[m];
      assert w.stages[k].duplicate <==> ToldByCall(w, k);
      assert w.stages[k].succeeded ==> Processed(setup, w, m);
    }
  }

  /**
   * When no other message delivered from the queue has the key, the window was opened by an earlier delivery
   * of the message itself, whose inner run did not succeed.
   */
  lemma LostToItsOwnWindow(setup: Setup, steps: seq<Step>, m: Message)
    requires AckedUnprocessed(setup, Lives(setup, START, steps), m)
    requires var w := Lives(setup, START, steps);
             forall k :: Delivered(setup, w, k) && KeyAt(setup, w, k) == setup.keyOf(m.body)
                ==> DeliveryAt(setup, w, k).msg == m
    ensures var w := Lives(setup, START, steps);
            exists i, j :: 0 <= i < j < |w.calls| == |w.callers| && Idempotency.Fresh(w.calls, i)
              && w.calls[j].now < w.calls[i].Expiry() && m in w.ackedBy && w.callers[j] == w.ackedBy[m]
              && Delivered(setup, w, w.callers[i]) && DeliveryAt(setup, w, w.callers[i]).msg == m
              && w.callers[i] in w.stages && !(w.stages[w.callers[i]].Done? && w.stages[w.callers[i]].succeeded)
  {
    StartIsOk(setup);
    LivesKeepOk(setup, START, steps);
    AckedUnprocessedExactly(setup, steps, m);
    var w := Lives(setup, START, steps);
    hide Lives, BusOk, Idempotency.Fresh;
    var j :| 0 <= j < |w.calls| && w.callers[j] == w.ackedBy[m] && InWindow(w.calls, j);
    var i :| 0 <= i < j && w.calls[i].key == w.calls[j].key && Idempotency.Fresh(w.calls, i)
             && w.calls[j].now < w.calls[i].Expiry();
    assert w.calls[j].key == setup.keyOf(m.body);
    assert KeyAt(setup, w, w.callers[i]) == setup.keyOf(m.body);
  }

  // ---------------------------------------------------------------- a run on which that happens

  ghost predicate Reached(setup: Setup, steps: seq<Step>, w: World) {
    Lives(setup, START, steps) == w
  }

  lemma {:induction false} LivesOneMore(setup: Setup, w: World, steps: seq<Step>, step: Step)
    ensures Lives(setup, w, steps + [step]) == Next(setup, Lives(setup, w, steps), step)
    decreases |steps|
  {
    hide Next;
    if steps == [] {
      assert steps + [step] == [step] && [step][1..] == [];
      assert Lives(setup, Next(setup, w, step), []) == Next(setup, w, step);
    } else {
      assert (steps + [step])[1..] == steps[1..] + [step];
      LivesOneMore(setup, Next(setup, w, steps[0]), steps[1..], step);
    }
  }

  lemma Go(setup: Setup, steps: seq<Step>, w: World, step: Step) returns (steps': seq<Step>, w': World)
    requires Reached(setup, steps, w)
    ensures Reached(setup, steps', w') && w' == Next(setup, w, step)
  {
    hide Next;
    LivesOneMore(setup, START, steps, step);
    steps' := steps + [step];
    w' := Next(setup, w, step);
  }

  /** A subscriber, and a message published to it. */
  lemma Opened(setup: Setup) returns (steps: seq<Step>, w: World)
    ensures Reached(setup, steps, w) && w == START.(b := w.b) && |w.b.cells| == 1 && w.b.cells[0].owed > 0
    ensures w.b.cells[0].q == Queue(OneQueue(3, None), [Copy(2, "a", None)], map[], [0], map[], 0, map[])
    ensures w.b.cells[0].ledger.sent == [] && w.b.cells[0].ledger.acked == {}
  {
    var first, second := Joining(3, None), Sending("a", None);
    steps, w := [], START;
    steps, w := Go(setup, steps, w, OnBus(first));
    steps, w := Go(setup, steps, w, OnBus(second));
    Exceptions.Joined(3, None);
    Exceptions.Sent([first], "a", None);
    RunOneMore(INIT, [], first);
    RunOneMore(INIT, [first], second);
    assert [] + [first] == [first];
    hide Reached, Apply, Run;
  }

  /** One step of the only queue, other than a settle. */
  lemma GoQueue(setup: Setup, steps: seq<Step>, w: World, op: Op) returns (steps': seq<Step>, w': World)
    requires Reached(setup, steps, w) && |w.b.cells| == 1 && Local(op) && !op.Settle?
    ensures Reached(setup, steps', w') && w' == w.(b := w'.b) && w'.b.cells == [StepCell(w.b.cells[0], op)]
  {
    hide Reached, StepCell;
    steps', w' := Go(setup, steps, w, OnBus(OnQueue(0, op)));
  }

  /** The handler of delivery `k` of the only queue asks a store that is up. */
  lemma GoCheck(setup: Setup, steps: seq<Step>, w: World, k: nat, now: int) returns (steps': seq<Step>, w': World)
    requires Reached(setup, steps, w) && setup.queue == 0 && |w.b.cells| == 1 && k < |w.b.cells[0].ledger.sent|
    requires k !in w.stages
    ensures Reached(setup, steps', w') && w' == Checked(setup, w, k, now, false)
  {
    hide Reached, Checked;
    steps', w' := Go(setup, steps, w, Check(k, now, false));
  }

  lemma SeenOnce(call: Idempotency.Call)
    ensures Idempotency.SeenAfter([]) == map[]
    ensures Idempotency.SeenAfter([call]) == map[call.key := call.Expiry()]
  {
    assert [call][..0] == [];
  }

  /** Delivered to the handler, nacked for requeue by the inner one, and delivered again. */
  lemma NackedOnce(setup: Setup) returns (steps: seq<Step>, w: World)
    requires setup.queue == 0 && setup.ttlSeconds == 300
    ensures Reached(setup, steps, w) && |w.b.cells| == 1
    ensures var a := Copy(2, "a", None);
            && w.b.cells[0].ledger.sent == [Delivery(a, 0), Delivery(a, 0)] && w.b.cells[0].q.inflight == map[a := 0]
            && w.stages == map[0 := Done(false, false)] && w.calls == [Idempotency.Call(setup.keyOf("a"), 300, 0)]
            && w.callers == [0] && w.ackedBy == map[]
  {
    var a := Copy(2, "a", None);
    steps, w := Opened(setup);
    hide Reached, PumpCell;
    HeadGoes(w.b.cells[0], 0);
    steps, w := GoQueue(setup, steps, w, Op.Pump);
    SeenOnce(Idempotency.Call(setup.keyOf("a"), 300, 0));
    hide Idempotency.SeenAfter;
    assert w.b.cells[0].ledger.sent == [Delivery(a, 0)] && w.b.cells[0].q.inflight == map[a := 0];
    steps, w := GoCheck(setup, steps, w, 0, 0);
    NackPutsBack(w.b.cells[0], a);
    steps, w := GoNack(setup, steps, w, a);
    HeadGoes(w.b.cells[0], 0);
    steps, w := GoQueue(setup, steps, w, Op.Pump);
  }

  lemma GoNack(setup: Setup, steps: seq<Step>, w: World, m: Message) returns (steps': seq<Step>, w': World)
    requires Reached(setup, steps, w) && setup.queue == 0 && |w.b.cells| == 1
    requires w.b.cells[0].ledger.sent == [Delivery(m, 0)] && w.stages == map[0 := Told(false)]
    ensures Reached(setup, steps', w') && w' == w.(b := w'.b, stages := map[0 := Done(false, false)])
    ensures w'.b.cells == [StepCell(w.b.cells[0], Settle(m, 0, Requeue))]
  {
    hide Reached, StepCell;
    steps', w' := Go(setup, steps, w, Finish(0, Nacks(true)));
  }

  /** The inner handler nacks for requeue; the redelivery, a millisecond later, is acked and never processed. */
  lemma RedeliveryIsSwallowed(keyOf: string -> string) returns (setup: Setup, steps: seq<Step>)
    ensures setup.keyOf == keyOf && exists m :: AckedUnprocessed(setup, Lives(setup, START, steps), m)
  {
    setup := Setup(0, keyOf, 300);
    var a := Copy(2, "a", None);
    var w: World;
    steps, w := NackedOnce(setup);
    SeenOnce(w.calls[0]);
    hide Idempotency.SeenAfter, StepCell;
    steps, w := GoCheck(setup, steps, w, 1, 1);
    assert w.stages == map[0 := Done(false, false), 1 := Told(true)];
    SettleAcks(w.b.cells[0], a, 0, Ack);
    QueueAfterSettle(w.b, 0, a, 0, Ack);
    steps, w := Go(setup, steps, w, Finish(1, Silent));
    assert w.stages == map[0 := Done(false, false), 1 := Done(true, false)];
    assert AckedUnprocessed(setup, w, a);
  }
}
