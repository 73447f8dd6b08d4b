/** What each lock block of the bus does to one queue, as a function of the queue before it. */
module QueueSteps {
  import opened Wrappers
  import opened BusTypes

  // ---------------------------------------------------------------- choosing a consumer

  /** The cursor loop shared by `NextConsumer` and `PickFreeConsumer`, with `tries` turns left. */
  function Pick(consumers: seq<Handler>, busy: set<Handler>, rr: nat, tries: nat): (Option<Handler>, nat)
    requires consumers != []
    decreases tries
  {
    if tries == 0 then (None, rr)
    else
      var c := consumers[rr % |consumers|];
      if c !in busy then (Some(c), rr + 1) else Pick(consumers, busy, rr + 1, tries - 1)
  }

  function NextConsumer(q: Queue): (Option<Handler>, nat) {
    if q.consumers == [] then (None, q.rr)
    else if q.config.singleActiveConsumer then
      (if q.inflight == map[] then Some(q.consumers[0]) else None, q.rr)
    else Pick(q.consumers, q.Busy(), q.rr, |q.consumers|)
  }

  // ---------------------------------------------------------------- choosing a message

  /** The scan of `DequeueHighestPriority` from index `i` with the best index so far. */
  function BestFrom(items: seq<Message>, i: nat, best: nat): (r: nat)
    requires best < |items| && i <= |items|
    ensures r < |items|
    decreases |items| - i
  {
    if i == |items| then best
    else BestFrom(items, i + 1, if items[i].Priority() > items[best].Priority() then i else best)
  }

  function Best(items: seq<Message>): (r: nat)
    requires items != []
    ensures r < |items|
  {
    BestFrom(items, 1, 0)
  }

  /** The outcome of `NextGroupDelivery`: what to hand to whom, and the edited affinity and cursor. */
  datatype Scan = Scan(found: Option<(nat, Handler)>, affinity: map<string, Handler>, rr: nat)

  function ScanGroups(pending: seq<Message>, consumers: seq<Handler>, busy: set<Handler>,
                      i: nat, affinity: map<string, Handler>, rr: nat): (scan: Scan)
    requires consumers != [] && i <= |pending|
    ensures scan.found.Some? ==> i <= scan.found.value.0 < |pending|
    decreases |pending| - i
  {
    if i == |pending| then Scan(None, affinity, rr)
    else
      var group := pending[i].Group();
      if group in affinity && affinity[group] in consumers then
        if affinity[group] in busy then ScanGroups(pending, consumers, busy, i + 1, affinity, rr)
        else Scan(Some((i, affinity[group])), affinity, rr)
      else
        var kept := affinity - {group};
        var (free, rr') := Pick(consumers, busy, rr, |consumers|);
        if free.None? then ScanGroups(pending, consumers, busy, i + 1, kept, rr')
        else Scan(Some((i, free.value)), kept[group := free.value], rr')
  }

  // ---------------------------------------------------------------- the lock block of Pump

  datatype Pumped = Idle(queue: Queue) | Sent(queue: Queue, index: nat, msg: Message, to: Handler)

  /** Hand the message at `i` to `c`: out of pending, counted, into flight. */
  function HandOver(q: Queue, i: nat, c: Handler): Queue
    requires i < |q.pending|
  {
    var m := q.pending[i];
    q.(pending := RemoveAt(q.pending, i),
       counts := q.counts[m := q.Count(m) + 1],
       inflight := q.inflight[m := c])
  }

  function PumpBlock(q: Queue): Pumped {
    if q.pending == [] || q.consumers == [] then Idle(q)
    else if q.config.partitionByGroup then
      var scan := ScanGroups(q.pending, q.consumers, q.Busy(), 0, q.affinity, q.rr);
      var q1 := q.(affinity := scan.affinity, rr := scan.rr);
      if scan.found.None? then Idle(q1)
      else
        var (i, c) := scan.found.value;
        Sent(HandOver(q1, i, c), i, q.pending[i], c)
    else
      var (free, rr) := NextConsumer(q);
      var q1 := q.(rr := rr);
      if free.None? then Idle(q1)
      else
        var i := Best(q.pending);
        Sent(HandOver(q1, i, free.value), i, q.pending[i], free.value)
  }

  // ---------------------------------------------------------------- the lock block of Settle

  datatype SettleKind = Ack | Requeue | Dead

  datatype Outcome = Ignored | Acked | DeadLettered | Requeued | Parked

  /** The decision taken for a message that is in flight with the settling consumer. */
  function Decide(config: QueueConfig, count: nat, kind: SettleKind): Outcome {
    match kind
    case Ack => Acked
    case Dead => DeadLettered
    case Requeue =>
      if count >= config.maxDeliveries then DeadLettered
      else if config.retryDelayMs.Some? && config.retryDelayMs.value > 0 then Parked
      else Requeued
  }

  function SettleBlock(q: Queue, m: Message, h: Handler, kind: SettleKind): (Queue, Outcome) {
    if m !in q.inflight || q.inflight[m] != h then (q, Ignored)
    else
      var outcome := Decide(q.config, q.Count(m), kind);
      var q1 := q.(inflight := q.inflight - {m});
      (if outcome.Requeued? then q1.(pending := q1.pending + [m]) else q1, outcome)
  }

  // ---------------------------------------------------------------- the drop callback

  function Held(q: Queue, h: Handler): set<Message> {
    set m | m in q.inflight && q.inflight[m] == h
  }

  /** Some enumeration of a set, as `ToList` gives of a dictionary's entries. */
  ghost function Listed(s: set<Message>): (r: seq<Message>)
    ensures multiset(r) == multiset(s)
    decreases |s|
  {
    if s == {} then []
    else
      var m :| m in s;
      assert s == {m} + (s - {m});
      [m] + Listed(s - {m})
  }

  /** The consumer leaves; each message it holds is pushed back to the front of the queue. */
  ghost function DropBlock(q: Queue, h: Handler): Queue {
    var held := Held(q, h);
    q.(consumers := RemoveFirst(q.consumers, h),
       inflight := q.inflight - held,
       pending := Listed(held) + q.pending)
  }

  // ---------------------------------------------------------------- expiry

  function RemoveUnconsumed(q: Queue, m: Message): (Queue, bool) {
    if m in q.pending then (q.(pending := RemoveFirst(q.pending, m)), true)
    else if m in q.inflight then (q.(inflight := q.inflight - {m}), true)
    else (q, false)
  }
}
