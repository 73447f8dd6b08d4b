/**
 * The RabbitMQ adapter's non-blocking retry: main queue, parking queue and dead-letter fanout.
 * The adapter's own decisions are modelled from its code. The broker's part -- dead-lettering a
 * rejected message, bouncing a parked one back, keeping the x-death list -- is the stated
 * assumption about RabbitMQ that the adapter is written against.
 */
module RabbitRetry {
  import opened Wrappers
  import opened BusTypes
  import opened QueueSteps

  // ---------------------------------------------------------------- the x-death header

  /** One entry of x-death as the adapter reads it; either field may be missing. */
  datatype Death = Death(queue: Option<string>, reason: string, count: Option<nat>)

  /** The count of the first entry that names the queue and carries one, else zero. */
  function XDeathCount(deaths: seq<Death>, mainQueue: string): nat {
    if deaths == [] then 0
    else if deaths[0].queue == Some(mainQueue) && deaths[0].count.Some? then deaths[0].count.value
    else XDeathCount(deaths[1..], mainQueue)
  }

  method ReadXDeathCount(headers: Option<seq<Death>>, mainQueue: string) returns (n: nat)
    ensures n == XDeathCount(headers.GetOr([]), mainQueue)
  {
    if headers.None? {
      return 0;
    }
    var list := headers.value;
    var i := 0;
    while i < |list|
      invariant 0 <= i <= |list|
      invariant XDeathCount(list, mainQueue) == XDeathCount(list[i..], mainQueue)
    {
      assert list[i..][1..] == list[i + 1..];
      var entry := list[i];
      if entry.queue == Some(mainQueue) && entry.count.Some? {
        return entry.count.value;
      }
      i := i + 1;
    }
    return 0;
  }

  /** Broker: the death of a message in a queue for a reason moves that pair's entry to the front, counted up. */
  function Died(deaths: seq<Death>, queue: string, reason: string): seq<Death> {
    [Death(Some(queue), reason, Some(Counted(deaths, queue, reason) + 1))] + Without(deaths, queue, reason)
  }

  function Counted(deaths: seq<Death>, queue: string, reason: string): nat {
    if deaths == [] then 0
    else if deaths[0].queue == Some(queue) && deaths[0].reason == reason then deaths[0].count.GetOr(0)
    else Counted(deaths[1..], queue, reason)
  }

  function Without(deaths: seq<Death>, queue: string, reason: string): seq<Death> {
    if deaths == [] then []
    else if deaths[0].queue == Some(queue) && deaths[0].reason == reason then deaths[1..]
    else [deaths[0]] + Without(deaths[1..], queue, reason)
  }

  /** Taking one queue's entry out leaves what is read and counted for others alone. */
  lemma {:induction false} WithoutKeepsOthers(deaths: seq<Death>, queue: string, reason: string, other: string,
                                              cause: string)
    ensures queue != other ==> XDeathCount(Without(deaths, queue, reason), other) == XDeathCount(deaths, other)
    ensures (queue, reason) != (other, cause)
            ==> Counted(Without(deaths, queue, reason), other, cause) == Counted(deaths, other, cause)
  {
    if deaths != [] && !(deaths[0].queue == Some(queue) && deaths[0].reason == reason) {
      WithoutKeepsOthers(deaths[1..], queue, reason, other, cause);
      assert Without(deaths, queue, reason)[1..] == Without(deaths[1..], queue, reason);
    }
  }

  lemma DeathKeepsOthers(deaths: seq<Death>, queue: string, reason: string, other: string, cause: string)
    ensures queue != other ==> XDeathCount(Died(deaths, queue, reason), other) == XDeathCount(deaths, other)
    ensures (queue, reason) != (other, cause)
            ==> Counted(Died(deaths, queue, reason), other, cause) == Counted(deaths, other, cause)
    ensures Counted(Died(deaths, queue, reason), queue, reason) == Counted(deaths, queue, reason) + 1
  {
    WithoutKeepsOthers(deaths, queue, reason, other, cause);
    assert Died(deaths, queue, reason)[1..] == Without(deaths, queue, reason);
  }

  /**
   * After a rejection the adapter reads the number of rejections so far, whatever else the list holds;
   * that is one more than before exactly when what it read before were the rejections.
   */
  lemma RejectionCounts(deaths: seq<Death>, mainQueue: string)
    ensures var before := XDeathCount(deaths, mainQueue);
            var after := XDeathCount(Died(deaths, mainQueue, "rejected"), mainQueue);
            && after == Counted(deaths, mainQueue, "rejected") + 1
            && (after == before + 1 <==> before == Counted(deaths, mainQueue, "rejected"))
  {
  }

  /** A message that expires in the main queue is read as if it had been rejected there. */
  lemma ExpiryCountsToo(deaths: seq<Death>, mainQueue: string)
    ensures XDeathCount(Died(deaths, mainQueue, "expired"), mainQueue) == Counted(deaths, mainQueue, "expired") + 1
  {
  }

  /** The bounce out of the parking queue changes nothing the adapter reads. */
  lemma BounceDoesNotCount(deaths: seq<Death>, mainQueue: string, retryQueue: string)
    requires retryQueue != mainQueue
    ensures XDeathCount(Died(deaths, retryQueue, "expired"), mainQueue) == XDeathCount(deaths, mainQueue)
  {
    DeathKeepsOthers(deaths, retryQueue, "expired", mainQueue, "expired");
  }

  // ---------------------------------------------------------------- queue wiring

  datatype Argument = Text(text: string) | Number(number: int) | Flag(flag: bool)

  datatype RabbitOptions = RabbitOptions(
    deadLetter: bool, maxDeliveries: Option<int>, retryDelayMs: Option<int>,
    priorityQueue: bool, singleActiveConsumer: bool, ttlMs: Option<int>)

  function FanoutExchange(topic: string): string { "x.f." + topic }

  function RetryQueue(queue: string): string { queue + ".retry" }

  predicate RetryEnabled(opts: RabbitOptions) {
    opts.deadLetter && opts.retryDelayMs.Some? && opts.retryDelayMs.value > 0
  }

  const DLX := "x-dead-letter-exchange"
  const DLK := "x-dead-letter-routing-key"

  /** Where the broker sends what the queue's arguments dead-letter: an exchange and a key. */
  function DeadLetterTarget(args: map<string, Argument>): Option<(Argument, Option<Argument>)> {
    if DLX in args then Some((args[DLX], if DLK in args then Some(args[DLK]) else None)) else None
  }

  /** Rejected messages are parked: the default exchange routes them by the parking queue's name. */
  predicate ParksRejected(args: map<string, Argument>, queue: string) {
    DeadLetterTarget(args) == Some((Text(""), Some(Text(RetryQueue(queue)))))
  }

  /** The arguments the main queue is declared with; a later option overwrites what an earlier one set. */
  function ArgumentsOf(topic: string, queue: string, opts: RabbitOptions): map<string, Argument> {
    var retrying :=
      if RetryEnabled(opts) then map[DLX := Text(""), DLK := Text(RetryQueue(queue))]
      else if opts.deadLetter then
        map["x-queue-type" := Text("quorum"),
            "x-delivery-limit" := Number(opts.maxDeliveries.GetOr(DEFAULT_MAX_DELIVERIES)),
            DLX := Text(FanoutExchange(DeadLetterAddress(topic)))]
      else map[];
    var ranked := if opts.priorityQueue then retrying["x-max-priority" := Number(10)] else retrying;
    var single := if opts.singleActiveConsumer then ranked["x-single-active-consumer" := Flag(true)] else ranked;
    if opts.ttlMs.Some? then single[DLX := Text(FanoutExchange(ExpiryAddress(topic)))] else single
  }

  /** Where the arguments dead-letter: parking exactly with retry on and no TTL set. */
  lemma ArgumentsDeadLetter(topic: string, queue: string, opts: RabbitOptions)
    ensures var args := ArgumentsOf(topic, queue, opts);
            && (ParksRejected(args, queue) <==> RetryEnabled(opts) && opts.ttlMs.None?)
            && (opts.ttlMs.Some? ==> DLX in args && args[DLX] == Text(FanoutExchange(ExpiryAddress(topic))))
            && (!RetryEnabled(opts) && opts.deadLetter && opts.ttlMs.None? ==>
                  DeadLetterTarget(args) == Some((Text(FanoutExchange(DeadLetterAddress(topic))), None)))
            && (!RetryEnabled(opts) && !opts.deadLetter && opts.ttlMs.None? ==> DeadLetterTarget(args).None?)
  {
    assert FanoutExchange(ExpiryAddress(topic)) != "" && FanoutExchange(DeadLetterAddress(topic)) != "";
  }

  /** The arguments of the main queue, built up option by option. */
  method QueueArguments(topic: string, queue: string, opts: RabbitOptions) returns (args: map<string, Argument>)
    ensures args == ArgumentsOf(topic, queue, opts)
    ensures RetryEnabled(opts) ==> (ParksRejected(args, queue) <==> opts.ttlMs.None?)
    ensures opts.ttlMs.Some? ==>
              DLX in args && args[DLX] == Text(FanoutExchange(ExpiryAddress(topic)))
    ensures !RetryEnabled(opts) && opts.deadLetter && opts.ttlMs.None? ==>
              DeadLetterTarget(args) == Some((Text(FanoutExchange(DeadLetterAddress(topic))), None))
    ensures !RetryEnabled(opts) && !opts.deadLetter && opts.ttlMs.None? ==> DeadLetterTarget(args).None?
  {
    args := map[];
    if RetryEnabled(opts) {
      args := args[DLX := Text("")];
      args := args[DLK := Text(RetryQueue(queue))];
    } else if opts.deadLetter {
      args := args["x-queue-type" := Text("quorum")];
      args := args["x-delivery-limit" := Number(opts.maxDeliveries.GetOr(DEFAULT_MAX_DELIVERIES))];
      args := args[DLX := Text(FanoutExchange(DeadLetterAddress(topic)))];
    }
    if opts.priorityQueue {
      args := args["x-max-priority" := Number(10)];
    }
    if opts.singleActiveConsumer {
      args := args["x-single-active-consumer" := Flag(true)];
    }
    if opts.ttlMs.Some? {
      args := args[DLX := Text(FanoutExchange(ExpiryAddress(topic)))];
    }
    ArgumentsDeadLetter(topic, queue, opts);
  }

  // ---------------------------------------------------------------- one settled delivery

  /** What a settlement makes the channel do, in order. */
  datatype ChannelCall = BasicAck | BasicNack(requeue: bool) | PublishToDlq

  /** The adapter's view of one delivery on the retry path. */
  class IncomingMessage {
    const deliveryCount: nat
    const maxDeliveries: int
    var settled: bool
    var calls: seq<ChannelCall>

    constructor (deaths: seq<Death>, mainQueue: string, maxDeliveries: int)
      ensures !settled && calls == []
      ensures deliveryCount == XDeathCount(deaths, mainQueue) + 1
      ensures this.maxDeliveries == maxDeliveries
    {
      var n := ReadXDeathCount(Some(deaths), mainQueue);
      deliveryCount := n + 1;
      this.maxDeliveries := maxDeliveries;
      settled := false;
      calls := [];
    }

    method AckAsync()
      modifies this
      ensures settled
      ensures calls == old(calls) + (if old(settled) then [] else CallsFor(maxDeliveries, deliveryCount, Ack))
    {
      if !settled {
        calls := calls + [BasicAck];
      }
      settled := true;
    }

    method NackAsync(requeue: bool)
      modifies this
      ensures settled
      ensures calls == old(calls)
                       + (if old(settled) then [] else CallsFor(maxDeliveries, deliveryCount,
                                                                if requeue then Requeue else Dead))
      ensures !old(settled) && (!requeue || deliveryCount >= maxDeliveries) ==>
                calls == old(calls) + [PublishToDlq, BasicAck]
      ensures !old(settled) && requeue && deliveryCount < maxDeliveries ==> calls == old(calls) + [BasicNack(false)]
    {
      if settled {
        return;
      }
      settled := true;
      if !requeue || deliveryCount >= maxDeliveries {
        calls := calls + [PublishToDlq];
        calls := calls + [BasicAck];
      } else {
        calls := calls + [BasicNack(false)];
      }
    }
  }

  /** The channel calls of a first settlement: the DLQ publish always precedes the ack. */
  function CallsFor(maxDeliveries: int, deliveryCount: nat, kind: SettleKind): seq<ChannelCall> {
    match kind
    case Ack => [BasicAck]
    case Dead => [PublishToDlq, BasicAck]
    case Requeue => if deliveryCount >= maxDeliveries then [PublishToDlq, BasicAck] else [BasicNack(false)]
  }

  /** The same decision as the in-memory bus takes on a dead-lettering queue with a retry delay. */
  lemma SameDecisionAsInMemory(config: QueueConfig, count: nat, kind: SettleKind)
    requires config.deadLetter && config.retryDelayMs.Some? && config.retryDelayMs.value > 0
    ensures CallsFor(config.maxDeliveries, count, kind) ==
            match Decide(config, count, kind)
            case Acked => [BasicAck]
            case DeadLettered => [PublishToDlq, BasicAck]
            case Parked => [BasicNack(false)]
            case _ => []
  {
  }

  // ---------------------------------------------------------------- the life of a message

  datatype Place =
    | Main                             // in the main queue
    | Flight                           // delivered, nothing sent back yet
    | Published                        // published to the DLQ, ack not yet sent
    | Parking                          // in the retry queue
    | Diverted                         // rejected by a queue that does not park: out of the retry loop
    | Gone                             // acked: the broker has forgotten it

  /** The arguments by the names the broker knows them by, for every set of options. */
  lemma ArgumentsByName(topic: string, queue: string, opts: RabbitOptions)
    ensures var args := ArgumentsOf(topic, queue, opts);
            var retrying := opts.deadLetter && opts.retryDelayMs.Some? && opts.retryDelayMs.value > 0;
            var limit := if opts.maxDeliveries.Some? then opts.maxDeliveries.value else 3;
            && ("x-dead-letter-exchange" in args <==> opts.deadLetter || opts.ttlMs.Some?)
            && (opts.ttlMs.Some? ==> args["x-dead-letter-exchange"] == Text("x.f." + (topic + ".expiry")))
            && (opts.ttlMs.None? && retrying ==> args["x-dead-letter-exchange"] == Text(""))
            && (opts.ttlMs.None? && opts.deadLetter && !retrying ==>
                  args["x-dead-letter-exchange"] == Text("x.f." + (topic + ".dlq")))
            && ("x-dead-letter-routing-key" in args <==> retrying)
            && (retrying ==> args["x-dead-letter-routing-key"] == Text(queue + ".retry"))
            && ("x-queue-type" in args <==> opts.deadLetter && !retrying)
            && (opts.deadLetter && !retrying ==>
                  args["x-queue-type"] == Text("quorum") && "x-delivery-limit" in args
                  && args["x-delivery-limit"] == Number(limit))
            && ("x-max-priority" in args <==> opts.priorityQueue)
            && (opts.priorityQueue ==> args["x-max-priority"] == Number(10))
            && ("x-single-active-consumer" in args <==> opts.singleActiveConsumer)
            && (opts.singleActiveConsumer ==> args["x-single-active-consumer"] == Flag(true))
  {
  }

  /** A subscription's retry set-up; `parks` is what its queue arguments make of a dead-lettered message. */
  datatype Wiring = Wiring(mainQueue: string, maxDeliveries: int, parks: bool)

  /** The set-up of a retry subscription, from what it declares. */
  function WiringOf(topic: string, queue: string, opts: RabbitOptions): Wiring {
    Wiring(queue, opts.maxDeliveries.GetOr(DEFAULT_MAX_DELIVERIES),
           ParksRejected(ArgumentsOf(topic, queue, opts), queue))
  }

  datatype Life = Life(
    place: Place,
    deaths: seq<Death>,
    timed: bool,                     // the message still carries an expiration of its own
    deliveries: nat,
    rejections: nat,
    expirations: nat,                // expiries in the main queue
    dlqCopies: nat,
    ackedByHandler: bool,
    crashes: nat)

  datatype Happening =
    | Deliver
    | Settle(kind: SettleKind)
    | SendAck                          // the second half of a dead-lettering settlement
    | Expire                           // the message's own expiration elapses in the main queue
    | Bounce                           // the parking queue's TTL elapses
    | Crash                            // the channel closes with the delivery unacked

  /** A message just published, with or without an expiration. */
  function Born(timed: bool): Life {
    Life(Main, [], timed, 0, 0, 0, 0, false, 0)
  }

  /** Dead-lettered by the main queue; the broker takes the message's own expiration off. */
  function DeadLettered(w: Wiring, l: Life, reason: string): Life {
    l.(place := if w.parks then Parking else Diverted, deaths := Died(l.deaths, w.mainQueue, reason), timed := false)
  }

  function Live(w: Wiring, l: Life, h: Happening): Life {
    match h
    case Deliver => if l.place.Main? then l.(place := Flight, deliveries := l.deliveries + 1) else l
    case Settle(kind) =>
      if !l.place.Flight? then l
      else
        (match CallsFor(w.maxDeliveries, XDeathCount(l.deaths, w.mainQueue) + 1, kind)[0]
        case BasicAck => l.(place := Gone, ackedByHandler := true)
        case BasicNack(_) => DeadLettered(w, l, "rejected").(rejections := l.rejections + 1)
        case PublishToDlq => l.(place := Published, dlqCopies := l.dlqCopies + 1))
    case SendAck => if l.place.Published? then l.(place := Gone) else l
    case Expire =>
      if l.place.Main? && l.timed then DeadLettered(w, l, "expired").(expirations := l.expirations + 1) else l
    case Bounce =>
      if l.place.Parking? then l.(place := Main, deaths := Died(l.deaths, RetryQueue(w.mainQueue), "expired")) else l
    case Crash =>
      if l.place.Flight? || l.place.Published? then l.(place := Main, crashes := l.crashes + 1) else l
  }

  function Lived(w: Wiring, l: Life, hs: seq<Happening>): Life
    decreases |hs|
  {
    if hs == [] then l else Lived(w, Live(w, l, hs[0]), hs[1..])
  }

  function Limit(maxDeliveries: int): nat {
    if maxDeliveries < 1 then 1 else maxDeliveries
  }

  predicate Waiting(place: Place) {
    place.Main? || place.Parking? || place.Diverted?
  }

  /** The adapter reads the rejections, or before the first one the expiry. */
  predicate ReadsItsDeaths(w: Wiring, l: Life) {
    && Counted(l.deaths, w.mainQueue, "rejected") == l.rejections
    && Counted(l.deaths, w.mainQueue, "expired") == l.expirations
    && XDeathCount(l.deaths, w.mainQueue) == (if l.rejections == 0 then l.expirations else l.rejections)
    && l.expirations <= 1 && (l.timed ==> l.expirations == 0 && l.rejections == 0)
  }

  ghost predicate Sound(w: Wiring, l: Life) {
    && ReadsItsDeaths(w, l)
    // never lost: once the broker has forgotten it, the handler acked it or the DLQ has it
    && (l.place.Gone? ==> l.ackedByHandler || l.dlqCopies >= 1)
    && (l.place.Published? ==> l.dlqCopies >= 1)
    && (l.place.Diverted? ==> !w.parks)
    // deliveries and copies are accounted for by rejections and crashes
    && l.deliveries == l.rejections + l.crashes + (if Waiting(l.place) then 0 else 1)
    && l.dlqCopies <= l.crashes + (if (l.place.Published? || l.place.Gone?) && !l.ackedByHandler then 1 else 0)
    && l.rejections + 1 <= Limit(w.maxDeliveries)
    && (l.ackedByHandler ==> l.place.Gone?)
  }

  lemma RejectedReads(w: Wiring, l: Life)
    requires ReadsItsDeaths(w, l)
    ensures ReadsItsDeaths(w, DeadLettered(w, l, "rejected").(rejections := l.rejections + 1))
  {
    RejectionCounts(l.deaths, w.mainQueue);
    DeathKeepsOthers(l.deaths, w.mainQueue, "rejected", w.mainQueue, "expired");
    hide Died, XDeathCount, Counted;
  }

  lemma ExpiredReads(w: Wiring, l: Life)
    requires ReadsItsDeaths(w, l) && l.timed
    ensures ReadsItsDeaths(w, DeadLettered(w, l, "expired").(expirations := l.expirations + 1))
  {
    ExpiryCountsToo(l.deaths, w.mainQueue);
    DeathKeepsOthers(l.deaths, w.mainQueue, "expired", w.mainQueue, "rejected");
    hide Died, XDeathCount, Counted;
  }

  lemma BouncedReads(w: Wiring, l: Life)
    requires ReadsItsDeaths(w, l)
    ensures ReadsItsDeaths(w, l.(place := Main, deaths := Died(l.deaths, RetryQueue(w.mainQueue), "expired")))
  {
    var main, retry := w.mainQueue, RetryQueue(w.mainQueue);
    BounceDoesNotCount(l.deaths, main, retry);
    DeathKeepsOthers(l.deaths, retry, "expired", main, "rejected");
    DeathKeepsOthers(l.deaths, retry, "expired", main, "expired");
    hide Died, XDeathCount, Counted;
  }

  lemma LiveKeepsReading(w: Wiring, l: Life, h: Happening)
    requires ReadsItsDeaths(w, l)
    ensures ReadsItsDeaths(w, Live(w, l, h))
  {
    RejectedReads(w, l);
    BouncedReads(w, l);
    if l.timed {
      ExpiredReads(w, l);
    }
    hide Died, XDeathCount, Counted, DeadLettered;
  }

  lemma LiveKeepsSound(w: Wiring, l: Life, h: Happening)
    requires Sound(w, l)
    ensures Sound(w, Live(w, l, h))
  {
    LiveKeepsReading(w, l, h);
    hide Died, XDeathCount, Counted;
  }

  lemma {:induction false} LivedIsSound(w: Wiring, l: Life, hs: seq<Happening>)
    requires Sound(w, l)
    ensures Sound(w, Lived(w, l, hs))
    decreases |hs|
  {
    hide Sound, Live;
    if hs != [] {
      LiveKeepsSound(w, l, hs[0]);
      LivedIsSound(w, Live(w, l, hs[0]), hs[1..]);
    }
  }

  /**
   * With crashes at any point: a message the broker has forgotten was acked by a handler or is
   * in the DLQ; it is delivered at most its limit plus the crashes, and copied to the DLQ at
   * most once plus the crashes.
   */
  lemma NeverLost(w: Wiring, timed: bool, hs: seq<Happening>)
    ensures var l := Lived(w, Born(timed), hs);
            && (l.place.Gone? ==> l.ackedByHandler || l.dlqCopies >= 1)
            && (l.place.Diverted? ==> !w.parks)
            && l.deliveries <= Limit(w.maxDeliveries) + l.crashes
            && l.dlqCopies <= 1 + l.crashes
  {
    LivedIsSound(w, Born(timed), hs);
  }

  /** A crash between the DLQ publish and the ack does leave two copies. */
  lemma CrashCanDuplicate(mainQueue: string)
    ensures Lived(Wiring(mainQueue, 1, true), Born(false),
                  [Deliver, Settle(Requeue), Crash, Deliver, Settle(Requeue), SendAck]).dlqCopies == 2
  {
  }

  lemma ThreeSteps(w: Wiring, l: Life, a: Happening, b: Happening, c: Happening)
    ensures Lived(w, l, [a, b, c]) == Live(w, Live(w, Live(w, l, a), b), c)
  {
    hide Live;
    assert [a, b, c][1..] == [b, c] && [b, c][1..] == [c] && [c][1..] == [];
    var l1 := Live(w, l, a);
    var l2 := Live(w, l1, b);
    assert Lived(w, l2, [c]) == Live(w, l2, c);
    assert Lived(w, l1, [b, c]) == Lived(w, l2, [c]);
  }

  lemma {:induction false} LivedThrough(w: Wiring, l: Life, hs: seq<Happening>, more: seq<Happening>)
    ensures Lived(w, l, hs + more) == Lived(w, Lived(w, l, hs), more)
    decreases |hs|
  {
    hide Live;
    if hs == [] {
      assert hs + more == more;
    } else {
      assert (hs + more)[1..] == hs[1..] + more;
      LivedThrough(w, Live(w, l, hs[0]), hs[1..], more);
    }
  }

  // ---------------------------------------------------------------- always nacked for requeue

  predicate AlwaysRequeued(hs: seq<Happening>) {
    forall i :: 0 <= i < |hs| ==> !hs[i].Crash? && (hs[i].Settle? ==> hs[i].kind.Requeue?)
  }

  /** How often a message that is always nacked for requeue is delivered, if it expires in the main queue or not. */
  function Attempts(maxDeliveries: int, expired: bool): nat {
    if expired && maxDeliveries == 2 then 1 else Limit(maxDeliveries)
  }

  ghost predicate Steady(w: Wiring, l: Life) {
    && l.crashes == 0 && !l.ackedByHandler
    && (l.place.Published? || l.place.Gone? ==> l.rejections + 1 == Attempts(w.maxDeliveries, l.expirations > 0))
    && l.dlqCopies == (if l.place.Published? || l.place.Gone? then 1 else 0)
    && (!w.parks && !l.place.Diverted? ==> l.rejections == 0 && l.expirations == 0)
    && (l.expirations > 0 && w.maxDeliveries == 2 ==> l.rejections == 0)
  }

  lemma LiveKeepsSteady(w: Wiring, l: Life, h: Happening)
    requires Sound(w, l) && Steady(w, l)
    requires !h.Crash? && (h.Settle? ==> h.kind.Requeue?)
    ensures Steady(w, Live(w, l, h))
  {
    hide Died, XDeathCount, Counted;
  }

  lemma {:induction false} LivedIsSteady(w: Wiring, l: Life, hs: seq<Happening>)
    requires Sound(w, l) && Steady(w, l) && AlwaysRequeued(hs)
    ensures Steady(w, Lived(w, l, hs))
    decreases |hs|
  {
    hide Sound, Steady, Live;
    if hs != [] {
      LiveKeepsSound(w, l, hs[0]);
      LiveKeepsSteady(w, l, hs[0]);
      LivedIsSteady(w, Live(w, l, hs[0]), hs[1..]);
    }
  }

  /**
   * Without crashes, a message that is always nacked for requeue is forgotten with exactly one copy in
   * the DLQ, and before that there is none. It was then delivered exactly max(1, MaxDeliveries) times,
   * if and only if it did not expire in the main queue or the limit is not two; else once.
   */
  lemma AlwaysRequeuedReachesDlqOnce(w: Wiring, timed: bool, hs: seq<Happening>)
    requires AlwaysRequeued(hs)
    ensures var l := Lived(w, Born(timed), hs);
            && (l.place.Gone? ==> l.dlqCopies == 1 && l.deliveries == Attempts(w.maxDeliveries, l.expirations > 0))
            && (l.place.Gone?
                ==> (l.deliveries == Limit(w.maxDeliveries) <==> !(l.expirations > 0 && w.maxDeliveries == 2)))
            && (!l.place.Gone? && !l.place.Published? ==> l.dlqCopies == 0)
  {
    LivedIsSound(w, Born(timed), hs);
    LivedIsSteady(w, Born(timed), hs);
  }

  /** A message with an expiration that is given up after one delivery of the two it was granted. */
  lemma ExpirySpendsADelivery(mainQueue: string)
    ensures var hs := [Expire, Bounce, Deliver, Settle(Requeue), SendAck];
            var l := Lived(Wiring(mainQueue, 2, true), Born(true), hs);
            AlwaysRequeued(hs) && l.place.Gone? && l.deliveries == 1 && l.dlqCopies == 1
  {
    var w := Wiring(mainQueue, 2, true);
    var first, last := [Expire, Bounce, Deliver], [Settle(Requeue), SendAck];
    var l := Lived(w, Born(true), first);
    ThreeSteps(w, Born(true), Expire, Bounce, Deliver);
    LivedIsSound(w, Born(true), first);
    LivedThrough(w, Born(true), first, last);
    assert first + last == [Expire, Bounce, Deliver, Settle(Requeue), SendAck];
    assert last[1..] == [SendAck] && [SendAck][1..] == [];
    hide Died, XDeathCount, Counted;
    assert Lived(w, l, last) == Live(w, Live(w, l, Settle(Requeue)), SendAck);
  }

  /** Every life of always being nacked for requeue that ends, ends after exactly the limit. */
  ghost predicate AlwaysMeetsLimit(w: Wiring, timed: bool) {
    forall hs :: AlwaysRequeued(hs) && Lived(w, Born(timed), hs).place.Gone? ==>
      Lived(w, Born(timed), hs).deliveries == Limit(w.maxDeliveries)
  }

  /** The limit is met in every life exactly when the message has no expiration, or it does not park, or is not two. */
  lemma LimitIsMetExactly(w: Wiring, timed: bool)
    ensures AlwaysMeetsLimit(w, timed) <==> !(timed && w.parks && w.maxDeliveries == 2)
  {
    if timed && w.parks && w.maxDeliveries == 2 {
      ExpirySpendsADelivery(w.mainQueue);
      assert w == Wiring(w.mainQueue, 2, true);
    } else {
      forall hs | AlwaysRequeued(hs) && Lived(w, Born(timed), hs).place.Gone?
        ensures Lived(w, Born(timed), hs).deliveries == Limit(w.maxDeliveries)
      {
        AlwaysRequeuedReachesDlqOnce(w, timed, hs);
        LivedIsSteady(w, Born(timed), hs);
        UntimedNeverExpires(w, timed, hs);
      }
    }
  }

  lemma {:induction false} ExpirationsNeedTime(w: Wiring, l: Life, hs: seq<Happening>)
    requires !l.timed
    ensures Lived(w, l, hs).expirations == l.expirations
    decreases |hs|
  {
    if hs != [] {
      var l1 := Live(w, l, hs[0]);
      assert !l1.timed && l1.expirations == l.expirations;
      hide Live;
      ExpirationsNeedTime(w, l1, hs[1..]);
    }
  }

  lemma UntimedNeverExpires(w: Wiring, timed: bool, hs: seq<Happening>)
    ensures !timed ==> Lived(w, Born(timed), hs).expirations == 0
  {
    if !timed {
      ExpirationsNeedTime(w, Born(timed), hs);
    }
  }

  /** The rounds of such a message: delivered, nacked, parked and bounced. */
  function Rounds(n: nat): seq<Happening> {
    if n == 0 then [] else Rounds(n - 1) + [Deliver, Settle(Requeue), Bounce]
  }

  lemma OneRound(w: Wiring, l: Life)
    requires Sound(w, l) && w.parks && l.place.Main? && l.expirations == 0 && l.rejections + 1 < Limit(w.maxDeliveries)
    ensures var l' := Lived(w, l, [Deliver, Settle(Requeue), Bounce]);
            Sound(w, l') && l'.place.Main? && l'.expirations == 0 && l'.rejections == l.rejections + 1
  {
    hide Died, XDeathCount, Counted;
    ThreeSteps(w, l, Deliver, Settle(Requeue), Bounce);
    LivedIsSound(w, l, [Deliver, Settle(Requeue), Bounce]);
  }

  lemma {:induction false} RoundsGoOn(w: Wiring, timed: bool, n: nat)
    requires w.parks && n < Limit(w.maxDeliveries)
    ensures AlwaysRequeued(Rounds(n))
    ensures var l := Lived(w, Born(timed), Rounds(n));
            Sound(w, l) && l.place.Main? && l.expirations == 0 && l.rejections == n
  {
    if n > 0 {
      RoundsGoOn(w, timed, n - 1);
      OneRound(w, Lived(w, Born(timed), Rounds(n - 1)));
      LivedThrough(w, Born(timed), Rounds(n - 1), [Deliver, Settle(Requeue), Bounce]);
    }
  }

  /** Some life in which the message is always nacked for requeue ends with it in the DLQ. */
  ghost predicate CanReachDlq(w: Wiring, timed: bool) {
    exists hs :: AlwaysRequeued(hs) && Lived(w, Born(timed), hs).dlqCopies == 1
  }

  /** The retry loop works exactly when rejected messages are parked, or there is nothing to retry. */
  lemma ReachesDlqExactlyWhenParked(w: Wiring, timed: bool)
    ensures CanReachDlq(w, timed) <==> w.parks || w.maxDeliveries <= 1
  {
    if w.parks || w.maxDeliveries <= 1 {
      var n := if w.parks then Limit(w.maxDeliveries) - 1 else 0;
      if w.parks {
        RoundsGoOn(w, timed, n);
      }
      var l := Lived(w, Born(timed), Rounds(n));
      var last := [Deliver, Settle(Requeue), SendAck];
      ThreeSteps(w, l, Deliver, Settle(Requeue), SendAck);
      LivedThrough(w, Born(timed), Rounds(n), last);
      LivedIsSound(w, Born(timed), Rounds(n));
      assert Live(w, Live(w, l, Deliver), Settle(Requeue)).place.Published?;
      assert AlwaysRequeued(Rounds(n) + last);
      AlwaysRequeuedReachesDlqOnce(w, timed, Rounds(n) + last);
    }
    if CanReachDlq(w, timed) {
      var hs :| AlwaysRequeued(hs) && Lived(w, Born(timed), hs).dlqCopies == 1;
      LivedIsSound(w, Born(timed), hs);
      LivedIsSteady(w, Born(timed), hs);
    }
  }

  /** With retry on, an always requeued message can reach the DLQ exactly when no TTL is set or one delivery is all. */
  lemma RetryLoopWorksExactly(topic: string, queue: string, opts: RabbitOptions, timed: bool)
    requires RetryEnabled(opts)
    ensures CanReachDlq(WiringOf(topic, queue, opts), timed)
            <==> opts.ttlMs.None? || opts.maxDeliveries.GetOr(DEFAULT_MAX_DELIVERIES) <= 1
  {
    ArgumentsDeadLetter(topic, queue, opts);
    ReachesDlqExactlyWhenParked(WiringOf(topic, queue, opts), timed);
  }

  /** A delay and a TTL set together: the first nack takes the message out of the loop, and the DLQ never sees it. */
  lemma TtlBreaksTheRetryLoop(topic: string, queue: string)
    ensures var opts := RabbitOptions(true, None, Some(1000), false, false, Some(60000));
            var w := WiringOf(topic, queue, opts);
            && RetryEnabled(opts) && !CanReachDlq(w, false)
            && Live(w, Live(w, Born(false), Deliver), Settle(Requeue)).place.Diverted?
  {
    var opts := RabbitOptions(true, None, Some(1000), false, false, Some(60000));
    RetryLoopWorksExactly(topic, queue, opts, false);
    ArgumentsDeadLetter(topic, queue, opts);
    hide ArgumentsOf;
  }

  // ---------------------------------------------------------------- the other two ends

  /** An acked message is forgotten at once, and the DLQ never has it. */
  lemma AckedIsForgotten(w: Wiring, timed: bool)
    ensures var l := Lived(w, Born(timed), [Deliver, Settle(Ack)]);
            l.place.Gone? && l.ackedByHandler && l.deliveries == 1 && l.dlqCopies == 0
  {
    LivedThrough(w, Born(timed), [Deliver], [Settle(Ack)]);
    assert [Deliver] + [Settle(Ack)] == [Deliver, Settle(Ack)];
    assert [Deliver][1..] == [] && [Settle(Ack)][1..] == [];
    hide XDeathCount, Died;
  }

  /** A rejected one goes to the DLQ after its first delivery, whatever its limit. */
  lemma RejectedGoesToTheDlq(w: Wiring, timed: bool)
    ensures var l := Lived(w, Born(timed), [Deliver, Settle(Dead), SendAck]);
            l.place.Gone? && !l.ackedByHandler && l.deliveries == 1 && l.dlqCopies == 1
  {
    ThreeSteps(w, Born(timed), Deliver, Settle(Dead), SendAck);
    hide XDeathCount, Died;
  }
}
