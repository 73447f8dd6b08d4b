/** The values the in-memory bus moves around, and the state of one subscriber queue. */
module BusTypes {
  import opened Wrappers
  import opened TopicMatching

  /** Identity of a consumer's delegate; delegates are only ever compared. */
  type Handler = nat

  const DEFAULT_MAX_DELIVERIES := 3

  function DeadLetterAddress(topic: string): string { topic + ".dlq" }

  function ExpiryAddress(topic: string): string { topic + ".expiry" }

  datatype PublishOptions = PublishOptions(
    priority: Option<int>,
    groupId: Option<string>,
    dedupId: Option<string>,
    ttlMs: Option<int>,
    replyTo: Option<string>,
    correlationId: Option<string>,
    headers: map<string, string>)

  /**
   * One copy of a published message. `id` is the value of the bus-wide counter when the copy
   * was made, so within a queue it stands for the object's identity; the mutable delivery
   * count lives in the queue, keyed by the copy.
   */
  datatype Message = Message(id: nat, body: string, routingKey: string, options: Option<PublishOptions>) {

    function Priority(): int {
      if options.Some? then options.value.priority.GetOr(0) else 0
    }

    function Group(): string {
      if options.Some? then options.value.groupId.GetOr("") else ""
    }

    /** True when publishing the copy arms an expiry timer. */
    predicate Expires() {
      options.Some? && options.value.ttlMs.Some? && options.value.ttlMs.value >= 0
    }
  }

  datatype TopologyKind = Topic | Fanout

  datatype QueueConfig = QueueConfig(
    topic: string,
    kind: TopologyKind,
    routingKey: Option<string>,
    maxDeliveries: int,
    deadLetter: bool,
    retryDelayMs: Option<int>,
    partitionByGroup: bool,
    singleActiveConsumer: bool)
  {
    /** Whether a message with this key belongs in the queue. */
    predicate Matches(messageKey: string) {
      || kind.Fanout?
      || routingKey.None?
      || routingKey.value == ""
      || TopicMatch(routingKey.value, messageKey)
    }
  }

  datatype SubscribeOptions = SubscribeOptions(
    kind: TopologyKind,
    routingKey: Option<string>,
    subscriberId: Option<string>,
    deadLetter: bool,
    maxDeliveries: Option<int>,
    retryDelayMs: Option<int>,
    partitionByGroup: bool,
    singleActiveConsumer: bool,
    streamReplay: bool)

  function ConfigOf(topic: string, opts: SubscribeOptions): QueueConfig {
    QueueConfig(topic, opts.kind, opts.routingKey, opts.maxDeliveries.GetOr(DEFAULT_MAX_DELIVERIES),
                opts.deadLetter, opts.retryDelayMs, opts.partitionByGroup, opts.singleActiveConsumer)
  }

  /** One logical subscriber queue, as every lock block finds and leaves it. */
  datatype Queue = Queue(
    config: QueueConfig,
    pending: seq<Message>,
    inflight: map<Message, Handler>,
    consumers: seq<Handler>,
    affinity: map<string, Handler>,
    rr: nat,
    counts: map<Message, nat>)
  {
    function Count(m: Message): nat {
      if m in counts then counts[m] else 0
    }

    /** The consumers that hold a message: `new HashSet<AckHandler>(Inflight.Values)`. */
    function Busy(): set<Handler> {
      inflight.Values
    }
  }

  function RemoveAt<T>(s: seq<T>, i: nat): (r: seq<T>)
    requires i < |s|
    ensures |r| == |s| - 1
  {
    s[..i] + s[i + 1..]
  }

  /** `List.Remove`: drop the first occurrence, if there is one. */
  function RemoveFirst<T(==)>(s: seq<T>, x: T): seq<T> {
    if s == [] then []
    else if s[0] == x then s[1..]
    else [s[0]] + RemoveFirst(s[1..], x)
  }

  lemma MultisetOfRemoveAt<T>(s: seq<T>, i: nat)
    requires i < |s|
    ensures multiset(RemoveAt(s, i)) == multiset(s) - multiset{s[i]}
    ensures s[i] in multiset(s)
  {
    assert s == s[..i] + [s[i]] + s[i + 1..];
  }

  lemma {:induction false} RemoveFirstIsRemoveAt<T>(s: seq<T>, x: T) returns (i: nat)
    requires x in s
    ensures i < |s| && s[i] == x && x !in s[..i] && RemoveFirst(s, x) == RemoveAt(s, i)
  {
    if s[0] == x {
      i := 0;
    } else {
      var head, tail := [s[0]], s[1..];
      assert s == head + tail;
      var j := RemoveFirstIsRemoveAt(tail, x);
      i := j + 1;
      assert RemoveFirst(s, x) == head + RemoveAt(tail, j);
      hide RemoveFirst;
      assert s[..i] == head + tail[..j];
      assert RemoveAt(s, i) == head + RemoveAt(tail, j);
    }
  }

  lemma {:induction false} RemoveFirstOfAbsent<T>(s: seq<T>, x: T)
    requires x !in s
    ensures RemoveFirst(s, x) == s
  {
    if s != [] {
      RemoveFirstOfAbsent(s[1..], x);
    }
  }

  lemma {:induction false} RemoveFirstKeepsOthers<T>(s: seq<T>, x: T, y: T)
    ensures y in RemoveFirst(s, x) ==> y in s
    ensures y != x && y in s ==> y in RemoveFirst(s, x)
  {
    if s != [] {
      RemoveFirstKeepsOthers(s[1..], x, y);
    }
  }
}
