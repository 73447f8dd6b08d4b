/** `NextGroupDelivery` and the whole Pump block: exactly what is delivered, and when nothing is. */
module GroupScan {
  import opened Wrappers
  import opened BusTypes
  import opened QueueSteps
  import opened RoundRobin
  import opened PriorityDrain

  /** The attached consumer a group is pinned to, if there is one. */
  function Owner(affinity: map<string, Handler>, consumers: seq<Handler>, group: string): Option<Handler> {
    if group in affinity && affinity[group] in consumers then Some(affinity[group]) else None
  }

  /** A message may go: to its group's free owner, or to anybody free when the group has no owner. */
  predicate MayGo(owner: Option<Handler>, consumers: seq<Handler>, busy: set<Handler>) {
    if owner.Some? then owner.value !in busy else SomeFree(consumers, busy)
  }

  predicate Eligible(q: Queue, m: Message) {
    MayGo(Owner(q.affinity, q.consumers, m.Group()), q.consumers, q.Busy())
  }

  /** Two affinity tables pin the same groups to the same attached consumers. */
  ghost predicate SameOwners(a: map<string, Handler>, b: map<string, Handler>, consumers: seq<Handler>) {
    forall g :: Owner(a, consumers, g) == Owner(b, consumers, g)
  }

  /** What a scan promises about the table and the pending list it started from. */
  ghost predicate ScanContract(pending: seq<Message>, consumers: seq<Handler>, busy: set<Handler>,
                               i: nat, affinity: map<string, Handler>, scan: Scan) {
    match scan.found
    case None =>
      && SameOwners(affinity, scan.affinity, consumers)
      && forall j :: i <= j < |pending| ==> !MayGo(Owner(affinity, consumers, pending[j].Group()), consumers, busy)
    case Some((r, c)) =>
      && i <= r < |pending|
      && c in consumers && c !in busy
      && (forall j :: i <= j < r ==> !MayGo(Owner(affinity, consumers, pending[j].Group()), consumers, busy))
      && MayGo(Owner(affinity, consumers, pending[r].Group()), consumers, busy)
      && (Owner(affinity, consumers, pending[r].Group()).Some?
          ==> Owner(affinity, consumers, pending[r].Group()).value == c)
      && (forall g :: Owner(scan.affinity, consumers, g)
                      == if g == pending[r].Group() then Some(c) else Owner(affinity, consumers, g))
  }

  lemma {:induction false} ScanMeetsContract(pending: seq<Message>, consumers: seq<Handler>, busy: set<Handler>,
                                             i: nat, affinity: map<string, Handler>, rr: nat)
    requires consumers != [] && i <= |pending|
    ensures ScanContract(pending, consumers, busy, i, affinity,
                         ScanGroups(pending, consumers, busy, i, affinity, rr))
    decreases |pending| - i
  {
    if i < |pending| {
      var group := pending[i].Group();
      if Owner(affinity, consumers, group).Some? {
        if affinity[group] in busy {
          ScanMeetsContract(pending, consumers, busy, i + 1, affinity, rr);
        }
      } else {
        var kept := affinity - {group};
        assert SameOwners(affinity, kept, consumers);
        PickIsExact(consumers, busy, rr);
        var (free, rr') := Pick(consumers, busy, rr, |consumers|);
        if free.None? {
          ScanMeetsContract(pending, consumers, busy, i + 1, kept, rr');
        }
      }
    }
  }

  // ---------------------------------------------------------------- the Pump block

  /** Some pending message could be handed to somebody right now. */
  ghost predicate CanDeliver(q: Queue) {
    && q.consumers != []
    && if q.config.partitionByGroup then exists i :: 0 <= i < |q.pending| && Eligible(q, q.pending[i])
       else q.pending != []
            && if q.config.singleActiveConsumer then q.inflight == map[] else SomeFree(q.consumers, q.Busy())
  }

  /** A block that delivers nothing changes only the cursor and entries of departed owners. */
  ghost predicate IdleEffect(q: Queue, q': Queue) {
    && q' == q.(affinity := q'.affinity, rr := q'.rr)
    && SameOwners(q.affinity, q'.affinity, q.consumers)
  }

  /** The message at `i` goes to an attached, free consumer; nothing else leaves its place. */
  ghost predicate SentEffect(q: Queue, q': Queue, i: nat, c: Handler) {
    && i < |q.pending|
    && var m := q.pending[i];
    && q' == q.(pending := RemoveAt(q.pending, i), counts := q.counts[m := q.Count(m) + 1],
                inflight := q.inflight[m := c], affinity := q'.affinity, rr := q'.rr)
    && c in q.consumers && c !in q.Busy()
    && if q.config.partitionByGroup then
         && (Owner(q.affinity, q.consumers, m.Group()) in {None, Some(c)})
         && (forall g :: Owner(q'.affinity, q.consumers, g)
                         == if g == m.Group() then Some(c) else Owner(q.affinity, q.consumers, g))
         && (forall j :: 0 <= j < i ==> !Eligible(q, q.pending[j]))
         && Eligible(q, m)
       else
         && q'.affinity == q.affinity
         && (forall j :: 0 <= j < |q.pending| ==> q.pending[j].Priority() <= m.Priority())
         && (forall j :: 0 <= j < i ==> q.pending[j].Priority() < m.Priority())
         && (q.config.singleActiveConsumer ==> q.inflight == map[] && c == q.consumers[0])
  }

  ghost predicate PumpContract(q: Queue, p: Pumped) {
    match p
    case Idle(q') => !CanDeliver(q) && IdleEffect(q, q')
    case Sent(q', i, m, c) => CanDeliver(q) && SentEffect(q, q', i, c) && m == q.pending[i]
  }

  lemma PumpGroupContract(q: Queue)
    requires q.pending != [] && q.consumers != [] && q.config.partitionByGroup
    ensures PumpContract(q, PumpBlock(q))
  {
    ScanMeetsContract(q.pending, q.consumers, q.Busy(), 0, q.affinity, q.rr);
    var scan := ScanGroups(q.pending, q.consumers, q.Busy(), 0, q.affinity, q.rr);
    if scan.found.Some? {
      var (i, c) := scan.found.value;
      assert Eligible(q, q.pending[i]);
    } else {
      forall i | 0 <= i < |q.pending| ensures !Eligible(q, q.pending[i]) {
      }
    }
  }

  lemma PumpPlainContract(q: Queue)
    requires q.pending != [] && q.consumers != [] && !q.config.partitionByGroup
    ensures PumpContract(q, PumpBlock(q))
  {
    BestIsFirstMax(q.pending);
    if q.config.singleActiveConsumer {
      assert q.consumers[0] in q.consumers;
    } else {
      PickIsExact(q.consumers, q.Busy(), q.rr);
      var (free, rr) := NextConsumer(q);
      if free.Some? {
        assert SomeFree(q.consumers, q.Busy());
      }
    }
  }

  /** The block delivers exactly when something can be delivered, and then the right message. */
  lemma PumpIsExact(q: Queue)
    ensures PumpContract(q, PumpBlock(q))
  {
    if q.pending != [] && q.consumers != [] {
      if q.config.partitionByGroup {
        PumpGroupContract(q);
      } else {
        PumpPlainContract(q);
      }
    }
  }

  /**
   * On a partitioned queue: nothing is returned exactly when every pending message's group is
   * owned by an attached busy consumer, or has no attached owner while all consumers are busy;
   * what is returned is the earliest pending message of its group.
   */
  lemma GroupDeliveryIsExact(q: Queue)
    requires q.config.partitionByGroup && q.consumers != []
    ensures PumpBlock(q).Idle? <==>
            forall i :: 0 <= i < |q.pending| ==>
              match Owner(q.affinity, q.consumers, q.pending[i].Group())
              case Some(h) => h in q.Busy()
              case None => forall h :: h in q.consumers ==> h in q.Busy()
    ensures PumpBlock(q).Sent? ==>
              forall j :: 0 <= j < PumpBlock(q).index ==> q.pending[j].Group() != PumpBlock(q).msg.Group()
  {
    PumpIsExact(q);
    forall i | 0 <= i < |q.pending|
      ensures Eligible(q, q.pending[i]) <==>
              !match Owner(q.affinity, q.consumers, q.pending[i].Group())
               case Some(h) => h in q.Busy()
               case None => forall h :: h in q.consumers ==> h in q.Busy() {
    }
    if PumpBlock(q).Sent? {
      var r := PumpBlock(q).index;
      forall j | 0 <= j < r ensures q.pending[j].Group() != q.pending[r].Group() {
        assert !Eligible(q, q.pending[j]);
      }
    }
  }
}
