/** The round-robin cursor: when it finds a free consumer, and how fairly. */
module RoundRobin {
  import opened Wrappers
  import opened BusTypes
  import opened QueueSteps
  import opened Arithmetic

  predicate SomeFree(consumers: seq<Handler>, busy: set<Handler>) {
    exists h :: h in consumers && h !in busy
  }

  /** How many cursor steps ahead of `rr` index `j` is next met. */
  function Distance(rr: nat, j: nat, n: nat): (d: nat)
    requires j < n
    ensures d < n
  {
    if j >= rr % n then j - rr % n else j + n - rr % n
  }

  /** The cursor's position after one more step. */
  lemma NextPosition(rr: nat, n: nat)
    requires n > 0
    ensures (rr + 1) % n == if rr % n + 1 == n then 0 else rr % n + 1
  {
    var q, a := rr / n, rr % n;
    assert rr == n * q + a;
    if a + 1 == n {
      assert n * (q + 1) == n * q + n;
      ModIsUnique(rr + 1, n, q + 1, 0);
    } else {
      ModIsUnique(rr + 1, n, q, a + 1);
    }
  }

  /** One step of the cursor brings every other index one step nearer. */
  lemma DistanceShrinks(rr: nat, j: nat, n: nat)
    requires j < n && rr % n != j
    ensures Distance(rr, j, n) >= 1
    ensures Distance(rr + 1, j, n) == Distance(rr, j, n) - 1
  {
    NextPosition(rr, n);
  }

  // ---------------------------------------------------------------- exactness of one pick

  /** A free consumer within reach is found no later than the cursor meets it. */
  lemma {:induction false} PickFinds(consumers: seq<Handler>, busy: set<Handler>, rr: nat, tries: nat, j: nat)
    requires j < |consumers| && consumers[j] !in busy
    requires Distance(rr, j, |consumers|) < tries
    ensures var (c, rr') := Pick(consumers, busy, rr, tries);
            c.Some? && rr < rr' <= rr + Distance(rr, j, |consumers|) + 1
    decreases tries
  {
    var n := |consumers|;
    if rr % n != j && consumers[rr % n] in busy {
      DistanceShrinks(rr, j, n);
      PickFinds(consumers, busy, rr + 1, tries - 1, j);
    }
  }

  lemma {:induction false} PickIsFree(consumers: seq<Handler>, busy: set<Handler>, rr: nat, tries: nat)
    requires consumers != []
    ensures var (c, rr') := Pick(consumers, busy, rr, tries);
            c.Some? ==> rr < rr' && c.value == consumers[(rr' - 1) % |consumers|] && c.value !in busy
    decreases tries
  {
    if tries > 0 {
      PickIsFree(consumers, busy, rr + 1, tries - 1);
    }
  }

  /** A full turn of the cursor fails exactly when every consumer is busy, and picks only free ones. */
  lemma PickIsExact(consumers: seq<Handler>, busy: set<Handler>, rr: nat)
    requires consumers != []
    ensures var (c, _) := Pick(consumers, busy, rr, |consumers|);
            && (c.Some? <==> SomeFree(consumers, busy))
            && (c.Some? ==> c.value in consumers && c.value !in busy)
  {
    PickIsFree(consumers, busy, rr, |consumers|);
    if SomeFree(consumers, busy) {
      var h :| h in consumers && h !in busy;
      var j :| 0 <= j < |consumers| && consumers[j] == h;
      PickFinds(consumers, busy, rr, |consumers|, j);
    }
  }

  /** `NextConsumer` outside single-active: nobody exactly when all are busy. */
  lemma NextConsumerIsExact(q: Queue)
    requires q.consumers != [] && !q.config.singleActiveConsumer
    ensures NextConsumer(q).0.None? <==> forall h :: h in q.consumers ==> h in q.Busy()
    ensures NextConsumer(q).0.Some? ==> NextConsumer(q).0.value in q.consumers && NextConsumer(q).0.value !in q.Busy()
  {
    PickIsExact(q.consumers, q.Busy(), q.rr);
  }

  // ---------------------------------------------------------------- fairness

  /** The consumers handed out by successive picks, each facing its own set of busy consumers. */
  function Picks(consumers: seq<Handler>, busies: seq<set<Handler>>, rr: nat): seq<Option<Handler>>
    requires consumers != []
  {
    if busies == [] then []
    else
      var (c, rr') := Pick(consumers, busies[0], rr, |consumers|);
      [c] + Picks(consumers, busies[1..], rr')
  }

  /** After a pick of somebody else, the consumer at `j` is strictly nearer the cursor. */
  lemma {:induction false} OvertakenOnce(consumers: seq<Handler>, busy: set<Handler>, rr: nat, tries: nat, j: nat)
    requires j < |consumers| && consumers[j] !in busy
    requires Distance(rr, j, |consumers|) < tries
    requires Pick(consumers, busy, rr, tries).0 != Some(consumers[j])
    ensures Distance(Pick(consumers, busy, rr, tries).1, j, |consumers|) < Distance(rr, j, |consumers|)
    decreases tries
  {
    var n := |consumers|;
    if rr % n != j {
      DistanceShrinks(rr, j, n);
      if consumers[rr % n] in busy {
        OvertakenOnce(consumers, busy, rr + 1, tries - 1, j);
      }
    }
  }

  lemma {:induction false} ChosenInTime(consumers: seq<Handler>, busies: seq<set<Handler>>, rr: nat, j: nat)
    requires j < |consumers|
    requires forall i :: 0 <= i < |busies| ==> consumers[j] !in busies[i]
    requires |busies| > Distance(rr, j, |consumers|)
    ensures Some(consumers[j]) in Picks(consumers, busies, rr)
    decreases |busies|
  {
    var (c, rr') := Pick(consumers, busies[0], rr, |consumers|);
    if c != Some(consumers[j]) {
      OvertakenOnce(consumers, busies[0], rr, |consumers|, j);
      ChosenInTime(consumers, busies[1..], rr', j);
    }
  }

  /** With a fixed list of n consumers, one that is free at every pick is chosen within n picks. */
  lemma RoundRobinIsFair(consumers: seq<Handler>, busies: seq<set<Handler>>, rr: nat, h: Handler)
    requires h in consumers && |busies| >= |consumers|
    requires forall i :: 0 <= i < |busies| ==> h !in busies[i]
    ensures Some(h) in Picks(consumers, busies, rr)
  {
    var j :| 0 <= j < |consumers| && consumers[j] == h;
    ChosenInTime(consumers, busies, rr, j);
  }
}
