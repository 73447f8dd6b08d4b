/** Conservation: every copy a queue ever took is in exactly one place, and deliveries add up. */
module Custody {
  import opened BusTypes
  import opened QueueSteps
  import opened QueueCells
  import opened GroupScan

  function One(b: bool): nat { if b then 1 else 0 }

  /** How many places hold the copy. */
  function Places(c: Cell, m: Message): nat {
    multiset(c.q.pending)[m] + One(m in c.q.inflight) + One(m in c.parked)
    + One(m in c.ledger.acked) + One(m in c.ledger.dead) + One(m in c.ledger.expired)
  }

  ghost predicate IdsAscend(s: seq<Message>) {
    forall i, j :: 0 <= i < j < |s| ==> s[i].id < s[j].id
  }

  /** The places of every copy add up to the times it was first enqueued: once, or never. */
  ghost predicate Conserved(c: Cell) {
    && IdsAscend(c.ledger.enqueued)
    && forall m :: Places(c, m) == multiset(c.ledger.enqueued)[m]
  }

  lemma {:induction false} AscendingOccursOnce(s: seq<Message>, m: Message)
    requires IdsAscend(s)
    ensures multiset(s)[m] == One(m in s)
  {
    if s != [] {
      var n := |s| - 1;
      AscendingOccursOnce(s[..n], m);
      assert s == s[..n] + [s[n]];
    }
  }

  lemma AtMostOnePlace(c: Cell, m: Message)
    requires Conserved(c)
    ensures Places(c, m) == One(m in c.ledger.enqueued)
  {
    AscendingOccursOnce(c.ledger.enqueued, m);
  }

  /** A live message of a conserved queue is not also done. */
  lemma LiveIsNotDone(c: Cell, m: Message)
    requires Conserved(c)
    requires m in c.q.pending || m in c.q.inflight || m in c.parked
    ensures m in c.ledger.enqueued
    ensures m !in c.ledger.acked && m !in c.ledger.dead && m !in c.ledger.expired
    ensures m in c.q.inflight ==> m !in c.q.pending && m !in c.parked
    ensures m in c.parked ==> m !in c.q.pending && m !in c.q.inflight
  {
    AtMostOnePlace(c, m);
    assert m in c.q.pending <==> multiset(c.q.pending)[m] > 0;
  }

  /** Newer than everything the queue has taken. */
  ghost predicate Newer(c: Cell, m: Message) {
    forall i :: 0 <= i < |c.ledger.enqueued| ==> c.ledger.enqueued[i].id < m.id
  }

  ghost predicate Admissible(c: Cell, op: Op) {
    op.Enqueue? ==> Newer(c, op.msg)
  }

  lemma EnqueueConserves(c: Cell, m: Message)
    requires Conserved(c) && Newer(c, m)
    ensures Conserved(EnqueueCell(c, m))
  {
    var c' := EnqueueCell(c, m);
    forall x ensures Places(c', x) == multiset(c'.ledger.enqueued)[x] {
      assert Places(c, x) == multiset(c.ledger.enqueued)[x];
    }
  }

  lemma DetachConserves(c: Cell, h: Handler)
    requires Conserved(c)
    ensures Conserved(DetachCell(c, h))
  {
    var c' := DetachCell(c, h);
    var held := Held(c.q, h);
    forall x ensures Places(c', x) == multiset(c'.ledger.enqueued)[x] {
      assert Places(c, x) == multiset(c.ledger.enqueued)[x];
      assert multiset(c'.q.pending)[x] == multiset(held)[x] + multiset(c.q.pending)[x];
    }
  }

  /** A handover moves one copy out of pending into flight. */
  lemma SentConserves(c: Cell, c': Cell, i: nat)
    requires Conserved(c) && i < |c.q.pending|
    requires c'.q.pending == RemoveAt(c.q.pending, i)
    requires c'.q.inflight.Keys == c.q.inflight.Keys + {c.q.pending[i]}
    requires c'.parked == c.parked && c'.ledger == c.ledger.(sent := c'.ledger.sent)
    ensures Conserved(c')
  {
    MultisetOfRemoveAt(c.q.pending, i);
    LiveIsNotDone(c, c.q.pending[i]);
    forall x ensures Places(c', x) == multiset(c'.ledger.enqueued)[x] {
      assert Places(c, x) == multiset(c.ledger.enqueued)[x];
    }
  }

  /** Places untouched, places kept. */
  lemma UntouchedConserves(c: Cell, c': Cell)
    requires Conserved(c)
    requires c'.q.pending == c.q.pending && c'.q.inflight == c.q.inflight && c'.parked == c.parked
    requires c'.ledger == c.ledger.(stranded := c'.ledger.stranded)
    ensures Conserved(c')
  {
    forall x ensures Places(c', x) == multiset(c'.ledger.enqueued)[x] {
      assert Places(c, x) == multiset(c.ledger.enqueued)[x];
    }
  }

  lemma PumpConserves(c: Cell)
    requires Conserved(c)
    ensures Conserved(PumpCell(c))
  {
    hide PumpBlock, Conserved;
    PumpIsExact(c.q);
    if c.owed > 0 {
      match PumpBlock(c.q)
      case Idle(_) => UntouchedConserves(c, PumpCell(c));
      case Sent(_, i, _, _) => SentConserves(c, PumpCell(c), i);
    }
  }

  /** A settlement moves one copy out of flight into one other place. */
  lemma SettledConserves(c: Cell, c': Cell, m: Message, outcome: Outcome)
    requires Conserved(c) && SettleEffect(c, c', m, outcome) && !outcome.Ignored?
    ensures Conserved(c')
  {
    LiveIsNotDone(c, m);
    forall x ensures Places(c', x) == multiset(c'.ledger.enqueued)[x] {
      assert Places(c, x) == multiset(c.ledger.enqueued)[x];
    }
  }

  lemma SettleConserves(c: Cell, m: Message, h: Handler, kind: SettleKind)
    requires Conserved(c)
    ensures Conserved(SettleCell(c, m, h, kind))
  {
    SettleIsExact(c, m, h, kind);
    if m in c.q.inflight && c.q.inflight[m] == h {
      SettledConserves(c, SettleCell(c, m, h, kind), m, Decide(c.q.config, c.q.Count(m), kind));
    }
  }

  lemma RetryConserves(c: Cell, m: Message)
    requires Conserved(c)
    ensures Conserved(RetryCell(c, m))
  {
    var c' := RetryCell(c, m);
    forall x ensures Places(c', x) == multiset(c'.ledger.enqueued)[x] {
      assert Places(c, x) == multiset(c.ledger.enqueued)[x];
    }
  }

  lemma ExpireConserves(c: Cell, m: Message)
    requires Conserved(c)
    ensures Conserved(ExpireCell(c, m))
  {
    var c' := ExpireCell(c, m);
    if m in c.timers {
      if m in c.q.pending {
        var i := RemoveFirstIsRemoveAt(c.q.pending, m);
        MultisetOfRemoveAt(c.q.pending, i);
        LiveIsNotDone(c, m);
      } else if m in c.q.inflight {
        LiveIsNotDone(c, m);
      }
      forall x ensures Places(c', x) == multiset(c'.ledger.enqueued)[x] {
        assert Places(c, x) == multiset(c.ledger.enqueued)[x];
      }
    }
  }

  lemma StepConserves(c: Cell, op: Op)
    requires Conserved(c) && Admissible(c, op)
    ensures Conserved(StepCell(c, op))
  {
    hide PumpBlock, Conserved;
    match op
    case Enqueue(m) => EnqueueConserves(c, m);
    case Attach(h) => UntouchedConserves(c, AttachCell(c, h));
    case Detach(h) => DetachConserves(c, h);
    case Pump => PumpConserves(c);
    case Settle(m, h, kind) => SettleConserves(c, m, h, kind);
    case Retry(m) => RetryConserves(c, m);
    case Expire(m) => ExpireConserves(c, m);
  }

  /** Exactly one place: what the sum says, spelled out. */
  lemma ExactlyOnePlace(c: Cell, m: Message)
    requires Conserved(c) && m in c.ledger.enqueued
    ensures [m in c.q.pending, m in c.q.inflight, m in c.parked,
             m in c.ledger.acked, m in c.ledger.dead, m in c.ledger.expired]
            in {[true, false, false, false, false, false], [false, true, false, false, false, false],
                [false, false, true, false, false, false], [false, false, false, true, false, false],
                [false, false, false, false, true, false], [false, false, false, false, false, true]}
    ensures multiset(c.q.pending)[m] <= 1
  {
    AtMostOnePlace(c, m);
    assert m in c.q.pending <==> multiset(c.q.pending)[m] > 0;
  }
}
