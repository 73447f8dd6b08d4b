/** `PendingQueue.DequeueHighestPriority`: repeated, it is a stable sort by descending priority. */
module PriorityDrain {
  import opened BusTypes
  import opened QueueSteps

  lemma {:induction false} BestFromIsFirstMax(items: seq<Message>, i: nat, best: nat)
    requires best < i <= |items|
    requires forall j :: 0 <= j < i ==> items[j].Priority() <= items[best].Priority()
    requires forall j :: 0 <= j < best ==> items[j].Priority() < items[best].Priority()
    ensures var r := BestFrom(items, i, best);
            && (forall j :: 0 <= j < |items| ==> items[j].Priority() <= items[r].Priority())
            && (forall j :: 0 <= j < r ==> items[j].Priority() < items[r].Priority())
    decreases |items| - i
  {
    if i < |items| {
      BestFromIsFirstMax(items, i + 1, if items[i].Priority() > items[best].Priority() then i else best);
    }
  }

  /** The message dequeued is the earliest of those with the highest priority. */
  lemma BestIsFirstMax(items: seq<Message>)
    requires items != []
    ensures forall j :: 0 <= j < |items| ==> items[j].Priority() <= items[Best(items)].Priority()
    ensures forall j :: 0 <= j < Best(items) ==> items[j].Priority() < items[Best(items)].Priority()
  {
    BestFromIsFirstMax(items, 1, 0);
  }

  /** The order in which repeated dequeueing empties the list. */
  function Drain(items: seq<Message>): seq<Message>
    decreases |items|
  {
    if items == [] then [] else [items[Best(items)]] + Drain(RemoveAt(items, Best(items)))
  }

  predicate Descending(s: seq<Message>) {
    forall i, j :: 0 <= i < j < |s| ==> s[i].Priority() >= s[j].Priority()
  }

  /** The messages of one priority, in the order they stand. */
  function OfPriority(s: seq<Message>, p: int): seq<Message> {
    if s == [] then []
    else (if s[0].Priority() == p then [s[0]] else []) + OfPriority(s[1..], p)
  }

  /** A stable sort keeps, for each priority, the messages of that priority in their order. */
  ghost predicate StablySorts(items: seq<Message>, result: seq<Message>) {
    && Descending(result)
    && forall p :: OfPriority(result, p) == OfPriority(items, p)
  }

  lemma {:induction false} OfPriorityOfConcat(a: seq<Message>, b: seq<Message>, p: int)
    ensures OfPriority(a + b, p) == OfPriority(a, p) + OfPriority(b, p)
  {
    if a == [] {
      assert a + b == b;
    } else {
      assert (a + b)[1..] == a[1..] + b;
      OfPriorityOfConcat(a[1..], b, p);
    }
  }

  lemma {:induction false} NoneOfPriority(s: seq<Message>, p: int)
    requires forall i :: 0 <= i < |s| ==> s[i].Priority() != p
    ensures OfPriority(s, p) == []
  {
    if s != [] {
      NoneOfPriority(s[1..], p);
    }
  }

  lemma {:induction false} DrainIsPermutation(items: seq<Message>)
    ensures multiset(Drain(items)) == multiset(items)
    decreases |items|
  {
    if items != [] {
      var b := Best(items);
      DrainIsPermutation(RemoveAt(items, b));
      MultisetOfRemoveAt(items, b);
    }
  }

  lemma {:induction false} DrainDescends(items: seq<Message>)
    ensures Descending(Drain(items))
    decreases |items|
  {
    if items != [] {
      var b := Best(items);
      var rest := RemoveAt(items, b);
      DrainDescends(rest);
      BestIsFirstMax(items);
      DrainIsPermutation(rest);
      forall j | 0 <= j < |Drain(rest)| ensures items[b].Priority() >= Drain(rest)[j].Priority() {
        assert Drain(rest)[j] in multiset(rest);
      }
    }
  }

  /** Moving an earliest highest message to the front disturbs no priority's order. */
  lemma PullForwardIsStable(before: seq<Message>, m: Message, after: seq<Message>, p: int)
    requires forall j :: 0 <= j < |before| ==> before[j].Priority() != m.Priority()
    ensures OfPriority(before + [m] + after, p) == OfPriority([m], p) + OfPriority(before + after, p)
  {
    OfPriorityOfConcat(before + [m], after, p);
    OfPriorityOfConcat(before, [m], p);
    OfPriorityOfConcat(before, after, p);
    if m.Priority() == p {
      NoneOfPriority(before, p);
    } else {
      NoneOfPriority([m], p);
    }
  }

  lemma {:induction false} DrainIsStable(items: seq<Message>, p: int)
    ensures OfPriority(Drain(items), p) == OfPriority(items, p)
    decreases |items|
  {
    if items != [] {
      var b := Best(items);
      var before, m, after := items[..b], items[b], items[b + 1..];
      DrainIsStable(RemoveAt(items, b), p);
      BestIsFirstMax(items);
      PullForwardIsStable(before, m, after, p);
      assert items == before + [m] + after;
      OfPriorityOfConcat([m], Drain(RemoveAt(items, b)), p);
    }
  }

  lemma DrainSorts(items: seq<Message>)
    ensures StablySorts(items, Drain(items))
  {
    DrainDescends(items);
    forall p ensures OfPriority(Drain(items), p) == OfPriority(items, p) {
      DrainIsStable(items, p);
    }
  }

  lemma {:induction false} OfPriorityMember(s: seq<Message>, i: nat)
    requires i < |s|
    ensures OfPriority(s, s[i].Priority()) != []
  {
    if i > 0 {
      OfPriorityMember(s[1..], i - 1);
    }
  }

  lemma NonEmptyAtSomePriority(empty: seq<Message>, s: seq<Message>)
    requires empty == [] && s != []
    ensures exists p :: OfPriority(s, p) != OfPriority(empty, p)
  {
    OfPriorityMember(s, 0);
  }

  lemma {:induction false} HeadOfPriority(s: seq<Message>, p: int)
    requires OfPriority(s, p) != []
    ensures exists i :: 0 <= i < |s| && s[i].Priority() == p
  {
    if s[0].Priority() != p {
      HeadOfPriority(s[1..], p);
      var i :| 0 <= i < |s[1..]| && s[1..][i].Priority() == p;
      assert s[i + 1].Priority() == p;
    }
  }

  /** Two descending lists with the same messages of each priority start with the same message. */
  lemma SameHead(a: seq<Message>, b: seq<Message>)
    requires a != [] && b != [] && Descending(a) && Descending(b)
    requires forall p :: OfPriority(a, p) == OfPriority(b, p)
    ensures a[0] == b[0]
  {
    var p, r := a[0].Priority(), b[0].Priority();
    OfPriorityMember(a, 0);
    HeadOfPriority(b, p);
    OfPriorityMember(b, 0);
    HeadOfPriority(a, r);
    assert p == r;
    assert a[0] == OfPriority(a, p)[0] && b[0] == OfPriority(b, p)[0];
  }

  /** Being a stable sort leaves no choice: two of them are the same list. */
  lemma {:induction false} StableSortIsUnique(a: seq<Message>, b: seq<Message>)
    requires Descending(a) && Descending(b)
    requires forall p :: OfPriority(a, p) == OfPriority(b, p)
    ensures a == b
    decreases |a|
  {
    hide OfPriority;
    if a == [] {
      if b != [] {
        NonEmptyAtSomePriority(a, b);
      }
    } else if b == [] {
      NonEmptyAtSomePriority(b, a);
    } else {
      SameHead(a, b);
      forall r ensures OfPriority(a[1..], r) == OfPriority(b[1..], r) {
        TailOfPriority(a, r);
        TailOfPriority(b, r);
      }
      StableSortIsUnique(a[1..], b[1..]);
      assert a == [a[0]] + a[1..] && b == [b[0]] + b[1..];
    }
  }

  lemma TailOfPriority(s: seq<Message>, p: int)
    requires s != []
    ensures OfPriority(s[1..], p) == if s[0].Priority() == p then OfPriority(s, p)[1..] else OfPriority(s, p)
  {
  }

  /** Draining by repeated dequeueing is THE stable sort by descending priority. */
  lemma DrainIsTheStableSort(items: seq<Message>, result: seq<Message>)
    ensures StablySorts(items, result) <==> result == Drain(items)
  {
    DrainSorts(items);
    if StablySorts(items, result) {
      StableSortIsUnique(result, Drain(items));
    }
  }
}
