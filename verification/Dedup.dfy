/** Producer dedup: publishes that repeat an earlier dedup id might as well not have been made. */
module Dedup {
  import opened Wrappers
  import opened BusMachine

  function IdsOf(e: Event): set<string> {
    if e.Publish? then DedupIds(e.options) else {}
  }

  /** A publish whose dedup id is among those used before. */
  predicate Repeats(e: Event, used: set<string>) {
    IdsOf(e) != {} && IdsOf(e) <= used
  }

  /** The run without its repeats, on any topic, subscribed to or not. */
  function Erase(events: seq<Event>, used: set<string>): seq<Event> {
    if events == [] then []
    else if Repeats(events[0], used) then Erase(events[1..], used)
    else [events[0]] + Erase(events[1..], used + IdsOf(events[0]))
  }

  /** The dedup ids published by a run. */
  function AllIds(events: seq<Event>): set<string> {
    if events == [] then {} else IdsOf(events[0]) + AllIds(events[1..])
  }

  /** No dedup id is published twice, or was used before. */
  predicate Unrepeated(events: seq<Event>, used: set<string>) {
    events == [] || (!Repeats(events[0], used) && Unrepeated(events[1..], used + IdsOf(events[0])))
  }

  lemma ApplySees(b: Bus, e: Event)
    ensures Repeats(e, b.seen) ==> Apply(b, e) == b
    ensures !Repeats(e, b.seen) ==> Apply(b, e).seen == b.seen + IdsOf(e)
  {
  }

  /** Erasing the repeats leaves the same final bus. */
  lemma {:induction false} ErasureIsInvisible(b: Bus, events: seq<Event>)
    ensures Run(b, Erase(events, b.seen)) == Run(b, events)
    decreases |events|
  {
    if events != [] {
      ApplySees(b, events[0]);
      var b' := Apply(b, events[0]);
      ErasureIsInvisible(b', events[1..]);
      if !Repeats(events[0], b.seen) {
        var rest := Erase(events[1..], b'.seen);
        assert ([events[0]] + rest)[1..] == rest;
      }
    }
  }

  /** What is left repeats nothing and publishes every id the run published, once. */
  lemma {:induction false} ErasedIsUnrepeated(events: seq<Event>, used: set<string>)
    ensures Unrepeated(Erase(events, used), used)
    ensures used + AllIds(Erase(events, used)) == used + AllIds(events)
    decreases |events|
  {
    if events != [] {
      if Repeats(events[0], used) {
        ErasedIsUnrepeated(events[1..], used);
      } else {
        ErasedIsUnrepeated(events[1..], used + IdsOf(events[0]));
        var rest := Erase(events[1..], used + IdsOf(events[0]));
        assert ([events[0]] + rest)[1..] == rest;
      }
    }
  }

  /** Dead letters and expired messages carry no options, so dedup never drops them. */
  lemma RepublishIsNeverDropped(b: Bus, r: Republish)
    requires r in b.transit
    ensures var b' := Apply(b, Forward(r));
            && b'.transit == b.transit - multiset{r}
            && b'.seen == b.seen
            && |LogOf(b', r.Address())| == |LogOf(b, r.Address())| + 1
  {
    var b1 := b.(transit := b.transit - multiset{r});
    assert LogOf(b1, r.Address()) == LogOf(b, r.Address());
    assert Apply(b, Forward(r)).seen == b.seen + {};
  }

  // ---------------------------------------------------------------- in terms of the options

  /** The event publishes with this dedup id. */
  predicate PublishesUnder(e: Event, id: string) {
    e.Publish? && e.options.Some? && e.options.value.dedupId == Some(id)
  }

  /** What counts as a repeat: a publish whose dedup id was used before. */
  lemma RepeatsExactly(e: Event, used: set<string>)
    ensures Repeats(e, used) <==> exists id :: id in used && PublishesUnder(e, id)
  {
    if e.Publish? && e.options.Some? && e.options.value.dedupId.Some? {
      assert PublishesUnder(e, e.options.value.dedupId.value);
    }
  }

  lemma SeesExactly(b: Bus, e: Event, id: string)
    ensures id in Apply(b, e).seen <==> id in b.seen || PublishesUnder(e, id)
  {
  }

  /** In every run the bus has seen exactly the dedup ids that were published, on any topic. */
  lemma {:induction false} SeenIsWhatWasPublished(events: seq<Event>, id: string)
    ensures id in Run(INIT, events).seen <==> exists n :: 0 <= n < |events| && PublishesUnder(events[n], id)
    decreases |events|
  {
    if events != [] {
      var n := |events| - 1;
      var before := events[..n];
      assert events == before + [events[n]];
      SeenIsWhatWasPublished(before, id);
      RunOneMore(INIT, before, events[n]);
      SeesExactly(Run(INIT, before), events[n], id);
      hide Run, Apply, PublishesUnder;
      if k :| 0 <= k < n && PublishesUnder(before[k], id) {
        assert events[k] == before[k];
      }
      if k :| 0 <= k < |events| && PublishesUnder(events[k], id) && k < n {
        assert before[k] == events[k];
      }
    }
  }
}
