/** The in-memory scheduler: schedule, timer firing and cancel on one thread. */
module Scheduler {
  import opened Wrappers

  /** The longest delay a platform timer honours; any other delay outside 1..max becomes 1 ms. */
  const TIMER_MAX := 2147483647

  function TimerDelay(ms: int): int {
    if 1 <= ms <= TIMER_MAX then ms else 1
  }

  datatype Entry = Entry(id: nat, destination: string, body: string, deliverAt: int, due: int)

  datatype Info = Info(id: nat, destination: string, deliverAt: int)

  datatype Firing = Firing(entry: Entry, at: int)

  /** The scheduler's fields, the clock, and the history of ids. */
  datatype State = State(
    clock: int,
    seqNo: nat,
    pending: seq<Entry>,          // in insertion order, as a Map iterates
    armed: map<nat, Entry>,       // the platform's timers, with what their callbacks have captured
    scheduled: set<nat>,
    fired: seq<Firing>,
    cancelled: set<nat>)

  datatype Step =
    | Schedule(destination: string, body: string, deliverAt: int)
    | SendNow
    | Tick(ms: nat)
    | Fire(id: nat)
    | Cancel(id: nat)

  function Without(pending: seq<Entry>, id: nat): seq<Entry> {
    if pending == [] then []
    else (if pending[0].id == id then [] else [pending[0]]) + Without(pending[1..], id)
  }

  function Lookup(pending: seq<Entry>, id: nat): Option<Entry> {
    if pending == [] then None
    else if pending[0].id == id then Some(pending[0])
    else Lookup(pending[1..], id)
  }

  function MakeEntry(s: State, destination: string, body: string, deliverAt: int): Entry {
    var ms := if deliverAt - s.clock > 0 then deliverAt - s.clock else 0;
    Entry(s.seqNo + 1, destination, body, deliverAt, s.clock + TimerDelay(ms))
  }

  /** Dispatching a message takes an id from the same counter. */
  function Next(s: State, step: Step): State {
    match step
    case Schedule(destination, body, deliverAt) =>
      var entry := MakeEntry(s, destination, body, deliverAt);
      s.(seqNo := s.seqNo + 1,
         pending := s.pending + [entry],
         armed := s.armed[entry.id := entry],
         scheduled := s.scheduled + {s.seqNo + 1})
    case SendNow => s.(seqNo := s.seqNo + 1)
    case Tick(ms) => s.(clock := s.clock + ms)
    case Fire(id) =>
      if id in s.armed && s.armed[id].due <= s.clock then Called(s.(armed := s.armed - {id}), s.armed[id]) else s
    case Cancel(id) =>
      if Lookup(s.pending, id).Some?
      then s.(pending := Without(s.pending, id), armed := s.armed - {id}, cancelled := s.cancelled + {id})
      else s
  }

  /** The callback of a timer: it deletes its id from the table, there or not, and dispatches what it captured. */
  function Called(s: State, entry: Entry): State {
    s.(seqNo := s.seqNo + 1, pending := Without(s.pending, entry.id), fired := s.fired + [Firing(entry, s.clock)])
  }

  // ---------------------------------------------------------------- the object

  class InMemoryScheduler {
    var seqNo: nat
    var pending: seq<Entry>
    var armed: map<nat, Entry>
    ghost var state: State

    ghost predicate Valid()
      reads this
    {
      seqNo == state.seqNo && pending == state.pending && armed == state.armed
    }

    constructor (ghost clock: int)
      ensures Valid() && state == Start(clock)
    {
      seqNo := 0;
      pending := [];
      armed := map[];
      state := Start(clock);
    }

    method Schedule(destination: string, body: string, deliverAt: int, now: int) returns (id: nat)
      requires Valid() && now == state.clock
      modifies this
      ensures Valid() && state == Next(old(state), Step.Schedule(destination, body, deliverAt))
      ensures id == old(seqNo) + 1 && Info(id, destination, deliverAt) in Infos(pending, destination)
      ensures id in armed && armed[id].id == id && armed[id].destination == destination
      ensures armed[id].body == body && armed[id].deliverAt == deliverAt
    {
      seqNo := seqNo + 1;
      id := seqNo;
      var ms := deliverAt - now;
      if ms < 0 {
        ms := 0;
      }
      var before := pending;
      var entry := Entry(id, destination, body, deliverAt, now + TimerDelay(ms));
      armed := armed[id := entry];
      pending := pending + [entry];
      state := Next(state, Step.Schedule(destination, body, deliverAt));
      InfosOfConcat(before, pending[|before|..], destination);
      assert pending == before + pending[|before|..];
    }

    /** What `schedule` hands to the platform: the callback looks at nothing before it dispatches. */
    method Callback(entry: Entry) returns (dispatched: Entry)
      modifies this`seqNo, this`pending
      ensures dispatched == entry && pending == Without(old(pending), entry.id) && seqNo == old(seqNo) + 1
    {
      pending := Without(pending, entry.id);
      seqNo := seqNo + 1;
      dispatched := entry;
    }

    /** The platform at `now`: an armed timer that is due runs its callback, once. */
    method TimerFires(id: nat, now: int) returns (dispatched: Option<Entry>)
      requires Valid() && now == state.clock
      modifies this
      ensures Valid() && state == Next(old(state), Fire(id))
      ensures dispatched == (if id in old(armed) && old(armed)[id].due <= now then Some(old(armed)[id]) else None)
      ensures dispatched.Some? <==> |state.fired| > |old(state.fired)|
      ensures dispatched.Some? ==> state.fired[|state.fired| - 1] == Firing(dispatched.value, now)
    {
      dispatched := None;
      if id in armed && armed[id].due <= now {
        var entry := armed[id];
        armed := armed - {id};
        var sent := Callback(entry);
        dispatched := Some(sent);
      }
      state := Next(state, Fire(id));
    }

    method Cancel(id: nat)
      requires Valid()
      modifies this
      ensures Valid() && state == Next(old(state), Step.Cancel(id))
    {
      var entry := Lookup(pending, id);
      if entry.Some? {
        armed := armed - {id};
        pending := Without(pending, id);
      }
      state := Next(state, Step.Cancel(id));
    }

    method ListScheduled(destination: string) returns (infos: seq<Info>)
      requires Valid()
      ensures infos == Infos(state.pending, destination)
    {
      infos := [];
      var i := 0;
      assert pending[..0] == [];
      while i < |pending|
        invariant 0 <= i <= |pending|
        invariant infos == Infos(pending[..i], destination)
      {
        InfosOfConcat(pending[..i], [pending[i]], destination);
        assert pending[..i + 1] == pending[..i] + [pending[i]];
        if pending[i].destination == destination {
          infos := infos + [Info(pending[i].id, pending[i].destination, pending[i].deliverAt)];
        }
        i := i + 1;
      }
      assert pending[..i] == pending;
    }
  }

  function InfoIfFor(e: Entry, destination: string): seq<Info> {
    if e.destination == destination then [Info(e.id, e.destination, e.deliverAt)] else []
  }

  function Infos(pending: seq<Entry>, destination: string): seq<Info> {
    if pending == [] then [] else InfoIfFor(pending[0], destination) + Infos(pending[1..], destination)
  }

  lemma {:induction false} InfosOfConcat(a: seq<Entry>, b: seq<Entry>, destination: string)
    ensures Infos(a + b, destination) == Infos(a, destination) + Infos(b, destination)
  {
    if a == [] {
      assert a + b == b;
    } else {
      var all := a + b;
      assert all[0] == a[0] && all[1..] == a[1..] + b;
      InfosOfConcat(a[1..], b, destination);
      hide InfoIfFor;
    }
  }

  /** What is listed for a destination is exactly what is pending for it. */
  lemma {:induction false} ListedIffPending(pending: seq<Entry>, destination: string, info: Info)
    ensures info in Infos(pending, destination) <==>
            exists i :: 0 <= i < |pending| && pending[i].destination == destination
                        && info == Info(pending[i].id, destination, pending[i].deliverAt)
  {
    if pending != [] {
      ListedIffPending(pending[1..], destination, info);
      assert pending == [pending[0]] + pending[1..];
      if i :| 0 <= i < |pending[1..]| && pending[1..][i].destination == destination
              && info == Info(pending[1..][i].id, destination, pending[1..][i].deliverAt) {
        assert pending[i + 1] == pending[1..][i];
      }
      if i :| 0 < i < |pending| && pending[i].destination == destination
              && info == Info(pending[i].id, destination, pending[i].deliverAt) {
        assert pending[i] == pending[1..][i - 1];
      }
    }
  }

  // ---------------------------------------------------------------- runs

  function Ids(pending: seq<Entry>): set<nat> {
    set i | 0 <= i < |pending| :: pending[i].id
  }

  function FiredIds(fired: seq<Firing>): set<nat> {
    set i | 0 <= i < |fired| :: fired[i].entry.id
  }

  ghost predicate DistinctIds(pending: seq<Entry>) {
    forall i, j :: 0 <= i < j < |pending| ==> pending[i].id < pending[j].id
  }

  /** The platform honours the delay, or the delivery time has already passed. */
  predicate InTimerRange(deliverAt: int, now: int) {
    deliverAt - now <= TIMER_MAX
  }

  /** A timer is armed for exactly the pending ids, with the entry of the table. */
  ghost predicate ArmedIsPending(pending: seq<Entry>, armed: map<nat, Entry>) {
    && armed.Keys == Ids(pending)
    && forall i :: 0 <= i < |pending| ==> pending[i].id in armed && armed[pending[i].id] == pending[i]
  }

  /** Every id ever scheduled is in exactly one of the three. */
  predicate Splits(scheduled: set<nat>, pending: set<nat>, fired: set<nat>, cancelled: set<nat>) {
    && scheduled == pending + fired + cancelled
    && pending !! fired && pending !! cancelled && fired !! cancelled
  }

  /** Nothing fires twice, and nothing before its timer is due. */
  ghost predicate FiredOnce(fired: seq<Firing>) {
    && (forall i, j :: 0 <= i < j < |fired| ==> fired[i].entry.id != fired[j].entry.id)
    && (forall i :: 0 <= i < |fired| ==> fired[i].entry.due <= fired[i].at)
  }

  ghost predicate Ok(s: State) {
    && ArmedIsPending(s.pending, s.armed)
    && Splits(s.scheduled, Ids(s.pending), FiredIds(s.fired), s.cancelled)
    && DistinctIds(s.pending)
    && FiredOnce(s.fired)
    && (forall id :: id in s.scheduled ==> id <= s.seqNo)
  }

  lemma {:induction false} WithoutIs(pending: seq<Entry>, id: nat)
    ensures forall e :: e in Without(pending, id) <==> e in pending && e.id != id
    ensures DistinctIds(pending) ==> DistinctIds(Without(pending, id))
  {
    if pending != [] {
      WithoutIs(pending[1..], id);
      assert pending == [pending[0]] + pending[1..];
      var rest := Without(pending[1..], id);
      if DistinctIds(pending) {
        assert DistinctIds(pending[1..]);
        forall j | 0 <= j < |rest| ensures pending[0].id < rest[j].id {
          assert rest[j] in pending[1..];
        }
      }
    }
  }

  lemma IdsOfWithout(pending: seq<Entry>, id: nat)
    ensures Ids(Without(pending, id)) == Ids(pending) - {id}
  {
    WithoutIs(pending, id);
    var rest := Without(pending, id);
    forall x ensures x in Ids(rest) <==> x in Ids(pending) && x != id {
      if x in Ids(rest) {
        var i :| 0 <= i < |rest| && rest[i].id == x;
        assert rest[i] in pending;
      }
      if x in Ids(pending) && x != id {
        var i :| 0 <= i < |pending| && pending[i].id == x;
        assert pending[i] in rest;
      }
    }
  }

  lemma {:induction false} LookupFinds(pending: seq<Entry>, id: nat)
    ensures Lookup(pending, id).Some? <==> id in Ids(pending)
    ensures Lookup(pending, id).Some? ==> Lookup(pending, id).value in pending && Lookup(pending, id).value.id == id
  {
    if pending != [] {
      LookupFinds(pending[1..], id);
      if id in Ids(pending) && pending[0].id != id {
        var i :| 0 <= i < |pending| && pending[i].id == id;
        assert pending[1..][i - 1].id == id;
      }
      if id in Ids(pending[1..]) {
        var i :| 0 <= i < |pending[1..]| && pending[1..][i].id == id;
        assert pending[i + 1].id == id;
      }
    }
  }

  lemma ScheduledIds(pending: seq<Entry>, entry: Entry)
    ensures Ids(pending + [entry]) == Ids(pending) + {entry.id}
  {
    var more := pending + [entry];
    forall x ensures x in Ids(more) <==> x in Ids(pending) || x == entry.id {
      if x in Ids(pending) {
        var i :| 0 <= i < |pending| && pending[i].id == x;
        assert more[i].id == x;
      }
      assert more[|pending|].id == entry.id;
    }
  }

  lemma ScheduleKeepsOk(s: State, destination: string, body: string, deliverAt: int)
    requires Ok(s)
    ensures Ok(Next(s, Step.Schedule(destination, body, deliverAt)))
  {
    var entry := MakeEntry(s, destination, body, deliverAt);
    ScheduledIds(s.pending, entry);
    forall i | 0 <= i < |s.pending| ensures s.pending[i].id <= s.seqNo {
      assert s.pending[i].id in Ids(s.pending);
    }
    hide Ids, FiredIds, FiredOnce;
  }

  lemma ArmedEntry(pending: seq<Entry>, armed: map<nat, Entry>, id: nat)
    requires ArmedIsPending(pending, armed) && id in armed
    ensures armed[id] in pending && armed[id].id == id && id in Ids(pending)
  {
    assert id in Ids(pending);
    var i :| 0 <= i < |pending| && pending[i].id == id;
  }

  /** Table and timers drop the same id. */
  lemma BothWithout(pending: seq<Entry>, armed: map<nat, Entry>, id: nat)
    requires ArmedIsPending(pending, armed)
    ensures ArmedIsPending(Without(pending, id), armed - {id})
  {
    IdsOfWithout(pending, id);
    WithoutIs(pending, id);
    var rest := Without(pending, id);
    forall i | 0 <= i < |rest| ensures rest[i].id in armed && rest[i].id != id && armed[rest[i].id] == rest[i] {
      assert rest[i] in pending;
    }
  }

  /** The id just fired joins the fired ones. */
  lemma FiredOneMore(fired: seq<Firing>, f: Firing)
    requires FiredOnce(fired) && f.entry.id !in FiredIds(fired) && f.entry.due <= f.at
    ensures FiredIds(fired + [f]) == FiredIds(fired) + {f.entry.id} && FiredOnce(fired + [f])
  {
    var n, more := |fired|, fired + [f];
    forall x ensures x in FiredIds(more) <==> x in FiredIds(fired) || x == f.entry.id {
      if x in FiredIds(fired) {
        var i :| 0 <= i < n && fired[i].entry.id == x;
        assert more[i].entry.id == x;
      }
      assert more[n].entry.id == f.entry.id;
    }
    forall i | 0 <= i < n ensures fired[i].entry.id != f.entry.id {
      assert fired[i].entry.id in FiredIds(fired);
    }
  }

  lemma MovesOut(scheduled: set<nat>, pending: set<nat>, fired: set<nat>, cancelled: set<nat>, id: nat)
    requires Splits(scheduled, pending, fired, cancelled) && id in pending
    ensures Splits(scheduled, pending - {id}, fired + {id}, cancelled)
    ensures Splits(scheduled, pending - {id}, fired, cancelled + {id})
    ensures id !in fired
  {
  }

  /** A callback looks at no table, but a timer is armed only for a pending id: so no id fires a second time. */
  lemma FireKeepsOk(s: State, id: nat)
    requires Ok(s)
    ensures Ok(Next(s, Fire(id)))
  {
    if id in s.armed && s.armed[id].due <= s.clock {
      ArmedEntry(s.pending, s.armed, id);
      BothWithout(s.pending, s.armed, id);
      IdsOfWithout(s.pending, id);
      WithoutKeepsDistinct(s.pending, id);
      MovesOut(s.scheduled, Ids(s.pending), FiredIds(s.fired), s.cancelled, id);
      FiredOneMore(s.fired, Firing(s.armed[id], s.clock));
      hide Ids, FiredIds, Without, ArmedIsPending, FiredOnce, DistinctIds, Splits;
    }
  }

  lemma CancelKeepsOk(s: State, id: nat)
    requires Ok(s)
    ensures Ok(Next(s, Step.Cancel(id)))
  {
    LookupFinds(s.pending, id);
    hide Lookup;
    if id in Ids(s.pending) {
      BothWithout(s.pending, s.armed, id);
      IdsOfWithout(s.pending, id);
      WithoutKeepsDistinct(s.pending, id);
      MovesOut(s.scheduled, Ids(s.pending), FiredIds(s.fired), s.cancelled, id);
      assert id in s.scheduled;
      hide Ids, FiredIds, Without, ArmedIsPending, FiredOnce, DistinctIds, Splits;
    }
  }

  lemma WithoutKeepsDistinct(pending: seq<Entry>, id: nat)
    requires DistinctIds(pending)
    ensures DistinctIds(Without(pending, id))
  {
    WithoutIs(pending, id);
  }

  lemma NextKeepsOk(s: State, step: Step)
    requires Ok(s)
    ensures Ok(Next(s, step))
  {
    match step
    case Schedule(destination, body, deliverAt) => ScheduleKeepsOk(s, destination, body, deliverAt);
    case Fire(id) => FireKeepsOk(s, id);
    case Cancel(id) => CancelKeepsOk(s, id);
    case SendNow =>
    case Tick(_) =>
  }

  function Run(s: State, steps: seq<Step>): State
    decreases |steps|
  {
    if steps == [] then s else Run(Next(s, steps[0]), steps[1..])
  }

  lemma {:induction false} RunKeepsOk(s: State, steps: seq<Step>)
    requires Ok(s)
    ensures Ok(Run(s, steps))
    decreases |steps|
  {
    hide Ok, Next;
    if steps != [] {
      NextKeepsOk(s, steps[0]);
      RunKeepsOk(Next(s, steps[0]), steps[1..]);
    }
  }

  function Start(clock: int): State {
    State(clock, 0, [], map[], {}, [], {})
  }

  /**
   * Over every run timers are armed for exactly the pending ids; the scheduled ids split exactly; and firings
   * are distinct and never early for their timer.
   */
  lemma ScheduledSplitsExactly(clock: int, steps: seq<Step>)
    ensures Ok(Run(Start(clock), steps))
  {
    RunKeepsOk(Start(clock), steps);
  }

  /** A timer is due no earlier than asked for exactly when the delay is within the timer's range. */
  lemma NeverEarlyExactlyInRange(s: State, destination: string, body: string, deliverAt: int)
    ensures deliverAt <= MakeEntry(s, destination, body, deliverAt).due <==> InTimerRange(deliverAt, s.clock)
  {
  }

  /** Entries whose delay was in range when they were scheduled. */
  ghost predicate DueInTime(entry: Entry) {
    entry.deliverAt <= entry.due
  }

  ghost predicate AllDueInTime(s: State) {
    && (forall id :: id in s.armed ==> DueInTime(s.armed[id]))
    && (forall i :: 0 <= i < |s.fired| ==> DueInTime(s.fired[i].entry))
  }

  /** Every delay asked for along the run is within the timer's range. */
  predicate DelaysInRange(s: State, steps: seq<Step>)
    decreases |steps|
  {
    steps == []
    || ((steps[0].Schedule? ==> InTimerRange(steps[0].deliverAt, s.clock))
        && DelaysInRange(Next(s, steps[0]), steps[1..]))
  }

  lemma NextKeepsDue(s: State, step: Step)
    requires AllDueInTime(s) && (step.Schedule? ==> InTimerRange(step.deliverAt, s.clock))
    ensures AllDueInTime(Next(s, step))
  {
  }

  lemma {:induction false} RunKeepsDue(s: State, steps: seq<Step>)
    requires AllDueInTime(s) && DelaysInRange(s, steps)
    ensures AllDueInTime(Run(s, steps))
    decreases |steps|
  {
    hide Next, AllDueInTime;
    if steps != [] {
      NextKeepsDue(s, steps[0]);
      RunKeepsDue(Next(s, steps[0]), steps[1..]);
    }
  }

  /** With delays in range nothing is ever delivered before its delivery time. */
  lemma NothingFiresEarly(clock: int, steps: seq<Step>, i: nat)
    requires DelaysInRange(Start(clock), steps) && i < |Run(Start(clock), steps).fired|
    ensures var f := Run(Start(clock), steps).fired[i]; f.entry.deliverAt <= f.at
  {
    RunKeepsOk(Start(clock), steps);
    RunKeepsDue(Start(clock), steps);
    assert DueInTime(Run(Start(clock), steps).fired[i].entry);
  }

  lemma NextKeepsCancelled(s: State, step: Step)
    ensures s.cancelled <= Next(s, step).cancelled
  {
  }

  lemma {:induction false} RunKeepsCancelled(s: State, steps: seq<Step>)
    ensures s.cancelled <= Run(s, steps).cancelled
    decreases |steps|
  {
    hide Next;
    if steps != [] {
      NextKeepsCancelled(s, steps[0]);
      RunKeepsCancelled(Next(s, steps[0]), steps[1..]);
    }
  }

  /** A cancel that found its schedule pending is final: whatever follows, it never fires. */
  lemma CancelIsFinal(clock: int, before: seq<Step>, id: nat, after: seq<Step>)
    requires id in Ids(Run(Start(clock), before).pending)
    ensures var s := Run(Next(Run(Start(clock), before), Step.Cancel(id)), after);
            id !in s.armed && id !in FiredIds(s.fired)
  {
    var s := Run(Start(clock), before);
    RunKeepsOk(Start(clock), before);
    LookupFinds(s.pending, id);
    var s1 := Next(s, Step.Cancel(id));
    NextKeepsOk(s, Step.Cancel(id));
    RunKeepsOk(s1, after);
    RunKeepsCancelled(s1, after);
    assert id in Run(s1, after).cancelled;
  }

  // ---------------------------------------------------------------- what fires is what was scheduled

  /** Step `n` of the run scheduled the entry: under its number, with its destination, body and delivery time. */
  ghost predicate ScheduledBy(clock: int, steps: seq<Step>, n: nat, entry: Entry)
    requires n < |steps|
  {
    && steps[n] == Step.Schedule(entry.destination, entry.body, entry.deliverAt)
    && entry.id == Run(Start(clock), steps[..n]).seqNo + 1
  }

  ghost predicate HasSchedule(clock: int, steps: seq<Step>, entry: Entry) {
    exists n :: 0 <= n < |steps| && ScheduledBy(clock, steps, n, entry)
  }

  lemma {:induction false} RunOfConcat(s: State, steps: seq<Step>, more: seq<Step>)
    ensures Run(s, steps + more) == Run(Run(s, steps), more)
    decreases |steps|
  {
    hide Next;
    if steps == [] {
      assert steps + more == more;
    } else {
      assert (steps + more)[1..] == steps[1..] + more;
      RunOfConcat(Next(s, steps[0]), steps[1..], more);
    }
  }

  lemma RunOneMore(s: State, steps: seq<Step>, step: Step)
    ensures Run(s, steps + [step]) == Next(Run(s, steps), step)
  {
    RunOfConcat(s, steps, [step]);
    assert [step][1..] == [];
  }

  lemma ScheduleStays(clock: int, steps: seq<Step>, step: Step, entry: Entry)
    requires HasSchedule(clock, steps, entry)
    ensures HasSchedule(clock, steps + [step], entry)
  {
    var n :| 0 <= n < |steps| && ScheduledBy(clock, steps, n, entry);
    assert (steps + [step])[..n] == steps[..n];
    assert ScheduledBy(clock, steps + [step], n, entry);
  }

  /** What a step arms it was asked to; what it fires was armed. */
  lemma NextTakesNothingElse(s: State, step: Step)
    ensures forall id :: id in Next(s, step).armed ==>
              || (id in s.armed && Next(s, step).armed[id] == s.armed[id])
              || (step == Step.Schedule(Next(s, step).armed[id].destination, Next(s, step).armed[id].body,
                                        Next(s, step).armed[id].deliverAt)
                  && Next(s, step).armed[id].id == s.seqNo + 1)
    ensures forall i :: 0 <= i < |Next(s, step).fired| ==>
              || (i < |s.fired| && Next(s, step).fired[i] == s.fired[i])
              || (exists id :: id in s.armed && Next(s, step).fired[i].entry == s.armed[id])
  {
  }

  lemma {:induction false} EverythingHasASchedule(clock: int, steps: seq<Step>)
    ensures var s := Run(Start(clock), steps);
            && (forall id :: id in s.armed ==> HasSchedule(clock, steps, s.armed[id]))
            && (forall i :: 0 <= i < |s.fired| ==> HasSchedule(clock, steps, s.fired[i].entry))
    decreases |steps|
  {
    if steps != [] {
      var n := |steps| - 1;
      var before, step := steps[..n], steps[n];
      var s := Run(Start(clock), before);
      assert steps == before + [step];
      EverythingHasASchedule(clock, before);
      RunOneMore(Start(clock), before, step);
      NextTakesNothingElse(s, step);
      var s' := Next(s, step);
      hide Run, Next, HasSchedule;
      forall id | id in s'.armed ensures HasSchedule(clock, steps, s'.armed[id]) {
        if id in s.armed && s'.armed[id] == s.armed[id] {
          ScheduleStays(clock, before, step, s.armed[id]);
        } else {
          NewSchedule(clock, before, step, s'.armed[id]);
        }
      }
      forall i | 0 <= i < |s'.fired| ensures HasSchedule(clock, steps, s'.fired[i].entry) {
        if i < |s.fired| && s'.fired[i] == s.fired[i] {
          ScheduleStays(clock, before, step, s.fired[i].entry);
        } else {
          var id :| id in s.armed && s'.fired[i].entry == s.armed[id];
          ScheduleStays(clock, before, step, s.armed[id]);
        }
      }
    }
  }

  lemma NewSchedule(clock: int, before: seq<Step>, step: Step, entry: Entry)
    requires step == Step.Schedule(entry.destination, entry.body, entry.deliverAt)
    requires entry.id == Run(Start(clock), before).seqNo + 1
    ensures HasSchedule(clock, before + [step], entry)
  {
    var steps := before + [step];
    assert steps[..|before|] == before && steps[|before|] == step;
    assert ScheduledBy(clock, steps, |before|, entry);
  }

  /**
   * In every run whatever fires was scheduled by a step of the run, under the number the step returned: the
   * destination, the body and the delivery time dispatched are the arguments of that step.
   */
  lemma FiredAsScheduled(clock: int, steps: seq<Step>, i: nat)
    requires i < |Run(Start(clock), steps).fired|
    ensures var entry := Run(Start(clock), steps).fired[i].entry;
            exists n :: 0 <= n < |steps|
                        && steps[n] == Step.Schedule(entry.destination, entry.body, entry.deliverAt)
                        && entry.id == Run(Start(clock), steps[..n]).seqNo + 1
  {
    EverythingHasASchedule(clock, steps);
    var entry := Run(Start(clock), steps).fired[i].entry;
    assert HasSchedule(clock, steps, entry);
    var n :| 0 <= n < |steps| && ScheduledBy(clock, steps, n, entry);
  }

  /**
   * The timer of a schedule is due at the delivery time when that lies 1 to 2147483647 ms ahead, and one millisecond
   * from now when it is past, present or further ahead.
   */
  lemma DueExactly(s: State, destination: string, body: string, deliverAt: int)
    ensures var s' := Next(s, Step.Schedule(destination, body, deliverAt));
            var id := s.seqNo + 1;
            id in s'.armed
            && s'.armed[id].due == if 1 <= deliverAt - s.clock <= 2147483647 then deliverAt else s.clock + 1
  {
  }

  /** A timer fires exactly when it is armed and due. */
  lemma FiresExactlyWhenDue(s: State, id: nat)
    ensures |Next(s, Fire(id)).fired| == |s.fired| + 1 <==> id in s.armed && s.armed[id].due <= s.clock
    ensures !(id in s.armed && s.armed[id].due <= s.clock) ==> Next(s, Fire(id)) == s
  {
  }

  /** A schedule that comes due and fires. */
  lemma HelloFires(destination: string)
    ensures var s := Run(Start(0), [Step.Schedule(destination, "hello", 1000), Tick(1000), Fire(1)]);
            && s.pending == [] && |s.fired| == 1 && s.fired[0].at == 1000
            && s.fired[0].entry.destination == destination && s.fired[0].entry.body == "hello"
  {
    var schedule := Step.Schedule(destination, "hello", 1000);
    RunOneMore(Start(0), [], schedule);
    RunOneMore(Start(0), [schedule], Tick(1000));
    RunOneMore(Start(0), [schedule, Tick(1000)], Fire(1));
    assert [] + [schedule] == [schedule] && [schedule] + [Tick(1000)] == [schedule, Tick(1000)];
    assert [schedule, Tick(1000)] + [Fire(1)] == [schedule, Tick(1000), Fire(1)];
    var entry := Entry(1, destination, "hello", 1000, 1000);
    var s := Next(Start(0), schedule);
    assert s.pending == [entry] && s.armed == map[1 := entry];
    assert Without([entry], 1) == [];
    hide Run;
  }
}
