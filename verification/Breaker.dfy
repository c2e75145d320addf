/**
 * The per-key circuit breaker, packages/gateway/src/circuit-breaker.ts.  The clock comes
 * in with every call and never runs backwards.
 */
module Breaker {

  datatype State = Closed | Open | HalfOpen

  datatype Entry = Entry(state: State, failures: nat, successes: nat, openedAt: int)

  datatype Policy = Policy(failureThreshold: int, openMs: int, halfOpenSuccesses: int)

  const FRESH := Entry(Closed, 0, 0, 0)

  function AtLeast(low: int, n: int): int {
    if n < low then low else n
  }

  /** The policy as the constructor takes it. */
  function Guarded(p: Policy): Policy {
    Policy(AtLeast(1, p.failureThreshold), AtLeast(0, p.openMs), AtLeast(1, p.halfOpenSuccesses))
  }

  /** A circuit opens on some failure, stays open for no negative time and closes on some success. */
  predicate Sensible(p: Policy) {
    p.failureThreshold >= 1 && p.openMs >= 0 && p.halfOpenSuccesses >= 1
  }

  predicate NoStricter(p: Policy, q: Policy) {
    p.failureThreshold <= q.failureThreshold && p.openMs <= q.openMs && p.halfOpenSuccesses <= q.halfOpenSuccesses
  }

  /** The policy kept is the least sensible one that is at least what was asked for, field by field. */
  lemma GuardedIsLeast(p: Policy, q: Policy)
    ensures Sensible(Guarded(p)) && NoStricter(p, Guarded(p))
    ensures Sensible(q) && NoStricter(p, q) ==> NoStricter(Guarded(p), q)
    ensures Sensible(p) ==> Guarded(p) == p
  {
  }

  // ---- one entry ----

  function Resolve(p: Policy, e: Entry, now: int): Entry {
    if e.state == Open && now - e.openedAt >= p.openMs then e.(state := HalfOpen, successes := 0) else e
  }

  function Opened(now: int): Entry {
    Entry(Open, 0, 0, now)
  }

  function Succeed(p: Policy, entry: Entry, now: int): Entry {
    var e := Resolve(p, entry, now);
    match e.state
    case HalfOpen => if e.successes + 1 >= p.halfOpenSuccesses then FRESH else e.(successes := e.successes + 1)
    case Closed => e.(failures := 0)
    case Open => e
  }

  function Fail(p: Policy, entry: Entry, now: int): Entry {
    var e := Resolve(p, entry, now);
    match e.state
    case HalfOpen => Opened(now)
    case Closed => if e.failures + 1 >= p.failureThreshold then Opened(now) else e.(failures := e.failures + 1)
    case Open => e
  }

  // ---- all entries ----

  function At(entries: map<string, Entry>, key: string): Entry {
    if key in entries then entries[key] else FRESH
  }

  class CircuitBreaker {
    const policy: Policy
    var entries: map<string, Entry>

    constructor (policy: Policy)
      ensures this.policy == Guarded(policy) && entries == map[]
    {
      this.policy := Guarded(policy);
      entries := map[];
    }

    /** Fetch or create the entry, taking the timed step on the way. */
    method ResolveEntry(key: string, now: int) returns (entry: Entry)
      modifies this
      ensures entry == Resolve(policy, At(old(entries), key), now) && entries == old(entries)[key := entry]
    {
      entry := FRESH;
      if key in entries {
        entry := entries[key];
      }
      if entry.state == Open && now - entry.openedAt >= policy.openMs {
        entry := entry.(state := HalfOpen, successes := 0);
      }
      entries := entries[key := entry];
    }

    method CanRequest(key: string, now: int) returns (can: bool)
      modifies this
      ensures can == (Resolve(policy, At(old(entries), key), now).state != Open)
      ensures entries == old(entries)[key := Resolve(policy, At(old(entries), key), now)]
    {
      var entry := ResolveEntry(key, now);
      can := entry.state != Open;
    }

    method OnSuccess(key: string, now: int)
      modifies this
      ensures entries == old(entries)[key := Succeed(policy, At(old(entries), key), now)]
      ensures forall k :: k != key ==> At(entries, k) == At(old(entries), k)
      ensures entries[key].state == Closed ==> entries[key].failures == 0
    {
      var entry := ResolveEntry(key, now);
      if entry.state == HalfOpen {
        entry := entry.(successes := entry.successes + 1);
        if entry.successes >= policy.halfOpenSuccesses {
          entry := FRESH;
        }
      } else if entry.state == Closed {
        entry := entry.(failures := 0);
      }
      entries := entries[key := entry];
    }

    method OnFailure(key: string, now: int)
      modifies this
      ensures entries == old(entries)[key := Fail(policy, At(old(entries), key), now)]
      ensures forall k :: k != key ==> At(entries, k) == At(old(entries), k)
      ensures entries[key].state != HalfOpen
      ensures entries[key].state == Closed ==> 0 < entries[key].failures < policy.failureThreshold
    {
      var entry := ResolveEntry(key, now);
      if entry.state == HalfOpen {
        entry := Opened(now);
      } else if entry.state == Closed {
        entry := entry.(failures := entry.failures + 1);
        if entry.failures >= policy.failureThreshold {
          entry := Opened(now);
        }
      }
      entries := entries[key := entry];
    }
  }

  // ---- runs of one key ----

  datatype Event = Wait(ms: nat) | Success | Failure | Query

  datatype World = World(entry: Entry, now: int)

  function Next(p: Policy, w: World, event: Event): World {
    match event
    case Wait(ms) => w.(now := w.now + ms)
    case Success => w.(entry := Succeed(p, w.entry, w.now))
    case Failure => w.(entry := Fail(p, w.entry, w.now))
    case Query => w.(entry := Resolve(p, w.entry, w.now))
  }

  function Run(p: Policy, w: World, events: seq<Event>): World {
    if |events| == 0 then w else Next(p, Run(p, w, events[..|events| - 1]), events[|events| - 1])
  }

  // ---- the eager machine: a countdown that fires by itself ----

  datatype Eager = Counting(failures: nat) | Tripped(left: int) | Probing(successes: nat)

  function Armed(p: Policy): Eager {
    if p.openMs <= 0 then Probing(0) else Tripped(p.openMs)
  }

  function EagerNext(p: Policy, s: Eager, event: Event): Eager {
    match (event, s)
    case (Wait(ms), Tripped(left)) => if left <= ms then Probing(0) else Tripped(left - ms)
    case (Success, Probing(n)) => if n + 1 >= p.halfOpenSuccesses then Counting(0) else Probing(n + 1)
    case (Success, Counting(_)) => Counting(0)
    case (Failure, Probing(_)) => Armed(p)
    case (Failure, Counting(n)) => if n + 1 >= p.failureThreshold then Armed(p) else Counting(n + 1)
    case _ => s
  }

  function EagerRun(p: Policy, s: Eager, events: seq<Event>): Eager {
    if |events| == 0 then s else EagerNext(p, EagerRun(p, s, events[..|events| - 1]), events[|events| - 1])
  }

  /** The eager state an entry stands for at a moment. */
  function Seen(p: Policy, w: World): Eager {
    match w.entry.state
    case Closed => Counting(w.entry.failures)
    case HalfOpen => Probing(w.entry.successes)
    case Open =>
      var left := p.openMs - (w.now - w.entry.openedAt);
      if left <= 0 then Probing(0) else Tripped(left)
  }

  /** Taking the timed step only when looked at is the same as a timer that fires on time. */
  lemma {:induction false} LazyIsEager(p: Policy, w: World, events: seq<Event>)
    ensures Seen(p, Run(p, w, events)) == EagerRun(p, Seen(p, w), events)
  {
    if |events| > 0 {
      LazyIsEager(p, w, events[..|events| - 1]);
      NextIsEager(p, Run(p, w, events[..|events| - 1]), events[|events| - 1]);
      hide Next, EagerNext, Seen;
    }
  }

  lemma NextIsEager(p: Policy, w: World, event: Event)
    ensures Seen(p, Next(p, w, event)) == EagerNext(p, Seen(p, w), event)
  {
  }

  /** What `canRequest` answers. */
  predicate Allows(p: Policy, w: World) {
    Resolve(p, w.entry, w.now).state != Open
  }

  function Waited(events: seq<Event>): nat {
    if |events| == 0 then 0
    else
      var last := events[|events| - 1];
      Waited(events[..|events| - 1]) + if last.Wait? then last.ms else 0
  }

  /** Nothing passes before `openMs` is over, whatever is reported meanwhile. */
  lemma {:induction false} ShedsUntilOver(p: Policy, w: World, events: seq<Event>)
    requires w.entry.state == Open && w.entry.openedAt <= w.now
    ensures Run(p, w, events).now == w.now + Waited(events)
    ensures w.now + Waited(events) - w.entry.openedAt < p.openMs ==>
              Run(p, w, events).entry == w.entry && !Allows(p, Run(p, w, events))
  {
    if |events| > 0 { ShedsUntilOver(p, w, events[..|events| - 1]); }
  }

  /** With no outcome reported meanwhile, a probe may pass exactly when `openMs` is over. */
  lemma {:induction false} ProbesWhenOver(p: Policy, w: World, events: seq<Event>)
    requires w.entry.state == Open && w.entry.openedAt <= w.now
    requires forall i :: 0 <= i < |events| ==> events[i].Wait? || events[i].Query?
    ensures Allows(p, Run(p, w, events)) <==> w.now + Waited(events) - w.entry.openedAt >= p.openMs
  {
    ShedsUntilOver(p, w, events);
    if |events| > 0 {
      var before := events[..|events| - 1];
      ShedsUntilOver(p, w, before);
      assert forall i :: 0 <= i < |before| ==> before[i] == events[i];
      ProbesWhenOver(p, w, before);
      if Allows(p, Run(p, w, before)) { StaysAllowed(p, Run(p, w, before), events[|events| - 1]); }
    }
  }

  lemma StaysAllowed(p: Policy, w: World, event: Event)
    requires Allows(p, w) && (event.Wait? || event.Query?)
    ensures Allows(p, Next(p, w, event))
  {
  }

  /** Failures since the last success. */
  function Streak(events: seq<Event>): nat {
    if |events| == 0 then 0
    else
      match events[|events| - 1]
      case Success => 0
      case Failure => Streak(events[..|events| - 1]) + 1
      case _ => Streak(events[..|events| - 1])
  }

  ghost predicate NeverReached(events: seq<Event>, threshold: int) {
    forall n :: 0 <= n <= |events| ==> Streak(events[..n]) < threshold
  }

  /** Closed, and counting, for as long as no streak of failures reaches the threshold. */
  lemma {:induction false} ClosedWhileBelow(p: Policy, w: World, events: seq<Event>)
    requires w.entry == FRESH && p.failureThreshold >= 1 && NeverReached(events, p.failureThreshold)
    ensures Run(p, w, events).entry.state == Closed && Run(p, w, events).entry.failures == Streak(events)
  {
    if |events| > 0 {
      var before := events[..|events| - 1];
      forall n | 0 <= n <= |before| ensures Streak(before[..n]) < p.failureThreshold {
        assert before[..n] == events[..n];
      }
      ClosedWhileBelow(p, w, before);
      assert events[..|events|] == events;
    }
  }

  /** A closed circuit opens on exactly the failure that completes the first full streak. */
  lemma OpensExactlyAtThreshold(p: Policy, w: World, events: seq<Event>, event: Event)
    requires w.entry == FRESH && p.failureThreshold >= 1 && NeverReached(events, p.failureThreshold)
    ensures var t := Run(p, w, events + [event]);
            t.entry.state == Open <==> event == Failure && Streak(events) == p.failureThreshold - 1
    ensures Streak(events) <= p.failureThreshold - 1
    ensures var t := Run(p, w, events + [event]); t.entry.state == Open ==> t.entry.openedAt == t.now
  {
    ClosedWhileBelow(p, w, events);
    assert (events + [event])[..|events|] == events;
    assert events[..|events|] == events;
  }

  // ---- all keys ----

  datatype Keyed = Keyed(key: string, event: Event)

  datatype Worlds = Worlds(entries: map<string, Entry>, now: int)

  function NextOf(p: Policy, w: Worlds, k: Keyed): Worlds {
    match k.event
    case Wait(ms) => w.(now := w.now + ms)
    case _ => w.(entries := w.entries[k.key := Next(p, World(At(w.entries, k.key), w.now), k.event).entry])
  }

  function RunAll(p: Policy, w: Worlds, events: seq<Keyed>): Worlds {
    if |events| == 0 then w else NextOf(p, RunAll(p, w, events[..|events| - 1]), events[|events| - 1])
  }

  /** What concerns one key: its own calls, and the passing of time. */
  function Concerning(events: seq<Keyed>, key: string): seq<Event> {
    if |events| == 0 then []
    else
      var before, last := Concerning(events[..|events| - 1], key), events[|events| - 1];
      if last.event.Wait? || last.key == key then before + [last.event] else before
  }

  /** Keys do not affect one another. */
  lemma {:induction false} KeysAreIndependent(p: Policy, w: Worlds, events: seq<Keyed>, key: string)
    ensures World(At(RunAll(p, w, events).entries, key), RunAll(p, w, events).now) ==
            Run(p, World(At(w.entries, key), w.now), Concerning(events, key))
  {
    hide Next, NextOf, At;
    if |events| > 0 {
      var before, last := events[..|events| - 1], events[|events| - 1];
      KeysAreIndependent(p, w, before, key);
      NextOfAt(p, RunAll(p, w, before), last, key);
      RunSnoc(p, World(At(w.entries, key), w.now), Concerning(before, key), last.event);
    }
  }

  lemma NextOfAt(p: Policy, w: Worlds, k: Keyed, key: string)
    ensures World(At(NextOf(p, w, k).entries, key), NextOf(p, w, k).now) ==
            if k.event.Wait? || k.key == key then Next(p, World(At(w.entries, key), w.now), k.event)
            else World(At(w.entries, key), w.now)
  {
    hide Succeed, Fail, Resolve;
  }

  lemma RunSnoc(p: Policy, w: World, events: seq<Event>, event: Event)
    ensures Run(p, w, events + [event]) == Next(p, Run(p, w, events), event)
  {
    hide Next;
    assert (events + [event])[..|events|] == events;
  }
}
