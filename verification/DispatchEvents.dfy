/**
 * Deliveries told from the events of a run: what the two counters count, what silences a
 * subscription for good, and what closing waits for.
 */
module DispatchEvents {
  import opened Common
  import opened Matcher
  import opened Dispatch
  import opened DispatchSafety

  // ---- the counters ----

  /** How many listeners came back with success, or with an error, in the run. */
  function Returns(events: seq<Event>, ok: bool): nat {
    if |events| == 0 then 0
    else
      var before, e := events[..|events| - 1], events[|events| - 1];
      Returns(before, ok) + if e.Return? && e.ok == ok && Enabled(Run(before), e) then 1 else 0
  }

  /** `delivered` counts the listeners that returned, `failed` those that threw. */
  lemma {:induction false} CountersAre(events: seq<Event>)
    ensures Run(events).delivered == Returns(events, true) && Run(events).failed == Returns(events, false)
  {
    if |events| > 0 {
      var before, e := events[..|events| - 1], events[|events| - 1];
      CountersAre(before);
      CountersMove(Run(before), e);
      hide Next, Enabled;
    }
  }

  lemma CountersMove(s: State, e: Event)
    ensures var t := Next(s, e);
            && t.delivered == s.delivered + (if e.Return? && e.ok && Enabled(s, e) then 1 else 0)
            && t.failed == s.failed + (if e.Return? && !e.ok && Enabled(s, e) then 1 else 0)
  {
    hide MatchesPattern, Snapshot, CancelAll;
  }

  /** A publication becomes a dispatch of its own name. */
  lemma PublishedIs(events: seq<Event>, name: string)
    ensures var s, t := Run(events), Run(events + [Publish(name)]);
            && |t.phases| == |s.phases| + 1 && t.phases[|s.phases|] == Waiting
            && |t.names| == |t.phases| && t.names[|s.phases|] == name
  {
    Invariant(events);
    RunSnoc(events, Publish(name));
    hide Run, Inv;
    InvNames(Run(events));
  }

  lemma InvNames(s: State)
    requires Inv(s)
    ensures |s.names| == |s.phases|
  {
  }

  // ---- what silences a subscription ----

  predicate StartOf(entry: Entry, i: nat) {
    entry.Started? && entry.sub == i
  }

  /** An inactive subscription stays so, and a step starts none but active ones. */
  lemma StaysSilent(s: State, e: Event, i: nat)
    requires i < |s.subs| && i !in s.active
    ensures var t := Next(s, e);
            && i < |t.subs| && i !in t.active && s.log <= t.log
            && forall k :: |s.log| <= k < |t.log| ==> !StartOf(t.log[k], i)
  {
    hide MatchesPattern, Snapshot;
    if e.Clear? { CancelAllFacts(s.active, |s.subs|); }
  }

  /** Once a subscription is inactive, whatever comes after never calls its listener. */
  lemma {:induction false} InactiveNeverStarts(before: seq<Event>, after: seq<Event>, i: nat)
    requires i < |Run(before).subs| && i !in Run(before).active
    ensures var s, t := Run(before), Run(before + after);
            && i < |t.subs| && i !in t.active && s.log <= t.log
            && forall k :: |s.log| <= k < |t.log| ==> !StartOf(t.log[k], i)
    decreases |after|
  {
    hide Run, Next;
    if |after| > 0 {
      var n := |after| - 1;
      InactiveNeverStarts(before, after[..n], i);
      assert before + after == (before + after[..n]) + [after[n]];
      RunSnoc(before + after[..n], after[n]);
      StaysSilent(Run(before + after[..n]), after[n], i);
    } else {
      assert before + after == before;
    }
  }

  /** After `off` the listener is never called again, not even by a dispatch under way. */
  lemma UnsubscribeSilences(before: seq<Event>, i: nat, after: seq<Event>)
    requires i < |Run(before).subs|
    ensures var s, t := Run(before), Run(before + [Unsubscribe(i)] + after);
            && i !in t.active && |s.log| <= |t.log|
            && forall k :: |s.log| <= k < |t.log| ==> !StartOf(t.log[k], i)
  {
    RunSnoc(before, Unsubscribe(i));
    OffTurn(Run(before), i);
    hide Run, Next;
    InactiveNeverStarts(before + [Unsubscribe(i)], after, i);
  }

  lemma OffTurn(s: State, i: nat)
    requires i < |s.subs|
    ensures var t := Next(s, Unsubscribe(i));
            && i < |t.subs| && i !in t.active && s.log <= t.log
            && forall k :: |s.log| <= k < |t.log| ==> !StartOf(t.log[k], i)
  {
  }

  /** Clearing silences every subscription there was. */
  lemma ClearSilences(before: seq<Event>, i: nat, after: seq<Event>)
    requires i < |Run(before).subs| && Enabled(Run(before), Clear)
    ensures var s, t := Run(before), Run(before + [Clear] + after);
            && i !in t.active && |s.log| <= |t.log|
            && forall k :: |s.log| <= k < |t.log| ==> !StartOf(t.log[k], i)
  {
    RunSnoc(before, Clear);
    CancelAllFacts(Run(before).active, |Run(before).subs|);
    assert Next(Run(before), Clear).active == {};
    hide Run;
    InactiveNeverStarts(before + [Clear], after, i);
  }

  // ---- closing ----

  /** How many publications were queued when the events were closed, if they were. */
  function QueuedAtClose(events: seq<Event>): Option<nat> {
    if |events| == 0 then None
    else
      var before, e := events[..|events| - 1], events[|events| - 1];
      if QueuedAtClose(before).None? && e == Close then Some(|Run(before).jobs|) else QueuedAtClose(before)
  }

  lemma {:induction false} ClosingIs(events: seq<Event>)
    ensures Run(events).closing == QueuedAtClose(events)
  {
    if |events| > 0 {
      var before, e := events[..|events| - 1], events[|events| - 1];
      ClosingIs(before);
      ClosingMoves(Run(before), e);
      hide Next;
    }
  }

  lemma ClosingMoves(s: State, e: Event)
    ensures Next(s, e).closing == if s.closing.None? && e == Close then Some(|s.jobs|) else s.closing
  {
    hide MatchesPattern, Snapshot, CancelAll;
  }

  /**
   * The subscriptions are cleared only after a close, and exactly from the moment on when every
   * publication queued by then has settled.
   */
  lemma ClearWaits(events: seq<Event>)
    ensures Enabled(Run(events), Clear) <==>
              QueuedAtClose(events).Some? && QueuedAtClose(events).value <= Run(events).settled
  {
    ClosingIs(events);
  }
}
