/**
 * What every interleaving of dispatches, subscriptions and cancellations keeps:
 * `once` means once, cancelled means never again, each dispatch goes in registration
 * order through exactly the subscriptions it found, and asynchronous dispatches queue.
 */
module DispatchSafety {
  import opened Common
  import opened Matcher
  import opened Dispatch

  // ---- snapshots ----

  ghost predicate Increasing(queue: seq<nat>) {
    forall p, q :: 0 <= p < q < |queue| ==> queue[p] < queue[q]
  }

  /** A snapshot is the active matching subscriptions, once each, in registration order. */
  lemma {:induction false} SnapshotFacts(subs: seq<Sub>, active: set<nat>, name: string, n: nat)
    requires n <= |subs|
    ensures Increasing(Snapshot(subs, active, name, n))
    ensures forall i: nat :: i in Snapshot(subs, active, name, n) <==>
              i < n && i in active && MatchesPattern(name, subs[i].key)
  {
    hide MatchesPattern;
    if n > 0 {
      SnapshotFacts(subs, active, name, n - 1);
      var before := Snapshot(subs, active, name, n - 1);
      forall p | 0 <= p < |before| ensures before[p] < n - 1 { assert before[p] in before; }
    }
  }

  lemma {:induction false} CancelAllFacts(active: set<nat>, n: nat)
    ensures forall i: nat :: Cancelled(i) in CancelAll(active, n) <==> i < n && i in active
    ensures forall k :: 0 <= k < |CancelAll(active, n)| ==> CancelAll(active, n)[k].Cancelled?
  {
    if n > 0 { CancelAllFacts(active, n - 1); }
  }

  // ---- invariants ----

  function Queue(p: Phase): seq<nat> {
    match p
    case Delivering(queue, _, _) => queue
    case Delivered(queue) => queue
    case _ => []
  }

  /** How far into its queue a dispatch has come. */
  function Position(p: Phase): nat {
    match p
    case Delivering(_, pos, _) => pos
    case Delivered(queue) => |queue|
    case _ => 0
  }

  ghost predicate HasStart(log: seq<Entry>, sub: nat) {
    exists k :: 0 <= k < |log| && log[k].Started? && log[k].sub == sub
  }

  ghost predicate Live(subs: seq<Sub>, log: seq<Entry>, i: nat) {
    i < |subs| && Cancelled(i) !in log && !(subs[i].once && HasStart(log, i))
  }

  /** Active means registered, not cancelled, and not a `once` that was already called. */
  ghost predicate ActiveExactly(s: State) {
    forall i: nat :: i in s.active <==> Live(s.subs, s.log, i)
  }

  ghost predicate QueueOk(subs: seq<Sub>, name: string, p: Phase) {
    && Increasing(Queue(p)) && Position(p) <= |Queue(p)|
    && forall q :: 0 <= q < |Queue(p)| ==>
         Queue(p)[q] < |subs| && MatchesPattern(name, subs[Queue(p)[q]].key)
  }

  ghost predicate QueuesOk(s: State) {
    |s.names| == |s.phases| && forall d :: 0 <= d < |s.phases| ==> QueueOk(s.subs, s.names[d], s.phases[d])
  }

  /** A start was made from its dispatch's queue, at a position already passed. */
  ghost predicate Placed(phases: seq<Phase>, entry: Entry) {
    entry.Started? ==>
      && entry.dispatch < |phases| && entry.pos < Position(phases[entry.dispatch])
      && entry.pos < |Queue(phases[entry.dispatch])|
      && Queue(phases[entry.dispatch])[entry.pos] == entry.sub
  }

  ghost predicate AllPlaced(s: State) {
    forall k :: 0 <= k < |s.log| ==> Placed(s.phases, s.log[k])
  }

  ghost predicate StartsAscend(log: seq<Entry>) {
    forall k, l :: 0 <= k < l < |log| && log[k].Started? && log[l].Started? && log[k].dispatch == log[l].dispatch ==>
      log[k].pos < log[l].pos
  }

  /** Nothing follows a cancellation, and nothing follows the start of a `once`. */
  ghost predicate NoneAfter(subs: seq<Sub>, first: Entry, later: Entry) {
    later.Started? && later.sub == first.sub ==>
      first.Started? && first.sub < |subs| && !subs[first.sub].once
  }

  ghost predicate LogOk(s: State) {
    forall k, l :: 0 <= k < l < |s.log| ==> NoneAfter(s.subs, s.log[k], s.log[l])
  }

  /** What a dispatch has passed was started by it, or was inactive and stays so. */
  ghost predicate Passed(s: State, d: nat)
    requires d < |s.phases|
  {
    forall p: nat :: p < Position(s.phases[d]) && p < |Queue(s.phases[d])| ==>
      Queue(s.phases[d])[p] !in s.active || Started(d, Queue(s.phases[d])[p], p) in s.log
  }

  ghost predicate AllPassed(s: State) {
    forall d :: 0 <= d < |s.phases| ==> Passed(s, d)
  }

  lemma HasStartAppend(log: seq<Entry>, e: Entry, i: nat)
    ensures HasStart(log + [e], i) <==> HasStart(log, i) || (e.Started? && e.sub == i)
  {
    if HasStart(log, i) {
      var k :| 0 <= k < |log| && log[k].Started? && log[k].sub == i;
      assert (log + [e])[k] == log[k];
    }
    if e.Started? && e.sub == i { assert (log + [e])[|log|] == e; }
  }

  lemma {:induction false} HasStartConcat(log: seq<Entry>, more: seq<Entry>, i: nat)
    requires forall k :: 0 <= k < |more| ==> more[k].Cancelled?
    ensures HasStart(log + more, i) <==> HasStart(log, i)
  {
    if HasStart(log, i) {
      var k :| 0 <= k < |log| && log[k].Started? && log[k].sub == i;
      assert (log + more)[k] == log[k];
    }
  }

  lemma KeepActive(s: State, e: Event)
    requires Enabled(s, e) && ActiveExactly(s) && AllInside(s)
    ensures ActiveExactly(Apply(s, e))
  {
    var t := Apply(s, e);
    hide HasStart, MatchesPattern, Snapshot;
    if e.Clear? {
      CancelAllFacts(s.active, |s.subs|);
    }
    forall i: nat ensures i in t.active <==> Live(t.subs, t.log, i) {
      assert i in s.active <==> Live(s.subs, s.log, i);
      match e {
        case Subscribe(_, _) => if HasStart(s.log, i) { StartInside(s, i); }
          if Cancelled(i) in s.log { CancelInside(s, i); }
        case Unsubscribe(sub) => HasStartAppend(s.log, Cancelled(sub), i);
        case Visit(d) =>
          var p := s.phases[d];
          HasStartAppend(s.log, Started(d, p.queue[p.pos], p.pos), i);
        case Clear => HasStartConcat(s.log, CancelAll(s.active, |s.subs|), i);
        case _ =>
      }
    }
  }

  /** The log speaks of registered subscriptions only. */
  ghost predicate AllInside(s: State) {
    forall k :: 0 <= k < |s.log| ==> s.log[k].sub < |s.subs|
  }

  lemma StartInside(s: State, i: nat)
    requires AllInside(s) && HasStart(s.log, i)
    ensures i < |s.subs|
  {
  }

  lemma CancelInside(s: State, i: nat)
    requires AllInside(s) && Cancelled(i) in s.log
    ensures i < |s.subs|
  {
  }

  lemma KeepInside(s: State, e: Event)
    requires Enabled(s, e) && AllInside(s) && ActiveExactly(s)
    ensures AllInside(Apply(s, e))
  {
    hide HasStart, MatchesPattern, Snapshot;
    if e.Clear? {
      CancelAllFacts(s.active, |s.subs|);
      var more := CancelAll(s.active, |s.subs|);
      forall k | 0 <= k < |more| ensures more[k].sub < |s.subs| {
        assert more[k] in more && more[k] == Cancelled(more[k].sub);
      }
    }
    if e.Visit? && Apply(s, e).log != s.log {
      assert Live(s.subs, s.log, s.phases[e.d].queue[s.phases[e.d].pos]);
    }
  }

  lemma KeepQueues(s: State, e: Event)
    requires Enabled(s, e) && QueuesOk(s)
    ensures QueuesOk(Apply(s, e))
  {
    hide MatchesPattern, Increasing, Snapshot;
    var t := Apply(s, e);
    if e.Resolve? { SnapshotQueueOk(s.subs, s.active, s.names[e.d]); }
    NewQueueOk(t.subs);
    forall d | 0 <= d < |t.phases| ensures QueueOk(t.subs, t.names[d], t.phases[d]) {
      if d < |s.phases| { assert QueueOk(s.subs, s.names[d], s.phases[d]); }
    }
  }

  lemma SnapshotQueueOk(subs: seq<Sub>, active: set<nat>, name: string)
    ensures QueueOk(subs, name, Delivering(Snapshot(subs, active, name, |subs|), 0, false))
  {
    SnapshotFacts(subs, active, name, |subs|);
    var queue := Snapshot(subs, active, name, |subs|);
    forall q | 0 <= q < |queue| ensures queue[q] < |subs| && MatchesPattern(name, subs[queue[q]].key) {
      assert queue[q] in queue;
    }
  }

  lemma NewQueueOk(subs: seq<Sub>)
    ensures forall name :: QueueOk(subs, name, Waiting)
    ensures forall name :: QueueOk(subs, name, Vetoed)
  {
  }

  lemma KeepPlaced(s: State, e: Event)
    requires Enabled(s, e) && QueuesOk(s) && AllPlaced(s)
    ensures AllPlaced(Apply(s, e))
  {
    hide MatchesPattern, Increasing, Snapshot, QueueOk;
    var t := Apply(s, e);
    if e.Clear? { CancelAllFacts(s.active, |s.subs|); }
    forall k | 0 <= k < |t.log| ensures Placed(t.phases, t.log[k]) {
      if k < |s.log| { assert Placed(s.phases, s.log[k]) && t.log[k] == s.log[k]; }
    }
  }

  lemma KeepAscend(s: State, e: Event)
    requires Enabled(s, e) && AllPlaced(s) && StartsAscend(s.log)
    ensures StartsAscend(Apply(s, e).log)
  {
    hide MatchesPattern, Snapshot;
    if e.Clear? { CancelAllFacts(s.active, |s.subs|); }
    if e.Visit? {
      forall k | 0 <= k < |s.log| && s.log[k].Started? && s.log[k].dispatch == e.d
        ensures s.log[k].pos < s.phases[e.d].pos
      {
        assert Placed(s.phases, s.log[k]);
      }
    }
  }

  lemma KeepLog(s: State, e: Event)
    requires Enabled(s, e) && ActiveExactly(s) && AllInside(s) && LogOk(s)
    ensures LogOk(Apply(s, e))
  {
    hide MatchesPattern, Snapshot, HasStart;
    var t := Apply(s, e);
    if e.Clear? { CancelAllFacts(s.active, |s.subs|); }
    forall k, l | 0 <= k < l < |t.log| ensures NoneAfter(t.subs, t.log[k], t.log[l]) {
      if l < |s.log| {
        assert NoneAfter(s.subs, s.log[k], s.log[l]) && t.log[k] == s.log[k] && t.log[l] == s.log[l];
      } else if e.Visit? {
        ActiveIsClean(s, t.log[l].sub, k);
      }
    }
  }

  lemma ActiveIsClean(s: State, sub: nat, k: nat)
    requires ActiveExactly(s) && sub in s.active && k < |s.log|
    ensures NoneAfter(s.subs, s.log[k], Started(0, sub, 0))
  {
    assert Live(s.subs, s.log, sub);
    assert s.log[k] in s.log;
  }

  lemma KeepPassed(s: State, e: Event)
    requires Enabled(s, e) && QueuesOk(s) && ActiveExactly(s) && AllPassed(s)
    ensures AllPassed(Apply(s, e))
  {
    hide MatchesPattern, Snapshot, HasStart, Increasing;
    ActiveInside(s);
    hide ActiveExactly, Live;
    var t := Apply(s, e);
    forall d | 0 <= d < |t.phases| ensures Passed(t, d) {
      if d < |s.phases| {
        assert Passed(s, d) && QueueOk(s.subs, s.names[d], s.phases[d]);
        PassedStays(s, e, d);
      }
    }
  }

  lemma ActiveInside(s: State)
    requires ActiveExactly(s)
    ensures forall i :: i in s.active ==> i < |s.subs|
  {
    forall i | i in s.active ensures i < |s.subs| { assert Live(s.subs, s.log, i); }
  }

  lemma PassedStays(s: State, e: Event, d: nat)
    requires Enabled(s, e) && d < |s.phases| && d < |s.names| && Passed(s, d)
    requires QueueOk(s.subs, s.names[d], s.phases[d])
    requires forall i :: i in s.active ==> i < |s.subs|
    ensures d < |Apply(s, e).phases| && Passed(Apply(s, e), d)
  {
    hide MatchesPattern, Snapshot, Increasing, CancelAll;
  }

  // ---- the asynchronous queue ----

  /** Jobs before `settled` have settled, the one at `settled` may be running, the rest wait. */
  ghost predicate JobOk(s: State, j: nat)
    requires j < |s.jobs|
  {
    match s.jobs[j].dispatch
    case None => s.settled <= j
    case Some(d) =>
      j <= s.settled && d < |s.phases| && d < |s.names| && s.names[d] == s.jobs[j].name
      && (j < s.settled ==> Settling(s, d))
  }

  ghost predicate JobsOk(s: State) {
    && s.settled <= |s.jobs| && s.asyncPending == |s.jobs| - s.settled
    && (forall j :: 0 <= j < |s.jobs| ==> JobOk(s, j))
    && forall i, j :: 0 <= i < j < |s.jobs| && s.jobs[i].dispatch.Some? && s.jobs[j].dispatch.Some? ==>
         s.jobs[i].dispatch.value < s.jobs[j].dispatch.value
  }

  predicate IsStartOf(entry: Entry, job: Job) {
    entry.Started? && job.dispatch == Some(entry.dispatch)
  }

  /** Listeners of an earlier job, unless it was left running, are all called before any listener of a later one. */
  ghost predicate Sequential(s: State) {
    forall k, l, i, j ::
      (0 <= k < |s.log| && 0 <= l < |s.log| && 0 <= i < j < |s.jobs| &&
       IsStartOf(s.log[k], s.jobs[i]) && IsStartOf(s.log[l], s.jobs[j]) && s.log[k].dispatch !in s.left) ==> k < l
  }

  lemma KeepJobs(s: State, e: Event)
    requires Enabled(s, e) && |s.names| == |s.phases| && JobsOk(s)
    ensures JobsOk(Apply(s, e))
  {
    hide MatchesPattern, Snapshot, CancelAll;
    var t := Apply(s, e);
    forall j | 0 <= j < |t.jobs| ensures JobOk(t, j) {
      if j < |s.jobs| { assert JobOk(s, j); }
    }
    if e.StartJob? {
      forall i | 0 <= i < |s.jobs| && s.jobs[i].dispatch.Some? ensures s.jobs[i].dispatch.value < |s.phases| {
        assert JobOk(s, i);
      }
      forall j | s.settled <= j < |s.jobs| ensures s.jobs[j].dispatch == None {
        assert JobOk(s, j);
      }
    }
  }

  lemma KeepSequential(s: State, e: Event)
    requires Enabled(s, e) && AllPlaced(s) && JobsOk(s) && Sequential(s)
    ensures Sequential(Apply(s, e))
  {
    hide MatchesPattern, Snapshot;
    var t := Apply(s, e);
    if e.Clear? { CancelAllFacts(s.active, |s.subs|); }
    forall k, l, i, j | 0 <= k < |t.log| && 0 <= l < |t.log| && 0 <= i < j < |t.jobs|
        && IsStartOf(t.log[k], t.jobs[i]) && IsStartOf(t.log[l], t.jobs[j]) && t.log[k].dispatch !in t.left
      ensures k < l
    {
      StartedJob(s, e, l, j);
      StartedJob(s, e, k, i);
      assert JobOk(s, i) && JobOk(s, j);
    }
  }

  /** A start in the next state belongs to a job that had already begun. */
  lemma StartedJob(s: State, e: Event, k: nat, j: nat)
    requires Enabled(s, e) && AllPlaced(s)
    requires k < |Apply(s, e).log| && j < |Apply(s, e).jobs| && IsStartOf(Apply(s, e).log[k], Apply(s, e).jobs[j])
    ensures j < |s.jobs| && s.jobs[j] == Apply(s, e).jobs[j]
    ensures k < |s.log| ==> s.log[k] == Apply(s, e).log[k]
    ensures k >= |s.log| ==> k == |s.log| && e.Visit? && s.jobs[j].dispatch == Some(e.d)
  {
    hide MatchesPattern, Snapshot, CancelAll;
    if e.Clear? { CancelAllFacts(s.active, |s.subs|); }
    if k < |s.log| { assert Placed(s.phases, s.log[k]); }
  }

  // ---- the tally ----

  function Starts(log: seq<Entry>): nat {
    if |log| == 0 then 0 else Starts(log[..|log| - 1]) + if log[|log| - 1].Started? then 1 else 0
  }

  function Busy(phases: seq<Phase>): nat {
    if |phases| == 0 then 0
    else
      var p := phases[|phases| - 1];
      Busy(phases[..|phases| - 1]) + if p.Delivering? && p.busy then 1 else 0
  }

  /** Every listener called has returned, has thrown, or is still awaited. */
  ghost predicate Tallied(s: State) {
    Starts(s.log) == s.delivered + s.failed + Busy(s.phases)
  }

  function BusyBit(p: Phase): nat {
    if p.Delivering? && p.busy then 1 else 0
  }

  lemma {:induction false} BusyUpdate(phases: seq<Phase>, d: nat, p: Phase)
    requires d < |phases|
    ensures Busy(phases[d := p]) == Busy(phases) - BusyBit(phases[d]) + BusyBit(p)
  {
    var n := |phases| - 1;
    if d < n {
      BusyUpdate(phases[..n], d, p);
      assert phases[d := p][..n] == phases[..n][d := p];
    } else {
      assert phases[d := p][..n] == phases[..n];
    }
  }

  lemma BusyAppend(phases: seq<Phase>, p: Phase)
    ensures Busy(phases + [p]) == Busy(phases) + BusyBit(p)
  {
    assert (phases + [p])[..|phases|] == phases;
  }

  lemma {:induction false} StartsAppend(log: seq<Entry>, more: seq<Entry>)
    requires forall k :: 0 <= k < |more| ==> more[k].Cancelled?
    ensures Starts(log + more) == Starts(log)
  {
    if |more| > 0 {
      StartsAppend(log, more[..|more| - 1]);
      assert (log + more)[..|log + more| - 1] == log + more[..|more| - 1];
    } else {
      assert log + more == log;
    }
  }

  lemma StartsOne(log: seq<Entry>, e: Entry)
    ensures Starts(log + [e]) == Starts(log) + if e.Started? then 1 else 0
  {
    assert (log + [e])[..|log|] == log;
  }

  lemma KeepTally(s: State, e: Event)
    requires Enabled(s, e) && Tallied(s)
    ensures Tallied(Apply(s, e))
  {
    hide MatchesPattern, Snapshot, Starts, Busy, CancelAll;
    var t := Apply(s, e);
    match e {
      case Unsubscribe(sub) => StartsOne(s.log, Cancelled(sub));
      case Publish(_) => BusyAppend(s.phases, Waiting);
      case StartJob => BusyAppend(s.phases, Waiting);
      case Resolve(d) => if d < |s.names| { BusyUpdate(s.phases, d, t.phases[d]); }
      case Veto(d) => BusyUpdate(s.phases, d, Vetoed);
      case Visit(d) =>
        var p := s.phases[d];
        StartsOne(s.log, Started(d, p.queue[p.pos], p.pos));
        BusyUpdate(s.phases, d, t.phases[d]);
      case Return(d, _) => BusyUpdate(s.phases, d, t.phases[d]);
      case Finish(d) => BusyUpdate(s.phases, d, t.phases[d]);
      case Clear =>
        CancelAllFacts(s.active, |s.subs|);
        StartsAppend(s.log, CancelAll(s.active, |s.subs|));
      case _ =>
    }
  }

  // ---- every run ----

  ghost predicate Inv(s: State) {
    && ActiveExactly(s) && AllInside(s) && QueuesOk(s) && AllPlaced(s) && StartsAscend(s.log)
    && LogOk(s) && AllPassed(s) && JobsOk(s) && Sequential(s) && Tallied(s)
  }

  lemma KeepInv(s: State, e: Event)
    requires Inv(s)
    ensures Inv(Next(s, e))
  {
    hide Apply, ActiveExactly, AllInside, AllPlaced, StartsAscend, LogOk, AllPassed, JobsOk, Sequential, Tallied;
    hide Enabled;
    if Enabled(s, e) {
      KeepActive(s, e);
      KeepInside(s, e);
      KeepQueues(s, e);
      KeepPlaced(s, e);
      KeepAscend(s, e);
      KeepLog(s, e);
      KeepPassed(s, e);
      KeepJobs(s, e);
      KeepSequential(s, e);
      KeepTally(s, e);
    }
  }

  lemma {:induction false} Invariant(events: seq<Event>)
    ensures Inv(Run(events))
  {
    hide Inv, Next;
    if |events| > 0 {
      Invariant(events[..|events| - 1]);
      KeepInv(Run(events[..|events| - 1]), events[|events| - 1]);
    } else {
      StartOk();
    }
  }

  lemma StartOk()
    ensures Inv(EMPTY)
  {
  }

  /** A `once` subscription is called at most once, however dispatches interleave or nest. */
  lemma OnceAtMostOnce(events: seq<Event>, k: nat, l: nat)
    requires k < l < |Run(events).log| && Run(events).log[k].Started? && Run(events).log[l].Started?
    requires Run(events).log[k].sub == Run(events).log[l].sub
    ensures Run(events).log[k].sub < |Run(events).subs| && !Run(events).subs[Run(events).log[k].sub].once
  {
    hide Run;
    Invariant(events);
    var s := Run(events);
    assert NoneAfter(s.subs, s.log[k], s.log[l]);
  }

  /** A cancelled subscription is never called afterwards, not even by a dispatch that had already found it. */
  lemma CancelledNeverStarts(events: seq<Event>, k: nat, l: nat)
    requires k < l < |Run(events).log| && Run(events).log[k].Cancelled? && Run(events).log[l].Started?
    ensures Run(events).log[k].sub != Run(events).log[l].sub
  {
    hide Run;
    Invariant(events);
    var s := Run(events);
    assert NoneAfter(s.subs, s.log[k], s.log[l]);
  }

  /** One dispatch calls its listeners in registration order. */
  lemma InRegistrationOrder(events: seq<Event>, k: nat, l: nat)
    requires k < l < |Run(events).log| && Run(events).log[k].Started? && Run(events).log[l].Started?
    requires Run(events).log[k].dispatch == Run(events).log[l].dispatch
    ensures Run(events).log[k].sub < Run(events).log[l].sub
  {
    hide Run;
    Invariant(events);
    var s := Run(events);
    assert Placed(s.phases, s.log[k]) && Placed(s.phases, s.log[l]);
    var d := s.log[k].dispatch;
    assert QueueOk(s.subs, s.names[d], s.phases[d]);
  }

  predicate Resolved(s: State, d: nat) {
    d < |s.phases| && (s.phases[d].Delivering? || s.phases[d].Delivered?)
  }

  lemma {:induction false} QueueKept(before: seq<Event>, after: seq<Event>, d: nat)
    requires Resolved(Run(before), d)
    ensures Resolved(Run(before + after), d)
    ensures Queue(Run(before + after).phases[d]) == Queue(Run(before).phases[d])
  {
    if |after| > 0 {
      var shorter := after[..|after| - 1];
      QueueKept(before, shorter, d);
      var events := before + after;
      assert events[..|events| - 1] == before + shorter;
      hide Run;
      StepKeepsQueue(Run(before + shorter), events[|events| - 1], d);
    } else {
      assert before + after == before;
    }
  }

  lemma StepKeepsQueue(s: State, e: Event, d: nat)
    requires Resolved(s, d)
    ensures Resolved(Next(s, e), d) && Queue(Next(s, e).phases[d]) == Queue(s.phases[d])
  {
    hide MatchesPattern, Snapshot, CancelAll;
  }

  /** A listener of subscription `i` was called for dispatch `d`. */
  ghost predicate Called(s: State, d: nat, i: nat) {
    exists p :: Started(d, i, p) in s.log
  }

  ghost predicate Found(s: State, d: nat, i: nat) {
    d < |s.names| && i < |s.subs| && i in s.active && MatchesPattern(s.names[d], s.subs[i].key)
  }

  /**
   * A finished dispatch called exactly what it should have: only subscriptions that
   * were active and matching when it resolved, and every one of those that is still
   * active.
   */
  lemma Served(before: seq<Event>, d: nat, after: seq<Event>, i: nat)
    requires Enabled(Run(before), Resolve(d))
    requires Resolved(Run(before + [Resolve(d)] + after), d)
    requires Run(before + [Resolve(d)] + after).phases[d].Delivered?
    ensures Called(Run(before + [Resolve(d)] + after), d, i) ==> Found(Run(before), d, i)
    ensures Found(Run(before), d, i) && i in Run(before + [Resolve(d)] + after).active ==>
              Called(Run(before + [Resolve(d)] + after), d, i)
  {
    hide *;
    Invariant(before + [Resolve(d)] + after);
    ResolveFinds(before, d, i);
    QueueKept(before + [Resolve(d)], after, d);
    ServedQueue(Run(before + [Resolve(d)] + after), d, i);
  }

  lemma ResolveFinds(before: seq<Event>, d: nat, i: nat)
    requires Enabled(Run(before), Resolve(d))
    ensures Resolved(Run(before + [Resolve(d)]), d)
    ensures i in Queue(Run(before + [Resolve(d)]).phases[d]) <==> Found(Run(before), d, i)
  {
    hide *;
    Invariant(before);
    RunSnoc(before, Resolve(d));
    ResolveStep(Run(before), d, i);
  }

  lemma RunSnoc(events: seq<Event>, e: Event)
    ensures Run(events + [e]) == Next(Run(events), e)
  {
    hide Next;
    assert (events + [e])[..|events|] == events;
  }

  lemma ResolveStep(s: State, d: nat, i: nat)
    requires Inv(s) && Enabled(s, Resolve(d))
    ensures Resolved(Next(s, Resolve(d)), d)
    ensures i in Queue(Next(s, Resolve(d)).phases[d]) <==> Found(s, d, i)
  {
    hide MatchesPattern, Snapshot;
    hide ActiveExactly, AllInside, AllPlaced, StartsAscend, LogOk, AllPassed, JobsOk, Sequential, Tallied, QueueOk;
    SnapshotFacts(s.subs, s.active, s.names[d], |s.subs|);
  }

  lemma ServedQueue(t: State, d: nat, i: nat)
    requires Inv(t) && Resolved(t, d) && t.phases[d].Delivered?
    ensures Called(t, d, i) ==> i in Queue(t.phases[d])
    ensures i in Queue(t.phases[d]) && i in t.active ==> Called(t, d, i)
  {
    if p :| Started(d, i, p) in t.log {
      var k :| 0 <= k < |t.log| && t.log[k] == Started(d, i, p);
      assert Placed(t.phases, t.log[k]);
    }
    if i in t.phases[d].queue && i in t.active {
      var p :| 0 <= p < |t.phases[d].queue| && t.phases[d].queue[p] == i;
      assert Passed(t, d);
      assert Started(d, Queue(t.phases[d])[p], p) in t.log;
    }
  }

  /** `asyncPending` counts the unsettled publications, of which at most the first has begun. */
  lemma PendingIsUnfinished(events: seq<Event>, j: nat)
    requires j < |Run(events).jobs|
    ensures Run(events).settled <= |Run(events).jobs|
    ensures Run(events).asyncPending == |Run(events).jobs| - Run(events).settled
    ensures var s := Run(events); j < s.settled ==>
              && s.jobs[j].dispatch.Some? && s.jobs[j].dispatch.value < |s.phases|
              && (Over(s.phases[s.jobs[j].dispatch.value]) || s.jobs[j].dispatch.value in s.left)
    ensures var s := Run(events); j > s.settled ==> s.jobs[j].dispatch == None
  {
    hide Run;
    Invariant(events);
    assert JobOk(Run(events), j);
  }

  /**
   * Asynchronous publications deliver in the order they were made, without overlapping:
   * every listener of an earlier one whose delivery was awaited is called before any of a
   * later one.
   */
  lemma AsyncInOrder(events: seq<Event>, k: nat, l: nat, i: nat, j: nat)
    requires k < |Run(events).log| && l < |Run(events).log| && i < j < |Run(events).jobs|
    requires IsStartOf(Run(events).log[k], Run(events).jobs[i]) && IsStartOf(Run(events).log[l], Run(events).jobs[j])
    requires Run(events).log[k].dispatch !in Run(events).left
    ensures k < l
  {
    hide Run;
    Invariant(events);
  }

  /** Two publications of `a`, the first through a middleware that does not await its delivery. */
  function Unawaited(): seq<Event> {
    [Subscribe("a", false), PublishAsync("a"), PublishAsync("a"), StartJob, Resolve(0), Leave(0), SettleJob,
     StartJob, Resolve(1), Visit(1), Visit(0)]
  }

  /** A middleware that does not await the delivery it starts lets the next publication overtake it. */
  lemma UnawaitedIsOvertaken()
    ensures var s := Run(Unawaited());
            && s.log == [Started(1, 0, 0), Started(0, 0, 0)] && |s.jobs| == 2
            && IsStartOf(s.log[1], s.jobs[0]) && IsStartOf(s.log[0], s.jobs[1])
  {
    hide *;
    var q := [Subscribe("a", false), PublishAsync("a"), PublishAsync("a")];
    TwoQueued();
    FirstLeaves(q);
    SecondOvertakes(q + [StartJob, Resolve(0), Leave(0), SettleJob]);
    UnawaitedIs(q);
    var s := Run(Unawaited());
    StartsOf(s.jobs);
  }

  lemma UnawaitedIs(q: seq<Event>)
    requires q == [Subscribe("a", false), PublishAsync("a"), PublishAsync("a")]
    ensures q + [StartJob, Resolve(0), Leave(0), SettleJob] + [StartJob, Resolve(1), Visit(1), Visit(0)] == Unawaited()
  {
  }

  lemma StartsOf(jobs: seq<Job>)
    requires jobs == [Job("a", Some(0)), Job("a", Some(1))]
    ensures IsStartOf(Started(0, 0, 0), jobs[0]) && IsStartOf(Started(1, 0, 0), jobs[1])
  {
  }

  lemma TwoQueued()
    ensures Run([Subscribe("a", false), PublishAsync("a"), PublishAsync("a")]) == QUEUED
  {
    hide Run;
    RunSnoc([], Subscribe("a", false));
    RunSnoc([Subscribe("a", false)], PublishAsync("a"));
    RunSnoc([Subscribe("a", false), PublishAsync("a")], PublishAsync("a"));
    assert [] + [Subscribe("a", false)] == [Subscribe("a", false)];
    assert [Subscribe("a", false)] + [PublishAsync("a")] == [Subscribe("a", false), PublishAsync("a")];
    assert [Subscribe("a", false), PublishAsync("a")] + [PublishAsync("a")] ==
      [Subscribe("a", false), PublishAsync("a"), PublishAsync("a")];
    RunNone();
    var s := Next(EMPTY, Subscribe("a", false));
    assert s == EMPTY.(subs := [Sub("a", false)], active := {0});
    assert [Job("a", None)] + [Job("a", None)] == [Job("a", None), Job("a", None)];
  }

  lemma RunNone()
    ensures Run([]) == EMPTY
  {
  }

  const QUEUED := EMPTY.(subs := [Sub("a", false)], active := {0}, jobs := [Job("a", None), Job("a", None)],
                          asyncPending := 2)
  const LEFT := QUEUED.(names := ["a"], phases := [Delivering([0], 0, false)], jobs := [Job("a", Some(0)), Job("a", None)],
                        left := {0}, settled := 1, asyncPending := 1)

  lemma FindsA()
    ensures Snapshot([Sub("a", false)], {0}, "a", 1) == [0]
  {
    assert Snapshot([Sub("a", false)], {0}, "a", 0) == [];
    assert [] + [0] == [0];
  }

  lemma FirstLeaves(q: seq<Event>)
    requires Run(q) == QUEUED
    ensures Run(q + [StartJob, Resolve(0), Leave(0), SettleJob]) == LEFT
  {
    hide MatchesPattern, Snapshot, Run;
    FindsA();
    RunSnoc(q, StartJob);
    RunSnoc(q + [StartJob], Resolve(0));
    RunSnoc(q + [StartJob] + [Resolve(0)], Leave(0));
    RunSnoc(q + [StartJob] + [Resolve(0)] + [Leave(0)], SettleJob);
    assert q + [StartJob] + [Resolve(0)] + [Leave(0)] + [SettleJob] == q + [StartJob, Resolve(0), Leave(0), SettleJob];
    var s := Next(QUEUED, StartJob);
    assert s == QUEUED.(names := ["a"], phases := [Waiting], jobs := [Job("a", Some(0)), Job("a", None)]);
    assert Next(s, Resolve(0)) == s.(phases := [Delivering([0], 0, false)]);
  }

  lemma SecondOvertakes(q: seq<Event>)
    requires Run(q) == LEFT
    ensures var s := Run(q + [StartJob, Resolve(1), Visit(1), Visit(0)]);
            s.log == [Started(1, 0, 0), Started(0, 0, 0)] && s.jobs == [Job("a", Some(0)), Job("a", Some(1))]
  {
    hide MatchesPattern, Snapshot, Run;
    FindsA();
    RunSnoc(q, StartJob);
    RunSnoc(q + [StartJob], Resolve(1));
    RunSnoc(q + [StartJob] + [Resolve(1)], Visit(1));
    RunSnoc(q + [StartJob] + [Resolve(1)] + [Visit(1)], Visit(0));
    assert q + [StartJob] + [Resolve(1)] + [Visit(1)] + [Visit(0)] == q + [StartJob, Resolve(1), Visit(1), Visit(0)];
    var first := Delivering([0], 0, false);
    var s := Next(LEFT, StartJob);
    assert s == LEFT.(names := ["a", "a"], phases := [first, Waiting], jobs := [Job("a", Some(0)), Job("a", Some(1))]);
    var t := Next(s, Resolve(1));
    assert t == s.(phases := [first, first]);
    var u := Next(t, Visit(1));
    assert u.log == [] + [Started(1, 0, 0)] == [Started(1, 0, 0)] && u.phases[0] == first && u.active == {0};
    assert Next(u, Visit(0)).log == [Started(1, 0, 0)] + [Started(0, 0, 0)];
  }

  /** The listeners called are those that returned, those that threw and those still awaited. */
  lemma TallyHolds(events: seq<Event>)
    ensures Starts(Run(events).log) == Run(events).delivered + Run(events).failed + Busy(Run(events).phases)
  {
    Invariant(events);
  }

  /** A subscription is active unless it was cancelled or was a `once` that has been called. */
  lemma ActiveIff(events: seq<Event>, i: nat)
    ensures var s := Run(events);
            i in s.active <==>
              i < |s.subs| && Cancelled(i) !in s.log && !(s.subs[i].once && HasStart(s.log, i))
  {
    hide Run;
    Invariant(events);
    assert i in Run(events).active <==> Live(Run(events).subs, Run(events).log, i);
  }
}
