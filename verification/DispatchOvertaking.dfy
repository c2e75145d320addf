/**
 * The order of asynchronous publications is kept only for deliveries that are awaited:
 * from any state in which a delivery was left running with a listener still to call,
 * some continuation lets a later publication overtake it.
 */
module DispatchOvertaking {
  import opened Common
  import opened Text
  import opened Matcher
  import opened Dispatch
  import opened DispatchSafety

  function Steps(s: State, more: seq<Event>): State
    decreases |more|
  {
    if |more| == 0 then s else Steps(Next(s, more[0]), more[1..])
  }

  lemma {:induction false} StepsTogether(s: State, a: seq<Event>, b: seq<Event>)
    ensures Steps(s, a + b) == Steps(Steps(s, a), b)
    decreases |a|
  {
    hide Next;
    if |a| > 0 {
      assert (a + b)[0] == a[0] && (a + b)[1..] == a[1..] + b;
      StepsTogether(Next(s, a[0]), a[1..], b);
    } else {
      assert a + b == b;
    }
  }

  lemma OneStep(s: State, e: Event)
    ensures Steps(s, [e]) == Next(s, e)
  {
    assert [e][1..] == [];
    hide Next;
  }

  lemma {:induction false} RunOn(events: seq<Event>, more: seq<Event>)
    ensures Run(events + more) == Steps(Run(events), more)
    decreases |more|
  {
    hide Next, Run;
    if |more| > 0 {
      assert events + more == (events + [more[0]]) + more[1..];
      RunSnoc(events, more[0]);
      RunOn(events + [more[0]], more[1..]);
    } else {
      assert events + more == events;
    }
  }

  /** Dispatch `d` has still to call the subscription at position `p` of its queue. */
  predicate Awaits(s: State, d: nat, p: nat) {
    && d < |s.phases| && s.phases[d].Delivering? && s.phases[d].pos <= p < |s.phases[d].queue|
    && s.phases[d].queue[p] < |s.subs| && s.phases[d].queue[p] in s.active
  }

  // ---- the queue of publications is let go ----

  /** Nothing but the queue of publications has moved. */
  predicate OnlyQueueMoves(s: State, t: State) {
    && t.subs == s.subs && t.active == s.active && t.log == s.log && s.phases <= t.phases && s.names <= t.names
    && |t.jobs| == |s.jobs| && forall i :: 0 <= i < |s.jobs| && s.jobs[i].dispatch.Some? ==> t.jobs[i] == s.jobs[i]
  }

  lemma SettleOne(s: State) returns (more: seq<Event>)
    requires Inv(s) && s.settled < |s.jobs|
    ensures var t := Steps(s, more); Inv(t) && OnlyQueueMoves(s, t) && t.settled == s.settled + 1
  {
    var d := if s.jobs[s.settled].dispatch.Some? then s.jobs[s.settled].dispatch.value else |s.phases|;
    var a := Next(s, StartJob);
    var b := Next(a, Leave(d));
    var t := Next(b, SettleJob);
    more := [StartJob] + ([Leave(d)] + [SettleJob]);
    SettlesOne(s, d);
    hide *;
    KeepInv(s, StartJob);
    KeepInv(a, Leave(d));
    KeepInv(b, SettleJob);
    StepsTogether(s, [StartJob], [Leave(d)] + [SettleJob]);
    StepsTogether(a, [Leave(d)], [SettleJob]);
    OneStep(s, StartJob);
    OneStep(a, Leave(d));
    OneStep(b, SettleJob);
  }

  lemma SettlesOne(s: State, d: nat)
    requires Inv(s) && s.settled < |s.jobs|
    requires d == if s.jobs[s.settled].dispatch.Some? then s.jobs[s.settled].dispatch.value else |s.phases|
    ensures var t := Next(Next(Next(s, StartJob), Leave(d)), SettleJob);
            OnlyQueueMoves(s, t) && t.settled == s.settled + 1
  {
    RunningInside(s);
    var a := Next(s, StartJob);
    var b := Next(a, Leave(d));
    hide Inv, Next;
    Begins(s, d);
    Leaves(a, d);
    Settles(b, d);
  }

  lemma RunningInside(s: State)
    requires Inv(s) && s.settled < |s.jobs|
    ensures s.jobs[s.settled].dispatch.Some? ==> s.jobs[s.settled].dispatch.value < |s.phases|
  {
    assert JobOk(s, s.settled);
    hide ActiveExactly, AllInside, QueuesOk, AllPlaced, StartsAscend, LogOk, AllPassed, Sequential, Tallied;
  }

  /** The job whose turn it is runs as dispatch `d`. */
  predicate Runs(s: State, d: nat) {
    s.settled < |s.jobs| && s.jobs[s.settled].dispatch == Some(d) && d < |s.phases|
  }

  lemma Begins(s: State, d: nat)
    requires s.settled < |s.jobs|
    requires d == if s.jobs[s.settled].dispatch.Some? then s.jobs[s.settled].dispatch.value else |s.phases|
    requires s.jobs[s.settled].dispatch.Some? ==> d < |s.phases|
    ensures var t := Next(s, StartJob); OnlyQueueMoves(s, t) && Runs(t, d) && t.settled == s.settled
  {
  }

  lemma Leaves(s: State, d: nat)
    requires Runs(s, d)
    ensures var t := Next(s, Leave(d)); t == s.(left := t.left) && Settling(t, d)
  {
  }

  lemma Settles(s: State, d: nat)
    requires Runs(s, d) && Settling(s, d)
    ensures Next(s, SettleJob) == s.(settled := s.settled + 1, asyncPending := s.asyncPending - 1)
  {
  }

  /** Whatever is queued or running is started and left. */
  lemma {:induction false} SettleAll(s: State) returns (more: seq<Event>)
    requires Inv(s)
    ensures var t := Steps(s, more); Inv(t) && OnlyQueueMoves(s, t) && t.settled == |t.jobs|
    decreases |s.jobs| - s.settled
  {
    assert s.settled <= |s.jobs|;
    hide Inv, Next;
    if s.settled == |s.jobs| {
      more := [];
    } else {
      var first := SettleOne(s);
      var rest := SettleAll(Steps(s, first));
      more := first + rest;
      StepsTogether(s, first, rest);
    }
  }

  // ---- a later publication starts a listener ----

  /** The pattern `**` alone matches every name. */
  lemma EveryNameMatches(name: string)
    ensures MatchesPattern(name, "**")
  {
    assert "**"[1..] == "*" && "*"[1..] == "" && [""][1..] == [] && ["*"][1..] == [];
    assert ['*'] + "" == "*" && ['*'] + "*" == "**" && ["*"] + [] == ["*"] && ["**"] + [] == ["**"];
    assert Split("*", '.') == ["*"];
    assert Split("**", '.') == ["**"];
    var segments := Split(name, '.');
    assert Flatten([segments]) == segments by { assert [segments][1..] == []; }
    assert Blocks(["**"], segments, [segments]);
    MatchIffBlocks(["**"], segments);
    hide Split, MatchSegments;
    assert "**"[0] == '*';
  }

  /** A publication of `name` would find `sub` first of all. */
  ghost predicate FirstFound(s: State, name: string, sub: nat) {
    && sub < |s.subs| && MatchesPattern(name, s.subs[sub].key)
    && forall x :: x in s.active && x < |s.subs| && MatchesPattern(name, s.subs[x].key) ==> sub <= x
  }

  /** What the later publication leaves as it was, and the start it makes. */
  ghost predicate Overtakes(s: State, t: State, name: string, sub: nat) {
    && s.phases <= t.phases && s.subs <= t.subs && t.jobs == s.jobs + [Job(name, Some(|s.phases|))]
    && t.log == s.log + [Started(|s.phases|, sub, 0)] && sub < |t.subs|
    && (sub < |s.subs| ==> FirstFound(s, name, sub))
    && t.active == if t.subs[sub].once then s.active + {|s.subs|} - {sub} else s.active + {|s.subs|}
  }

  lemma Overtake(s: State, name: string) returns (more: seq<Event>, sub: nat)
    requires Inv(s) && s.settled == |s.jobs|
    ensures Inv(Steps(s, more)) && Overtakes(s, Steps(s, more), name, sub)
  {
    var d := |s.phases|;
    var a := Next(s, Subscribe("**", false));
    var b := Next(a, PublishAsync(name));
    var c := Next(b, StartJob);
    var e := Next(c, Resolve(d));
    more := [Subscribe("**", false)] + ([PublishAsync(name)] + ([StartJob] + ([Resolve(d)] + [Visit(d)])));
    sub := FirstStart(s, name);
    hide *;
    KeepInv(s, Subscribe("**", false));
    KeepInv(a, PublishAsync(name));
    KeepInv(b, StartJob);
    KeepInv(c, Resolve(d));
    KeepInv(e, Visit(d));
    StepsTogether(s, [Subscribe("**", false)], [PublishAsync(name)] + ([StartJob] + ([Resolve(d)] + [Visit(d)])));
    StepsTogether(a, [PublishAsync(name)], [StartJob] + ([Resolve(d)] + [Visit(d)]));
    StepsTogether(b, [StartJob], [Resolve(d)] + [Visit(d)]);
    StepsTogether(c, [Resolve(d)], [Visit(d)]);
    OneStep(s, Subscribe("**", false));
    OneStep(a, PublishAsync(name));
    OneStep(b, StartJob);
    OneStep(c, Resolve(d));
    OneStep(e, Visit(d));
  }

  /** The new dispatch finds the new subscription at least, and starts the first it finds. */
  lemma FirstStart(s: State, name: string) returns (sub: nat)
    requires Inv(s) && s.settled == |s.jobs|
    ensures var d := |s.phases|;
            var c := Next(Next(Next(s, Subscribe("**", false)), PublishAsync(name)), StartJob);
            Overtakes(s, Next(Next(c, Resolve(d)), Visit(d)), name, sub)
  {
    var d := |s.phases|;
    var c := Next(Next(Next(s, Subscribe("**", false)), PublishAsync(name)), StartJob);
    assert |s.names| == |s.phases|;
    hide MatchesPattern, Snapshot, CancelAll;
    hide ActiveExactly, AllInside, QueuesOk, AllPlaced, StartsAscend, LogOk, AllPassed, JobsOk, Sequential, Tallied;
    assert c == s.(subs := s.subs + [Sub("**", false)], active := s.active + {|s.subs|}, names := s.names + [name],
                   phases := s.phases + [Waiting], jobs := s.jobs + [Job(name, Some(d))],
                   asyncPending := s.asyncPending + 1);
    var queue := Snapshot(c.subs, c.active, name, |c.subs|);
    SnapshotFacts(c.subs, c.active, name, |c.subs|);
    EveryNameMatches(name);
    assert c.subs[|s.subs|] == Sub("**", false);
    assert |s.subs| in queue;
    sub := queue[0];
    assert sub in queue;
    FirstVisit(c, d, name, queue);
    if sub < |s.subs| {
      forall x | x in s.active && x < |s.subs| && MatchesPattern(name, s.subs[x].key) ensures sub <= x {
        assert x in queue;
        FirstIsLeast(queue, x);
      }
    }
  }

  lemma FirstIsLeast(queue: seq<nat>, x: nat)
    requires Increasing(queue) && x in queue
    ensures queue[0] <= x
  {
  }

  lemma FirstVisit(c: State, d: nat, name: string, queue: seq<nat>)
    requires |c.phases| == d + 1 && |c.names| == d + 1 && c.phases[d] == Waiting && c.names[d] == name
    requires queue == Snapshot(c.subs, c.active, name, |c.subs|) && |queue| > 0
    requires queue[0] < |c.subs| && queue[0] in c.active
    ensures var t := Next(Next(c, Resolve(d)), Visit(d));
            && t.subs == c.subs && t.jobs == c.jobs && t.log == c.log + [Started(d, queue[0], 0)]
            && c.phases[..d] <= t.phases
            && t.active == if c.subs[queue[0]].once then c.active - {queue[0]} else c.active
  {
    hide MatchesPattern, Snapshot, CancelAll;
  }

  // ---- the delivery that was left goes on ----

  /** On the way from `s` to `t` dispatch `d` came to call the subscription, last of all. */
  predicate Calls(s: State, t: State, d: nat, sub: nat, p: nat) {
    s.log < t.log && t.jobs == s.jobs && t.log[|t.log| - 1] == Started(d, sub, p)
  }

  lemma {:induction false} GoesOn(s: State, d: nat, p: nat) returns (more: seq<Event>)
    requires Inv(s) && Awaits(s, d, p)
    ensures Calls(s, Steps(s, more), d, s.phases[d].queue[p], p)
    decreases p - s.phases[d].pos, s.phases[d].busy
  {
    var here := s.phases[d];
    var e := if here.busy then Return(d, true) else Visit(d);
    var t := Next(s, e);
    GoesOnOne(s, d, p);
    KeepInv(s, e);
    if !here.busy && here.pos == p {
      more := [e];
      OneStep(s, e);
      hide Inv, Next, Steps, Awaits;
    } else {
      assert Awaits(t, d, p) && t.phases[d].queue == here.queue;
      hide Inv, Next, Steps, Calls;
      var rest := GoesOn(t, d, p);
      hide Awaits;
      more := [e] + rest;
      OneStep(s, e);
      StepsTogether(s, [e], rest);
      CallsLater(s, t, Steps(t, rest), d, here.queue[p], p);
    }
  }

  lemma CallsLater(s: State, t: State, u: State, d: nat, sub: nat, p: nat)
    requires s.log <= t.log && t.jobs == s.jobs && Calls(t, u, d, sub, p)
    ensures Calls(s, u, d, sub, p)
  {
  }

  lemma GoesOnOne(s: State, d: nat, p: nat)
    requires Inv(s) && Awaits(s, d, p)
    ensures var here := s.phases[d]; var t := Next(s, if here.busy then Return(d, true) else Visit(d));
            && s.log <= t.log && t.jobs == s.jobs
            && (here.busy ==> Awaits(t, d, p) && t.phases[d] == here.(busy := false))
            && (!here.busy && here.pos == p ==> t.log == s.log + [Started(d, here.queue[p], p)])
            && (!here.busy && here.pos < p ==>
                  Awaits(t, d, p) && t.phases[d].pos == here.pos + 1 && t.phases[d].queue == here.queue)
  {
    var here := s.phases[d];
    QueueInside(s, d);
    hide Inv, Apply;
    if here.busy {
      Returns(s, d);
    } else {
      Visits(s, d);
    }
  }

  lemma QueueInside(s: State, d: nat)
    requires Inv(s) && d < |s.phases|
    ensures Increasing(Queue(s.phases[d]))
    ensures forall q :: 0 <= q < |Queue(s.phases[d])| ==> Queue(s.phases[d])[q] < |s.subs|
  {
    assert QueueOk(s.subs, s.names[d], s.phases[d]);
    hide MatchesPattern, Snapshot, CancelAll, Increasing;
    hide ActiveExactly, AllInside, AllPlaced, StartsAscend, LogOk, AllPassed, JobsOk, Sequential, Tallied;
  }

  lemma Returns(s: State, d: nat)
    requires Enabled(s, Return(d, true))
    ensures var t := Next(s, Return(d, true));
            && t.log == s.log && t.jobs == s.jobs && t.subs == s.subs && t.active == s.active
            && t.phases == s.phases[d := s.phases[d].(busy := false)]
  {
  }

  lemma Visits(s: State, d: nat)
    requires Enabled(s, Visit(d))
    ensures var t, here := Next(s, Visit(d)), s.phases[d];
            var sub := here.queue[here.pos];
            && t.jobs == s.jobs && t.subs == s.subs
            && (sub in s.active ==> t.log == s.log + [Started(d, sub, here.pos)]) && s.log <= t.log
            && s.active - {sub} <= t.active && |t.phases| == |s.phases| && t.phases[d].Delivering?
            && t.phases[d].queue == here.queue && t.phases[d].pos == here.pos + 1
  {
  }

  /**
   * A delivery left running, with a listener still to call that can be called again, or that
   * a publication of some name would not find first: there is a continuation in which a later
   * publication calls a listener before that one is called.
   */
  lemma LeftIsOvertaken(events: seq<Event>, i: nat, d: nat, p: nat, name: string) returns (more: seq<Event>)
    requires var s := Run(events);
             && i < |s.jobs| && s.jobs[i].dispatch == Some(d) && d in s.left && Awaits(s, d, p)
             && (!s.subs[s.phases[d].queue[p]].once || !FirstFound(s, name, s.phases[d].queue[p]))
    ensures var s, t := Run(events), Run(events + more);
            exists k, l, j :: |s.log| <= k < l < |t.log| && i < j < |t.jobs|
              && IsStartOf(t.log[k], t.jobs[j]) && IsStartOf(t.log[l], t.jobs[i])
              && t.log[l].sub == s.phases[d].queue[p]
  {
    var s := Run(events);
    Invariant(events);
    hide Run, Inv, Steps;
    var a := SettleAll(s);
    var s1 := Steps(s, a);
    var b, first := Overtake(s1, name);
    var s2 := Steps(s1, b);
    StillAwaits(s, s1, s2, d, p, name, first);
    var c := GoesOn(s2, d, p);
    more := a + (b + c);
    StepsTogether(s, a, b + c);
    StepsTogether(s1, b, c);
    RunOn(events, more);
    hide Awaits;
    OrderTurned(s, s1, s2, Steps(s2, c), i, d, p, name, first);
  }

  lemma StillAwaits(s: State, s1: State, s2: State, d: nat, p: nat, name: string, first: nat)
    requires Awaits(s, d, p) && OnlyQueueMoves(s, s1) && Overtakes(s1, s2, name, first)
    requires var sub := s.phases[d].queue[p]; !s.subs[sub].once || !FirstFound(s, name, sub)
    ensures Awaits(s2, d, p) && s2.phases[d] == s.phases[d]
  {
    var sub := s.phases[d].queue[p];
    assert s1.phases[d] == s.phases[d] && s2.phases[d] == s1.phases[d];
    assert s2.subs[sub] == s.subs[sub];
    hide MatchesPattern;
  }

  lemma OrderTurned(
      s: State, s1: State, s2: State, t: State, i: nat, d: nat, p: nat, name: string, first: nat)
    requires i < |s.jobs| && s.jobs[i].dispatch == Some(d) && OnlyQueueMoves(s, s1) && Overtakes(s1, s2, name, first)
    requires d < |s.phases| && s.phases[d].Delivering? && p < |s.phases[d].queue|
    requires Calls(s2, t, d, s.phases[d].queue[p], p)
    ensures exists k, l, j :: |s.log| <= k < l < |t.log| && i < j < |t.jobs|
              && IsStartOf(t.log[k], t.jobs[j]) && IsStartOf(t.log[l], t.jobs[i])
              && t.log[l].sub == s.phases[d].queue[p]
  {
    var k, l, j := |s1.log|, |t.log| - 1, |s1.jobs|;
    assert t.log[k] == s2.log[k] == Started(|s1.phases|, first, 0);
    assert t.jobs[j] == Job(name, Some(|s1.phases|)) && t.jobs[i] == s.jobs[i];
    assert IsStartOf(t.log[k], t.jobs[j]) && IsStartOf(t.log[l], t.jobs[i]);
    hide MatchesPattern;
  }
}
