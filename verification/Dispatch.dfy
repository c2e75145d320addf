/**
 * Delivery of events, packages/events/src/facade.ts, as a state machine whose steps
 * are the stretches of code between two awaits.  Dispatches overlap and nest freely:
 * a listener that publishes or (un)subscribes is just another event in between.
 * Subscriptions are named by their registration order.
 */
module Dispatch {
  import opened Common
  import opened Matcher

  datatype Sub = Sub(key: string, once: bool)

  /** Before the terminal step of the pipeline, inside it, after it, or stopped short by a middleware. */
  datatype Phase =
    | Waiting
    | Delivering(queue: seq<nat>, pos: nat, busy: bool)
    | Delivered(queue: seq<nat>)
    | Vetoed

  /** A queued asynchronous publication, and the dispatch it became. */
  datatype Job = Job(name: string, dispatch: Option<nat>)

  datatype Entry =
    | Started(dispatch: nat, sub: nat, pos: nat)
    | Cancelled(sub: nat)

  datatype State = State(
    subs: seq<Sub>,
    active: set<nat>,
    names: seq<string>,
    phases: seq<Phase>,
    jobs: seq<Job>,
    settled: nat,
    asyncPending: int,
    left: set<nat>,  // dispatches whose promise settled before their delivery was over
    closing: Option<nat>,
    delivered: nat,
    failed: nat,
    log: seq<Entry>)

  datatype Event =
    | Subscribe(key: string, once: bool)
    | Unsubscribe(sub: nat)
    | Publish(name: string)
    | PublishAsync(name: string)
    | StartJob
    | Resolve(d: nat)
    | Veto(d: nat)
    | Visit(d: nat)
    | Return(d: nat, ok: bool)
    | Finish(d: nat)
    | Leave(d: nat)
    | SettleJob
    | Close
    | Clear

  const EMPTY := State([], {}, [], [], [], 0, 0, {}, None, 0, 0, [])

  /** What `resolve` returns: the active matching subscriptions below `n`, in order. */
  function Snapshot(subs: seq<Sub>, active: set<nat>, name: string, n: nat): seq<nat>
    requires n <= |subs|
  {
    if n == 0 then []
    else
      var before := Snapshot(subs, active, name, n - 1);
      if n - 1 in active && MatchesPattern(name, subs[n - 1].key) then before + [n - 1] else before
  }

  function CancelAll(active: set<nat>, n: nat): seq<Entry> {
    if n == 0 then []
    else CancelAll(active, n - 1) + if n - 1 in active then [Cancelled(n - 1)] else []
  }

  predicate Enabled(s: State, e: Event) {
    match e
    case Subscribe(_, _) => true
    case Unsubscribe(sub) => sub < |s.subs|
    case Publish(_) => true
    case PublishAsync(_) => true
    case StartJob => s.settled < |s.jobs| && s.jobs[s.settled].dispatch == None
    case Resolve(d) => d < |s.phases| && s.phases[d].Waiting?
    case Veto(d) => d < |s.phases| && s.phases[d].Waiting?
    case Visit(d) =>
      d < |s.phases| && s.phases[d].Delivering? && !s.phases[d].busy && s.phases[d].pos < |s.phases[d].queue|
      && s.phases[d].queue[s.phases[d].pos] < |s.subs|
    case Return(d, _) => d < |s.phases| && s.phases[d].Delivering? && s.phases[d].busy
    case Finish(d) =>
      d < |s.phases| && s.phases[d].Delivering? && !s.phases[d].busy && s.phases[d].pos == |s.phases[d].queue|
    case Leave(d) => d < |s.phases| && !Over(s.phases[d])
    case SettleJob =>
      && s.settled < |s.jobs| && s.jobs[s.settled].dispatch.Some?
      && s.jobs[s.settled].dispatch.value < |s.phases|
      && Settling(s, s.jobs[s.settled].dispatch.value)
    case Close => s.closing == None
    case Clear => s.closing.Some? && s.closing.value <= s.settled
  }

  /** The promise of the dispatch settles: delivery is over, or a middleware did not await it. */
  predicate Settling(s: State, d: nat) {
    d < |s.phases| && (Over(s.phases[d]) || d in s.left)
  }

  predicate Over(p: Phase) {
    p.Delivered? || p.Vetoed?
  }

  function Apply(s: State, e: Event): State
    requires Enabled(s, e)
  {
    match e
    case Subscribe(key, once) => s.(subs := s.subs + [Sub(key, once)], active := s.active + {|s.subs|})
    case Unsubscribe(sub) =>
      if sub in s.active then s.(active := s.active - {sub}, log := s.log + [Cancelled(sub)]) else s
    case Publish(name) => s.(names := s.names + [name], phases := s.phases + [Waiting])
    case PublishAsync(name) => s.(jobs := s.jobs + [Job(name, None)], asyncPending := s.asyncPending + 1)
    case StartJob =>
      var job := s.jobs[s.settled];
      s.(names := s.names + [job.name], phases := s.phases + [Waiting],
         jobs := s.jobs[s.settled := job.(dispatch := Some(|s.phases|))])
    case Resolve(d) =>
      if d < |s.names| then
        s.(phases := s.phases[d := Delivering(Snapshot(s.subs, s.active, s.names[d], |s.subs|), 0, false)])
      else s
    case Veto(d) => s.(phases := s.phases[d := Vetoed])
    case Visit(d) => Visited(s, d)
    case Return(d, ok) =>
      var p := s.phases[d];
      s.(phases := s.phases[d := p.(busy := false)],
         delivered := s.delivered + if ok then 1 else 0,
         failed := s.failed + if ok then 0 else 1)
    case Finish(d) => s.(phases := s.phases[d := Delivered(s.phases[d].queue)])
    case Leave(d) => s.(left := s.left + {d})
    case SettleJob => s.(settled := s.settled + 1, asyncPending := s.asyncPending - 1)
    case Close => s.(closing := Some(|s.jobs|))
    case Clear => s.(active := {}, log := s.log + CancelAll(s.active, |s.subs|))
  }

  /**
   * One turn of the delivery loop: an inactive subscription is passed over; a `once`
   * one is removed before its listener is called.
   */
  function Visited(s: State, d: nat): State
    requires Enabled(s, Visit(d))
  {
    var p := s.phases[d];
    var sub := p.queue[p.pos];
    if sub !in s.active then s.(phases := s.phases[d := p.(pos := p.pos + 1)])
    else
      s.(phases := s.phases[d := p.(pos := p.pos + 1, busy := true)],
         active := if s.subs[sub].once then s.active - {sub} else s.active,
         log := s.log + [Started(d, sub, p.pos)])
  }

  /** A step that cannot be taken leaves the state alone. */
  function Next(s: State, e: Event): State {
    if Enabled(s, e) then Apply(s, e) else s
  }

  function Run(events: seq<Event>): State {
    if |events| == 0 then EMPTY else Next(Run(events[..|events| - 1]), events[|events| - 1])
  }
}
