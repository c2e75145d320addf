/**
 * Enqueues, flushes and clearings that overlap, packages/client-offline/src/queue.ts:54-134: reading
 * the store and writing it are steps of their own, and any step of any call may come
 * next.  `history[t]` is what the store holds after `t` steps.
 */
module OutboxOverlap {
  import opened Common
  import opened Outbox
  import opened OutboxSafety

  /** `HasRead(at)` holds the list that was in the store at step `at`. */
  datatype Stage = Asked | HasRead(at: nat) | Done

  datatype Enqueuing = Enqueuing(m: Mutation, stage: Stage)

  /** The list in hand is the one read at step `at`, less the `settled` first mutations. */
  datatype Flushing =
    | Idle
    | Reading
    | Sending(at: nat, settled: nat, list: seq<Mutation>)
    | Writing(at: nat, settled: nat, list: seq<Mutation>, last: bool)

  /** Where the store of a step comes from: an earlier store, less a prefix, plus an id. */
  datatype Origin = Origin(write: bool, base: nat, drop: nat, add: Option<string>)

  datatype Timeline = Timeline(
    history: seq<seq<Mutation>>,
    origins: seq<Origin>,
    enqueues: seq<Enqueuing>,
    flush: Flushing)

  datatype Event =
    | Call(id: string, op: string, payload: int, now: int)
    | Read(i: nat)
    | Write(i: nat)
    | FlushCall
    | FlushRead
    | Reply(outcome: Outcome)
    | FlushWrite
    | Clear

  /** No call under way, and whatever an earlier session has left in the store. */
  function Begin(stored: seq<Mutation>): Timeline {
    Timeline([stored], [Origin(false, 0, 0, None)], [], Idle)
  }

  const START := Begin([])

  function Store(w: Timeline): seq<Mutation> {
    if |w.history| == 0 then [] else w.history[|w.history| - 1]
  }

  function Stays(w: Timeline): Timeline {
    w.(history := w.history + [Store(w)],
       origins := w.origins + [Origin(false, if |w.history| == 0 then 0 else |w.history| - 1, 0, None)])
  }

  function Stores(w: Timeline, list: seq<Mutation>, origin: Origin): Timeline {
    w.(history := w.history + [list], origins := w.origins + [origin])
  }

  function Next(w: Timeline, maxAttempts: int, e: Event): Timeline {
    match e
    case Call(id, op, payload, now) =>
      Stays(w).(enqueues := w.enqueues + [Enqueuing(Mutation(id, op, payload, now, 0), Asked)])
    case Read(i) =>
      if i < |w.enqueues| && w.enqueues[i].stage == Asked && |w.history| > 0 then
        var stage := if Find(Store(w), w.enqueues[i].m.id).Some? then Done else HasRead(|w.history| - 1);
        Stays(w).(enqueues := w.enqueues[i := w.enqueues[i].(stage := stage)])
      else Stays(w)
    case Write(i) =>
      if i < |w.enqueues| && w.enqueues[i].stage.HasRead? && w.enqueues[i].stage.at < |w.history| then
        var m, at := w.enqueues[i].m, w.enqueues[i].stage.at;
        Stores(w, w.history[at] + [m], Origin(true, at, 0, Some(m.id)))
          .(enqueues := w.enqueues[i := Enqueuing(m, Done)])
      else Stays(w)
    case FlushCall => Stays(w).(flush := if w.flush == Idle then Reading else w.flush)
    case FlushRead =>
      if w.flush == Reading && |w.history| > 0 then
        Stays(w).(flush := if |Store(w)| == 0 then Idle else Sending(|w.history| - 1, 0, Store(w)))
      else Stays(w)
    case Reply(outcome) =>
      if w.flush.Sending? && |w.flush.list| > 0 then
        var list := w.flush.list;
        Stays(w).(flush :=
          if Settles(list[0], outcome, maxAttempts) then Writing(w.flush.at, w.flush.settled + 1, list[1..], false)
          else Writing(w.flush.at, w.flush.settled, [Tried(list[0])] + list[1..], true))
      else Stays(w)
    case FlushWrite =>
      if w.flush.Writing? then
        var f := w.flush;
        Stores(w, f.list, Origin(true, f.at, f.settled, None))
          .(flush := if f.last || |f.list| == 0 then Idle else Sending(f.at, f.settled, f.list))
      else Stays(w)
    case Clear => Stores(w, [], Origin(true, if |w.history| == 0 then 0 else |w.history| - 1, |Ids(Store(w))|, None))
  }

  function Run(stored: seq<Mutation>, maxAttempts: int, events: seq<Event>): Timeline {
    if |events| == 0 then Begin(stored)
    else Next(Run(stored, maxAttempts, events[..|events| - 1]), maxAttempts, events[|events| - 1])
  }

  // ---- invariant ----

  /** The ids `list` would have, made from `base` as an origin says. */
  function Made(base: seq<Mutation>, o: Origin): seq<string>
    requires o.drop <= |Ids(base)|
  {
    Ids(base)[o.drop..] + if o.add.Some? then [o.add.value] else []
  }

  ghost predicate OriginOk(history: seq<seq<Mutation>>, origins: seq<Origin>, t: nat)
    requires t < |history| == |origins|
  {
    var o := origins[t];
    && (t > 0 ==> o.base < t && o.drop <= |Ids(history[o.base])| && Ids(history[t]) == Made(history[o.base], o))
    && (!o.write ==> o.drop == 0 && o.add == None && (t > 0 ==> o.base == t - 1))
    && (o.add.Some? ==> o.drop == 0)
  }

  ghost predicate Derived(history: seq<seq<Mutation>>, at: nat, settled: nat, list: seq<Mutation>) {
    at < |history| && settled <= |Ids(history[at])| && Ids(list) == Ids(history[at])[settled..]
  }

  ghost predicate EnqueueOk(history: seq<seq<Mutation>>, e: Enqueuing) {
    e.stage.HasRead? ==> e.stage.at < |history| && e.m.id !in Ids(history[e.stage.at])
  }

  ghost predicate HistoryOk(history: seq<seq<Mutation>>, origins: seq<Origin>) {
    && |history| == |origins| > 0 && origins[0].add == None
    && (forall t :: 0 <= t < |history| ==> OriginOk(history, origins, t))
    && forall t :: 0 <= t < |history| ==> Distinct(Ids(history[t]))
  }

  ghost predicate TasksOk(w: Timeline) {
    && (forall i :: 0 <= i < |w.enqueues| ==> EnqueueOk(w.history, w.enqueues[i]))
    && (w.flush.Sending? ==> Derived(w.history, w.flush.at, w.flush.settled, w.flush.list))
    && (w.flush.Writing? ==> Derived(w.history, w.flush.at, w.flush.settled, w.flush.list))
  }

  ghost predicate Inv(w: Timeline) {
    HistoryOk(w.history, w.origins) && TasksOk(w)
  }

  /** One more store with a sound origin. */
  lemma StoresKeeps(w: Timeline, list: seq<Mutation>, o: Origin)
    requires HistoryOk(w.history, w.origins) && o.base < |w.history| && o.drop <= |Ids(w.history[o.base])|
    requires Ids(list) == Made(w.history[o.base], o) && Distinct(Ids(list))
    requires (!o.write ==> o.drop == 0 && o.add == None && o.base == |w.history| - 1) && (o.add.Some? ==> o.drop == 0)
    ensures HistoryOk(w.history + [list], w.origins + [o])
  {
    hide Ids, Distinct;
    var s := Stores(w, list, o);
    forall t | 0 <= t < |s.history| ensures OriginOk(s.history, s.origins, t) && Distinct(Ids(s.history[t])) {
      if t < |w.history| { assert OriginOk(w.history, w.origins, t) && Distinct(Ids(w.history[t])); }
    }
  }

  lemma StaysKeeps(w: Timeline)
    requires HistoryOk(w.history, w.origins)
    ensures HistoryOk(Stays(w).history, Stays(w).origins)
  {
    hide Ids, Distinct, OriginOk;
    var o := Origin(false, |w.history| - 1, 0, None);
    assert Ids(Store(w))[0..] + [] == Ids(Store(w));
    assert Distinct(Ids(w.history[|w.history| - 1]));
    StoresKeeps(w, Store(w), o);
  }

  /** Earlier stores are never changed, so what calls hold of them stays true. */
  lemma TasksCarry(w: Timeline, t: Timeline)
    requires TasksOk(w) && w.history <= t.history && t.enqueues == w.enqueues && t.flush == w.flush
    ensures TasksOk(t)
  {
    hide Ids;
    forall i | 0 <= i < |t.enqueues| ensures EnqueueOk(t.history, t.enqueues[i]) {
      assert EnqueueOk(w.history, w.enqueues[i]);
    }
  }

  lemma EnqueueCarries(w: Timeline, t: Timeline, i: nat, e: Enqueuing)
    requires TasksOk(w) && w.history <= t.history && t.flush == w.flush && EnqueueOk(t.history, e)
    requires i < |w.enqueues| && t.enqueues == w.enqueues[i := e]
    ensures TasksOk(t)
  {
    hide Ids;
    forall k | 0 <= k < |t.enqueues| ensures EnqueueOk(t.history, t.enqueues[k]) {
      if k != i { assert EnqueueOk(w.history, w.enqueues[k]); }
    }
  }

  lemma WriteKeeps(w: Timeline, i: nat)
    requires Inv(w) && i < |w.enqueues| && w.enqueues[i].stage.HasRead? && w.enqueues[i].stage.at < |w.history|
    ensures Inv(Next(w, 0, Write(i)))
  {
    hide Ids, OriginOk, Distinct;
    var m, at := w.enqueues[i].m, w.enqueues[i].stage.at;
    assert EnqueueOk(w.history, w.enqueues[i]);
    IdsAppend(w.history[at], m);
    DistinctMore(Ids(w.history[at]), m.id);
    var o := Origin(true, at, 0, Some(m.id));
    assert Ids(w.history[at])[0..] == Ids(w.history[at]);
    StoresKeeps(w, w.history[at] + [m], o);
    EnqueueCarries(w, Next(w, 0, Write(i)), i, Enqueuing(m, Done));
  }

  lemma DistinctMore(ids: seq<string>, id: string)
    requires Distinct(ids) && id !in ids
    ensures Distinct(ids + [id])
  {
  }

  lemma DistinctRest(ids: seq<string>, n: nat)
    requires Distinct(ids) && n <= |ids|
    ensures Distinct(ids[n..])
  {
  }

  lemma ReadKeeps(w: Timeline, i: nat)
    requires Inv(w) && i < |w.enqueues| && w.enqueues[i].stage == Asked
    ensures Inv(Next(w, 0, Read(i)))
  {
    FindNone(Store(w), w.enqueues[i].m.id);
    hide Ids, OriginOk, Distinct, Find;
    StaysKeeps(w);
    var t := Next(w, 0, Read(i));
    EnqueueCarries(w, t, i, t.enqueues[i]);
  }

  lemma ReplyKeeps(w: Timeline, maxAttempts: int, outcome: Outcome)
    requires Inv(w) && w.flush.Sending? && |w.flush.list| > 0
    ensures Inv(Next(w, maxAttempts, Reply(outcome)))
  {
    var list := w.flush.list;
    var later := [Tried(list[0])] + list[1..];
    assert later[1..] == list[1..];
    assert Ids(later) == Ids(list) && Ids(list) == [list[0].id] + Ids(list[1..]);
    var all := Ids(w.history[w.flush.at]);
    assert Ids(list)[1..] == all[w.flush.settled + 1..];
    hide Ids, OriginOk, Distinct, Settles, Tried;
    StaysKeeps(w);
    TasksCarry(w, Stays(w));
  }

  lemma FlushWriteKeeps(w: Timeline)
    requires Inv(w) && w.flush.Writing?
    ensures Inv(Next(w, 0, FlushWrite))
  {
    hide Ids, OriginOk, Distinct;
    var f := w.flush;
    var o := Origin(true, f.at, f.settled, None);
    assert Distinct(Ids(w.history[f.at]));
    DistinctRest(Ids(w.history[f.at]), f.settled);
    assert Ids(w.history[f.at])[f.settled..] + [] == Ids(w.history[f.at])[f.settled..];
    StoresKeeps(w, f.list, o);
    TasksCarry(w, Stores(w, f.list, o));
  }

  lemma ClearKeeps(w: Timeline)
    requires Inv(w)
    ensures Inv(Next(w, 0, Event.Clear))
  {
    var o := Origin(true, |w.history| - 1, |Ids(Store(w))|, None);
    assert Ids([]) == [];
    hide Ids, OriginOk, Distinct;
    assert Made(Store(w), o) == [] + [] == [];
    assert Distinct([]) by { NoneTwice(); }
    StoresKeeps(w, [], o);
    TasksCarry(w, Stores(w, [], o));
  }

  lemma NoneTwice()
    ensures Distinct([])
  {
  }

  lemma NextKeeps(w: Timeline, maxAttempts: int, e: Event)
    requires Inv(w)
    ensures Inv(Next(w, maxAttempts, e))
  {
    StaysKeeps(w);
    TasksCarry(w, Stays(w));
    match e {
      case Call(_, _, _, _) => CallKeeps(w, e);
      case Read(i) => if i < |w.enqueues| && w.enqueues[i].stage == Asked { ReadKeeps(w, i); }
      case Write(i) =>
        if i < |w.enqueues| && w.enqueues[i].stage.HasRead? && w.enqueues[i].stage.at < |w.history| { WriteKeeps(w, i); }
      case FlushCall =>
      case FlushRead =>
        var all := Ids(Store(w));
        assert all[0..] == all;
      case Reply(outcome) =>
        if w.flush.Sending? && |w.flush.list| > 0 { ReplyKeeps(w, maxAttempts, outcome); }
      case FlushWrite => if w.flush.Writing? { FlushWriteKeeps(w); }
      case Clear => ClearKeeps(w);
    }
    hide HistoryOk, Ids, Find, Settles;
  }

  lemma CallKeeps(w: Timeline, e: Event)
    requires Inv(w) && e.Call?
    ensures Inv(Next(w, 0, e))
  {
    hide Ids, OriginOk, Distinct;
    StaysKeeps(w);
    var t := Next(w, 0, e);
    forall k | 0 <= k < |t.enqueues| ensures EnqueueOk(t.history, t.enqueues[k]) {
      if k < |w.enqueues| { assert EnqueueOk(w.history, w.enqueues[k]); }
    }
  }

  lemma {:induction false} Invariant(stored: seq<Mutation>, maxAttempts: int, events: seq<Event>)
    requires Distinct(Ids(stored))
    ensures Inv(Run(stored, maxAttempts, events))
  {
    hide Inv, Next;
    if |events| > 0 {
      Invariant(stored, maxAttempts, events[..|events| - 1]);
      NextKeeps(Run(stored, maxAttempts, events[..|events| - 1]), maxAttempts, events[|events| - 1]);
    } else {
      BeginKeeps(stored);
    }
  }

  lemma BeginKeeps(stored: seq<Mutation>)
    requires Distinct(Ids(stored))
    ensures Inv(Begin(stored))
  {
  }

  // ---- what survives ----

  ghost predicate Holds(w: Timeline, t: nat, id: string) {
    t < |w.history| && id in Ids(w.history[t])
  }

  /** The step at `t` removed the id: a flush had settled it. */
  ghost predicate Removes(w: Timeline, t: nat, id: string) {
    && t < |w.origins| && w.origins[t].base < |w.history|
    && w.origins[t].drop <= |Ids(w.history[w.origins[t].base])|
    && id in Ids(w.history[w.origins[t].base])[..w.origins[t].drop]
  }

  ghost predicate Adds(w: Timeline, t: nat, id: string) {
    t < |w.origins| && w.origins[t].add == Some(id)
  }

  predicate Writes(w: Timeline, t: nat) {
    t < |w.origins| && w.origins[t].write
  }

  lemma DistinctSides(ids: seq<string>, n: nat, id: string)
    requires Distinct(ids) && n <= |ids|
    ensures id in ids[n..] <==> id in ids && id !in ids[..n]
  {
    assert ids == ids[..n] + ids[n..];
  }

  /** A store holds an id exactly when its step added it, or it was in the store it was made from and not settled. */
  lemma HoldsIff(w: Timeline, t: nat, id: string)
    requires Inv(w) && 0 < t < |w.history|
    ensures w.origins[t].base < t
    ensures Holds(w, t, id) <==> Adds(w, t, id) || (Holds(w, w.origins[t].base, id) && !Removes(w, t, id))
  {
    hide Ids, Distinct, TasksOk;
    assert OriginOk(w.history, w.origins, t);
    var o := w.origins[t];
    assert Distinct(Ids(w.history[o.base]));
    DistinctSides(Ids(w.history[o.base]), o.drop, id);
  }

  lemma QuietStep(w: Timeline, t: nat, id: string)
    requires Inv(w) && 0 < t < |w.history| && !Writes(w, t)
    ensures Holds(w, t, id) <==> Holds(w, t - 1, id)
    ensures w.origins[t].base == t - 1 && !Adds(w, t, id)
  {
    hide Ids, TasksOk;
    assert OriginOk(w.history, w.origins, t);
    HoldsIff(w, t, id);
  }

  lemma {:induction false} QuietSpan(w: Timeline, s: nat, t: nat, id: string)
    requires Inv(w) && s <= t < |w.history| && forall v :: s < v <= t ==> !Writes(w, v)
    ensures Holds(w, t, id) <==> Holds(w, s, id)
    decreases t - s
  {
    hide Inv, Writes, Holds;
    if s < t {
      QuietStep(w, t, id);
      QuietSpan(w, s, t - 1, id);
    }
  }

  /** The store at `n` was made from the store at `u`, through reads and writes that kept the id. */
  ghost predicate Descends(w: Timeline, n: nat, u: nat, id: string)
    decreases n
  {
    n == u || (u < n < |w.origins| && w.origins[n].base < n && !Removes(w, n, id) && Descends(w, w.origins[n].base, u, id))
  }

  /** The id comes in at `u`: an enqueue adds it there, or it was stored from the start. */
  ghost predicate Enters(w: Timeline, u: nat, id: string) {
    Adds(w, u, id) || (u == 0 && Holds(w, 0, id))
  }

  /**
   * Under every interleaving: an id is in the store exactly when that store descends from
   * one where it came in, with no flush and no clearing on the way having removed it.
   */
  lemma {:induction false} PresentIffDescends(w: Timeline, n: nat, id: string)
    requires Inv(w) && n < |w.history|
    ensures Holds(w, n, id) <==> exists u: nat :: u <= n && Enters(w, u, id) && Descends(w, n, u, id)
    decreases n
  {
    hide Holds, Removes;
    if n == 0 {
      NothingAdded(w, id);
      if Holds(w, 0, id) { assert Enters(w, 0, id) && Descends(w, 0, 0, id); }
    } else {
      HoldsIff(w, n, id);
      hide Inv;
      PresentIffDescends(w, w.origins[n].base, id);
      if Adds(w, n, id) { assert Enters(w, n, id) && Descends(w, n, n, id); }
      if Holds(w, w.origins[n].base, id) && !Removes(w, n, id) {
        var u: nat :| u <= w.origins[n].base && Enters(w, u, id) && Descends(w, w.origins[n].base, u, id);
        assert Descends(w, n, u, id);
      }
    }
  }

  lemma NothingAdded(w: Timeline, id: string)
    requires Inv(w)
    ensures !Adds(w, 0, id)
  {
  }

  /** Nothing has put the id in the store before step `t`. */
  ghost predicate Fresh(w: Timeline, t: nat, id: string) {
    forall u: nat :: u < t ==> !Holds(w, u, id)
  }

  /** The step at `v` empties the store, or writes what it had read before `t`. */
  ghost predicate Undoes(w: Timeline, v: nat, t: nat) {
    v < |w.origins| && (w.origins[v].base < t || (v < |w.history| && w.history[v] == []))
  }

  /** Whatever writes after `t`, up to `n`, had read the store before `t` or empties it. */
  ghost predicate Overlapping(w: Timeline, t: nat, n: nat) {
    forall v: nat :: t < v <= n && Writes(w, v) ==> Undoes(w, v, t)
  }

  ghost predicate NoWrite(w: Timeline, s: nat, t: nat) {
    forall v: nat :: s < v <= t ==> !Writes(w, v)
  }

  /**
   * A mutation enqueued by the write at `t`, while others have read the store and not yet
   * written it or are about to clear it, survives exactly when its write comes after the last
   * of theirs - be they writes of a flush or of another enqueue.
   */
  lemma OverlappingEnqueueSurvivesIff(
      stored: seq<Mutation>, maxAttempts: int, events: seq<Event>, t: nat, n: nat, id: string)
    requires Distinct(Ids(stored))
    requires var w := Run(stored, maxAttempts, events);
             && t <= n < |w.history| && Adds(w, t, id) && Fresh(w, t, id) && Overlapping(w, t, n)
             && forall v: nat :: t < v <= n ==> !Adds(w, v, id)
    ensures Holds(Run(stored, maxAttempts, events), n, id) <==> NoWrite(Run(stored, maxAttempts, events), t, n)
  {
    var w := Run(stored, maxAttempts, events);
    Invariant(stored, maxAttempts, events);
    hide Run, Inv, Holds, Writes, Removes;
    AddedIsHeld(w, t, id);
    if NoWrite(w, t, n) {
      QuietSpan(w, t, n, id);
    } else {
      var v := LastWriteIn(w, t, n);
      BasesPrecede(w, v);
      HoldsIff(w, v, id);
      assert Undoes(w, v, t) && !Adds(w, v, id);
      UndoneIsGone(w, v, t, id);
      QuietSpan(w, v, n, id);
    }
  }

  lemma UndoneIsGone(w: Timeline, v: nat, t: nat, id: string)
    requires Undoes(w, v, t) && Fresh(w, t, id) && !Adds(w, v, id)
    requires Holds(w, v, id) <==> Adds(w, v, id) || (Holds(w, w.origins[v].base, id) && !Removes(w, v, id))
    ensures !Holds(w, v, id)
  {
    assert Ids([]) == [];
    hide Removes;
  }

  lemma AddedIsHeld(w: Timeline, t: nat, id: string)
    requires Inv(w) && Adds(w, t, id)
    ensures 0 < t < |w.history| && Holds(w, t, id)
  {
    if t > 0 { HoldsIff(w, t, id); }
  }

  lemma {:induction false} LastWriteIn(w: Timeline, t: nat, n: nat) returns (v: nat)
    requires t <= n && !NoWrite(w, t, n)
    ensures t < v <= n && Writes(w, v) && NoWrite(w, v, n)
    decreases n - t
  {
    hide Writes;
    if Writes(w, n) {
      v := n;
    } else {
      v := LastWriteIn(w, t, n - 1);
    }
  }

  /**
   * A settled mutation: removed by the flush write at `s`.  The next write, at `v`, by an
   * enqueue of another, puts it back exactly when that enqueue had read the store before.
   */
  lemma SettledReturnsIff(
      stored: seq<Mutation>, maxAttempts: int, events: seq<Event>, q: nat, s: nat, v: nat, id: string)
    requires Distinct(Ids(stored))
    requires var w := Run(stored, maxAttempts, events);
             && q < s < v < |w.history| && v < |w.origins| && Removes(w, s, id) && NoWrite(w, s, v - 1)
             && (forall u: nat :: q <= u < s ==> Holds(w, u, id))
             && w.origins[v].add.Some? && w.origins[v].add != Some(id) && q <= w.origins[v].base
    ensures var w := Run(stored, maxAttempts, events);
            Holds(w, v, id) <==> w.origins[v].base < s
  {
    var w := Run(stored, maxAttempts, events);
    Invariant(stored, maxAttempts, events);
    hide Run;
    assert OriginOk(w.history, w.origins, v) && OriginOk(w.history, w.origins, s);
    HoldsIff(w, s, id);
    HoldsIff(w, v, id);
    if w.origins[v].base >= s { QuietSpan(w, s, w.origins[v].base, id); }
    hide Inv, Holds, Ids;
  }

  /**
   * Of two enqueues that write one after the other, the first is lost exactly when the second
   * had read before it wrote.
   */
  lemma EarlierEnqueueSurvivesIff(
      stored: seq<Mutation>, maxAttempts: int, events: seq<Event>, t: nat, v: nat, id: string)
    requires Distinct(Ids(stored))
    requires var w := Run(stored, maxAttempts, events);
             && t < v < |w.history| && v < |w.origins| && Adds(w, t, id) && Fresh(w, t, id) && NoWrite(w, t, v - 1)
             && w.origins[v].add.Some? && w.origins[v].add != Some(id)
    ensures var w := Run(stored, maxAttempts, events);
            Holds(w, v, id) <==> t <= w.origins[v].base
  {
    var w := Run(stored, maxAttempts, events);
    Invariant(stored, maxAttempts, events);
    hide Run;
    assert OriginOk(w.history, w.origins, v);
    AddedIsHeld(w, t, id);
    HoldsIff(w, v, id);
    if t <= w.origins[v].base { QuietSpan(w, t, w.origins[v].base, id); }
    hide Inv, Holds, Ids;
  }

  /**
   * A reply to a flush removes the head from its list exactly when it is `Sent` or `Drop`, or
   * the mutation has no try left; otherwise the head stays with one more try, and the pass ends.
   */
  lemma ReplyRemovesIff(w: Timeline, maxAttempts: int, outcome: Outcome)
    requires w.flush.Sending? && |w.flush.list| > 0
    ensures var head, f := w.flush.list[0], Next(w, maxAttempts, Reply(outcome)).flush;
            f.Writing? && f == if outcome == Sent || outcome == Drop || head.attempts + 1 >= maxAttempts
              then Writing(w.flush.at, w.flush.settled + 1, w.flush.list[1..], false)
              else Writing(w.flush.at, w.flush.settled,
                           [head.(attempts := head.attempts + 1)] + w.flush.list[1..], true)
  {
  }

  // ---- no overlap ----

  /** The store at `n` was made, directly or not, from the one at `u`. */
  ghost predicate MadeFrom(w: Timeline, n: nat, u: nat)
    decreases n
  {
    n == u || (u < n < |w.origins| && w.origins[n].base < n && MadeFrom(w, w.origins[n].base, u))
  }

  /** No write falls between a call's reading and its writing. */
  ghost predicate Serial(w: Timeline, n: nat) {
    forall v: nat :: v <= n && Writes(w, v) && 0 < v ==> NoWrite(w, w.origins[v].base, v - 1)
  }

  ghost predicate NoneBypassed(w: Timeline, n: nat) {
    forall u: nat :: u <= n && Writes(w, u) ==> MadeFrom(w, n, u)
  }

  /** No write is ever undone by a later one exactly when no two calls overlap. */
  lemma NoneBypassedIffSerial(stored: seq<Mutation>, maxAttempts: int, events: seq<Event>, n: nat)
    requires Distinct(Ids(stored))
    requires n < |Run(stored, maxAttempts, events).history|
    ensures (forall m: nat :: m <= n ==> NoneBypassed(Run(stored, maxAttempts, events), m)) <==>
              Serial(Run(stored, maxAttempts, events), n)
  {
    var w := Run(stored, maxAttempts, events);
    Invariant(stored, maxAttempts, events);
    hide Run, MadeFrom, Writes;
    if Serial(w, n) {
      forall m: nat | m <= n ensures NoneBypassed(w, m) { SerialReaches(w, n, m); }
    }
    if forall m: nat :: m <= n ==> NoneBypassed(w, m) {
      forall v: nat | v <= n && Writes(w, v) && 0 < v ensures NoWrite(w, w.origins[v].base, v - 1) {
        BasesPrecede(w, v);
        forall u: nat | w.origins[v].base < u <= v - 1 ensures !Writes(w, u) {
          assert NoneBypassed(w, v);
          SkipsBetween(w, v, u);
        }
      }
    }
  }

  lemma BasesPrecede(w: Timeline, v: nat)
    requires Inv(w) && 0 < v < |w.history|
    ensures v < |w.origins| && w.origins[v].base < v && (!Writes(w, v) ==> w.origins[v].base == v - 1)
  {
    assert OriginOk(w.history, w.origins, v);
  }

  lemma SkipsBetween(w: Timeline, v: nat, u: nat)
    requires v < |w.origins| && w.origins[v].base < u < v
    ensures !MadeFrom(w, v, u)
  {
  }

  lemma {:induction false} SerialReaches(w: Timeline, n: nat, m: nat)
    requires Inv(w) && m <= n < |w.history| && Serial(w, n)
    ensures NoneBypassed(w, m)
    decreases m
  {
    if m > 0 {
      BasesPrecede(w, m);
      hide Inv;
      SerialReaches(w, n, w.origins[m].base);
      forall u: nat | u <= m && Writes(w, u) ensures MadeFrom(w, m, u) {
        if u < m { assert u <= w.origins[m].base; }
      }
    }
  }

  // ---- runs that go wrong ----

  /** An enqueue that has read the store and not yet written it. */
  lemma ReadsAhead(w: Timeline, maxAttempts: int, id: string)
    requires |w.history| > 0 && Find(Store(w), id) == None
    ensures var t := Next(Next(w, maxAttempts, Call(id, "", 0, 0)), maxAttempts, Read(|w.enqueues|));
            && t.enqueues == w.enqueues + [Enqueuing(Mutation(id, "", 0, 0, 0), HasRead(|w.history|))]
            && t.history == w.history + [Store(w)] + [Store(w)] && t.flush == w.flush
  {
    hide Find;
  }

  lemma ThenWrites(w: Timeline, maxAttempts: int, i: nat, at: nat, m: Mutation)
    requires i < |w.enqueues| && at < |w.history| && w.enqueues[i] == Enqueuing(m, HasRead(at))
    ensures Store(Next(w, maxAttempts, Write(i))) == w.history[at] + [m]
    ensures Next(w, maxAttempts, Write(i)).flush == w.flush
    ensures |Next(w, maxAttempts, Write(i)).enqueues| == |w.enqueues|
    ensures |Next(w, maxAttempts, Write(i)).history| > 0
  {
  }

  lemma FlushStarts(w: Timeline, maxAttempts: int, m: Mutation)
    requires |w.history| > 0 && w.flush == Idle && Store(w) == [m]
    ensures var t := Next(Next(w, maxAttempts, FlushCall), maxAttempts, FlushRead);
            t.flush == Sending(|w.history|, 0, [m]) && Store(t) == [m] && t.enqueues == w.enqueues && |t.history| > 0
  {
  }

  lemma FlushSettles(w: Timeline, maxAttempts: int, at: nat, m: Mutation)
    requires |w.history| > 0 && w.flush == Sending(at, 0, [m])
    ensures var t := Next(Next(w, maxAttempts, Reply(Sent)), maxAttempts, FlushWrite);
            Store(t) == [] && t.enqueues == w.enqueues && w.history <= t.history
  {
    assert [m][1..] == [];
  }

  /** A flush of `x`, overlapped by an enqueue of `m` that read the store before `x` was settled. */
  function Replay(maxAttempts: int, x: string, m: string): Timeline {
    var a := Next(Next(Next(START, maxAttempts, Call(x, "", 0, 0)), maxAttempts, Read(0)), maxAttempts, Write(0));
    var b := Next(Next(a, maxAttempts, FlushCall), maxAttempts, FlushRead);
    var c := Next(Next(b, maxAttempts, Call(m, "", 0, 0)), maxAttempts, Read(1));
    Next(Next(c, maxAttempts, Reply(Sent)), maxAttempts, FlushWrite)
  }

  /** When that enqueue writes, the mutation that was sent is in the store again, to be sent again. */
  lemma SentMutationReturns(maxAttempts: int, x: string, m: string)
    requires x != m
    ensures Store(Replay(maxAttempts, x, m)) == []
    ensures Store(Next(Replay(maxAttempts, x, m), maxAttempts, Write(1))) ==
            [Mutation(x, "", 0, 0, 0), Mutation(m, "", 0, 0, 0)]
  {
    hide *;
    var at := ReplayEnds(maxAttempts, x, m);
    var mx, mm := Mutation(x, "", 0, 0, 0), Mutation(m, "", 0, 0, 0);
    ThenWrites(Replay(maxAttempts, x, m), maxAttempts, 1, at, mm);
    assert [mx] + [mm] == [mx, mm];
  }

  /** `x` was sent and is gone; the enqueue of `m` still has the list it read at step `at`. */
  lemma ReplayEnds(maxAttempts: int, x: string, m: string) returns (at: nat)
    requires x != m
    ensures var w := Replay(maxAttempts, x, m);
            && Store(w) == [] && at < |w.history| && w.history[at] == [Mutation(x, "", 0, 0, 0)]
            && |w.enqueues| == 2 && w.enqueues[1] == Enqueuing(Mutation(m, "", 0, 0, 0), HasRead(at))
  {
    var mx, mm := Mutation(x, "", 0, 0, 0), Mutation(m, "", 0, 0, 0);
    assert Find([], x) == None && Find([mx], m) == None by { assert [mx][1..] == []; }
    var r := Next(Next(START, maxAttempts, Call(x, "", 0, 0)), maxAttempts, Read(0));
    assert |START.enqueues| == 0 && Store(START) == [] && |START.history| == 1;
    hide Next, Find, Store;
    ReadsAhead(START, maxAttempts, x);
    assert r.history[1] == [];
    ThenWrites(r, maxAttempts, 0, 1, mx);
    var a := Next(r, maxAttempts, Write(0));
    assert [] + [mx] == [mx];
    FlushStarts(a, maxAttempts, mx);
    var b := Next(Next(a, maxAttempts, FlushCall), maxAttempts, FlushRead);
    ReadsAhead(b, maxAttempts, m);
    var c := Next(Next(b, maxAttempts, Call(m, "", 0, 0)), maxAttempts, Read(1));
    at := |b.history|;
    FlushSettles(c, maxAttempts, |a.history|, mx);
    assert c.history[at] == [mx];
  }

  /** Two enqueues that both read before either writes: only the later writer's mutation is stored. */
  lemma ConcurrentEnqueuesLoseOne(maxAttempts: int, x: string, m: string)
    requires x != m
    ensures var a := Next(Next(START, maxAttempts, Call(x, "", 0, 0)), maxAttempts, Read(0));
            var b := Next(Next(a, maxAttempts, Call(m, "", 0, 0)), maxAttempts, Read(1));
            Store(Next(Next(b, maxAttempts, Write(0)), maxAttempts, Write(1))) == [Mutation(m, "", 0, 0, 0)]
  {
    var mx, mm := Mutation(x, "", 0, 0, 0), Mutation(m, "", 0, 0, 0);
    assert Find([], x) == None && Find([], m) == None;
    assert |START.enqueues| == 0 && Store(START) == [] && |START.history| == 1;
    ReadsAhead(START, maxAttempts, x);
    var a := Next(Next(START, maxAttempts, Call(x, "", 0, 0)), maxAttempts, Read(0));
    assert Store(a) == [] && |a.enqueues| == 1;
    ReadsAhead(a, maxAttempts, m);
    var b := Next(Next(a, maxAttempts, Call(m, "", 0, 0)), maxAttempts, Read(1));
    assert b.history[3] == [];
    var c := Next(b, maxAttempts, Write(0));
    assert c.enqueues[1] == Enqueuing(mm, HasRead(3)) && c.history[3] == [];
    ThenWrites(c, maxAttempts, 1, 3, mm);
    hide Next, Find;
    assert [] + [mm] == [mm];
  }
}
