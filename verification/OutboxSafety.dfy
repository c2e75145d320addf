/**
 * What any sequence of enqueues and flushes keeps, and what a crash can find in the
 * store.
 */
module OutboxSafety {
  import opened Common
  import opened Outbox

  // ---- one pass ----

  ghost predicate Distinct(ids: seq<string>) {
    forall i, j :: 0 <= i < j < |ids| ==> ids[i] != ids[j]
  }

  /** Only the head was ever tried, and it has tries left. */
  ghost predicate HeadOnly(list: seq<Mutation>, maxAttempts: int) {
    && (forall i :: 1 <= i < |list| ==> list[i].attempts == 0)
    && (|list| > 0 && list[0].attempts > 0 ==> list[0].attempts < maxAttempts)
  }

  lemma {:induction false} IdsAt(list: seq<Mutation>)
    ensures |Ids(list)| == |list| && forall i :: 0 <= i < |list| ==> Ids(list)[i] == list[i].id
  {
    if |list| > 0 { IdsAt(list[1..]); }
  }

  lemma {:induction false} IdsAppend(list: seq<Mutation>, m: Mutation)
    ensures Ids(list + [m]) == Ids(list) + [m.id]
  {
    if |list| > 0 {
      IdsAppend(list[1..], m);
      assert (list + [m])[1..] == list[1..] + [m];
    } else {
      assert list + [m] == [m] && [m][1..] == [];
    }
  }

  /** A pass removes a prefix of the queue and counts it. */
  lemma {:induction false} PassRemovesPrefix(list: seq<Mutation>, sender: nat -> Outcome, k: nat, maxAttempts: int,
                                             settled: seq<string>)
    ensures var p := PassOver(list, sender, k, maxAttempts, settled);
            p.sent + p.dropped + |p.left| == |list| == |Ids(list)| && Ids(p.left) == Ids(list)[p.sent + p.dropped..]
    decreases |list|
  {
    IdsAt(list);
    hide PassOver;
    if |list| > 0 {
      PassStep(list, sender, k, maxAttempts, settled);
      if Settles(list[0], sender(k), maxAttempts) {
        PassRemovesPrefix(list[1..], sender, k + 1, maxAttempts, settled + [list[0].id]);
        var p := PassOver(list, sender, k, maxAttempts, settled);
        assert Ids(list)[p.sent + p.dropped..] == Ids(list[1..])[p.sent + p.dropped - 1..];
      } else {
        assert ([Tried(list[0])] + list[1..])[1..] == list[1..];
        assert Ids(list)[0..] == Ids(list);
      }
    } else {
      PassEnds(sender, k, maxAttempts, settled);
    }
  }

  // ---- where a pass stops, from the replies alone ----

  /** The reply asks for another try later, and the mutation has tries left. */
  predicate TryLater(m: Mutation, reply: Outcome, maxAttempts: int) {
    reply == Retry && m.attempts + 1 < maxAttempts
  }

  /** Position `k` is the first whose reply says so, or the end of the list. */
  ghost predicate StopsAt(list: seq<Mutation>, sender: nat -> Outcome, from: nat, maxAttempts: int, k: nat) {
    && k <= |list|
    && (forall j :: 0 <= j < k ==> !TryLater(list[j], sender(from + j), maxAttempts))
    && (k < |list| ==> TryLater(list[k], sender(from + k), maxAttempts))
  }

  /** How many of the replies `from`, ..., `from + k - 1` were `Sent`. */
  function SentAmong(sender: nat -> Outcome, from: nat, k: nat): nat {
    if k == 0 then 0 else SentAmong(sender, from, k - 1) + if sender(from + k - 1) == Sent then 1 else 0
  }

  lemma {:induction false} SentFirst(sender: nat -> Outcome, from: nat, k: nat)
    requires k > 0
    ensures SentAmong(sender, from, k) == (if sender(from) == Sent then 1 else 0) + SentAmong(sender, from + 1, k - 1)
    ensures SentAmong(sender, from, k) <= k
  {
    if k > 1 { SentFirst(sender, from, k - 1); }
  }

  /**
   * What a pass does, told from the replies alone: it goes on up to the first reply that asks
   * for another try of a mutation with tries left.  All before it leave the queue, counted as
   * sent when the reply was `Sent` and as dropped otherwise; that one stays at the head with
   * one more try behind it, and so does everything after it.
   */
  lemma {:induction false} PassIs(list: seq<Mutation>, sender: nat -> Outcome, from: nat, maxAttempts: int,
                                  settled: seq<string>, k: nat)
    requires StopsAt(list, sender, from, maxAttempts, k)
    ensures var p := PassOver(list, sender, from, maxAttempts, settled);
            && p.sent == SentAmong(sender, from, k) && p.dropped == k - SentAmong(sender, from, k)
            && p.left == if k == |list| then [] else [list[k].(attempts := list[k].attempts + 1)] + list[k + 1..]
    decreases |list|
  {
    PassStepOrEnd(list, sender, from, maxAttempts, settled);
    StopsLater(list, sender, from, maxAttempts, k);
    hide *;
    if k > 0 {
      PassIs(list[1..], sender, from + 1, maxAttempts, settled + [list[0].id], k - 1);
      SentFirst(sender, from, k);
      Behind(list, k);
    } else {
      SentNone(sender, from);
    }
  }

  lemma Behind(list: seq<Mutation>, k: nat)
    requires 0 < k <= |list|
    ensures k < |list| ==> list[1..][k - 1 + 1..] == list[k + 1..] && list[1..][k - 1] == list[k]
  {
  }

  lemma SentNone(sender: nat -> Outcome, from: nat)
    ensures SentAmong(sender, from, 0) == 0
  {
  }

  /** A pass turn by turn, in terms of the reply. */
  lemma PassStepOrEnd(list: seq<Mutation>, sender: nat -> Outcome, from: nat, maxAttempts: int, settled: seq<string>)
    ensures var p := PassOver(list, sender, from, maxAttempts, settled);
            if |list| == 0 then p.sent == p.dropped == 0 && p.left == []
            else if TryLater(list[0], sender(from), maxAttempts) then
              p.sent == p.dropped == 0 && p.left == [list[0].(attempts := list[0].attempts + 1)] + list[1..]
            else
              var q := PassOver(list[1..], sender, from + 1, maxAttempts, settled + [list[0].id]);
              && p.sent == q.sent + (if sender(from) == Sent then 1 else 0)
              && p.dropped == q.dropped + (if sender(from) == Sent then 0 else 1) && p.left == q.left
  {
    if |list| > 0 { PassStep(list, sender, from, maxAttempts, settled); }
    if |list| == 0 { PassEnds(sender, from, maxAttempts, settled); }
    hide PassOver;
  }

  lemma StopsLater(list: seq<Mutation>, sender: nat -> Outcome, from: nat, maxAttempts: int, k: nat)
    requires StopsAt(list, sender, from, maxAttempts, k)
    ensures k <= |list| && (k == 0 && |list| > 0 ==> TryLater(list[0], sender(from), maxAttempts))
    ensures k > 0 ==> !TryLater(list[0], sender(from), maxAttempts)
                      && StopsAt(list[1..], sender, from + 1, maxAttempts, k - 1)
  {
    hide TryLater;
    if k > 0 {
      assert !TryLater(list[0], sender(from + 0), maxAttempts);
      forall j | 0 <= j < k - 1 ensures !TryLater(list[1..][j], sender(from + 1 + j), maxAttempts) {
        assert !TryLater(list[j + 1], sender(from + (j + 1)), maxAttempts);
      }
    }
  }

  lemma {:induction false} StopsSomewhere(list: seq<Mutation>, sender: nat -> Outcome, from: nat, maxAttempts: int)
      returns (k: nat)
    ensures StopsAt(list, sender, from, maxAttempts, k)
    decreases |list|
  {
    k := 0;
    if |list| > 0 && !TryLater(list[0], sender(from), maxAttempts) {
      var rest := StopsSomewhere(list[1..], sender, from + 1, maxAttempts);
      k := rest + 1;
      forall j | 0 <= j < k ensures !TryLater(list[j], sender(from + j), maxAttempts) {
        if j > 0 { assert !TryLater(list[1..][j - 1], sender(from + 1 + (j - 1)), maxAttempts); }
      }
      if k < |list| { assert TryLater(list[1..][rest], sender(from + 1 + rest), maxAttempts); }
    }
  }

  /** The same of a flush over the whole queue, which always stops at exactly one place. */
  lemma FlushIs(list: seq<Mutation>, sender: nat -> Outcome, maxAttempts: int)
    ensures exists k :: StopsAt(list, sender, 0, maxAttempts, k)
    ensures forall k: nat :: StopsAt(list, sender, 0, maxAttempts, k) ==>
              var p := PassOver(list, sender, 0, maxAttempts, []);
              && p.sent == SentAmong(sender, 0, k) && p.dropped == k - SentAmong(sender, 0, k)
              && p.left == if k == |list| then [] else [list[k].(attempts := list[k].attempts + 1)] + list[k + 1..]
  {
    hide PassOver, StopsAt, SentAmong;
    var k := StopsSomewhere(list, sender, 0, maxAttempts);
    forall k: nat | StopsAt(list, sender, 0, maxAttempts, k)
      ensures k <= |list| && (var p := PassOver(list, sender, 0, maxAttempts, []);
        && p.sent == SentAmong(sender, 0, k) && p.dropped == k - SentAmong(sender, 0, k)
        && p.left == if k == |list| then [] else [list[k].(attempts := list[k].attempts + 1)] + list[k + 1..])
    {
      StopsInside(list, sender, maxAttempts, k);
      PassIs(list, sender, 0, maxAttempts, [], k);
    }
  }

  lemma StopsInside(list: seq<Mutation>, sender: nat -> Outcome, maxAttempts: int, k: nat)
    requires StopsAt(list, sender, 0, maxAttempts, k)
    ensures k <= |list|
  {
  }

  lemma HeadOnlyTail(list: seq<Mutation>, maxAttempts: int)
    requires |list| > 0 && HeadOnly(list, maxAttempts)
    ensures HeadOnly(list[1..], maxAttempts)
    ensures Tried(list[0]).attempts < maxAttempts ==> HeadOnly([Tried(list[0])] + list[1..], maxAttempts)
  {
  }

  /** Afterwards, too, only the head has tries behind it. */
  lemma {:induction false} PassKeepsShape(list: seq<Mutation>, sender: nat -> Outcome, k: nat, maxAttempts: int,
                                          settled: seq<string>)
    requires HeadOnly(list, maxAttempts)
    ensures HeadOnly(PassOver(list, sender, k, maxAttempts, settled).left, maxAttempts)
    decreases |list|
  {
    hide PassOver, HeadOnly;
    if |list| > 0 {
      PassStep(list, sender, k, maxAttempts, settled);
      HeadOnlyTail(list, maxAttempts);
      if Settles(list[0], sender(k), maxAttempts) {
        PassKeepsShape(list[1..], sender, k + 1, maxAttempts, settled + [list[0].id]);
      }
    } else {
      PassEnds(sender, k, maxAttempts, settled);
    }
  }

  /** What the store holds beside what is settled: the unsettled, or those and the last settled one. */
  ghost predicate Recoverable(p: Point, whole: seq<string>) {
    && p.settled + Ids(p.unsettled) == whole
    && (Ids(p.persisted) == Ids(p.unsettled)
        || (|p.settled| > 0 && Ids(p.persisted) == [p.settled[|p.settled| - 1]] + Ids(p.unsettled)))
  }

  /**
   * Whenever the process stops during a pass, the store holds the unsettled mutations in
   * order and, before them, at most the one that was settled just then.
   */
  lemma {:induction false} EveryCrashIsRecoverable(list: seq<Mutation>, sender: nat -> Outcome, k: nat,
                                                   maxAttempts: int, settled: seq<string>)
    ensures var points := PassOver(list, sender, k, maxAttempts, settled).points;
            forall i :: 0 <= i < |points| ==> Recoverable(points[i], settled + Ids(list))
    decreases |list|
  {
    if |list| > 0 {
      PassStep(list, sender, k, maxAttempts, settled);
      hide PassOver;
      if Settles(list[0], sender(k), maxAttempts) {
        var done, next := settled + [list[0].id], list[1..];
        EveryCrashIsRecoverable(next, sender, k + 1, maxAttempts, done);
        assert done + Ids(next) == settled + Ids(list);
        assert Recoverable(Point(list, done, next), settled + Ids(list));
      } else {
        var later := [Tried(list[0])] + list[1..];
        assert later[1..] == list[1..];
        assert Ids(later) == Ids(list);
      }
    }
  }

  // ---- every run ----

  datatype Event = Enqueue(id: string, op: string, payload: int, now: int) | Flush(sender: nat -> Outcome) | Clear

  /** The store, every id ever queued, and every id that left the queue, in order. */
  datatype World = World(store: seq<Mutation>, accepted: seq<string>, gone: seq<string>)

  function Next(w: World, maxAttempts: int, e: Event): World {
    match e
    case Enqueue(id, op, payload, now) =>
      World(Enqueued(w.store, Mutation(id, op, payload, now, 0)),
            if Find(w.store, id).Some? then w.accepted else w.accepted + [id], w.gone)
    case Flush(sender) =>
      var p := PassOver(w.store, sender, 0, maxAttempts, []);
      World(p.left, w.accepted, w.gone + Taken(w.store, p.sent + p.dropped))
    case Clear => World([], w.accepted, w.gone + Ids(w.store))
  }

  function Taken(list: seq<Mutation>, n: nat): seq<string> {
    if n <= |list| then Ids(list[..n]) else Ids(list)
  }

  function Run(maxAttempts: int, events: seq<Event>): World {
    if |events| == 0 then World([], [], [])
    else Next(Run(maxAttempts, events[..|events| - 1]), maxAttempts, events[|events| - 1])
  }

  ghost predicate Inv(w: World, maxAttempts: int) {
    && Distinct(Ids(w.store)) && HeadOnly(w.store, maxAttempts)
    && w.gone + Ids(w.store) == w.accepted
  }

  lemma {:induction false} FindNone(list: seq<Mutation>, id: string)
    ensures Find(list, id) == None <==> id !in Ids(list)
  {
    if |list| > 0 { FindNone(list[1..], id); }
  }

  lemma {:induction false} IdsSplit(list: seq<Mutation>, n: nat)
    requires n <= |list|
    ensures Ids(list[..n]) + Ids(list[n..]) == Ids(list)
    ensures |Ids(list)| == |list| && Ids(list[n..]) == Ids(list)[n..]
  {
    IdsAt(list);
    IdsAt(list[..n]);
    IdsAt(list[n..]);
    hide Ids;
  }

  lemma EnqueueKeeps(w: World, maxAttempts: int, m: Mutation)
    requires Inv(w, maxAttempts) && m.attempts == 0
    ensures Inv(World(Enqueued(w.store, m), if Find(w.store, m.id).Some? then w.accepted else w.accepted + [m.id], w.gone),
                maxAttempts)
  {
    hide Find, Ids;
    FindNone(w.store, m.id);
    IdsAppend(w.store, m);
    assert w.gone + (Ids(w.store) + [m.id]) == w.gone + Ids(w.store) + [m.id];
  }

  lemma FlushKeeps(w: World, maxAttempts: int, sender: nat -> Outcome)
    requires Inv(w, maxAttempts)
    ensures Inv(Next(w, maxAttempts, Flush(sender)), maxAttempts)
  {
    hide PassOver, Find, Ids, HeadOnly;
    PassRemovesPrefix(w.store, sender, 0, maxAttempts, []);
    PassKeepsShape(w.store, sender, 0, maxAttempts, []);
    var n := PassOver(w.store, sender, 0, maxAttempts, []).sent + PassOver(w.store, sender, 0, maxAttempts, []).dropped;
    IdsSplit(w.store, n);
    assert w.gone + Taken(w.store, n) + Ids(w.store)[n..] == w.gone + (Ids(w.store[..n]) + Ids(w.store)[n..]);
  }

  lemma NextKeeps(w: World, maxAttempts: int, e: Event)
    requires Inv(w, maxAttempts)
    ensures Inv(Next(w, maxAttempts, e), maxAttempts)
  {
    match e {
      case Enqueue(id, op, payload, now) => EnqueueKeeps(w, maxAttempts, Mutation(id, op, payload, now, 0));
      case Flush(sender) => FlushKeeps(w, maxAttempts, sender);
      case Clear =>
        NoIds();
        assert w.gone + Ids(w.store) + [] == w.gone + Ids(w.store);
    }
    hide Inv, PassOver, Taken, Enqueued;
  }

  lemma NoIds()
    ensures Ids([]) == []
  {
  }

  lemma {:induction false} Invariant(maxAttempts: int, events: seq<Event>)
    ensures Inv(Run(maxAttempts, events), maxAttempts)
  {
    hide Inv, Next;
    if |events| > 0 {
      Invariant(maxAttempts, events[..|events| - 1]);
      NextKeeps(Run(maxAttempts, events[..|events| - 1]), maxAttempts, events[|events| - 1]);
    } else {
      StartOk(maxAttempts);
    }
  }

  lemma StartOk(maxAttempts: int)
    ensures Inv(World([], [], []), maxAttempts)
  {
  }

  /** Ids in the queue stay distinct; only the head has tries behind it, fewer than allowed. */
  lemma QueueShape(maxAttempts: int, events: seq<Event>)
    ensures Distinct(Ids(Run(maxAttempts, events).store)) && HeadOnly(Run(maxAttempts, events).store, maxAttempts)
  {
    Invariant(maxAttempts, events);
  }

  /** First in, first out, nothing lost and nothing doubled over the whole life of the queue. */
  lemma FirstInFirstOut(maxAttempts: int, events: seq<Event>)
    ensures var w := Run(maxAttempts, events); w.gone + Ids(w.store) == w.accepted
  {
    Invariant(maxAttempts, events);
  }
}
