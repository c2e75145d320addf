/**
 * The durable outbox of mutations, packages/client-offline/src/queue.ts.  Everything the
 * queue knows is in the store; `enqueue` and `flush` do not overlap.
 */
module Outbox {
  import opened Common

  datatype Mutation = Mutation(id: string, op: string, payload: int, createdAt: int, attempts: nat)

  /** What sending came to; a sender that throws counts as `Retry`. */
  datatype Outcome = Sent | Drop | Retry

  /** A moment between two awaits: what the store holds, and what is settled by then. */
  datatype Point = Point(persisted: seq<Mutation>, settled: seq<string>, unsettled: seq<Mutation>)

  datatype Pass = Pass(sent: nat, dropped: nat, left: seq<Mutation>, points: seq<Point>)

  function Ids(list: seq<Mutation>): seq<string> {
    if |list| == 0 then [] else [list[0].id] + Ids(list[1..])
  }

  function Find(list: seq<Mutation>, id: string): Option<Mutation> {
    if |list| == 0 then None
    else if list[0].id == id then Some(list[0])
    else Find(list[1..], id)
  }

  function Tried(m: Mutation): Mutation {
    m.(attempts := m.attempts + 1)
  }

  /** Whether the reply to the head removes it. */
  predicate Settles(m: Mutation, outcome: Outcome, maxAttempts: int) {
    outcome != Retry || Tried(m).attempts >= maxAttempts
  }

  /**
   * A pass over `list`: the reply to the `k`-th sending is `sender(k)`, and `settled` ids
   * went before.  The store is written after each reply.
   */
  function PassOver(list: seq<Mutation>, sender: nat -> Outcome, k: nat, maxAttempts: int, settled: seq<string>): Pass
    decreases |list|
  {
    if |list| == 0 then Pass(0, 0, [], [])
    else if Settles(list[0], sender(k), maxAttempts) then
      var done, next := settled + [list[0].id], list[1..];
      var p := PassOver(next, sender, k + 1, maxAttempts, done);
      Pass(p.sent + (if sender(k) == Sent then 1 else 0), p.dropped + (if sender(k) == Sent then 0 else 1), p.left,
           [Point(list, done, next), Point(next, done, next)] + p.points)
    else
      var next := [Tried(list[0])] + list[1..];
      Pass(0, 0, next, [Point(list, settled, next), Point(next, settled, next)])
  }

  class MutationQueue {
    const maxAttempts: int
    var store: seq<Mutation>
    var flushing: bool
    ghost var points: seq<Point>

    constructor (maxAttempts: int)
      ensures this.maxAttempts == maxAttempts && store == [] && !flushing && points == []
    {
      this.maxAttempts := maxAttempts;
      store, flushing, points := [], false, [];
    }

    /** Append unless the id is already queued; the stored mutation comes back. */
    method Enqueue(id: string, op: string, payload: int, now: int) returns (stored: Mutation)
      modifies this`store
      ensures store == Enqueued(old(store), Mutation(id, op, payload, now, 0))
      ensures Find(store, id) == Some(stored)
    {
      var list := store;
      var existing := Find(list, id);
      if existing.Some? {
        return existing.value;
      }
      stored := Mutation(id, op, payload, now, 0);
      FindAppended(list, stored);
      list := list + [stored];
      store := list;
    }

    /** Replay the outbox in order, up to the first reply that asks to try again later. */
    method Flush(sender: nat -> Outcome) returns (sent: nat, dropped: nat, remaining: nat)
      modifies this
      ensures flushing == old(flushing) && remaining == |store|
      ensures old(flushing) ==> sent == dropped == 0 && store == old(store) && points == old(points)
      ensures !old(flushing) ==>
                Pass(sent, dropped, store, points) ==
                PassOver(old(store), sender, 0, maxAttempts, []).(points := old(points)
                  + PassOver(old(store), sender, 0, maxAttempts, []).points)
    {
      if flushing {
        return 0, 0, |store|;
      }
      hide PassOver, Tried;
      flushing := true;
      var list := store;
      sent, dropped := 0, 0;
      ghost var settled := [];
      ghost var was := points;
      ghost var whole := PassOver(list, sender, 0, maxAttempts, []);
      var k := 0;
      assert was + whole.points == points + PassOver(list, sender, k, maxAttempts, settled).points;
      while |list| > 0
        invariant store == list && flushing
        invariant whole.sent == sent + PassOver(list, sender, k, maxAttempts, settled).sent
        invariant whole.dropped == dropped + PassOver(list, sender, k, maxAttempts, settled).dropped
        invariant whole.left == PassOver(list, sender, k, maxAttempts, settled).left
        invariant was + whole.points == points + PassOver(list, sender, k, maxAttempts, settled).points
        decreases |list|
      {
        var mutation := Tried(list[0]);
        var outcome := sender(k);
        PassStep(list, sender, k, maxAttempts, settled);
        if outcome == Retry && mutation.attempts < maxAttempts {
          var kept := [mutation] + list[1..];
          ghost var unwritten, written := Point(list, settled, kept), Point(kept, settled, kept);
          Grouped(points, unwritten, written, []);
          points := points + [unwritten];
          list := kept;
          store := list;
          points := points + [written];
          break;
        }
        settled := settled + [list[0].id];
        ghost var unwritten, written := Point(list, settled, list[1..]), Point(list[1..], settled, list[1..]);
        Grouped(points, unwritten, written, PassOver(list[1..], sender, k + 1, maxAttempts, settled).points);
        points := points + [unwritten];
        list := list[1..];
        if outcome == Sent {
          sent := sent + 1;
        } else {
          dropped := dropped + 1;
        }
        store := list;
        points := points + [written];
        k := k + 1;
      }
      if |list| == 0 { PassEnds(sender, k, maxAttempts, settled); }
      remaining := |list|;
      flushing := false;
    }
  }

  lemma Grouped(points: seq<Point>, a: Point, b: Point, more: seq<Point>)
    ensures points + ([a] + [b] + more) == points + [a] + [b] + more
    ensures points + ([a] + [b]) == points + [a] + [b]
  {
  }

  lemma PassEnds(sender: nat -> Outcome, k: nat, maxAttempts: int, settled: seq<string>)
    ensures PassOver([], sender, k, maxAttempts, settled) == Pass(0, 0, [], [])
  {
  }

  lemma PassStep(list: seq<Mutation>, sender: nat -> Outcome, k: nat, maxAttempts: int, settled: seq<string>)
    requires |list| > 0
    ensures var p := PassOver(list, sender, k, maxAttempts, settled);
            var done, next := settled + [list[0].id], list[1..];
            var q := PassOver(next, sender, k + 1, maxAttempts, done);
            var later := [Tried(list[0])] + list[1..];
            if Settles(list[0], sender(k), maxAttempts) then
              && p.sent == q.sent + (if sender(k) == Sent then 1 else 0)
              && p.dropped == q.dropped + (if sender(k) == Sent then 0 else 1)
              && p.left == q.left
              && p.points == [Point(list, done, next)] + [Point(next, done, next)] + q.points
            else p == Pass(0, 0, later, [Point(list, settled, later)] + [Point(later, settled, later)])
  {
  }

  function Enqueued(list: seq<Mutation>, m: Mutation): seq<Mutation> {
    if Find(list, m.id).Some? then list else list + [m]
  }

  lemma {:induction false} FindAppended(list: seq<Mutation>, m: Mutation)
    requires Find(list, m.id) == None
    ensures Find(list + [m], m.id) == Some(m)
  {
    if |list| > 0 {
      FindAppended(list[1..], m);
      assert (list + [m])[1..] == list[1..] + [m];
    }
  }
}
