/**
 * The LRU cache over whole runs.  A run is any sequence of the cache's
 * operations; `Run` folds the specification functions that the methods of
 * `LruCache` are proved to compute.
 */
module LruRuns {
  import opened Common
  import opened Recency

  datatype Op<V> =
    | OpSet(key: string, value: V, now: int)
    | OpGet(key: string, now: int)
    | OpHas(key: string, now: int)
    | OpSweep(now: int)
    | OpDelete(key: string)
    | OpClear

  function Step<V>(s: seq<Item<V>>, op: Op<V>, ttl: int, cap: nat): seq<Item<V>> {
    match op
    case OpSet(k, v, now) => Set(s, k, v, now + ttl, cap)
    case OpGet(k, now) => Get(s, k, now).0
    case OpHas(k, now) => Has(s, k, now).0
    case OpSweep(now) => Live(s, now)
    case OpDelete(k) => Sans(s, k)
    case OpClear => []
  }

  function Run<V>(ops: seq<Op<V>>, ttl: int, cap: nat): seq<Item<V>> {
    if ops == [] then [] else Step(Run(ops[..|ops| - 1], ttl, cap), ops[|ops| - 1], ttl, cap)
  }

  // ---- every run: what a stored item is ----

  /** The last value set for `k` that was not deleted since, with the time of that set. */
  function LastSet<V>(ops: seq<Op<V>>, k: string): Option<(V, int)> {
    if ops == [] then None
    else
      match ops[|ops| - 1]
      case OpSet(k', v, now) => if k' == k then Some((v, now)) else LastSet(ops[..|ops| - 1], k)
      case OpDelete(k') => if k' == k then None else LastSet(ops[..|ops| - 1], k)
      case OpClear => None
      case _ => LastSet(ops[..|ops| - 1], k)
  }

  lemma {:induction false} SansMembers<V>(s: seq<Item<V>>, k: string)
    ensures forall it :: it in Sans(s, k) <==> it in s && it.key != k
  {
    if s != [] {
      SansMembers(s[1..], k);
      assert s == [s[0]] + s[1..];
    }
  }

  lemma {:induction false} LiveFacts<V>(s: seq<Item<V>>, now: int)
    ensures forall it :: it in Live(s, now) <==> it in s && now <= it.expiresAt
    ensures Distinct(s) ==> Distinct(Live(s, now))
    ensures KeySet(Live(s, now)) <= KeySet(s) && |Live(s, now)| <= |s|
  {
    if s != [] {
      LiveFacts(s[1..], now);
      assert s == [s[0]] + s[1..];
    }
  }

  lemma {:induction false} SansSize<V>(s: seq<Item<V>>, k: string)
    ensures |Sans(s, k)| <= |s|
    ensures k in KeySet(s) ==> |Sans(s, k)| < |s|
  {
    if s != [] { SansSize(s[1..], k); }
  }

  lemma {:induction false} PrefixFacts<V>(s: seq<Item<V>>)
    requires Distinct(s) && s != []
    ensures Distinct(s[..|s| - 1]) && KeySet(s[..|s| - 1]) <= KeySet(s)
  {
    if |s| > 1 {
      PrefixFacts(s[1..]);
      assert s[..|s| - 1] == [s[0]] + s[1..][..|s| - 2];
      assert s[..|s| - 1][1..] == s[1..][..|s| - 2];
    }
  }

  /** Every step keeps keys distinct and the size within the capacity. */
  lemma StepKeepsShape<V>(s: seq<Item<V>>, op: Op<V>, ttl: int, cap: nat)
    requires Distinct(s) && |s| <= cap
    ensures Distinct(Step(s, op, ttl, cap)) && |Step(s, op, ttl, cap)| <= cap
  {
    match op {
      case OpSet(k, v, now) =>
        SansKeys(s, k); SansDistinct(s, k); SansSize(s, k);
        var t := [Item(k, v, now + ttl)] + Sans(s, k);
        assert t[1..] == Sans(s, k);
        PrefixFacts(t);
      case OpGet(k, now) =>
        SansKeys(s, k); SansDistinct(s, k); SansSize(s, k);
        var i := IndexOf(s, k);
        if i < |s| { assert ([s[i]] + Sans(s, k))[1..] == Sans(s, k); }
      case OpHas(k, now) => SansDistinct(s, k); SansSize(s, k);
      case OpSweep(now) => LiveFacts(s, now);
      case OpDelete(k) => SansDistinct(s, k); SansSize(s, k);
      case OpClear =>
    }
  }

  lemma {:induction false} RunShape<V>(ops: seq<Op<V>>, ttl: int, cap: nat)
    ensures Distinct(Run(ops, ttl, cap)) && |Run(ops, ttl, cap)| <= cap
  {
    if ops != [] {
      RunShape(ops[..|ops| - 1], ttl, cap);
      StepKeepsShape(Run(ops[..|ops| - 1], ttl, cap), ops[|ops| - 1], ttl, cap);
    }
  }

  /** A step stores nothing but what was stored, and the item it sets. */
  lemma StepMembers<V>(s: seq<Item<V>>, op: Op<V>, ttl: int, cap: nat, it: Item<V>)
    requires it in Step(s, op, ttl, cap)
    ensures (op.OpSet? && it == Item(op.key, op.value, op.now + ttl)) || it in s
    ensures it in s && (op.OpSet? || op.OpDelete?) && op.key == it.key ==>
              op.OpSet? && it == Item(op.key, op.value, op.now + ttl)
    ensures !op.OpClear?
  {
    if op.OpSet? || op.OpGet? || op.OpHas? || op.OpDelete? { SansMembers(s, op.key); }
    if op.OpSweep? { LiveFacts(s, op.now); }
  }

  /** After any run, a stored item holds the last value set for its key and that set's expiry. */
  lemma {:induction false} StoredIsLastSet<V>(ops: seq<Op<V>>, ttl: int, cap: nat, it: Item<V>)
    requires it in Run(ops, ttl, cap)
    ensures LastSet(ops, it.key) == Some((it.value, it.expiresAt - ttl))
  {
    var before, op := ops[..|ops| - 1], ops[|ops| - 1];
    StepMembers(Run(before, ttl, cap), op, ttl, cap, it);
    if it in Run(before, ttl, cap) { StoredIsLastSet(before, ttl, cap, it); }
  }

  /** A hit returns the last value set for the key, no later than its time to live. */
  lemma HitIsFresh<V>(ops: seq<Op<V>>, ttl: int, cap: nat, k: string, now: int)
    requires Get(Run(ops, ttl, cap), k, now).1.Some?
    ensures LastSet(ops, k).Some?
    ensures var (v, at) := LastSet(ops, k).value;
            Get(Run(ops, ttl, cap), k, now).1 == Some(v) && now <= at + ttl
  {
    var s := Run(ops, ttl, cap);
    StoredIsLastSet(ops, ttl, cap, s[IndexOf(s, k)]);
  }

  /** The item of key `k`, the one it is among distinct keys. */
  lemma {:induction false} TheItem<V>(s: seq<Item<V>>, k: string, it: Item<V>)
    requires Distinct(s) && it in s && it.key == k
    ensures IndexOf(s, k) < |s| && s[IndexOf(s, k)] == it
  {
    if s[0] != it {
      assert s == [s[0]] + s[1..];
      TheItem(s[1..], k, it);
      KeyIn(s[1..], it);
    }
  }

  lemma {:induction false} KeyIn<V>(s: seq<Item<V>>, it: Item<V>)
    requires it in s
    ensures it.key in KeySet(s)
  {
    if s[0] != it {
      assert s == [s[0]] + s[1..];
      KeyIn(s[1..], it);
    }
  }

  /** Some item of key `k` and value `v` is there and has not expired. */
  ghost predicate LiveItem<V(!new)>(s: seq<Item<V>>, k: string, v: V, now: int) {
    exists it :: it in s && it.key == k && it.value == v && now <= it.expiresAt
  }

  /** A get hits exactly when a live item has the key, wherever it stands, and returns its value. */
  lemma GetHitsIff<V(!new)>(s: seq<Item<V>>, k: string, v: V, now: int)
    requires Distinct(s)
    ensures Get(s, k, now).1 == Some(v) <==> LiveItem(s, k, v, now)
  {
    var i := IndexOf(s, k);
    if i < |s| { assert s[i] in s; }
    if LiveItem(s, k, v, now) {
      var it :| it in s && it.key == k && it.value == v && now <= it.expiresAt;
      TheItem(s, k, it);
    }
  }

  /** And `has` answers true exactly then. */
  lemma HasIff<V(!new)>(s: seq<Item<V>>, k: string, now: int)
    requires Distinct(s)
    ensures Has(s, k, now).1 <==> exists v :: LiveItem(s, k, v, now)
  {
    var i := IndexOf(s, k);
    if i < |s| && now <= s[i].expiresAt {
      assert s[i] in s;
      assert LiveItem(s, k, s[i].value, now);
    }
    if v :| LiveItem(s, k, v, now) {
      var it :| it in s && it.key == k && it.value == v && now <= it.expiresAt;
      TheItem(s, k, it);
    }
  }

  /** Looking a key up removes the item found expired, and nothing else. */
  lemma LookupKeeps<V>(s: seq<Item<V>>, k: string, now: int, it: Item<V>)
    requires Distinct(s)
    ensures it in Get(s, k, now).0 <==> it in s && !(it.key == k && now > it.expiresAt)
    ensures it in Has(s, k, now).0 <==> it in s && !(it.key == k && now > it.expiresAt)
  {
    SansMembers(s, k);
    var i := IndexOf(s, k);
    if i < |s| { assert s[i] in s; }
    if it in s && it.key == k { TheItem(s, k, it); }
  }

  // ---- runs without expiry or deletion: move to front ----

  function Remove(m: seq<string>, k: string): seq<string> {
    if m == [] then [] else if m[0] == k then Remove(m[1..], k) else [m[0]] + Remove(m[1..], k)
  }

  /** The touched keys, each at the place of its last touch, latest first. */
  function Mtf(touches: seq<string>): seq<string> {
    if touches == [] then []
    else [touches[|touches| - 1]] + Remove(Mtf(touches[..|touches| - 1]), touches[|touches| - 1])
  }

  function Take(m: seq<string>, n: nat): seq<string> {
    if |m| <= n then m else m[..n]
  }

  function Keys<V>(s: seq<Item<V>>): seq<string> {
    if s == [] then [] else [s[0].key] + Keys(s[1..])
  }

  /** A touch is a set, or a get that finds its key. */
  function TouchOf<V>(s: seq<Item<V>>, op: Op<V>): seq<string> {
    match op
    case OpSet(k, _, _) => [k]
    case OpGet(k, _) => if k in KeySet(s) then [k] else []
    case _ => []
  }

  function Touches<V>(ops: seq<Op<V>>, ttl: int, cap: nat): seq<string> {
    if ops == [] then []
    else
      var before := ops[..|ops| - 1];
      Touches(before, ttl, cap) + TouchOf(Run(before, ttl, cap), ops[|ops| - 1])
  }

  /** No deletion, and nothing stored has expired at the time of any operation. */
  ghost predicate Quiet<V>(ops: seq<Op<V>>, ttl: int, cap: nat) {
    ops == [] ||
    var op := ops[|ops| - 1];
    && Quiet(ops[..|ops| - 1], ttl, cap)
    && !op.OpDelete? && !op.OpClear?
    && forall it :: it in Run(ops[..|ops| - 1], ttl, cap) ==> op.now <= it.expiresAt
  }

  ghost predicate Unique(m: seq<string>) {
    m == [] || (m[0] !in m[1..] && Unique(m[1..]))
  }

  lemma {:induction false} RemoveFacts(m: seq<string>, k: string)
    ensures forall x :: x in Remove(m, k) <==> x in m && x != k
    ensures Unique(m) ==> Unique(Remove(m, k))
    ensures k !in m ==> Remove(m, k) == m
    ensures |Remove(m, k)| <= |m|
  {
    if m != [] {
      RemoveFacts(m[1..], k);
      assert m == [m[0]] + m[1..];
    }
  }

  lemma {:induction false} MtfFacts(touches: seq<string>)
    ensures Unique(Mtf(touches))
    ensures forall x :: x in Mtf(touches) <==> x in touches
  {
    if touches != [] {
      var n := |touches| - 1;
      MtfFacts(touches[..n]);
      RemoveFacts(Mtf(touches[..n]), touches[n]);
      assert touches == touches[..n] + [touches[n]];
    }
  }

  /** Removing a key from a bounded prefix, and from the whole list. */
  lemma {:induction false} RemoveTake(m: seq<string>, k: string, c: nat)
    requires Unique(m) && 1 <= c
    ensures k in Take(m, c) ==> Remove(Take(m, c), k) == Take(Remove(m, k), c - 1)
    ensures k !in Take(m, c) ==> Take(Remove(m, k), c - 1) == Take(m, c - 1)
  {
    if m != [] {
      assert Take(m, c) == [m[0]] + Take(m[1..], c - 1);
      if m[0] == k {
        RemoveFacts(m[1..], k);
        RemoveFacts(Take(m[1..], c - 1), k);
      } else if c == 1 {
        assert Take(m[1..], 0) == [];
      } else {
        RemoveTake(m[1..], k, c - 1);
        var r := Remove(m[1..], k);
        assert Take([m[0]] + r, c - 1) == [m[0]] + Take(r, c - 2);
        assert Take(m, c - 1) == [m[0]] + Take(m[1..], c - 2);
      }
    }
  }

  lemma {:induction false} KeysFacts<V>(s: seq<Item<V>>, k: string)
    ensures |Keys(s)| == |s|
    ensures k in Keys(s) <==> k in KeySet(s)
    ensures Keys(Sans(s, k)) == Remove(Keys(s), k)
    ensures s != [] ==> Keys(s[..|s| - 1]) == Keys(s)[..|s| - 1]
  {
    if s != [] {
      KeysFacts(s[1..], k);
      if |s| > 1 {
        assert s[..|s| - 1] == [s[0]] + s[1..][..|s| - 2];
        assert s[..|s| - 1][1..] == s[1..][..|s| - 2];
      }
    }
  }

  lemma {:induction false} LiveAll<V>(s: seq<Item<V>>, now: int)
    requires forall it :: it in s ==> now <= it.expiresAt
    ensures Live(s, now) == s
  {
    if s != [] { LiveAll(s[1..], now); }
  }

  /** Moving `k` to the front of a bounded prefix, evicting its last key when `k` was not there. */
  lemma FrontTake(m: seq<string>, k: string, cap: nat)
    requires Unique(m) && 1 <= cap
    ensures var p := Take(m, cap); var t := [k] + Remove(p, k);
            Take([k] + Remove(m, k), cap) == if k !in p && |t| > cap then t[..|t| - 1] else t
  {
    var p := Take(m, cap);
    RemoveTake(m, k, cap);
    RemoveFacts(p, k);
    assert Take([k] + Remove(m, k), cap) == [k] + Take(Remove(m, k), cap - 1);
    if k !in p && |p| == cap {
      assert ([k] + p)[..cap] == [k] + p[..cap - 1];
      assert Take(m, cap - 1) == p[..cap - 1];
    }
  }

  /** One touch of `it.key`, with the eviction that a fresh key may cause. */
  lemma TouchFront<V>(s: seq<Item<V>>, it: Item<V>, ts: seq<string>, cap: nat)
    requires Keys(s) == Take(Mtf(ts), cap) && 1 <= cap
    ensures var t := [it] + Sans(s, it.key);
            Keys(if it.key !in KeySet(s) && |t| > cap then t[..|t| - 1] else t) == Take(Mtf(ts + [it.key]), cap)
  {
    var k := it.key;
    assert (ts + [k])[..|ts|] == ts;
    MtfFacts(ts);
    FrontTake(Mtf(ts), k, cap);
    KeysFacts(s, k);
    var t := [it] + Sans(s, k);
    assert t[1..] == Sans(s, k);
    KeysFacts(t, k);
  }

  lemma StepTouches<V>(s: seq<Item<V>>, op: Op<V>, ts: seq<string>, ttl: int, cap: nat)
    requires Keys(s) == Take(Mtf(ts), cap) && 1 <= cap && |s| <= cap
    requires !op.OpDelete? && !op.OpClear? && forall it :: it in s ==> op.now <= it.expiresAt
    ensures Keys(Step(s, op, ttl, cap)) == Take(Mtf(ts + TouchOf(s, op)), cap)
  {
    assert ts + [] == ts;
    match op {
      case OpSet(k, v, now) => TouchFront(s, Item(k, v, now + ttl), ts, cap);
      case OpGet(k, now) => if k in KeySet(s) { TouchFront(s, s[IndexOf(s, k)], ts, cap); }
      case OpHas(k, now) =>
      case OpSweep(now) => LiveAll(s, now);
    }
  }

  /**
   * The stored keys, in recency order, are exactly the first `cap` keys of the
   * move-to-front list of all touched keys.
   */
  lemma {:induction false} RunIsMoveToFront<V>(ops: seq<Op<V>>, ttl: int, cap: nat)
    requires Quiet(ops, ttl, cap) && 1 <= cap
    ensures Keys(Run(ops, ttl, cap)) == Take(Mtf(Touches(ops, ttl, cap)), cap)
  {
    if ops != [] {
      var before := ops[..|ops| - 1];
      RunIsMoveToFront(before, ttl, cap);
      RunShape(before, ttl, cap);
      hide Step, TouchOf, Mtf, Take;
      StepTouches(Run(before, ttl, cap), ops[|ops| - 1], Touches(before, ttl, cap), ttl, cap);
    } else {
      assert Keys(Run(ops, ttl, cap)) == [];
    }
  }

  // ---- which keys those are ----

  /** The touches after the last touch of `k`. */
  function Since(touches: seq<string>, k: string): seq<string> {
    if touches == [] || touches[|touches| - 1] == k then []
    else Since(touches[..|touches| - 1], k) + [touches[|touches| - 1]]
  }

  function Before(m: seq<string>, k: string): seq<string> {
    if m == [] || m[0] == k then [] else [m[0]] + Before(m[1..], k)
  }

  lemma {:induction false} BeforeFacts(m: seq<string>, k: string, c: nat)
    requires k in m && Unique(m)
    ensures k in Take(m, c) <==> |Before(m, k)| < c
    ensures Unique(Before(m, k)) && forall x :: x in Before(m, k) ==> x in m
  {
    if m[0] == k {
      assert c > 0 ==> Take(m, c)[0] == k;
    } else {
      if c > 0 {
        BeforeFacts(m[1..], k, c - 1);
        assert Take(m, c) == [m[0]] + Take(m[1..], c - 1);
      } else {
        BeforeFacts(m[1..], k, c);
      }
    }
  }

  lemma {:induction false} BeforeFront(m: seq<string>, x: string, k: string)
    requires x != k && k in m
    ensures Before([x] + Remove(m, x), k) == [x] + Remove(Before(m, k), x)
  {
    assert ([x] + Remove(m, x))[1..] == Remove(m, x);
    BeforeRemove(m, x, k);
  }

  lemma {:induction false} BeforeRemove(m: seq<string>, x: string, k: string)
    requires x != k
    ensures Before(Remove(m, x), k) == Remove(Before(m, k), x)
  {
    if m != [] { BeforeRemove(m[1..], x, k); }
  }

  /** In the move-to-front list, the keys ahead of `k` are those touched since `k` was. */
  lemma {:induction false} AheadIsSince(touches: seq<string>, k: string)
    requires k in touches
    ensures forall x :: x in Before(Mtf(touches), k) <==> x in Since(touches, k)
  {
    var n := |touches| - 1;
    if touches[n] != k {
      assert touches == touches[..n] + [touches[n]];
      AheadIsSince(touches[..n], k);
      MtfFacts(touches[..n]);
      BeforeFront(Mtf(touches[..n]), touches[n], k);
      RemoveFacts(Before(Mtf(touches[..n]), k), touches[n]);
    }
  }

  lemma {:induction false} UniqueSize(m: seq<string>)
    requires Unique(m)
    ensures |set x | x in m| == |m|
  {
    if m != [] {
      UniqueSize(m[1..]);
      assert (set x | x in m) == {m[0]} + set x | x in m[1..];
    }
  }

  /**
   * Over any run without expiry or deletion, a key is stored iff it was touched and
   * fewer than `cap` distinct keys were touched since its last touch.
   */
  lemma StoredIffRecent<V>(ops: seq<Op<V>>, ttl: int, cap: nat, k: string)
    requires Quiet(ops, ttl, cap) && 1 <= cap
    ensures var ts := Touches(ops, ttl, cap);
            k in KeySet(Run(ops, ttl, cap)) <==> k in ts && |set x | x in Since(ts, k)| < cap
  {
    var ts := Touches(ops, ttl, cap);
    var m := Mtf(ts);
    RunIsMoveToFront(ops, ttl, cap);
    KeysFacts(Run(ops, ttl, cap), k);
    MtfFacts(ts);
    if k in ts {
      BeforeFacts(m, k, cap);
      AheadIsSince(ts, k);
      UniqueSize(Before(m, k));
      assert (set x | x in Since(ts, k)) == set x | x in Before(m, k);
    }
  }

  /**
   * So a get, or a `has`, at a time when nothing has expired answers from the touches alone:
   * it finds `k` iff `k` was touched and fewer than `cap` distinct keys were touched since,
   * and then its value is the last one set.
   */
  lemma AnswersIffRecent<V(!new)>(ops: seq<Op<V>>, ttl: int, cap: nat, k: string, now: int)
    requires Quiet(ops, ttl, cap) && 1 <= cap
    requires forall it :: it in Run(ops, ttl, cap) ==> now <= it.expiresAt
    ensures var ts := Touches(ops, ttl, cap);
            var recent := k in ts && |set x | x in Since(ts, k)| < cap;
            && Has(Run(ops, ttl, cap), k, now).1 == recent
            && Get(Run(ops, ttl, cap), k, now).1 ==
                 if recent && LastSet(ops, k).Some? then Some(LastSet(ops, k).value.0) else None
    ensures k in Touches(ops, ttl, cap) && |set x | x in Since(Touches(ops, ttl, cap), k)| < cap ==> LastSet(ops, k).Some?
  {
    var s := Run(ops, ttl, cap);
    StoredIffRecent(ops, ttl, cap, k);
    RunShape(ops, ttl, cap);
    HasIff(s, k, now);
    var i := IndexOf(s, k);
    hide Run, Quiet, Touches, Since, Get, Has;
    if i < |s| {
      assert s[i] in s;
      StoredIsLastSet(ops, ttl, cap, s[i]);
      assert LiveItem(s, k, s[i].value, now);
      GetHitsIff(s, k, s[i].value, now);
    } else {
      forall v ensures !LiveItem(s, k, v, now) {
        if it :| it in s && it.key == k && it.value == v && now <= it.expiresAt { KeyIn(s, it); }
      }
      NoHit(s, k, now);
    }
  }

  lemma NoHit<V(!new)>(s: seq<Item<V>>, k: string, now: int)
    requires Distinct(s) && forall v :: !LiveItem(s, k, v, now)
    ensures Get(s, k, now).1 == None
  {
    match Get(s, k, now).1 {
      case Some(v) => GetHitsIff(s, k, v, now);
      case None =>
    }
  }

  /** When all clock readings lie within one time to live, nothing expires. */
  lemma {:induction false} ShortRunIsQuiet<V>(ops: seq<Op<V>>, ttl: int, cap: nat, start: int)
    requires forall op :: op in ops ==> !op.OpDelete? && !op.OpClear? && start <= op.now <= start + ttl
    ensures Quiet(ops, ttl, cap)
    ensures forall it :: it in Run(ops, ttl, cap) ==> start + ttl <= it.expiresAt
  {
    if ops != [] {
      hide Step;
      var before, op := ops[..|ops| - 1], ops[|ops| - 1];
      assert op in ops;
      ShortRunIsQuiet(before, ttl, cap, start);
      forall it | it in Run(ops, ttl, cap) ensures start + ttl <= it.expiresAt {
        StepMembers(Run(before, ttl, cap), op, ttl, cap, it);
      }
    }
  }
}
