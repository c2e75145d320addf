/**
 * Likes and matches, packages/dating-profiles/src/index.ts: the store, and concurrent
 * `like` calls cut at their awaits.
 */
module Profiles {
  import opened Common

  const NUL := '\0'

  // ---- the key of an unordered pair ----

  /**
   * The place of a character among all when they are ordered by their UTF-16 code units: a
   * surrogate pair comes before U+E000.
   */
  function UnitRank(c: char): int {
    var n := c as int;
    if n < 0xE000 then n else if n < 0x1_0000 then n + 0x10_0000 else n - 0x1_0000 + 0xE000
  }

  /** The platform's `<=` on strings: by UTF-16 code units, a prefix first. */
  predicate AtMost(a: string, b: string) {
    || |a| == 0
    || (|b| > 0 && (UnitRank(a[0]) < UnitRank(b[0]) || (a[0] == b[0] && AtMost(a[1..], b[1..]))))
  }

  function NormalizePair(a: string, b: string): (string, string) {
    if AtMost(a, b) then (a, b) else (b, a)
  }

  function PairKey(a: string, b: string): string {
    var (userA, userB) := NormalizePair(a, b);
    userA + ([NUL] + userB)
  }

  lemma {:induction false} AtMostOrders(a: string, b: string)
    ensures AtMost(a, b) || AtMost(b, a)
    ensures AtMost(a, b) && AtMost(b, a) ==> a == b
  {
    if |a| > 0 && |b| > 0 {
      AtMostOrders(a[1..], b[1..]);
      if a[0] == b[0] { assert a == [a[0]] + a[1..] && b == [b[0]] + b[1..]; }
    }
  }

  lemma PairKeySymmetric(a: string, b: string)
    ensures NormalizePair(a, b) == NormalizePair(b, a) && PairKey(a, b) == PairKey(b, a)
  {
    AtMostOrders(a, b);
  }

  predicate Plain(id: string) {
    id != "" && NUL !in id
  }

  ghost predicate SamePair(a: string, b: string, c: string, d: string) {
    (a == c && b == d) || (a == d && b == c)
  }

  /** Of two ids without NUL the key tells exactly which two users it joins, whoever else there is. */
  lemma PairKeyExact(a: string, b: string, c: string, d: string)
    requires Plain(a) && Plain(b)
    ensures PairKey(a, b) == PairKey(c, d) <==> SamePair(a, b, c, d)
  {
    PairKeySymmetric(a, b);
    if PairKey(a, b) == PairKey(c, d) {
      var (p, q) := NormalizePair(a, b);
      var (r, s) := NormalizePair(c, d);
      OneNul(p, q, r, s);
    }
  }

  lemma OnlyNul(p: string, q: string, k: nat)
    requires NUL !in p && NUL !in q && k <= |p| + |q|
    ensures (p + ([NUL] + q))[k] == NUL <==> k == |p|
  {
    if k < |p| {
      assert (p + ([NUL] + q))[k] == p[k];
    } else if k > |p| {
      assert (p + ([NUL] + q))[k] == q[k - |p| - 1];
    }
  }

  lemma OneNul(p: string, q: string, r: string, s: string)
    requires NUL !in p && NUL !in q && p + ([NUL] + q) == r + ([NUL] + s)
    ensures p == r && q == s
  {
    var key := p + ([NUL] + q);
    assert key[|r|] == NUL;
    OnlyNul(p, q, |r|);
    assert p == key[..|p|] && r == key[..|r|] && q == key[|p| + 1..] && s == key[|r| + 1..];
  }

  /** The key could be read as that of the ids on both sides of its `i`-th character. */
  predicate CutsAt(key: string, i: nat) {
    && 0 < i < |key| - 1 && key[i] == NUL
    && AtMost(key[..i], key[i + 1..]) && key[..i] != key[i + 1..]
  }

  /** No NUL but the joining one cuts the key into two distinct ids in order. */
  predicate OwnKey(a: string, b: string) {
    var key, own := PairKey(a, b), |NormalizePair(a, b).0|;
    forall i :: 0 <= i < |key| && CutsAt(key, i) ==> i == own
  }

  lemma CutIsPair(key: string, i: nat)
    requires CutsAt(key, i)
    ensures PairKey(key[..i], key[i + 1..]) == key
    ensures NormalizePair(key[..i], key[i + 1..]) == (key[..i], key[i + 1..])
  {
    assert key[..i] + ([NUL] + key[i + 1..]) == key;
  }

  lemma PairIsCut(c: string, d: string)
    requires c != "" && d != "" && c != d
    ensures var (p, q) := NormalizePair(c, d);
            CutsAt(PairKey(c, d), |p|) && PairKey(c, d)[..|p|] == p && PairKey(c, d)[|p| + 1..] == q
  {
    AtMostOrders(c, d);
    var (p, q) := NormalizePair(c, d);
    assert PairKey(c, d)[..|p|] == p && PairKey(c, d)[|p| + 1..] == q;
    hide AtMost;
  }

  /** Two users have their key to themselves exactly when nothing else cuts it. */
  lemma KeyUniqueIff(a: string, b: string)
    requires a != "" && b != "" && a != b
    ensures (forall c, d :: c != "" && d != "" && c != d && PairKey(c, d) == PairKey(a, b) ==> SamePair(a, b, c, d))
            <==> OwnKey(a, b)
  {
    var key := PairKey(a, b);
    hide AtMost, PairKey;
    PairIsCut(a, b);
    if OwnKey(a, b) {
      forall c, d | c != "" && d != "" && c != d && PairKey(c, d) == key ensures SamePair(a, b, c, d) {
        PairIsCut(c, d);
        var m := |NormalizePair(c, d).0|;
        assert CutsAt(key, m) && m < |key|;
        assert NormalizePair(c, d) == (key[..m], key[m + 1..]) == NormalizePair(a, b);
        NormalizedSame(a, b, c, d);
      }
    } else {
      var i :| 0 <= i < |key| && CutsAt(key, i) && i != |NormalizePair(a, b).0|;
      OtherPair(a, b, i);
    }
  }

  lemma NormalizedSame(a: string, b: string, c: string, d: string)
    ensures NormalizePair(a, b) == NormalizePair(c, d) <==> SamePair(a, b, c, d)
  {
    PairKeySymmetric(a, b);
  }

  /** The pair on the two sides of another cut. */
  lemma OtherPair(a: string, b: string, i: nat)
    requires CutsAt(PairKey(a, b), i) && i != |NormalizePair(a, b).0|
    ensures var c, d := PairKey(a, b)[..i], PairKey(a, b)[i + 1..];
            c != "" && d != "" && c != d && PairKey(c, d) == PairKey(a, b) && !SamePair(a, b, c, d)
  {
    CutIsPair(PairKey(a, b), i);
    NormalizedSame(a, b, PairKey(a, b)[..i], PairKey(a, b)[i + 1..]);
  }

  /** Ids without NUL have their key to themselves. */
  lemma PlainOwnsKey(a: string, b: string)
    requires Plain(a) && Plain(b) && a != b
    ensures OwnKey(a, b)
  {
    forall c, d | c != "" && d != "" && c != d && PairKey(c, d) == PairKey(a, b) ensures SamePair(a, b, c, d) {
      PairKeyExact(a, b, c, d);
    }
    KeyUniqueIff(a, b);
  }

  /** An id with NUL in it can share its key with another pair altogether. */
  lemma NulCollides()
    ensures PairKey("a\0b", "c") == PairKey("a", "b\0c")
  {
    var a, b, c, d := "a\0b", "c", "a", "b\0c";
    assert AtMost(a, b) && AtMost(c, d);
    assert a + ([NUL] + b) == c + ([NUL] + d);
  }

  // ---- the store ----

  datatype Match = Match(userA: string, userB: string, createdAt: int)

  class InMemoryProfileStore {
    var likes: map<string, set<string>>
    var matches: map<string, Match>

    /** Who likes whom. */
    ghost function Likes(): set<(string, string)>
      reads this
    {
      set from, to | from in likes && to in likes[from] :: (from, to)
    }

    constructor ()
      ensures Likes() == {} && matches == map[]
    {
      likes, matches := map[], map[];
    }

    method AddLike(from: string, to: string)
      modifies this`likes
      ensures Likes() == old(Likes()) + {(from, to)}
    {
      ghost var was := likes;
      var group := if from in likes then likes[from] else {};
      likes := likes[from := group + {to}];
      forall f, t ensures (f, t) in Likes() <==> (f in was && t in was[f]) || (f == from && t == to) {}
    }

    method HasLike(from: string, to: string) returns (has: bool)
      ensures has <==> (from, to) in Likes()
    {
      has := from in likes && to in likes[from];
    }

    method AddMatch(m: Match)
      modifies this`matches
      ensures matches == old(matches)[PairKey(m.userA, m.userB) := m]
    {
      matches := matches[PairKey(m.userA, m.userB) := m];
    }

    method HasMatch(userA: string, userB: string) returns (has: bool)
      ensures has <==> PairKey(userA, userB) in matches
    {
      has := PairKey(userA, userB) in matches;
    }

    /** A whole `like` with nothing in between.  `None` is the rejection of bad ids. */
    method Like(from: string, to: string, now: int) returns (matched: Option<bool>)
      modifies this
      ensures matched.None? <==> from == "" || to == "" || from == to
      ensures matched.None? ==> Likes() == old(Likes()) && matches == old(matches)
      ensures matched.Some? ==> Likes() == old(Likes()) + {(from, to)} && matched.value == ((to, from) in Likes())
      ensures matched.Some? && !matched.value ==> matches == old(matches)
      ensures matched == Some(true) ==>
                matches.Keys == old(matches).Keys + {PairKey(from, to)}
                && forall k :: k in old(matches) ==> matches[k] == old(matches)[k]
    {
      if from == "" || to == "" || from == to {
        return None;
      }
      AddLike(from, to);
      var reciprocal := HasLike(to, from);
      if reciprocal {
        var (userA, userB) := NormalizePair(from, to);
        PairKeySymmetric(userA, userB);
        var already := HasMatch(userA, userB);
        if !already {
          AddMatch(Match(userA, userB, now));
        }
        return Some(true);
      }
      return Some(false);
    }
  }

  // ---- overlapping calls ----

  /** Where a call stands: what it does next. */
  datatype Stage = Adding | Checking | Probing | Recording | Returned(matched: bool)

  datatype Call = Call(from: string, to: string, stage: Stage)

  datatype World = World(likes: set<(string, string)>, matches: map<string, Match>, calls: seq<Call>)

  datatype Event = Begin(from: string, to: string) | Step(call: nat, now: int)

  const START := World({}, map[], [])

  function Next(w: World, e: Event): World {
    match e
    case Begin(from, to) =>
      if from == "" || to == "" || from == to then w else w.(calls := w.calls + [Call(from, to, Adding)])
    case Step(i, now) => if i < |w.calls| then Stepped(w, i, now) else w
  }

  function Stepped(w: World, i: nat, now: int): World
    requires i < |w.calls|
  {
    var c := w.calls[i];
    var (userA, userB) := NormalizePair(c.from, c.to);
    match c.stage
    case Adding => w.(likes := w.likes + {(c.from, c.to)}, calls := w.calls[i := c.(stage := Checking)])
    case Checking =>
      w.(calls := w.calls[i := c.(stage := if (c.to, c.from) in w.likes then Probing else Returned(false))])
    case Probing =>
      w.(calls := w.calls[i := c.(stage := if PairKey(userA, userB) in w.matches then Returned(true) else Recording)])
    case Recording =>
      w.(matches := w.matches[PairKey(userA, userB) := Match(userA, userB, now)],
         calls := w.calls[i := c.(stage := Returned(true))])
    case Returned(_) => w
  }

  function Run(events: seq<Event>): World {
    if |events| == 0 then START else Next(Run(events[..|events| - 1]), events[|events| - 1])
  }

  // ---- invariant ----

  ghost predicate Mutual(w: World, a: string, b: string) {
    (a, b) in w.likes && (b, a) in w.likes
  }

  ghost predicate Between(c: Call, a: string, b: string) {
    (c.from == a && c.to == b) || (c.from == b && c.to == a)
  }

  /** The call has added its like and will see the other one, or has said so. */
  ghost predicate Will(c: Call) {
    c.stage == Checking || c.stage == Probing || c.stage == Recording || c.stage == Returned(true)
  }

  ghost predicate Tells(w: World, a: string, b: string) {
    exists i :: 0 <= i < |w.calls| && Between(w.calls[i], a, b) && Will(w.calls[i])
  }

  /** Past the first step the like is there, past the check so is its reciprocal. */
  ghost predicate CallOk(w: World, c: Call) {
    && c.from != "" && c.to != "" && c.from != c.to
    && (c.stage != Adding ==> (c.from, c.to) in w.likes)
    && (c.stage == Probing || c.stage == Recording || c.stage == Returned(true) ==> (c.to, c.from) in w.likes)
    && (c.stage == Returned(true) ==> PairKey(c.from, c.to) in w.matches)
  }

  ghost predicate MatchOk(w: World, key: string)
    requires key in w.matches
  {
    var m := w.matches[key];
    key == PairKey(m.userA, m.userB) && Mutual(w, m.userA, m.userB)
  }

  /** Some call made the like. */
  ghost predicate Made(w: World, a: string, b: string) {
    exists i :: 0 <= i < |w.calls| && w.calls[i].from == a && w.calls[i].to == b && w.calls[i].stage != Adding
  }

  ghost predicate CallsOk(w: World) {
    forall i :: 0 <= i < |w.calls| ==> CallOk(w, w.calls[i])
  }

  ghost predicate MatchesOk(w: World) {
    forall key :: key in w.matches ==> MatchOk(w, key)
  }

  /** No reciprocal pair goes unnoticed by both callers. */
  ghost predicate NoneMissed(w: World) {
    forall a, b :: Mutual(w, a, b) ==> Tells(w, a, b)
  }

  ghost predicate LikesMade(w: World) {
    forall a, b :: (a, b) in w.likes ==> Made(w, a, b)
  }

  ghost predicate Inv(w: World) {
    CallsOk(w) && MatchesOk(w) && NoneMissed(w) && LikesMade(w)
  }

  lemma SteppedCallsOk(w: World, i: nat, now: int)
    requires i < |w.calls| && CallsOk(w)
    ensures CallsOk(Stepped(w, i, now))
  {
    var t := Stepped(w, i, now);
    var c := w.calls[i];
    NormalizedKey(c.from, c.to);
    hide PairKey, NormalizePair;
    forall k | 0 <= k < |t.calls| ensures CallOk(t, t.calls[k]) {
      assert CallOk(w, w.calls[k]);
    }
  }

  lemma NormalizedKey(a: string, b: string)
    ensures var (userA, userB) := NormalizePair(a, b);
            PairKey(userA, userB) == PairKey(a, b) && ((userA == a && userB == b) || (userA == b && userB == a))
  {
    PairKeySymmetric(a, b);
    var (userA, userB) := NormalizePair(a, b);
    PairKeySymmetric(userA, userB);
  }

  lemma SteppedMatchesOk(w: World, i: nat, now: int)
    requires i < |w.calls| && CallsOk(w) && MatchesOk(w)
    ensures MatchesOk(Stepped(w, i, now))
  {
    var t := Stepped(w, i, now);
    var c := w.calls[i];
    assert CallOk(w, c);
    NormalizedKey(c.from, c.to);
    hide PairKey, NormalizePair;
    forall key | key in t.matches ensures MatchOk(t, key) {
      if key in w.matches { assert MatchOk(w, key); }
    }
  }

  lemma SteppedNoneMissed(w: World, i: nat, now: int)
    requires i < |w.calls| && CallsOk(w) && NoneMissed(w)
    ensures NoneMissed(Stepped(w, i, now))
  {
    var t := Stepped(w, i, now);
    hide PairKey, NormalizePair;
    assert CallOk(w, w.calls[i]);
    forall a, b | Mutual(t, a, b) ensures Tells(t, a, b) {
      if Mutual(w, a, b) {
        var k :| 0 <= k < |w.calls| && Between(w.calls[k], a, b) && Will(w.calls[k]);
        assert Between(t.calls[k], a, b) && Will(t.calls[k]);
      } else {
        assert Between(t.calls[i], a, b) && Will(t.calls[i]);
      }
    }
  }

  lemma SteppedLikesMade(w: World, i: nat, now: int)
    requires i < |w.calls| && LikesMade(w)
    ensures LikesMade(Stepped(w, i, now))
  {
    var t := Stepped(w, i, now);
    hide PairKey, NormalizePair;
    forall a, b | (a, b) in t.likes ensures Made(t, a, b) {
      if (a, b) in w.likes {
        var k :| 0 <= k < |w.calls| && w.calls[k].from == a && w.calls[k].to == b && w.calls[k].stage != Adding;
        assert t.calls[k].from == a && t.calls[k].to == b && t.calls[k].stage != Adding;
      } else {
        assert t.calls[i].from == a && t.calls[i].to == b && t.calls[i].stage != Adding;
      }
    }
  }

  lemma BegunKeeps(w: World, c: Call)
    requires Inv(w) && c.stage == Adding && c.from != "" && c.to != "" && c.from != c.to
    ensures Inv(w.(calls := w.calls + [c]))
  {
    BegunCallsOk(w, c);
    BegunTells(w, c);
    hide CallsOk, NoneMissed, LikesMade, PairKey;
    var t := w.(calls := w.calls + [c]);
    forall key | key in t.matches ensures MatchOk(t, key) { assert MatchOk(w, key); }
  }

  lemma BegunCallsOk(w: World, c: Call)
    requires CallsOk(w) && c.stage == Adding && c.from != "" && c.to != "" && c.from != c.to
    ensures CallsOk(w.(calls := w.calls + [c]))
  {
    var t := w.(calls := w.calls + [c]);
    hide PairKey;
    forall k | 0 <= k < |t.calls| ensures CallOk(t, t.calls[k]) {
      if k < |w.calls| { assert CallOk(w, w.calls[k]); }
    }
  }

  lemma BegunTells(w: World, c: Call)
    requires NoneMissed(w) && LikesMade(w)
    ensures NoneMissed(w.(calls := w.calls + [c])) && LikesMade(w.(calls := w.calls + [c]))
  {
    var t := w.(calls := w.calls + [c]);
    hide Will, Between;
    forall a, b | Mutual(t, a, b) ensures Tells(t, a, b) {
      assert Mutual(w, a, b);
      var k :| 0 <= k < |w.calls| && Between(w.calls[k], a, b) && Will(w.calls[k]);
      assert t.calls[k] == w.calls[k];
    }
    forall a, b | (a, b) in t.likes ensures Made(t, a, b) {
      var k :| 0 <= k < |w.calls| && w.calls[k].from == a && w.calls[k].to == b && w.calls[k].stage != Adding;
      assert t.calls[k] == w.calls[k];
    }
  }

  lemma {:induction false} Invariant(events: seq<Event>)
    ensures Inv(Run(events))
  {
    hide Stepped, CallsOk, MatchesOk, NoneMissed, LikesMade;
    if |events| > 0 {
      var w := Run(events[..|events| - 1]);
      Invariant(events[..|events| - 1]);
      match events[|events| - 1] {
        case Begin(from, to) =>
          if from != "" && to != "" && from != to { BegunKeeps(w, Call(from, to, Adding)); }
        case Step(i, now) =>
          if i < |w.calls| {
            SteppedCallsOk(w, i, now);
            SteppedMatchesOk(w, i, now);
            SteppedNoneMissed(w, i, now);
            SteppedLikesMade(w, i, now);
          }
      }
    } else {
      StartOk();
    }
  }

  lemma StartOk()
    ensures Inv(START)
  {
  }

  /** A match is never recorded for two users who do not like each other. */
  lemma MatchesAreMutual(events: seq<Event>, key: string)
    requires key in Run(events).matches
    ensures var m := Run(events).matches[key];
            && key == PairKey(m.userA, m.userB)
            && (m.userA, m.userB) in Run(events).likes && (m.userB, m.userA) in Run(events).likes
  {
    hide Run;
    Invariant(events);
    assert MatchOk(Run(events), key);
  }

  ghost predicate Quiet(w: World) {
    forall i :: 0 <= i < |w.calls| ==> w.calls[i].stage.Returned?
  }

  /** Of two users who like each other at least one was told, once nothing is in flight. */
  lemma SomeoneIsTold(events: seq<Event>, a: string, b: string)
    requires Quiet(Run(events)) && Mutual(Run(events), a, b)
    ensures exists i :: 0 <= i < |Run(events).calls| && Between(Run(events).calls[i], a, b)
              && Run(events).calls[i].stage == Returned(true)
  {
    hide Run;
    Invariant(events);
    var w := Run(events);
    var i :| 0 <= i < |w.calls| && Between(w.calls[i], a, b) && Will(w.calls[i]);
    assert w.calls[i].stage.Returned?;
  }

  ghost predicate Liked(w: World, a: string, b: string) {
    exists i :: 0 <= i < |w.calls| && w.calls[i].from == a && w.calls[i].to == b
  }

  /** Two users whose likes for each other were recorded under the key. */
  ghost predicate LikedUnder(w: World, key: string, c: string, d: string) {
    PairKey(c, d) == key && Liked(w, c, d) && Liked(w, d, c)
  }

  /** Whenever no call is in flight, a key is matched exactly when two users it joins each liked the other. */
  lemma KeyMatchedIff(events: seq<Event>, a: string, b: string)
    requires Quiet(Run(events))
    ensures PairKey(a, b) in Run(events).matches <==> exists c, d :: LikedUnder(Run(events), PairKey(a, b), c, d)
  {
    var w := Run(events);
    Invariant(events);
    hide Run, PairKey, CallsOk, MatchesOk, NoneMissed, LikesMade, Liked;
    if PairKey(a, b) in w.matches {
      var m := w.matches[PairKey(a, b)];
      KeyIsMutual(w, PairKey(a, b));
      LikedIffLikes(w, m.userA, m.userB);
      LikedIffLikes(w, m.userB, m.userA);
      assert LikedUnder(w, PairKey(a, b), m.userA, m.userB);
    }
    if c, d :| LikedUnder(w, PairKey(a, b), c, d) {
      LikedIffLikes(w, c, d);
      LikedIffLikes(w, d, c);
      MutualIsMatched(w, c, d);
    }
  }

  lemma KeyIsMutual(w: World, key: string)
    requires MatchesOk(w) && key in w.matches
    ensures var m := w.matches[key]; key == PairKey(m.userA, m.userB) && Mutual(w, m.userA, m.userB)
  {
    assert MatchOk(w, key);
  }

  /** `isMatch`; `None` is the error for an empty id. */
  function IsMatch(w: World, a: string, b: string): Option<bool> {
    if a == "" || b == "" then None
    else if a == b then Some(false)
    else Some(PairKey(NormalizePair(a, b).0, NormalizePair(a, b).1) in w.matches)
  }

  /**
   * Whenever no call is in flight, two users who have their key to themselves are matched
   * exactly when each has liked the other - whatever ids anyone else has.
   */
  lemma MatchedIffMutual(events: seq<Event>, a: string, b: string)
    requires Quiet(Run(events)) && a != "" && b != "" && a != b && OwnKey(a, b)
    ensures IsMatch(Run(events), a, b) == Some(true) <==> Liked(Run(events), a, b) && Liked(Run(events), b, a)
  {
    var w := Run(events);
    KeyMatchedIff(events, a, b);
    KeyUniqueIff(a, b);
    NormalizedKey(a, b);
    Invariant(events);
    hide Run, PairKey, OwnKey, Liked, Inv, NormalizePair;
    if c, d :| LikedUnder(w, PairKey(a, b), c, d) {
      LikersDiffer(w, c, d);
    }
    if Liked(w, a, b) && Liked(w, b, a) { assert LikedUnder(w, PairKey(a, b), a, b); }
  }

  lemma LikersDiffer(w: World, c: string, d: string)
    requires Inv(w) && Liked(w, c, d)
    ensures c != "" && d != "" && c != d
  {
    var i :| 0 <= i < |w.calls| && w.calls[i].from == c && w.calls[i].to == d;
    assert CallOk(w, w.calls[i]);
  }

  /** Two likes, each run to its end. */
  function Reciprocal(c: string, d: string): seq<Event> {
    [Begin(c, d), Step(0, 0), Step(0, 0), Begin(d, c), Step(1, 0), Step(1, 0), Step(1, 0), Step(1, 0)]
  }

  lemma RunSnoc(events: seq<Event>, e: Event)
    ensures Run(events + [e]) == Next(Run(events), e)
  {
    assert (events + [e])[..|events|] == events;
    hide Next;
  }

  lemma ReciprocalMatches(c: string, d: string)
    requires c != "" && d != "" && c != d
    ensures var w := Run(Reciprocal(c, d));
            PairKey(c, d) in w.matches
            && w.calls == [Call(c, d, Returned(false)), Call(d, c, Returned(true))]
  {
    NormalizedKey(c, d);
    PairKeySymmetric(c, d);
    hide PairKey, NormalizePair;
    var a := [Begin(c, d), Step(0, 0), Step(0, 0)];
    RunSnoc([], Begin(c, d));
    RunSnoc([Begin(c, d)], Step(0, 0));
    RunSnoc([Begin(c, d), Step(0, 0)], Step(0, 0));
    assert [] + [Begin(c, d)] == [Begin(c, d)];
    assert [Begin(c, d)] + [Step(0, 0)] == [Begin(c, d), Step(0, 0)];
    assert [Begin(c, d), Step(0, 0)] + [Step(0, 0)] == a;
    assert Run(a) == World({(c, d)}, map[], [Call(c, d, Returned(false))]);
    SecondMatches(a, c, d);
    assert a + [Begin(d, c), Step(1, 0), Step(1, 0), Step(1, 0), Step(1, 0)] == Reciprocal(c, d);
  }

  lemma SecondMatches(a: seq<Event>, c: string, d: string)
    requires c != "" && d != "" && c != d && Run(a) == World({(c, d)}, map[], [Call(c, d, Returned(false))])
    ensures var w := Run(a + [Begin(d, c), Step(1, 0), Step(1, 0), Step(1, 0), Step(1, 0)]);
            PairKey(c, d) in w.matches
            && w.calls == [Call(c, d, Returned(false)), Call(d, c, Returned(true))]
  {
    NormalizedKey(d, c);
    PairKeySymmetric(c, d);
    hide PairKey, NormalizePair;
    var b := a + [Begin(d, c)];
    var e := b + [Step(1, 0)] + [Step(1, 0)];
    RunSnoc(a, Begin(d, c));
    RunSnoc(b, Step(1, 0));
    RunSnoc(b + [Step(1, 0)], Step(1, 0));
    RunSnoc(e, Step(1, 0));
    RunSnoc(e + [Step(1, 0)], Step(1, 0));
    assert e + [Step(1, 0)] + [Step(1, 0)] == a + [Begin(d, c), Step(1, 0), Step(1, 0), Step(1, 0), Step(1, 0)];
    var first := Call(c, d, Returned(false));
    assert Run(b).calls == [first, Call(d, c, Adding)];
    assert Run(e).calls == [first, Call(d, c, Probing)] && Run(e).matches == map[];
    hide Run;
  }

  /** `isMatch` can be trusted about two users, in every run, exactly when they have their key to themselves. */
  lemma IsMatchTrustedIff(a: string, b: string)
    requires a != "" && b != "" && a != b
    ensures (forall events :: Quiet(Run(events)) ==>
              (IsMatch(Run(events), a, b) == Some(true) <==> Liked(Run(events), a, b) && Liked(Run(events), b, a)))
            <==> OwnKey(a, b)
  {
    if OwnKey(a, b) {
      forall events | Quiet(Run(events))
        ensures IsMatch(Run(events), a, b) == Some(true) <==> Liked(Run(events), a, b) && Liked(Run(events), b, a)
      {
        MatchedIffMutual(events, a, b);
      }
    } else {
      var events := PhantomMatch(a, b);
    }
  }

  /** Otherwise there is a run in which two users who never liked anyone are reported as a match. */
  lemma PhantomMatch(a: string, b: string) returns (events: seq<Event>)
    requires a != "" && b != "" && a != b && !OwnKey(a, b)
    ensures Quiet(Run(events)) && IsMatch(Run(events), a, b) == Some(true)
    ensures !Liked(Run(events), a, b) && !Liked(Run(events), b, a)
  {
    var key := PairKey(a, b);
    var i :| 0 <= i < |key| && CutsAt(key, i) && i != |NormalizePair(a, b).0|;
    OtherPair(a, b, i);
    var c, d := key[..i], key[i + 1..];
    events := Reciprocal(c, d);
    ReciprocalMatches(c, d);
    NormalizedKey(a, b);
    hide PairKey, CutsAt, Run, Reciprocal, NormalizePair;
  }

  lemma MutualIsMatched(w: World, a: string, b: string)
    requires Inv(w) && Quiet(w) && Mutual(w, a, b)
    ensures PairKey(a, b) in w.matches
  {
    hide PairKey, MatchesOk, LikesMade, Mutual;
    PairKeySymmetric(a, b);
    var i :| 0 <= i < |w.calls| && Between(w.calls[i], a, b) && Will(w.calls[i]);
    assert CallOk(w, w.calls[i]) && w.calls[i].stage.Returned?;
  }

  lemma LikedIffLikes(w: World, a: string, b: string)
    requires Quiet(w) && CallsOk(w) && LikesMade(w)
    ensures Liked(w, a, b) <==> (a, b) in w.likes
  {
    hide PairKey;
    if (a, b) in w.likes { assert Made(w, a, b); }
    if Liked(w, a, b) {
      var i :| 0 <= i < |w.calls| && w.calls[i].from == a && w.calls[i].to == b;
      assert CallOk(w, w.calls[i]) && w.calls[i].stage.Returned?;
    }
  }

  // ---- what a call answers ----

  /** At step `n` call `i` looked for the reciprocal like, and `found` it or not. */
  ghost predicate LookedAt(events: seq<Event>, i: nat, found: bool, n: nat) {
    && n < |events| && events[n].Step? && events[n].call == i && i < |Run(events[..n]).calls|
    && var w := Run(events[..n]);
       w.calls[i].stage == Checking && found == ((w.calls[i].to, w.calls[i].from) in w.likes)
  }

  ghost predicate Looked(events: seq<Event>, i: nat, found: bool) {
    exists n: nat :: LookedAt(events, i, found, n)
  }

  lemma LookedStays(events: seq<Event>, i: nat, found: bool)
    requires |events| > 0 && Looked(events[..|events| - 1], i, found)
    ensures Looked(events, i, found)
  {
    var before := events[..|events| - 1];
    hide Run;
    var n: nat :| LookedAt(before, i, found, n);
    assert before[..n] == events[..n];
    assert LookedAt(events, i, found, n);
  }

  /** What a call found decides its answer. */
  predicate GoesOn(stage: Stage) {
    stage == Probing || stage == Recording || stage == Returned(true)
  }

  lemma CallMoves(w: World, e: Event, i: nat)
    requires i < |Next(w, e).calls|
    ensures |w.calls| <= |Next(w, e).calls|
    ensures var next := Next(w, e).calls[i];
            if i >= |w.calls| then next.stage == Adding
            else
              var c := w.calls[i];
              && next.from == c.from && next.to == c.to
              && if e.Step? && e.call == i then
                   if c.stage == Checking then
                     if (c.to, c.from) in w.likes then GoesOn(next.stage) else next.stage == Returned(false)
                   else
                     (GoesOn(next.stage) <==> GoesOn(c.stage)) && (next.stage == Returned(false) <==> c.stage == Returned(false))
                 else next.stage == c.stage
  {
    hide NormalizePair, PairKey;
  }

  lemma {:induction false} AnswersFit(events: seq<Event>, i: nat)
    requires i < |Run(events).calls|
    ensures GoesOn(Run(events).calls[i].stage) ==> Looked(events, i, true)
    ensures Run(events).calls[i].stage == Returned(false) ==> Looked(events, i, false)
  {
    if |events| > 0 {
      var before, e := events[..|events| - 1], events[|events| - 1];
      var w := Run(before);
      CallMoves(w, e, i);
      if i < |w.calls| {
        AnswersFit(before, i);
        if e.Step? && e.call == i && w.calls[i].stage == Checking {
          assert LookedAt(events, i, (w.calls[i].to, w.calls[i].from) in w.likes, |events| - 1);
        }
        forall found | Looked(before, i, found) ensures Looked(events, i, found) { LookedStays(events, i, found); }
      }
      hide Next, Looked;
    }
  }

  /** A call answers `matched` exactly as the reciprocal like was there when it looked, or not. */
  lemma AnswerIs(events: seq<Event>, i: nat)
    requires i < |Run(events).calls| && Run(events).calls[i].stage.Returned?
    ensures Looked(events, i, Run(events).calls[i].stage.matched)
  {
    AnswersFit(events, i);
    hide Looked, Run;
  }
}
