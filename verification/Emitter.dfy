/**
 * The subscription registry, packages/events/src/emitter.ts: exact subscriptions
 * indexed by name, wildcard ones in a list of their own.  `all` is the one ghost
 * list, in registration order, that the two indexes must stand for.
 */
module Emitter {
  import opened Matcher

  class Subscription {
    const order: nat
    const key: string
    const wildcard: bool
    const once: bool
    var active: bool

    constructor (order: nat, key: string, wildcard: bool, once: bool)
      ensures this.order == order && this.key == key && this.wildcard == wildcard && this.once == once && active
    {
      this.order, this.key, this.wildcard, this.once, active := order, key, wildcard, once, true;
    }
  }

  // ---- what the indexes mean, over the one list ----

  function ExactOf(all: seq<Subscription>, name: string): seq<Subscription> {
    if |all| == 0 then []
    else
      var before := ExactOf(all[..|all| - 1], name);
      var s := all[|all| - 1];
      if !s.wildcard && s.key == name then before + [s] else before
  }

  function WildcardsOf(all: seq<Subscription>): seq<Subscription> {
    if |all| == 0 then []
    else
      var before := WildcardsOf(all[..|all| - 1]);
      if all[|all| - 1].wildcard then before + [all[|all| - 1]] else before
  }

  /** The linear scan: the listed subscriptions whose key matches, in order. */
  function Matching(all: seq<Subscription>, name: string): seq<Subscription> {
    if |all| == 0 then []
    else
      var before := Matching(all[..|all| - 1], name);
      if MatchesPattern(name, all[|all| - 1].key) then before + [all[|all| - 1]] else before
  }

  function Without(all: seq<Subscription>, s: Subscription): seq<Subscription> {
    if |all| == 0 then []
    else
      var before := Without(all[..|all| - 1], s);
      if all[|all| - 1] == s then before else before + [all[|all| - 1]]
  }

  /** In registration order. */
  ghost predicate Increasing(all: seq<Subscription>) {
    forall i, j :: 0 <= i < j < |all| ==> all[i].order < all[j].order
  }

  /** Every member of `part` is one of `all`. */
  ghost predicate Drawn(part: seq<Subscription>, all: seq<Subscription>) {
    forall i :: 0 <= i < |part| ==> part[i] in all
  }

  lemma DrawnAppend(part: seq<Subscription>, all: seq<Subscription>, s: Subscription)
    requires Drawn(part, all)
    ensures Drawn(part, all + [s]) && Drawn(part + [s], all + [s])
  {
    forall i | 0 <= i < |part| + 1 ensures (part + [s])[i] in all + [s] {
      if i < |part| { assert part[i] in all; }
    }
    forall i | 0 <= i < |part| ensures part[i] in all + [s] { assert part[i] in all; }
  }

  lemma IncreasingAppend(part: seq<Subscription>, all: seq<Subscription>, s: Subscription)
    requires Increasing(part) && Drawn(part, all) && Increasing(all + [s])
    ensures Increasing(part + [s])
  {
    forall i | 0 <= i < |part| ensures part[i].order < s.order {
      var k :| 0 <= k < |all| && all[k] == part[i];
      assert (all + [s])[k] == all[k] && (all + [s])[|all|] == s;
    }
  }

  lemma {:induction false} MatchingIncreases(all: seq<Subscription>, name: string)
    requires Increasing(all)
    ensures Increasing(Matching(all, name)) && Drawn(Matching(all, name), all)
  {
    hide MatchesPattern, Increasing, Drawn;
    if |all| > 0 {
      var before, last := all[..|all| - 1], all[|all| - 1];
      assert all == before + [last];
      IncreasingPrefix(before, last);
      MatchingIncreases(before, name);
      DrawnAppend(Matching(before, name), before, last);
      IncreasingAppend(Matching(before, name), before, last);
    } else {
      NoneIncreases();
    }
  }

  lemma NoneIncreases()
    ensures Increasing([]) && Drawn([], [])
  {
  }

  lemma IncreasingPrefix(before: seq<Subscription>, last: Subscription)
    requires Increasing(before + [last])
    ensures Increasing(before)
  {
    forall i, j | 0 <= i < j < |before| ensures before[i].order < before[j].order {
      assert (before + [last])[i] == before[i] && (before + [last])[j] == before[j];
    }
  }

  /** The scan answers with exactly the matching subscriptions. */
  lemma {:induction false} MatchingFacts(all: seq<Subscription>, name: string)
    ensures forall i :: 0 <= i < |Matching(all, name)| ==> MatchesPattern(name, Matching(all, name)[i].key)
    ensures forall i :: 0 <= i < |all| && MatchesPattern(name, all[i].key) ==> all[i] in Matching(all, name)
  {
    hide MatchesPattern;
    if |all| > 0 {
      MatchingFacts(all[..|all| - 1], name);
      assert all == all[..|all| - 1] + [all[|all| - 1]];
    }
  }

  lemma {:induction false} ExactFacts(all: seq<Subscription>, name: string)
    ensures forall i :: 0 <= i < |ExactOf(all, name)| ==>
              ExactOf(all, name)[i] in all && !ExactOf(all, name)[i].wildcard && ExactOf(all, name)[i].key == name
    ensures forall i :: 0 <= i < |all| && !all[i].wildcard && all[i].key == name ==> all[i] in ExactOf(all, name)
  {
    if |all| > 0 {
      ExactFacts(all[..|all| - 1], name);
      assert all == all[..|all| - 1] + [all[|all| - 1]];
    }
  }

  lemma {:induction false} WildcardFacts(all: seq<Subscription>)
    ensures forall i :: 0 <= i < |WildcardsOf(all)| ==> WildcardsOf(all)[i] in all && WildcardsOf(all)[i].wildcard
    ensures forall i :: 0 <= i < |all| && all[i].wildcard ==> all[i] in WildcardsOf(all)
  {
    if |all| > 0 {
      WildcardFacts(all[..|all| - 1]);
      assert all == all[..|all| - 1] + [all[|all| - 1]];
    }
  }

  lemma {:induction false} WithoutMembers(all: seq<Subscription>, x: Subscription)
    ensures Drawn(Without(all, x), all) && x !in Without(all, x)
    ensures forall i :: 0 <= i < |all| && all[i] != x ==> all[i] in Without(all, x)
  {
    hide Drawn;
    if |all| > 0 {
      var before, last := all[..|all| - 1], all[|all| - 1];
      WithoutMembers(before, x);
      DrawnAppend(Without(before, x), before, last);
      assert all == before + [last];
    } else {
      NoneIncreases();
    }
  }

  lemma {:induction false} WithoutIncreases(all: seq<Subscription>, x: Subscription)
    requires Increasing(all)
    ensures Increasing(Without(all, x))
  {
    hide Increasing, Drawn;
    if |all| > 0 {
      var before, last := all[..|all| - 1], all[|all| - 1];
      assert all == before + [last];
      IncreasingPrefix(before, last);
      WithoutIncreases(before, x);
      WithoutMembers(before, x);
      IncreasingAppend(Without(before, x), before, last);
    }
  }

  lemma IndexesAppend(all: seq<Subscription>, s: Subscription, name: string)
    ensures ExactOf(all + [s], name) ==
            if !s.wildcard && s.key == name then ExactOf(all, name) + [s] else ExactOf(all, name)
    ensures WildcardsOf(all + [s]) == if s.wildcard then WildcardsOf(all) + [s] else WildcardsOf(all)
  {
    assert (all + [s])[..|all|] == all;
  }

  /** Removing a subscription from the one list removes it from its own index only. */
  lemma {:induction false} IndexesWithout(all: seq<Subscription>, x: Subscription, name: string)
    ensures ExactOf(Without(all, x), name) == Without(ExactOf(all, name), x)
    ensures WildcardsOf(Without(all, x)) == Without(WildcardsOf(all), x)
  {
    hide *;
    if |all| == 0 {
      assert all == [];
      IndexesOfNone(x, name);
    } else {
      IndexesWithout(all[..|all| - 1], x, name);
      IndexesWithoutStep(all[..|all| - 1], all[|all| - 1], x, name);
      assert all == all[..|all| - 1] + [all[|all| - 1]];
    }
  }

  lemma IndexesOfNone(x: Subscription, name: string)
    ensures Without([], x) == ExactOf([], name) == WildcardsOf([]) == []
  {
  }

  lemma IndexesWithoutStep(all: seq<Subscription>, s: Subscription, x: Subscription, name: string)
    requires ExactOf(Without(all, x), name) == Without(ExactOf(all, name), x)
    requires WildcardsOf(Without(all, x)) == Without(WildcardsOf(all), x)
    ensures ExactOf(Without(all + [s], x), name) == Without(ExactOf(all + [s], name), x)
    ensures WildcardsOf(Without(all + [s], x)) == Without(WildcardsOf(all + [s]), x)
  {
    hide *;
    WithoutAppend(all, s, x);
    IndexesAppend(all, s, name);
    IndexesAppend(Without(all, x), s, name);
    WithoutAppend(ExactOf(all, name), s, x);
    WithoutAppend(WildcardsOf(all), s, x);
  }

  lemma WithoutAppend(s: seq<Subscription>, last: Subscription, x: Subscription)
    ensures Without(s + [last], x) == if last == x then Without(s, x) else Without(s, x) + [last]
  {
    assert (s + [last])[..|s|] == s;
  }

  lemma {:induction false} WithoutAbsent(all: seq<Subscription>, x: Subscription)
    requires x !in all
    ensures Without(all, x) == all
  {
    if |all| > 0 {
      assert all == all[..|all| - 1] + [all[|all| - 1]];
      WithoutAbsent(all[..|all| - 1], x);
    }
  }

  // ---- sorting by registration order ----

  function Insert(s: Subscription, sorted: seq<Subscription>): seq<Subscription> {
    if |sorted| == 0 || s.order <= sorted[0].order then [s] + sorted else [sorted[0]] + Insert(s, sorted[1..])
  }

  /** The array's `sort` by `order`. */
  function SortByOrder(s: seq<Subscription>): seq<Subscription> {
    if |s| == 0 then [] else Insert(s[0], SortByOrder(s[1..]))
  }

  ghost predicate Ascending(s: seq<Subscription>) {
    forall i, j :: 0 <= i < j < |s| ==> s[i].order <= s[j].order
  }

  lemma AscendingCons(x: Subscription, s: seq<Subscription>)
    requires Ascending(s) && forall i :: 0 <= i < |s| ==> x.order <= s[i].order
    ensures Ascending([x] + s)
  {
  }

  lemma AscendingTail(s: seq<Subscription>)
    requires |s| > 0 && Ascending(s)
    ensures Ascending(s[1..]) && forall i :: 0 <= i < |s| ==> s[0].order <= s[i].order
  {
  }

  lemma {:induction false} InsertBounds(s: Subscription, sorted: seq<Subscription>, low: Subscription)
    requires low.order <= s.order && forall i :: 0 <= i < |sorted| ==> low.order <= sorted[i].order
    ensures forall i :: 0 <= i < |Insert(s, sorted)| ==> low.order <= Insert(s, sorted)[i].order
  {
    if |sorted| > 0 { InsertBounds(s, sorted[1..], low); }
  }

  lemma {:induction false} InsertAscends(s: Subscription, sorted: seq<Subscription>)
    requires Ascending(sorted)
    ensures Ascending(Insert(s, sorted))
  {
    hide Ascending;
    if |sorted| == 0 {
      AscendingCons(s, sorted);
    } else if s.order <= sorted[0].order {
      AscendingTail(sorted);
      AscendingCons(s, sorted);
    } else {
      AscendingTail(sorted);
      InsertAscends(s, sorted[1..]);
      InsertBounds(s, sorted[1..], sorted[0]);
      AscendingCons(sorted[0], Insert(s, sorted[1..]));
    }
  }

  lemma {:induction false} InsertHolds(s: Subscription, sorted: seq<Subscription>)
    ensures multiset(Insert(s, sorted)) == multiset(sorted) + multiset{s}
  {
    if |sorted| > 0 {
      assert sorted == [sorted[0]] + sorted[1..];
      InsertHolds(s, sorted[1..]);
    }
  }

  lemma {:induction false} SortFacts(s: seq<Subscription>)
    ensures Ascending(SortByOrder(s)) && multiset(SortByOrder(s)) == multiset(s)
  {
    hide Insert, Ascending;
    if |s| > 0 {
      SortFacts(s[1..]);
      InsertAscends(s[0], SortByOrder(s[1..]));
      InsertHolds(s[0], SortByOrder(s[1..]));
      assert s == [s[0]] + s[1..];
    } else {
      NoneAscends();
    }
  }

  lemma NoneAscends()
    ensures Ascending([])
  {
  }

  /** A strictly increasing list is the only ascending arrangement of its members. */
  lemma {:induction false} SameOrder(a: seq<Subscription>, b: seq<Subscription>)
    requires Increasing(a) && Ascending(b) && multiset(a) == multiset(b)
    ensures a == b
  {
    hide Increasing, Ascending;
    assert |multiset(a)| == |a| && |multiset(b)| == |b|;
    if |a| > 0 {
      SameFirst(a, b);
      SameRest(a, b);
      IncreasingTail(a);
      AscendingTail(b);
      SameOrder(a[1..], b[1..]);
      assert a == [a[0]] + a[1..] && b == [b[0]] + b[1..];
    }
  }

  lemma SameRest(a: seq<Subscription>, b: seq<Subscription>)
    requires |a| > 0 && |b| > 0 && a[0] == b[0] && multiset(a) == multiset(b)
    ensures multiset(a[1..]) == multiset(b[1..])
  {
    assert a == [a[0]] + a[1..] && b == [b[0]] + b[1..];
    assert multiset(a[1..]) == multiset(a) - multiset{a[0]};
    assert multiset(b[1..]) == multiset(b) - multiset{b[0]};
  }

  lemma IncreasingTail(s: seq<Subscription>)
    requires |s| > 0 && Increasing(s)
    ensures Increasing(s[1..])
  {
  }

  lemma SameFirst(a: seq<Subscription>, b: seq<Subscription>)
    requires |a| > 0 && |b| > 0 && Increasing(a) && Ascending(b) && multiset(a) == multiset(b)
    ensures a[0] == b[0]
  {
    assert b[0] in multiset(b) && a[0] in multiset(a);
    assert b[0] in a && a[0] in b;
    var i :| 0 <= i < |a| && a[i] == b[0];
    var j :| 0 <= j < |b| && b[j] == a[0];
  }

  /** The indexes that do not hold `x` stay as they are. */
  lemma OwnIndexOnly(all: seq<Subscription>, x: Subscription, name: string)
    ensures ExactOf(Without(all, x), name) ==
            if !x.wildcard && name == x.key then Without(ExactOf(all, name), x) else ExactOf(all, name)
    ensures WildcardsOf(Without(all, x)) == if x.wildcard then Without(WildcardsOf(all), x) else WildcardsOf(all)
  {
    hide *;
    WildcardFacts(all);
    ExactFacts(all, name);
    IndexesWithout(all, x, name);
    if !x.wildcard { WithoutAbsent(WildcardsOf(all), x); }
    if x.wildcard || name != x.key { WithoutAbsent(ExactOf(all, name), x); }
  }

  /** The exact subscriptions filed under a name. */
  function At(exact: map<string, seq<Subscription>>, name: string): seq<Subscription> {
    if name in exact then exact[name] else []
  }

  /** The two indexes split the one list, and no empty set is kept. */
  ghost predicate Indexed(all: seq<Subscription>, exact: map<string, seq<Subscription>>, wildcards: seq<Subscription>) {
    && (forall name :: At(exact, name) == ExactOf(all, name))
    && (forall name :: name in exact ==> exact[name] != [])
    && wildcards == WildcardsOf(all)
  }

  function AddTo(exact: map<string, seq<Subscription>>, s: Subscription): map<string, seq<Subscription>> {
    exact[s.key := At(exact, s.key) + [s]]
  }

  /** An emptied set leaves the map. */
  function RemoveFrom(exact: map<string, seq<Subscription>>, s: Subscription): map<string, seq<Subscription>> {
    if s.key !in exact then exact
    else
      var left := Without(exact[s.key], s);
      if |left| == 0 then exact - {s.key} else exact[s.key := left]
  }

  lemma AddKeepsIndexes(all: seq<Subscription>, exact: map<string, seq<Subscription>>, wildcards: seq<Subscription>,
                        s: Subscription)
    requires Indexed(all, exact, wildcards)
    ensures Indexed(all + [s], if s.wildcard then exact else AddTo(exact, s),
                    if s.wildcard then wildcards + [s] else wildcards)
  {
    hide ExactOf, WildcardsOf;
    IndexesAppend(all, s, s.key);
    var next := if s.wildcard then exact else AddTo(exact, s);
    forall name ensures At(next, name) == ExactOf(all + [s], name) {
      IndexesAppend(all, s, name);
      assert At(exact, name) == ExactOf(all, name);
    }
  }

  lemma RemoveKeepsIndexes(all: seq<Subscription>, exact: map<string, seq<Subscription>>, wildcards: seq<Subscription>,
                           s: Subscription)
    requires Indexed(all, exact, wildcards)
    ensures Indexed(Without(all, s), if s.wildcard then exact else RemoveFrom(exact, s),
                    if s.wildcard then Without(wildcards, s) else wildcards)
  {
    hide ExactOf, WildcardsOf, Without;
    OwnIndexOnly(all, s, s.key);
    IndexesOfNone(s, s.key);
    var next := if s.wildcard then exact else RemoveFrom(exact, s);
    forall name ensures At(next, name) == ExactOf(Without(all, s), name) {
      OwnIndexOnly(all, s, name);
      assert At(exact, name) == ExactOf(all, name);
    }
  }

  lemma EmptyIndexed()
    ensures Indexed([], map[], [])
  {
    forall name ensures At(map[], name) == ExactOf([], name) {}
  }

  /** What the two indexes hold of the one list. */
  lemma IndexFacts(all: seq<Subscription>, exact: map<string, seq<Subscription>>, wildcards: seq<Subscription>,
                   name: string)
    requires Indexed(all, exact, wildcards)
    ensures At(exact, name) == ExactOf(all, name) && wildcards == WildcardsOf(all)
    ensures Drawn(At(exact, name), all) && Drawn(wildcards, all)
    ensures forall i :: 0 <= i < |all| ==>
              if all[i].wildcard then all[i] in wildcards else all[i].key == name ==> all[i] in At(exact, name)
  {
    hide ExactOf, WildcardsOf, At;
    assert At(exact, name) == ExactOf(all, name);
    ExactFacts(all, name);
    WildcardFacts(all);
  }

  // ---- the two indexes together hold what the one list holds ----

  lemma MatchingStep(all: seq<Subscription>, i: nat, name: string)
    requires i < |all|
    ensures Matching(all[..i + 1], name) ==
            Matching(all[..i], name) + if MatchesPattern(name, all[i].key) then [all[i]] else []
  {
    assert all[..i + 1][..i] == all[..i];
  }

  lemma {:induction false} SameSubscriptions(all: seq<Subscription>, name: string)
    requires forall i :: 0 <= i < |all| ==> all[i].wildcard == IsWildcard(all[i].key)
    ensures multiset(ExactOf(all, name) + Matching(WildcardsOf(all), name)) == multiset(Matching(all, name))
    ensures |ExactOf(all, name) + Matching(WildcardsOf(all), name)| == |Matching(all, name)|
  {
    if |all| > 0 {
      var n := |all| - 1;
      assert all == all[..n] + [all[n]];
      SameSubscriptions(all[..n], name);
      var w := WildcardsOf(all[..n]) + [all[n]];
      MatchingStep(w, |w| - 1, name);
      assert w[..|w| - 1] == WildcardsOf(all[..n]) && w[..|w|] == w;
      assert all[n] in all;
    }
  }

  /** Sorting the two partial answers by order gives the answer of the linear scan. */
  lemma SortedScan(all: seq<Subscription>, name: string)
    requires Increasing(all) && forall i :: 0 <= i < |all| ==> all[i].wildcard == IsWildcard(all[i].key)
    ensures SortByOrder(ExactOf(all, name) + Matching(WildcardsOf(all), name)) == Matching(all, name)
  {
    hide *;
    SameSubscriptions(all, name);
    SortFacts(ExactOf(all, name) + Matching(WildcardsOf(all), name));
    MatchingIncreases(all, name);
    SameOrder(Matching(all, name), SortByOrder(ExactOf(all, name) + Matching(WildcardsOf(all), name)));
  }

  function CountNamed(all: seq<Subscription>, names: set<string>): nat {
    if |all| == 0 then 0
    else
      var s := all[|all| - 1];
      CountNamed(all[..|all| - 1], names) + if !s.wildcard && s.key in names then 1 else 0
  }

  lemma {:induction false} CountNone(all: seq<Subscription>)
    ensures CountNamed(all, {}) == 0
  {
    if |all| > 0 { CountNone(all[..|all| - 1]); }
  }

  lemma {:induction false} CountOneMore(all: seq<Subscription>, names: set<string>, name: string)
    requires name !in names
    ensures CountNamed(all, names + {name}) == CountNamed(all, names) + |ExactOf(all, name)|
  {
    if |all| > 0 { CountOneMore(all[..|all| - 1], names, name); }
  }

  ghost predicate NamesAll(all: seq<Subscription>, names: set<string>) {
    forall i :: 0 <= i < |all| && !all[i].wildcard ==> all[i].key in names
  }

  lemma EveryNameFiled(all: seq<Subscription>, exact: map<string, seq<Subscription>>, wildcards: seq<Subscription>)
    requires Indexed(all, exact, wildcards)
    ensures NamesAll(all, exact.Keys)
  {
    hide ExactOf, WildcardsOf;
    forall i | 0 <= i < |all| && !all[i].wildcard ensures all[i].key in exact.Keys {
      ExactFacts(all, all[i].key);
      assert At(exact, all[i].key) == ExactOf(all, all[i].key) && all[i] in ExactOf(all, all[i].key);
    }
  }

  lemma NoneMatches(name: string)
    ensures Matching([], name) == []
  {
  }

  lemma {:induction false} CountSplits(all: seq<Subscription>, names: set<string>)
    requires NamesAll(all, names)
    ensures CountNamed(all, names) + |WildcardsOf(all)| == |all|
  {
    if |all| > 0 {
      assert all == all[..|all| - 1] + [all[|all| - 1]];
      assert all[|all| - 1] in all;
      CountSplits(all[..|all| - 1], names);
    }
  }

  /** Registration numbers and kinds, for a list whose members are `cells`. */
  ghost predicate Numbered(all: seq<Subscription>, cells: set<Subscription>, nextOrder: nat) {
    && Increasing(all)
    && (forall i :: 0 <= i < |all| ==> all[i].order < nextOrder && all[i].wildcard == IsWildcard(all[i].key))
    && (forall i :: 0 <= i < |all| ==> all[i] in cells)
  }

  lemma NumberedAdd(all: seq<Subscription>, cells: set<Subscription>, s: Subscription)
    requires Numbered(all, cells, s.order) && s.wildcard == IsWildcard(s.key)
    ensures Numbered(all + [s], cells + {s}, s.order + 1)
  {
    hide IsWildcard;
  }

  lemma NumberedWithout(all: seq<Subscription>, cells: set<Subscription>, nextOrder: nat, s: Subscription)
    requires Numbered(all, cells, nextOrder)
    ensures Numbered(Without(all, s), cells - {s}, nextOrder) && s !in Without(all, s)
  {
    hide Increasing, Without, IsWildcard;
    WithoutMembers(all, s);
    WithoutIncreases(all, s);
  }

  class Emitter {
    var nextOrder: nat
    var exact: map<string, seq<Subscription>>
    var wildcards: seq<Subscription>
    ghost var all: seq<Subscription>  // every active subscription, in registration order
    ghost var cells: set<Subscription>

    ghost predicate Valid()
      reads this, cells
    {
      && Indexed(all, exact, wildcards)
      && Numbered(all, cells, nextOrder)
      && forall s :: s in cells ==> s.active
    }

    constructor ()
      ensures Valid() && all == [] && cells == {}
    {
      nextOrder, exact, wildcards, all, cells := 0, map[], [], [], {};
    }

    /** Register a listener; the handle removes it. */
    method Add(key: string, once: bool) returns (sub: Subscription)
      requires Valid()
      modifies this
      ensures Valid() && fresh(sub) && sub.active && all == old(all) + [sub] && cells == old(cells) + {sub}
      ensures sub.key == key && sub.once == once && sub.order == old(nextOrder)
    {
      var wildcard := IsWildcard(key);
      sub := new Subscription(nextOrder, key, wildcard, once);
      AddKeepsIndexes(all, exact, wildcards, sub);
      NumberedAdd(all, cells, sub);
      hide Numbered, Indexed, IsWildcard, AddTo;
      nextOrder := nextOrder + 1;
      all := all + [sub];
      cells := cells + {sub};
      if wildcard {
        wildcards := wildcards + [sub];
      } else {
        exact := AddTo(exact, sub);
      }
    }

    /** Cancel a subscription.  Idempotent. */
    method Remove(sub: Subscription)
      requires Valid() && (sub.active ==> sub in cells)
      modifies this, sub`active
      ensures Valid() && !sub.active && cells == old(cells) - {sub}
      ensures all == if old(sub.active) then Without(old(all), sub) else old(all)
    {
      hide Numbered, Indexed, IsWildcard, RemoveFrom, Without;
      if !sub.active {
        return;
      }
      NumberedWithout(all, cells, nextOrder, sub);
      RemoveKeepsIndexes(all, exact, wildcards, sub);
      sub.active := false;
      all := Without(all, sub);
      cells := cells - {sub};
      if sub.wildcard {
        wildcards := Without(wildcards, sub);
      } else {
        exact := RemoveFrom(exact, sub);
      }
    }

    /**
     * The active subscriptions that match a fired name, exact and wildcard together, as
     * a linear scan of one list in registration order would give them.
     */
    method Resolve(name: string) returns (matches: seq<Subscription>)
      requires Valid()
      ensures matches == Matching(all, name)
    {
      hide ExactOf, WildcardsOf, Increasing, Indexed, IsWildcard, MatchesPattern, At, SortByOrder, Matching;
      IndexFacts(all, exact, wildcards, name);
      matches := [];
      var direct := At(exact, name);
      for i := 0 to |direct|
        invariant matches == direct[..i]
      {
        if direct[i].active {
          matches := matches + [direct[i]];
        }
      }
      NoneMatches(name);
      for i := 0 to |wildcards|
        invariant matches == direct + Matching(wildcards[..i], name)
      {
        MatchingStep(wildcards, i, name);
        if wildcards[i].active && MatchesPattern(name, wildcards[i].key) {
          matches := matches + [wildcards[i]];
        }
      }
      assert wildcards[..|wildcards|] == wildcards;
      SortedScan(all, name);
      matches := SortByOrder(matches);
    }

    /** How many active subscriptions a fired name would reach. */
    method ListenerCount(name: string) returns (count: nat)
      requires Valid()
      ensures count == |Matching(all, name)|
    {
      hide ExactOf, WildcardsOf, Increasing, Indexed, IsWildcard, MatchesPattern, At, Matching;
      IndexFacts(all, exact, wildcards, name);
      count := 0;
      var direct := At(exact, name);
      for i := 0 to |direct|
        invariant count == i
      {
        if direct[i].active {
          count := count + 1;
        }
      }
      NoneMatches(name);
      for i := 0 to |wildcards|
        invariant count == |direct| + |Matching(wildcards[..i], name)|
      {
        MatchingStep(wildcards, i, name);
        if wildcards[i].active && MatchesPattern(name, wildcards[i].key) {
          count := count + 1;
        }
      }
      assert wildcards[..|wildcards|] == wildcards;
      SameSubscriptions(all, name);
    }

    /** The size of the whole registry, summed over both indexes. */
    method TotalCount() returns (total: nat)
      requires Valid()
      ensures total == |all|
    {
      EveryNameFiled(all, exact, wildcards);
      hide ExactOf, WildcardsOf, Increasing, Indexed, IsWildcard, At, CountNamed, NamesAll;
      CountNone(all);
      total := 0;
      var names := exact.Keys;
      assert exact.Keys - names == {};
      while names != {}
        invariant names <= exact.Keys && total == CountNamed(all, exact.Keys - names)
        decreases |names|
      {
        var name :| name in names;
        IndexFacts(all, exact, wildcards, name);
        CountOneMore(all, exact.Keys - names, name);
        assert exact.Keys - names + {name} == exact.Keys - (names - {name});
        total := total + |At(exact, name)|;
        names := names - {name};
      }
      IndexFacts(all, exact, wildcards, "");
      assert exact.Keys - names == exact.Keys;
      CountSplits(all, exact.Keys);
      total := total + |wildcards|;
    }

    /** Remove every subscription. */
    method Clear()
      requires Valid()
      modifies this, cells`active
      ensures Valid() && all == [] && cells == {} && nextOrder == old(nextOrder)
      ensures forall i :: 0 <= i < |old(all)| ==> !old(all)[i].active
    {
      EveryNameFiled(all, exact, wildcards);
      EmptyIndexed();
      hide Indexed, Increasing, IsWildcard, At;
      var names := exact.Keys;
      while names != {}
        invariant unchanged(this)
        invariant forall k :: 0 <= k < |all| && !all[k].wildcard && all[k].key !in names ==> !all[k].active
        decreases |names|
      {
        var name :| name in names;
        IndexFacts(all, exact, wildcards, name);
        Deactivate(At(exact, name), cells);
        names := names - {name};
      }
      IndexFacts(all, exact, wildcards, "");
      Deactivate(wildcards, cells);
      exact, wildcards, all, cells := map[], [], [], {};
    }
  }

  method Deactivate(subs: seq<Subscription>, ghost cells: set<Subscription>)
    requires forall i :: 0 <= i < |subs| ==> subs[i] in cells
    modifies cells`active
    ensures forall i :: 0 <= i < |subs| ==> !subs[i].active
    ensures forall s :: s in cells && !old(s.active) ==> !s.active
  {
    for i := 0 to |subs|
      invariant forall k :: 0 <= k < i ==> !subs[k].active
      invariant forall s :: s in cells && !old(s.active) ==> !s.active
    {
      subs[i].active := false;
    }
  }
}
