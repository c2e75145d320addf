/**
 * What the LRU cache means: a list of items ordered by recency, most recent
 * first.  Every operation of the cache is specified as a function on this list.
 */
module Recency {
  import opened Common

  datatype Item<V> = Item(key: string, value: V, expiresAt: int)

  /** The list `s` without position `i`. */
  function Without<T>(s: seq<T>, i: nat): (r: seq<T>)
    requires i < |s|
    ensures |r| == |s| - 1
  {
    s[..i] + s[i + 1..]
  }

  predicate Distinct<V>(s: seq<Item<V>>) {
    s == [] || (s[0].key !in KeySet(s[1..]) && Distinct(s[1..]))
  }

  function KeySet<V>(s: seq<Item<V>>): set<string> {
    if s == [] then {} else {s[0].key} + KeySet(s[1..])
  }

  /** The first position of key `k`, or the length when it is absent. */
  function IndexOf<V>(s: seq<Item<V>>, k: string): (i: nat)
    ensures i <= |s|
    ensures i < |s| ==> s[i].key == k
    ensures i == |s| <==> k !in KeySet(s)
  {
    if s == [] || s[0].key == k then 0 else 1 + IndexOf(s[1..], k)
  }

  /** The list without the items of key `k`. */
  function Sans<V>(s: seq<Item<V>>, k: string): seq<Item<V>> {
    if s == [] then []
    else if s[0].key == k then Sans(s[1..], k)
    else [s[0]] + Sans(s[1..], k)
  }

  /** The items that have not expired at time `now`. */
  function Live<V>(s: seq<Item<V>>, now: int): seq<Item<V>> {
    if s == [] then []
    else if now > s[0].expiresAt then Live(s[1..], now)
    else [s[0]] + Live(s[1..], now)
  }

  function Get<V>(s: seq<Item<V>>, k: string, now: int): (seq<Item<V>>, Option<V>) {
    var i := IndexOf(s, k);
    if i == |s| then (s, None)
    else if now > s[i].expiresAt then (Sans(s, k), None)
    else ([s[i]] + Sans(s, k), Some(s[i].value))
  }

  function Has<V>(s: seq<Item<V>>, k: string, now: int): (seq<Item<V>>, bool) {
    var i := IndexOf(s, k);
    if i == |s| then (s, false)
    else if now > s[i].expiresAt then (Sans(s, k), false)
    else (s, true)
  }

  function Set<V>(s: seq<Item<V>>, k: string, v: V, expiresAt: int, cap: nat): seq<Item<V>> {
    var t := [Item(k, v, expiresAt)] + Sans(s, k);
    if k !in KeySet(s) && |t| > cap then t[..|t| - 1] else t
  }

  // ---- facts about keys ----

  lemma {:induction false} SansKeys<V>(s: seq<Item<V>>, k: string)
    ensures KeySet(Sans(s, k)) == KeySet(s) - {k}
  {
    if s != [] { SansKeys(s[1..], k); }
  }

  lemma {:induction false} SansAbsent<V>(s: seq<Item<V>>, k: string)
    requires k !in KeySet(s)
    ensures Sans(s, k) == s
  {
    if s != [] { SansAbsent(s[1..], k); }
  }

  lemma {:induction false} KeyAt<V>(s: seq<Item<V>>, i: nat)
    requires i < |s|
    ensures s[i].key in KeySet(s)
  {
    if i > 0 { KeyAt(s[1..], i - 1); }
  }

  lemma {:induction false} SansDistinct<V>(s: seq<Item<V>>, k: string)
    requires Distinct(s)
    ensures Distinct(Sans(s, k))
  {
    if s != [] {
      SansDistinct(s[1..], k);
      SansKeys(s[1..], k);
    }
  }

  lemma {:induction false} KeySetSize<V>(s: seq<Item<V>>)
    requires Distinct(s)
    ensures |KeySet(s)| == |s|
  {
    if s != [] {
      KeySetSize(s[1..]);
    }
  }

  /** In a list without repeated keys, removing position `i` is removing its key. */
  lemma {:induction false} SansAt<V>(s: seq<Item<V>>, i: nat)
    requires Distinct(s) && i < |s|
    ensures Sans(s, s[i].key) == Without(s, i)
    ensures IndexOf(s, s[i].key) == i
  {
    if i == 0 {
      SansAbsent(s[1..], s[0].key);
    } else {
      KeyAt(s[1..], i - 1);
      SansAt(s[1..], i - 1);
      assert Without(s, i) == [s[0]] + Without(s[1..], i - 1);
    }
  }

  // ---- a sweep that has still to visit the keys `todo` ----

  /** Items not visited yet, or visited and alive. */
  function Keep<V>(s: seq<Item<V>>, todo: set<string>, now: int): seq<Item<V>> {
    if s == [] then []
    else if s[0].key !in todo && now > s[0].expiresAt then Keep(s[1..], todo, now)
    else [s[0]] + Keep(s[1..], todo, now)
  }

  lemma {:induction false} KeepAll<V>(s: seq<Item<V>>, todo: set<string>, now: int)
    requires KeySet(s) <= todo
    ensures Keep(s, todo, now) == s
  {
    if s != [] { KeepAll(s[1..], todo, now); }
  }

  lemma {:induction false} KeepNone<V>(s: seq<Item<V>>, now: int)
    ensures Keep(s, {}, now) == Live(s, now)
  {
    if s != [] { KeepNone(s[1..], now); }
  }

  lemma {:induction false} KeepKeys<V>(s: seq<Item<V>>, todo: set<string>, now: int)
    ensures KeySet(s) * todo <= KeySet(Keep(s, todo, now)) <= KeySet(s)
  {
    if s != [] { KeepKeys(s[1..], todo, now); }
  }

  /** Visiting `k` removes its item exactly when it has expired. */
  lemma {:induction false} KeepStep<V>(s: seq<Item<V>>, todo: set<string>, k: string, now: int)
    requires Distinct(s) && k in todo && k in KeySet(s)
    ensures k in KeySet(Keep(s, todo, now))
    ensures Keep(s, todo - {k}, now) == Visit(Keep(s, todo, now), k, now)
  {
    KeepKeys(s, todo, now);
    var t := Keep(s[1..], todo, now);
    assert Keep(s, todo, now) == [s[0]] + t || (Keep(s, todo, now) == t && s[0].key != k);
    assert ([s[0]] + t)[1..] == t;
    if s[0].key == k {
      KeepAway(s[1..], todo, k, now);
    } else {
      KeepStep(s[1..], todo, k, now);
    }
  }

  function Visit<V>(t: seq<Item<V>>, k: string, now: int): seq<Item<V>>
    requires k in KeySet(t)
  {
    if now > t[IndexOf(t, k)].expiresAt then Sans(t, k) else t
  }

  lemma {:induction false} KeepAway<V>(s: seq<Item<V>>, todo: set<string>, k: string, now: int)
    requires k !in KeySet(s)
    ensures Keep(s, todo - {k}, now) == Keep(s, todo, now) && Sans(Keep(s, todo, now), k) == Keep(s, todo, now)
  {
    KeepKeys(s, todo, now);
    SansAbsent(Keep(s, todo, now), k);
    if s != [] { KeepAway(s[1..], todo, k, now); }
  }
}
