/**
 * Fairness of smooth weighted round robin for a fixed pool, first on the vector
 * `w` of its weights, then for the credits map that the balancer really keeps.
 */
module BalancerFairness {
  import opened Common
  import opened Balancer

  /** The sum of the first `n` weights. */
  function Total(w: seq<nat>, n: nat): nat
    requires n <= |w|
  {
    if n == 0 then 0 else Total(w, n - 1) + w[n - 1]
  }

  function W(w: seq<nat>): nat {
    Total(w, |w|)
  }

  /** How often position `i` is among the first `k` picks. */
  function Count(w: seq<nat>, k: nat, i: nat): nat
    requires w != []
    decreases k, 0
  {
    if k == 0 then 0 else Count(w, k - 1, i) + if Picked(w, k - 1, |w|) == i then 1 else 0
  }

  /** The credit of position `i` after `k` picks: its entitlement less what its picks cost. */
  function Lag(w: seq<nat>, k: nat, i: nat): int
    requires i < |w|
    decreases k, 1
  {
    k * w[i] - Count(w, k, i) * W(w)
  }

  /** The first position, among the first `n`, of the largest credit once raised by its weight. */
  function Picked(w: seq<nat>, k: nat, n: nat): (b: nat)
    requires 1 <= n <= |w|
    ensures b < n
    decreases k, 2, n
  {
    if n == 1 then 0
    else
      var b := Picked(w, k, n - 1);
      if Lag(w, k, n - 1) + w[n - 1] > Lag(w, k, b) + w[b] then n - 1 else b
  }

  ghost predicate FirstLargest(w: seq<nat>, k: nat, n: nat, b: nat)
    requires b < n <= |w|
  {
    && (forall j :: 0 <= j < n ==> Lag(w, k, j) + w[j] <= Lag(w, k, b) + w[b])
    && (forall j :: 0 <= j < b ==> Lag(w, k, j) + w[j] < Lag(w, k, b) + w[b])
  }

  lemma {:induction false} PickedIsFirstLargest(w: seq<nat>, k: nat, n: nat)
    requires 1 <= n <= |w|
    ensures FirstLargest(w, k, n, Picked(w, k, n))
  {
    if n > 1 { PickedIsFirstLargest(w, k, n - 1); }
  }

  // ---- the credit invariant ----

  ghost predicate Positive(w: seq<nat>) {
    w != [] && forall i :: 0 <= i < |w| ==> 1 <= w[i]
  }

  function LagSum(w: seq<nat>, k: nat, n: nat): int
    requires n <= |w|
  {
    if n == 0 then 0 else LagSum(w, k, n - 1) + Lag(w, k, n - 1)
  }

  lemma LagStep(w: seq<nat>, k: nat, i: nat)
    requires i < |w|
    ensures Lag(w, k + 1, i) == Lag(w, k, i) + w[i] - if Picked(w, k, |w|) == i then W(w) else 0
  {
    assert (k + 1) * w[i] == k * w[i] + w[i];
    assert Picked(w, k, |w|) == i ==> Count(w, k + 1, i) * W(w) == Count(w, k, i) * W(w) + W(w);
  }

  lemma {:induction false} LagSumStep(w: seq<nat>, k: nat, n: nat)
    requires n <= |w| && w != []
    ensures LagSum(w, k + 1, n) == LagSum(w, k, n) + Total(w, n) - if Picked(w, k, |w|) < n then W(w) else 0
  {
    if n > 0 {
      LagSumStep(w, k, n - 1);
      LagStep(w, k, n - 1);
    }
  }

  /** Credits always sum to zero. */
  lemma {:induction false} CreditsSumToZero(w: seq<nat>, k: nat)
    requires w != []
    ensures LagSum(w, k, |w|) == 0
  {
    if k > 0 {
      CreditsSumToZero(w, k - 1);
      LagSumStep(w, k - 1, |w|);
    } else {
      NoLagAtStart(w, |w|);
    }
  }

  lemma {:induction false} NoLagAtStart(w: seq<nat>, n: nat)
    requires n <= |w|
    ensures LagSum(w, 0, n) == 0
  {
    if n > 0 { NoLagAtStart(w, n - 1); }
  }

  lemma {:induction false} TotalIsPositive(w: seq<nat>, n: nat)
    requires Positive(w) && 1 <= n <= |w|
    ensures 1 <= Total(w, n)
  {
    if n > 1 { TotalIsPositive(w, n - 1); }
  }

  /** If no raised credit were positive, neither would be their sum. */
  lemma {:induction false} SumNotPositive(w: seq<nat>, k: nat, n: nat)
    requires n <= |w| && forall j :: 0 <= j < n ==> Lag(w, k, j) + w[j] <= 0
    ensures LagSum(w, k, n) + Total(w, n) <= 0
  {
    if n > 0 { SumNotPositive(w, k, n - 1); }
  }

  /** Credits stay strictly above minus the total weight. */
  lemma {:induction false} CreditAboveMinusTotal(w: seq<nat>, k: nat, i: nat)
    requires Positive(w) && i < |w|
    ensures 0 < Lag(w, k, i) + W(w)
  {
    TotalIsPositive(w, |w|);
    if k > 0 {
      CreditAboveMinusTotal(w, k - 1, i);
      LagStep(w, k - 1, i);
      var b := Picked(w, k - 1, |w|);
      if b == i && Lag(w, k - 1, b) + w[b] <= 0 {
        PickedIsFirstLargest(w, k - 1, |w|);
        SumNotPositive(w, k - 1, |w|);
        CreditsSumToZero(w, k - 1);
        assert false;
      }
    }
  }

  lemma {:induction false} SumAbove(w: seq<nat>, k: nat, n: nat, m: int, i: nat)
    requires n <= |w| && forall j :: 0 <= j < n ==> m <= Lag(w, k, j)
    ensures LagSum(w, k, n) >= if i < n then Lag(w, k, i) + (n - 1) * m else n * m
  {
    if n > 0 {
      SumAbove(w, k, n - 1, m, i);
      assert n * m == (n - 1) * m + m;
      assert (n - 1) * m == (n - 2) * m + m;
    }
  }

  /**
   * After `k` picks no target is a full pick ahead of its share k * w / W, nor
   * |w| - 1 picks behind it.
   */
  lemma NeverAPickAhead(w: seq<nat>, k: nat, i: nat)
    requires Positive(w) && i < |w|
    ensures Count(w, k, i) * W(w) < k * w[i] + W(w)
    ensures k * w[i] <= Count(w, k, i) * W(w) + (|w| - 1) * (W(w) - 1)
  {
    forall j | 0 <= j < |w| ensures 1 - W(w) <= Lag(w, k, j) { CreditAboveMinusTotal(w, k, j); }
    CreditsSumToZero(w, k);
    SumAbove(w, k, |w|, 1 - W(w), i);
    assert (|w| - 1) * (1 - W(w)) == -((|w| - 1) * (W(w) - 1));
  }

  // ---- whole cycles ----

  lemma {:induction false} MulGrows(total: nat, a: int, b: int)
    requires 1 <= total && a < b
    ensures total * a + total <= total * b
    decreases b - a
  {
    assert total * b == total * (b - 1) + total;
    if a < b - 1 { MulGrows(total, a, b - 1); }
  }

  /** A full cycle picks position `i` exactly `w[i]` times, and returns every credit to zero. */
  lemma FullCycle(w: seq<nat>, i: nat)
    requires Positive(w) && i < |w|
    ensures Lag(w, W(w), i) == 0 && Count(w, W(w), i) == w[i]
  {
    var total := W(w);
    hide Lag, Count, Total, Picked, LagSum;
    TotalIsPositive(w, |w|);
    forall j | 0 <= j < |w| ensures 0 <= Lag(w, total, j) { CycleNotBehind(w, j); }
    CreditsSumToZero(w, total);
    SumAbove(w, total, |w|, 0, i);
    LagAtCycle(w, i);
    assert total * 0 == 0;
    assert Lag(w, total, i) == 0;
    var picks := Count(w, total, i);
    assert total * w[i] - picks * total == 0;
    assert (0 + total) * w[i] == total * w[i] && 0 * w[i] == 0 * total == 0;
    SameLag(total, 0, w[i], 0, picks);
  }

  lemma LagAtCycle(w: seq<nat>, j: nat)
    requires j < |w|
    ensures Lag(w, W(w), j) == W(w) * w[j] - Count(w, W(w), j) * W(w) == W(w) * (w[j] - Count(w, W(w), j))
  {
    hide Count;
  }

  lemma CycleNotBehind(w: seq<nat>, j: nat)
    requires Positive(w) && j < |w|
    ensures 0 <= Lag(w, W(w), j)
  {
    hide Lag, Count, Total, Picked, LagSum;
    TotalIsPositive(w, |w|);
    CreditAboveMinusTotal(w, W(w), j);
    LagAtCycle(w, j);
    var d := w[j] - Count(w, W(w), j);
    if d < 0 { MulGrows(W(w), d, 0); }
  }

  /** After a whole cycle the credits are what they were. */
  lemma {:induction false} CreditsRepeat(w: seq<nat>, k: nat, i: nat)
    requires Positive(w) && i < |w|
    ensures Lag(w, k + W(w), i) == Lag(w, k, i)
  {
    if k == 0 {
      FullCycle(w, i);
    } else {
      var k' := k - 1 + W(w);
      forall j | 0 <= j < |w| ensures Lag(w, k', j) == Lag(w, k - 1, j) { CreditsRepeat(w, k - 1, j); }
      SamePick(w, k', k - 1, |w|);
      LagStep(w, k - 1, i);
      LagStep(w, k', i);
    }
  }

  /** So the schedule repeats: pick `k + W` is pick `k`. */
  lemma Periodic(w: seq<nat>, k: nat)
    requires Positive(w) && |w| > 0
    ensures Picked(w, k + W(w), |w|) == Picked(w, k, |w|)
    ensures forall i :: 0 <= i < |w| ==> Lag(w, k + W(w), i) == Lag(w, k, i)
  {
    forall i | 0 <= i < |w| ensures Lag(w, k + W(w), i) == Lag(w, k, i) { CreditsRepeat(w, k, i); }
    SamePick(w, k + W(w), k, |w|);
  }

  lemma {:induction false} SamePick(w: seq<nat>, k: nat, k': nat, n: nat)
    requires 1 <= n <= |w| && forall j :: 0 <= j < n ==> Lag(w, k, j) == Lag(w, k', j)
    ensures Picked(w, k, n) == Picked(w, k', n)
  {
    if n > 1 { SamePick(w, k, k', n - 1); }
  }

  lemma SameLag(total: nat, start: nat, share: nat, before: nat, after: nat)
    requires 1 <= total && (start + total) * share - after * total == start * share - before * total
    ensures after == before + share
  {
    assert (start + total) * share == start * share + total * share;
    assert total * (before + share) == before * total + total * share;
    assert total * after == total * (before + share);
    if after < before + share { MulGrows(total, after, before + share); }
    if before + share < after { MulGrows(total, before + share, after); }
  }

  /** Any window of `W` consecutive picks chooses position `i` exactly `w[i]` times. */
  lemma EveryWindowIsFair(w: seq<nat>, start: nat, i: nat)
    requires Positive(w) && i < |w|
    ensures Count(w, start + W(w), i) == Count(w, start, i) + w[i]
  {
    var total := W(w);
    TotalIsPositive(w, |w|);
    CreditsRepeat(w, start, i);
    SameLag(total, start, w[i], Count(w, start, i), Count(w, start + total, i));
  }

  // ---- the balancer's own credits ----

  function Weights(cs: seq<Target>): (w: seq<nat>)
    ensures |w| == |cs|
    ensures forall i {:trigger w[i]} :: 0 <= i < |cs| ==> w[i] == NormalizeWeight(cs[i])
  {
    seq(|cs|, i requires 0 <= i < |cs| => NormalizeWeight(cs[i]))
  }

  ghost predicate DistinctIds(cs: seq<Target>) {
    forall i, j :: 0 <= i < j < |cs| ==> cs[i].id != cs[j].id
  }

  /** What the loop over the first `n` candidates leaves, when ids are distinct. */
  ghost predicate Scanned(m: map<string, int>, cs: seq<Target>, n: nat, s: Scan, b: nat)
    requires b < n <= |cs|
  {
    && (forall j :: 0 <= j < |cs| ==>
          Credit(s.credits, cs[j].id) == Credit(m, cs[j].id) + if j < n then NormalizeWeight(cs[j]) else 0)
    && s.total == Total(Weights(cs), n)
    && s.best == Some(cs[b]) && s.bestCurrent == Credit(s.credits, cs[b].id)
    && (forall j :: 0 <= j < n ==> Credit(s.credits, cs[j].id) <= s.bestCurrent)
    && (forall j :: 0 <= j < b ==> Credit(s.credits, cs[j].id) < s.bestCurrent)
  }

  lemma ScanOneRaises(m: map<string, int>, cs: seq<Target>, n: nat, s: Scan, b: nat) returns (b': nat)
    requires DistinctIds(cs) && b < n - 1 < n <= |cs| && Scanned(m, cs, n - 1, s, b)
    requires Total(Weights(cs), n) == Total(Weights(cs), n - 1) + NormalizeWeight(cs[n - 1])
    ensures b' < n && Scanned(m, cs, n, ScanOne(s, cs[n - 1]), b')
  {
    var c := cs[n - 1];
    var t := ScanOne(s, c);
    hide Weights, Total, NormalizeWeight;
    forall j | 0 <= j < |cs|
      ensures Credit(t.credits, cs[j].id) == Credit(s.credits, cs[j].id) + if j == n - 1 then NormalizeWeight(c) else 0
    {
      assert j != n - 1 ==> cs[j].id != c.id;
    }
    b' := if Credit(s.credits, c.id) + NormalizeWeight(c) > s.bestCurrent then n - 1 else b;
  }

  lemma {:induction false} ScanRaises(m: map<string, int>, cs: seq<Target>, n: nat) returns (b: nat)
    requires DistinctIds(cs) && 1 <= n <= |cs|
    ensures b < n && Scanned(m, cs, n, ScanAll(m, cs, n), b)
  {
    if n == 1 {
      b := 0;
      assert ScanAll(m, cs, 0) == Scan(m, 0, None, 0);
      assert Total(Weights(cs), 1) == Total(Weights(cs), 0) + Weights(cs)[0];
    } else {
      b := ScanRaises(m, cs, n - 1);
      assert Total(Weights(cs), n) == Total(Weights(cs), n - 1) + NormalizeWeight(cs[n - 1]);
      b := ScanOneRaises(m, cs, n, ScanAll(m, cs, n - 1), b);
    }
  }

  /** The credits map after `k` picks of a fresh balancer from the pool `cs`. */
  function After(cs: seq<Target>, k: nat): map<string, int> {
    if k == 0 then map[] else Choose(After(cs, k - 1), cs).0
  }

  function TimesPicked(cs: seq<Target>, k: nat, t: Target): nat {
    if k == 0 then 0
    else TimesPicked(cs, k - 1, t) + if Choose(After(cs, k - 1), cs).1 == Some(t) then 1 else 0
  }

  ghost predicate Tracks(m: map<string, int>, cs: seq<Target>, k: nat) {
    forall i :: 0 <= i < |cs| ==> Credit(m, cs[i].id) == Lag(Weights(cs), k, i)
  }

  /** One pick of the balancer is one pick on the vector. */
  lemma ChooseTracks(m: map<string, int>, cs: seq<Target>, k: nat)
    requires DistinctIds(cs) && cs != [] && Tracks(m, cs, k)
    ensures Choose(m, cs).1 == Some(cs[Picked(Weights(cs), k, |cs|)])
    ensures Tracks(Choose(m, cs).0, cs, k + 1)
  {
    hide Lag, Total;
    var w := Weights(cs);
    var p := Prune(m, Ids(cs));
    forall i | 0 <= i < |cs| ensures Credit(p, cs[i].id) == Credit(m, cs[i].id) { assert cs[i] in cs; }
    var b := ScanRaises(p, cs, |cs|);
    var s := ScanAll(p, cs, |cs|);
    var q := Picked(w, k, |cs|);
    PickedIsFirstLargest(w, k, |cs|);
    forall i | 0 <= i < |cs| ensures Credit(s.credits, cs[i].id) == Lag(w, k, i) + w[i] {}
    assert b == q;
    forall i | 0 <= i < |cs| ensures Credit(Choose(m, cs).0, cs[i].id) == Lag(w, k + 1, i) { LagStep(w, k, i); }
  }

  lemma {:induction false} AfterTracks(cs: seq<Target>, k: nat)
    requires DistinctIds(cs) && cs != []
    ensures Tracks(After(cs, k), cs, k)
  {
    if k > 0 {
      AfterTracks(cs, k - 1);
      ChooseTracks(After(cs, k - 1), cs, k - 1);
    } else {
      assert forall i :: 0 <= i < |cs| ==> Lag(Weights(cs), 0, i) == 0;
    }
  }

  lemma SameTarget(cs: seq<Target>, i: nat, j: nat)
    requires DistinctIds(cs) && i < |cs| && j < |cs|
    ensures cs[i] == cs[j] <==> i == j
  {
  }

  /** The balancer's picks, counted, are the vector's. */
  lemma {:induction false} TimesPickedIsCount(cs: seq<Target>, k: nat, i: nat)
    requires DistinctIds(cs) && i < |cs|
    ensures TimesPicked(cs, k, cs[i]) == Count(Weights(cs), k, i)
  {
    hide *;
    if k > 0 {
      TimesPickedIsCount(cs, k - 1, i);
      AfterTracks(cs, k - 1);
      ChooseTracks(After(cs, k - 1), cs, k - 1);
      SameTarget(cs, Picked(Weights(cs), k - 1, |cs|), i);
      CountSteps(cs, k, i);
    } else {
      CountsStart(cs, i);
    }
  }

  lemma CountSteps(cs: seq<Target>, k: nat, i: nat)
    requires k > 0 && i < |cs|
    ensures TimesPicked(cs, k, cs[i]) ==
              TimesPicked(cs, k - 1, cs[i]) + if Choose(After(cs, k - 1), cs).1 == Some(cs[i]) then 1 else 0
    ensures Count(Weights(cs), k, i) ==
              Count(Weights(cs), k - 1, i) + if Picked(Weights(cs), k - 1, |cs|) == i then 1 else 0
  {
    hide Picked, Choose, After, Weights;
  }

  lemma CountsStart(cs: seq<Target>, i: nat)
    requires i < |cs|
    ensures TimesPicked(cs, 0, cs[i]) == 0 == Count(Weights(cs), 0, i)
  {
  }

  /**
   * The fairness promise: over any `W` consecutive picks, `W` the sum of the
   * weights, a fresh balancer with a fixed pool picks each target exactly `weight`
   * times; and at no point is a target a full pick ahead of its share.
   */
  lemma PoolIsFair(cs: seq<Target>, start: nat, i: nat)
    requires DistinctIds(cs) && i < |cs|
    ensures var total := W(Weights(cs));
            && TimesPicked(cs, start + total, cs[i]) - TimesPicked(cs, start, cs[i]) == NormalizeWeight(cs[i])
            && TimesPicked(cs, start, cs[i]) * total < start * NormalizeWeight(cs[i]) + total
  {
    hide Choose, Lag, Picked, NormalizeWeight, Total;
    var w := Weights(cs);
    TimesPickedIsCount(cs, start, i);
    TimesPickedIsCount(cs, start + W(w), i);
    EveryWindowIsFair(w, start, i);
    NeverAPickAhead(w, start, i);
  }

  // ---- pools that change ----

  lemma {:induction false} ScanKeys(credits: map<string, int>, cs: seq<Target>, n: nat)
    requires n <= |cs| && credits.Keys <= Ids(cs)
    ensures credits.Keys <= ScanAll(credits, cs, n).credits.Keys <= Ids(cs)
    ensures forall i :: 0 <= i < n ==> cs[i].id in ScanAll(credits, cs, n).credits
    ensures ScanAll(credits, cs, n).best.Some? ==> ScanAll(credits, cs, n).best.value in cs
  {
    if n > 0 {
      ScanKeys(credits, cs, n - 1);
      assert cs[n - 1] in cs;
    }
  }

  /**
   * After a pick the balancer has credits for exactly the targets of that pick: one that is
   * gone loses its credit, and starts from none when it comes back.
   */
  lemma DepartedIsForgotten(credits: map<string, int>, cs: seq<Target>, id: string)
    requires |cs| > 0
    ensures Choose(credits, cs).0.Keys == Ids(cs)
    ensures id !in Ids(cs) ==> Credit(Choose(credits, cs).0, id) == 0
  {
    var pruned := Prune(credits, Ids(cs));
    ScanKeys(pruned, cs, |cs|);
    var s := ScanAll(pruned, cs, |cs|);
    assert Choose(credits, cs).0 == s.credits[s.best.value.id := s.bestCurrent - s.total];
    hide ScanAll;
    assert s.best.value.id in Ids(cs);
    forall i | i in Ids(cs) ensures i in s.credits {
      var c :| c in cs && c.id == i;
      var k :| 0 <= k < |cs| && cs[k] == c;
    }
  }

  /** And what it had for targets that are not in the pool makes no difference to the pick. */
  lemma DepartedDoNotCount(credits: map<string, int>, others: map<string, int>, cs: seq<Target>)
    requires forall id :: id in Ids(cs) ==> (id in credits <==> id in others) && Credit(credits, id) == Credit(others, id)
    requires |cs| > 0
    ensures Choose(credits, cs) == Choose(others, cs)
  {
    var a, b := Prune(credits, Ids(cs)), Prune(others, Ids(cs));
    assert a.Keys == b.Keys;
    forall id | id in a ensures a[id] == b[id] { assert Credit(credits, id) == Credit(others, id); }
    assert a == b;
  }
}
