/**
 * Commits and inserts that throw, packages/commerce/src/index.ts:220-240: the handler then
 * releases every line of the checkout, one by one, also those already committed.
 */
module CommerceFaults {
  import opened Common
  import opened Inventory
  import opened Commerce

  /** A step of the state machine, or a checkout whose commit or insert throws. */
  datatype Happening = Ordinary(e: Event) | Throws(i: nat)

  function ReleaseAll(stock: Stock, lines: seq<Line>, n: nat): Stock
    requires n <= |lines|
  {
    if n == 0 then stock else Release(ReleaseAll(stock, lines, n - 1), lines[n - 1].product, lines[n - 1].quantity)
  }

  predicate CanThrow(s: State, i: nat) {
    i < |s.checkouts| && (s.checkouts[i].phase.Committing? || s.checkouts[i].phase.Inserting?)
  }

  /** The handler takes over: it has every line to release, and an await before each. */
  function Thrown(s: State, i: nat): State
    requires CanThrow(s, i)
  {
    s.(checkouts := s.checkouts[i := s.checkouts[i].(phase := Compensating(0))])
  }

  /** What a handler that is not interrupted leaves. */
  function Fault(s: State, i: nat): State
    requires CanThrow(s, i)
  {
    var c := s.checkouts[i];
    s.(stock := ReleaseAll(s.stock, c.lines, |c.lines|), checkouts := s.checkouts[i := c.(phase := Failed)])
  }

  function Next(s: State, h: Happening): State {
    match h
    case Ordinary(e) => Apply(s, e)
    case Throws(i) => if CanThrow(s, i) then Thrown(s, i) else s
  }

  function RunFaulty(hs: seq<Happening>): State {
    if |hs| == 0 then START else Next(RunFaulty(hs[..|hs| - 1]), hs[|hs| - 1])
  }

  /** The checkout has committed no unit of anything yet. */
  ghost predicate NothingTaken(c: Checkout) {
    GoodCheckout(c) && forall p :: Taken(c, p) == 0
  }

  // ---- what a fault does to the stock ----

  /** Releasing lines one by one, each floored at zero, is releasing their sum, floored once. */
  lemma {:induction false} ReleasedAt(stock: Stock, lines: seq<Line>, n: nat, p: string)
    requires n <= |lines|
    ensures At(ReleaseAll(stock, lines, n), p).onHand == At(stock, p).onHand
    ensures At(stock, p).reserved >= 0 ==>
              At(ReleaseAll(stock, lines, n), p).reserved == Max0(At(stock, p).reserved - Units(lines, p, 0, n))
    ensures ReleaseAll(stock, lines, n).Keys == stock.Keys
  {
    if n > 0 {
      ReleasedAt(stock, lines, n - 1, p);
      var before := ReleaseAll(stock, lines, n - 1);
      assert Units(lines, p, 0, n) ==
        Units(lines, p, 0, n - 1) + if lines[n - 1].product == p then lines[n - 1].quantity else 0;
      hide ReleaseAll, Units;
      if p !in stock { assert At(stock, p) == Level(0, 0); }
    }
  }

  lemma HeldAndTaken(c: Checkout, p: string)
    requires GoodCheckout(c) && (c.phase.Committing? || c.phase.Inserting?)
    ensures Held(c, p) + Taken(c, p) == Units(c.lines, p, 0, |c.lines|)
    ensures GoodCheckout(c.(phase := Failed)) && Held(c.(phase := Failed), p) == Taken(c.(phase := Failed), p) == 0
  {
    if c.phase.Committing? { UnitsSplit(c.lines, p, 0, c.phase.done, |c.lines|); }
  }

  /** What the stock of one product is after a fault, with `others` held by the other checkouts. */
  lemma FaultEffect(s: State, i: nat, p: string)
    requires Inv(s) && CanThrow(s, i)
    ensures WellFormed(Fault(s, i))
    ensures var c, t := s.checkouts[i], Fault(s, i);
            var others := SumHeld(t.checkouts, p, |t.checkouts|);
            && others == At(s.stock, p).reserved - Held(c, p)
            && At(t.stock, p).reserved == Max0(others - Taken(c, p)) && At(t.stock, p).onHand == At(s.stock, p).onHand
            && SumTaken(t.checkouts, p, |t.checkouts|) == SumTaken(s.checkouts, p, |s.checkouts|) - Taken(c, p)
            && t.stock.Keys == s.stock.Keys
  {
    var c := s.checkouts[i];
    assert Balanced(s, p) && c in s.checkouts;
    HeldAndTaken(c, p);
    HeldReplaced(s.checkouts, i, c.(phase := Failed), p, |s.checkouts|);
    ReleasedAt(s.stock, c.lines, |c.lines|, p);
    hide Held, Taken, SumHeld, SumTaken, GoodCheckout, ReleaseAll, At, Units, SumOrdered, SumReturned, AllKnown;
  }

  /** The accounts of a product survive a fault exactly when the checkout had committed none of it. */
  lemma FaultBalancesIff(s: State, i: nat, p: string)
    requires Inv(s) && CanThrow(s, i)
    ensures WellFormed(Fault(s, i)) && (Balanced(Fault(s, i), p) <==> Taken(s.checkouts[i], p) == 0)
  {
    FaultEffect(s, i, p);
    assert Balanced(s, p);
    hide Held, Taken, SumHeld, SumTaken, GoodCheckout, Fault, At, Units, SumOrdered, SumReturned, AllKnown;
    hide CanThrow;
    FaultRest(s, i);
  }

  lemma FaultRest(s: State, i: nat)
    requires CanThrow(s, i)
    ensures Fault(s, i).orders == s.orders && Fault(s, i).cancels == s.cancels
    ensures Fault(s, i).supplied == s.supplied && Fault(s, i).coupons == s.coupons
  {
  }

  /** So all accounts survive exactly when it had committed nothing at all. */
  lemma FaultKeepsInvIff(s: State, i: nat)
    requires Inv(s) && CanThrow(s, i)
    ensures Inv(Fault(s, i)) <==> NothingTaken(s.checkouts[i])
  {
    var c, t := s.checkouts[i], Fault(s, i);
    assert c in s.checkouts;
    FaultBalancesIff(s, i, "");
    FaultEffect(s, i, "");
    FaultRest(s, i);
    FaultKnown(s, i);
    hide Balanced, Taken, Fault, AllKnown, GoodCheckout;
    forall p ensures Balanced(t, p) <==> Taken(c, p) == 0 { FaultBalancesIff(s, i, p); }
    WellFormedPart(s, i);
  }

  lemma WellFormedPart(s: State, i: nat)
    requires WellFormed(s) && i < |s.checkouts|
    ensures GoodCheckout(s.checkouts[i])
  {
    assert s.checkouts[i] in s.checkouts;
  }

  lemma FaultKnown(s: State, i: nat)
    requires Inv(s) && CanThrow(s, i) && WellFormed(Fault(s, i)) && Fault(s, i).stock.Keys == s.stock.Keys
    ensures AllKnown(Fault(s, i))
  {
    var t := Fault(s, i);
    forall c | c in t.checkouts ensures Known(t.stock, c.lines, Reached(c)) {
      if c in s.checkouts { assert Known(s.stock, c.lines, Reached(c)); }
    }
    hide Balanced, ReleaseAll, GoodCheckout;
  }

  // ---- the handler, step by step ----

  /** `n` steps of checkout `i` on end. */
  function Steps(s: State, i: nat, n: nat): State {
    if n == 0 then s else Apply(Steps(s, i, n - 1), StepCheckout(i, true))
  }

  /** Left alone, the handler's steps add up to the fault. */
  lemma HandlerAlone(s: State, i: nat)
    requires Inv(s) && CanThrow(s, i)
    ensures var t := Steps(Thrown(s, i), i, |s.checkouts[i].lines|);
            t == Fault(s, i) && (Inv(t) <==> NothingTaken(s.checkouts[i]))
  {
    WellFormedPart(s, i);
    FaultKeepsInvIff(s, i);
    HandlerAfter(s, i, |s.checkouts[i].lines|);
    hide Steps, ReleaseAll, Inv, NothingTaken;
  }

  /** The handler when `n` lines are released. */
  function Handling(s: State, i: nat, n: nat): State
    requires i < |s.checkouts| && n <= |s.checkouts[i].lines|
  {
    var c := s.checkouts[i];
    s.(stock := ReleaseAll(s.stock, c.lines, n), checkouts := s.checkouts[i := c.(phase := NextCompensating(c, n))])
  }

  lemma {:induction false} HandlerAfter(s: State, i: nat, n: nat)
    requires CanThrow(s, i) && n <= |s.checkouts[i].lines| && |s.checkouts[i].lines| > 0
    ensures Steps(Thrown(s, i), i, n) == Handling(s, i, n)
  {
    hide Steps, Apply, ReleaseAll, NextCompensating;
    if n > 0 {
      HandlerAfter(s, i, n - 1);
      HandlerStep(s, i, n);
      StepsStep(Thrown(s, i), i, n);
    } else {
      StepsStep(Thrown(s, i), i, 0);
      HandlerStarts(s, i);
    }
  }

  lemma StepsStep(s: State, i: nat, n: nat)
    ensures Steps(s, i, n) == if n == 0 then s else Apply(Steps(s, i, n - 1), StepCheckout(i, true))
  {
    hide Apply;
  }

  lemma HandlerStarts(s: State, i: nat)
    requires CanThrow(s, i) && |s.checkouts[i].lines| > 0
    ensures Handling(s, i, 0) == Thrown(s, i)
  {
  }

  lemma HandlerStep(s: State, i: nat, n: nat)
    requires i < |s.checkouts| && 0 < n <= |s.checkouts[i].lines|
    ensures Apply(Handling(s, i, n - 1), StepCheckout(i, true)) == Handling(s, i, n)
  {
    var before, c := Handling(s, i, n - 1), s.checkouts[i];
    assert before.checkouts[i] == c.(phase := Compensating(n - 1));
    assert ReleaseAll(s.stock, c.lines, n) == Release(before.stock, c.lines[n - 1].product, c.lines[n - 1].quantity);
    hide Release, ReleaseAll;
    assert before.checkouts[i := c.(phase := NextCompensating(c, n))] ==
      s.checkouts[i := c.(phase := NextCompensating(c, n))];
  }

  /** From the throw on, the handler counts every line as held, also those it had taken. */
  lemma ThrownEffect(s: State, i: nat, p: string)
    requires Inv(s) && CanThrow(s, i)
    ensures WellFormed(Thrown(s, i))
    ensures var c, t := s.checkouts[i], Thrown(s, i);
            && SumHeld(t.checkouts, p, |t.checkouts|) == SumHeld(s.checkouts, p, |s.checkouts|) + Taken(c, p)
            && SumTaken(t.checkouts, p, |t.checkouts|) == SumTaken(s.checkouts, p, |s.checkouts|) - Taken(c, p)
  {
    var c := s.checkouts[i];
    var after := c.(phase := Compensating(0));
    assert c in s.checkouts;
    HeldAndTaken(c, p);
    assert GoodCheckout(after) && Held(after, p) == Units(c.lines, p, 0, |c.lines|) && Taken(after, p) == 0;
    HeldReplaced(s.checkouts, i, after, p, |s.checkouts|);
    hide Held, Taken, SumHeld, SumTaken, GoodCheckout, At, Units, SumOrdered, SumReturned, AllKnown, Balanced;
  }

  lemma ThrowBalancesIff(s: State, i: nat, p: string)
    requires Inv(s) && CanThrow(s, i)
    ensures WellFormed(Thrown(s, i)) && (Balanced(Thrown(s, i), p) <==> Taken(s.checkouts[i], p) == 0)
  {
    ThrownEffect(s, i, p);
    assert Balanced(s, p);
    hide Held, Taken, SumHeld, SumTaken, GoodCheckout, At, Units, SumOrdered, SumReturned, AllKnown;
  }

  /** The accounts survive the throw exactly when the checkout had committed nothing. */
  lemma ThrowKeepsInvIff(s: State, i: nat)
    requires Inv(s) && CanThrow(s, i)
    ensures Inv(Thrown(s, i)) <==> NothingTaken(s.checkouts[i])
  {
    var c, t := s.checkouts[i], Thrown(s, i);
    ThrowBalancesIff(s, i, "");
    ThrownKnown(s, i);
    WellFormedPart(s, i);
    hide Balanced, Taken, AllKnown, GoodCheckout;
    forall p ensures Balanced(t, p) <==> Taken(c, p) == 0 { ThrowBalancesIff(s, i, p); }
  }

  lemma ThrownKnown(s: State, i: nat)
    requires Inv(s) && CanThrow(s, i) && WellFormed(Thrown(s, i))
    ensures AllKnown(Thrown(s, i))
  {
    var t := Thrown(s, i);
    forall c | c in t.checkouts ensures Known(t.stock, c.lines, Reached(c)) {
      if c in s.checkouts {
        assert Known(s.stock, c.lines, Reached(c));
      } else {
        assert Known(s.stock, s.checkouts[i].lines, Reached(s.checkouts[i]));
      }
    }
    hide Balanced, GoodCheckout;
  }

  // ---- every run with faults ----

  /** Every fault of the run strikes a checkout that has committed nothing. */
  ghost predicate EarlyFaultsOnly(hs: seq<Happening>) {
    forall n: nat :: n < |hs| && hs[n].Throws? && CanThrow(RunFaulty(hs[..n]), hs[n].i) ==>
      NothingTaken(RunFaulty(hs[..n]).checkouts[hs[n].i])
  }

  ghost predicate AccountsHold(hs: seq<Happening>) {
    forall n: nat :: n <= |hs| ==> Inv(RunFaulty(hs[..n]))
  }

  lemma {:induction false} EarlyFaultsKeep(hs: seq<Happening>, n: nat)
    requires EarlyFaultsOnly(hs) && n <= |hs|
    ensures Inv(RunFaulty(hs[..n]))
  {
    hide Inv, NothingTaken, Apply, Thrown, CanThrow;
    if n > 0 {
      var s, h := RunFaulty(hs[..n - 1]), hs[n - 1];
      EarlyFaultsKeep(hs, n - 1);
      assert hs[..n][..n - 1] == hs[..n - 1] && hs[..n][n - 1] == h;
      match h {
        case Ordinary(e) => ApplyKeeps(s, e);
        case Throws(i) => if CanThrow(s, i) { ThrowKeepsInvIff(s, i); }
      }
    } else {
      Reachable([]);
      assert Run([]) == START;
    }
  }

  /**
   * All accounts hold all through a run, with anything between the handler's releases,
   * exactly when no checkout failed in it after its first unit was committed.
   */
  lemma AccountsHoldIff(hs: seq<Happening>)
    ensures AccountsHold(hs) <==> EarlyFaultsOnly(hs)
  {
    hide Inv, NothingTaken, Apply, Thrown, RunFaulty;
    if EarlyFaultsOnly(hs) {
      forall n: nat | n <= |hs| ensures Inv(RunFaulty(hs[..n])) { EarlyFaultsKeep(hs, n); }
    }
    if AccountsHold(hs) {
      forall n: nat | n < |hs| && hs[n].Throws? && CanThrow(RunFaulty(hs[..n]), hs[n].i)
        ensures NothingTaken(RunFaulty(hs[..n]).checkouts[hs[n].i])
      {
        assert Inv(RunFaulty(hs[..n])) && Inv(RunFaulty(hs[..n + 1]));
        FaultOfRun(hs, n);
        ThrowKeepsInvIff(RunFaulty(hs[..n]), hs[n].i);
      }
    }
  }

  lemma FaultOfRun(hs: seq<Happening>, n: nat)
    requires n < |hs| && hs[n].Throws? && CanThrow(RunFaulty(hs[..n]), hs[n].i)
    ensures RunFaulty(hs[..n + 1]) == Thrown(RunFaulty(hs[..n]), hs[n].i)
  {
    assert hs[..n + 1][..n] == hs[..n];
    hide Apply, Thrown, CanThrow;
  }

  /** In such a run nothing is oversold: reserved is what is in flight, and never above what is on hand. */
  lemma NoOversellWithEarlyFaults(hs: seq<Happening>, p: string)
    requires EarlyFaultsOnly(hs)
    ensures var s := RunFaulty(hs);
            && WellFormed(s)
            && At(s.stock, p).reserved == SumHeld(s.checkouts, p, |s.checkouts|)
            && 0 <= At(s.stock, p).reserved <= At(s.stock, p).onHand
  {
    EarlyFaultsKeep(hs, |hs|);
    assert hs[..|hs|] == hs;
    assert Balanced(RunFaulty(hs), p);
    hide RunFaulty;
  }
}
