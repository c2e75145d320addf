/**
 * What every interleaving of checkouts, restocks and cancellations keeps: no
 * oversell, exact accounts, and refusals that leave no trace.
 */
module CommerceSafety {
  import opened Common
  import opened Inventory
  import opened Commerce

  /**
   * In every reachable state, what is reserved is exactly what the checkouts in
   * flight hold, and never more than is on hand.
   */
  lemma NoOversell(events: seq<Event>, p: string)
    ensures var s := Run(events);
            && WellFormed(s)
            && At(s.stock, p).reserved == SumHeld(s.checkouts, p, |s.checkouts|)
            && 0 <= At(s.stock, p).reserved <= At(s.stock, p).onHand
  {
    Reachable(events);
    assert Balanced(Run(events), p);
  }

  /** The line whose reservation the next step of `c` gives up, if any. */
  function GivesUp(c: Checkout): Option<nat> {
    match c.phase
    case Undoing(k, _) => Some(k)
    case Compensating(k) => Some(k)
    case Committing(k, _) => Some(k)
    case _ => None
  }

  /** The floors at zero in release and commit never take effect. */
  lemma FloorsNeverBind(events: seq<Event>, i: nat)
    requires i < |Run(events).checkouts| && GivesUp(Run(events).checkouts[i]).Some?
    ensures var s := Run(events); var c := s.checkouts[i]; var k := GivesUp(c).value;
            && k < |c.lines| && c.lines[k].product in s.stock
            && c.lines[k].quantity <= s.stock[c.lines[k].product].reserved <= s.stock[c.lines[k].product].onHand
  {
    var s := Run(events);
    var c := s.checkouts[i];
    Reachable(events);
    assert c in s.checkouts && Known(s.stock, c.lines, Reached(c));
    var k := GivesUp(c).value;
    var p := c.lines[k].product;
    assert Balanced(s, p);
    HeldIsPart(s.checkouts, i, p, |s.checkouts|);
    TakeOne(c.lines, p, k, if c.phase.Undoing? then c.phase.upto else |c.lines|);
    hide SumHeld, SumTaken, SumReturned;
  }

  /** Every stored order's amounts agree. */
  lemma OrdersAreGood(events: seq<Event>, o: nat)
    requires o < |Run(events).orders|
    ensures GoodOrder(Run(events).orders[o].order)
  {
    Reachable(events);
    assert Run(events).orders[o] in Run(events).orders;
  }

  // ---- a refused checkout leaves no trace ----

  function Without(cs: seq<Checkout>, i: nat): seq<Checkout>
    requires i < |cs|
  {
    cs[..i] + cs[i + 1..]
  }

  lemma {:induction false} SumWithout(cs: seq<Checkout>, i: nat, p: string, n: nat)
    requires i < |cs| && n <= |cs| && forall c :: c in cs ==> GoodCheckout(c)
    requires Held(cs[i], p) == 0 && Taken(cs[i], p) == 0
    ensures var m := if n > i then n - 1 else n;
            && (forall c :: c in Without(cs, i) ==> GoodCheckout(c))
            && SumHeld(Without(cs, i), p, m) == SumHeld(cs, p, n)
            && SumTaken(Without(cs, i), p, m) == SumTaken(cs, p, n)
  {
    hide Held, Taken, GoodCheckout;
    if n > 0 {
      SumWithout(cs, i, p, n - 1);
      var m := if n > i then n - 1 else n;
      assert n - 1 != i ==> Without(cs, i)[m - 1] == cs[n - 1];
    }
  }

  /**
   * Once a checkout has failed, whatever else is in flight, the stock is what it
   * would be with that checkout struck out: all accounts still hold.
   */
  lemma FailureLeavesNoTrace(events: seq<Event>, i: nat)
    requires i < |Run(events).checkouts| && Run(events).checkouts[i].phase.Failed?
    ensures Inv(Run(events).(checkouts := Without(Run(events).checkouts, i)))
  {
    Reachable(events);
    StrikeOut(Run(events), i);
  }

  lemma StrikeOut(s: State, i: nat)
    requires Inv(s) && i < |s.checkouts| && s.checkouts[i].phase.Failed?
    ensures Inv(s.(checkouts := Without(s.checkouts, i)))
  {
    var t := s.(checkouts := Without(s.checkouts, i));
    assert s.checkouts[i] in s.checkouts;
    SumWithout(s.checkouts, i, "", |s.checkouts|);
    forall p ensures Balanced(t, p) {
      assert Balanced(s, p);
      SumWithout(s.checkouts, i, p, |s.checkouts|);
    }
    forall c | c in t.checkouts ensures Known(t.stock, c.lines, Reached(c)) {
      assert c in s.checkouts && Known(s.stock, c.lines, Reached(c));
    }
    hide Held, Taken, Balanced;
  }

  /** `s` after steps of checkout `i` alone. */
  function Solo(s: State, i: nat, charges: seq<bool>): State {
    if |charges| == 0 then s
    else Apply(Solo(s, i, charges[..|charges| - 1]), StepCheckout(i, charges[|charges| - 1]))
  }

  /** `t` is `s` but for checkout `i`; an order was added only if that was placed. */
  ghost predicate OnlyCheckout(s: State, t: State, i: nat) {
    && t.cancels == s.cancels && t.supplied == s.supplied && t.stock.Keys == s.stock.Keys
    && i < |s.checkouts| == |t.checkouts| && t.checkouts == s.checkouts[i := t.checkouts[i]]
    && (t.orders == s.orders || t.checkouts[i].phase.Placed?)
  }

  lemma StepTouchesOnlyIt(s: State, i: nat, ok: bool)
    requires i < |s.checkouts| && Inv(s)
    ensures Inv(Apply(s, StepCheckout(i, ok))) && OnlyCheckout(s, Apply(s, StepCheckout(i, ok)), i)
    ensures s.checkouts[i].phase.Placed? ==> Apply(s, StepCheckout(i, ok)).checkouts[i].phase.Placed?
  {
    StepCheckoutKeeps(s, i, ok);
    StepCheckoutBalances(s, i, ok, "");
    hide Inv, Held, Taken, GoodCheckout, Units, Known;
  }

  lemma {:induction false} SoloTouchesOnlyIts(s: State, i: nat, charges: seq<bool>)
    requires i < |s.checkouts| && Inv(s)
    ensures Inv(Solo(s, i, charges)) && OnlyCheckout(s, Solo(s, i, charges), i)
  {
    if |charges| > 0 {
      SoloTouchesOnlyIts(s, i, charges[..|charges| - 1]);
      StepTouchesOnlyIt(Solo(s, i, charges[..|charges| - 1]), i, charges[|charges| - 1]);
    }
    hide Inv, Apply;
  }

  /** A checkout that runs alone and fails puts every level back. */
  lemma SoloFailureRestoresStock(events: seq<Event>, lines: seq<Line>, code: Option<string>, charges: seq<bool>)
    requires |lines| > 0
    requires var i := |Run(events).checkouts|;
             var t := Solo(Apply(Run(events), Begin(lines, code)), i, charges);
             i < |t.checkouts| && t.checkouts[i].phase.Failed?
    ensures Solo(Apply(Run(events), Begin(lines, code)), |Run(events).checkouts|, charges).stock == Run(events).stock
  {
    var s := Run(events);
    var b := Apply(s, Begin(lines, code));
    var i := |s.checkouts|;
    var t := Solo(b, i, charges);
    Reachable(events);
    ApplyKeeps(s, Begin(lines, code));
    SoloTouchesOnlyIts(b, i, charges);
    forall p | p in s.stock ensures t.stock[p] == s.stock[p] {
      assert Balanced(t, p) && Balanced(b, p);
      HeldReplaced(b.checkouts, i, t.checkouts[i], p, |b.checkouts|);
      hide SumHeld, SumTaken, SumReturned, SumOrdered;
    }
    hide Inv, Run, Solo;
  }

  // ---- conservation, and what breaks it ----

  /** Units of `p` in orders still paid. */
  function SumPaid(os: seq<OrderRecord>, p: string, n: nat): nat
    requires n <= |os|
  {
    if n == 0 then 0
    else SumPaid(os, p, n - 1) +
         if os[n - 1].cancelled then 0 else Units(os[n - 1].order.lines, p, 0, |os[n - 1].order.lines|)
  }

  /** How many cancellations of order `o` have completed. */
  function TimesCancelled(ks: seq<Cancel>, o: nat, n: nat): nat
    requires n <= |ks|
  {
    if n == 0 then 0
    else TimesCancelled(ks, o, n - 1) + if ks[n - 1].order == o && ks[n - 1].phase.Cancelled? then 1 else 0
  }

  ghost predicate Marked(s: State) {
    && (forall o :: 0 <= o < |s.orders| ==>
          (s.orders[o].cancelled <==> TimesCancelled(s.cancels, o, |s.cancels|) > 0))
    && forall j :: 0 <= j < |s.cancels| ==> s.cancels[j].order < |s.orders|
  }

  lemma {:induction false} CountReplaced(ks: seq<Cancel>, j: nat, k: Cancel, o: nat, n: nat)
    requires j < |ks| && n <= |ks|
    ensures TimesCancelled(ks[j := k], o, n) == TimesCancelled(ks, o, n) +
            if j < n then (if k.order == o && k.phase.Cancelled? then 1 else 0) -
                          (if ks[j].order == o && ks[j].phase.Cancelled? then 1 else 0)
            else 0
  {
    if n > 0 { CountReplaced(ks, j, k, o, n - 1); }
  }

  lemma {:induction false} CountAdded(ks: seq<Cancel>, k: Cancel, o: nat, n: nat)
    requires n <= |ks|
    ensures TimesCancelled(ks + [k], o, n) == TimesCancelled(ks, o, n)
  {
    if n > 0 { CountAdded(ks, k, o, n - 1); }
  }

  lemma {:induction false} CountNone(ks: seq<Cancel>, o: nat, n: nat)
    requires n <= |ks| && forall j :: 0 <= j < n ==> ks[j].order != o
    ensures TimesCancelled(ks, o, n) == 0
  {
    if n > 0 { CountNone(ks, o, n - 1); }
  }

  /** An order is marked exactly when some cancellation of it completed. */
  lemma {:induction false} RunIsMarked(events: seq<Event>)
    ensures Marked(Run(events))
  {
    if |events| > 0 {
      RunIsMarked(events[..|events| - 1]);
      ApplyMarks(Run(events[..|events| - 1]), events[|events| - 1]);
    }
  }

  lemma ApplyMarks(s: State, e: Event)
    requires Marked(s)
    ensures Marked(Apply(s, e))
  {
    var t := Apply(s, e);
    match e {
      case StepCheckout(i, _) =>
        if |t.orders| > |s.orders| { CountNone(s.cancels, |s.orders|, |s.cancels|); }
      case BeginCancel(o) =>
        if |t.cancels| > |s.cancels| {
          forall x | 0 <= x < |s.orders|
            ensures TimesCancelled(t.cancels, x, |t.cancels|) == TimesCancelled(s.cancels, x, |s.cancels|)
          {
            CountAdded(s.cancels, t.cancels[|s.cancels|], x, |s.cancels|);
          }
        }
      case StepCancel(j, _) =>
        if j < |s.cancels| {
          forall x | 0 <= x < |s.orders|
            ensures TimesCancelled(t.cancels, x, |t.cancels|) == TimesCancelled(s.cancels, x, |s.cancels|) +
                    if s.cancels[j].phase.Updating? && s.cancels[j].order == x then 1 else 0
          {
            CountReplaced(s.cancels, j, t.cancels[j], x, |s.cancels|);
          }
        }
      case _ =>
    }
    hide CheckoutStep, Restock, Reserve;
  }

  /** What the completed cancellations of order `o` put back, at `u` units each. */
  function PutBack(ks: seq<Cancel>, o: nat, u: nat, n: nat): nat
    requires n <= |ks|
  {
    if n == 0 then 0
    else PutBack(ks, o, u, n - 1) + if ks[n - 1].order == o && ks[n - 1].phase.Cancelled? then u else 0
  }

  lemma {:induction false} PutBackByCount(ks: seq<Cancel>, o: nat, u: nat, n: nat)
    requires n <= |ks|
    ensures TimesCancelled(ks, o, n) == 0 ==> PutBack(ks, o, u, n) == 0
    ensures TimesCancelled(ks, o, n) == 1 ==> PutBack(ks, o, u, n) == u
    ensures TimesCancelled(ks, o, n) >= 1 ==> PutBack(ks, o, u, n) >= u
    ensures TimesCancelled(ks, o, n) >= 2 ==> PutBack(ks, o, u, n) >= u + u
    ensures u == 0 ==> PutBack(ks, o, u, n) == 0
  {
    if n > 0 { PutBackByCount(ks, o, u, n - 1); }
  }

  function OrderUnits(os: seq<OrderRecord>, p: string, o: nat): nat
    requires o < |os|
  {
    Units(os[o].order.lines, p, 0, |os[o].order.lines|)
  }

  /** The same total, order by order. */
  function SumPutBack(os: seq<OrderRecord>, ks: seq<Cancel>, p: string, n: nat, m: nat): nat
    requires n <= |os| && m <= |ks|
  {
    if n == 0 then 0 else SumPutBack(os, ks, p, n - 1, m) + PutBack(ks, n - 1, OrderUnits(os, p, n - 1), m)
  }

  /** No cancellation is between its refund and the mark on its order. */
  ghost predicate Settled(ks: seq<Cancel>) {
    forall j :: 0 <= j < |ks| ==> !ks[j].phase.Restocking? && !ks[j].phase.Updating?
  }

  lemma {:induction false} OneMoreCancel(os: seq<OrderRecord>, ks: seq<Cancel>, p: string, n: nat, m: nat)
    requires n <= |os| && 1 <= m <= |ks| && ks[m - 1].order < |os|
    ensures SumPutBack(os, ks, p, n, m) == SumPutBack(os, ks, p, n, m - 1) +
            if ks[m - 1].phase.Cancelled? && ks[m - 1].order < n then OrderUnits(os, p, ks[m - 1].order) else 0
  {
    hide OrderUnits;
    if n > 0 { OneMoreCancel(os, ks, p, n - 1, m); }
  }

  lemma {:induction false} NothingPutBack(os: seq<OrderRecord>, ks: seq<Cancel>, p: string, n: nat)
    requires n <= |os|
    ensures SumPutBack(os, ks, p, n, 0) == 0
  {
    if n > 0 { NothingPutBack(os, ks, p, n - 1); }
  }

  lemma {:induction false} ReturnedIsPutBack(os: seq<OrderRecord>, ks: seq<Cancel>, p: string, m: nat)
    requires m <= |ks| && Settled(ks) && forall k :: k in ks ==> GoodCancel(k)
    requires forall k :: k in ks ==> k.order < |os| && k.lines == os[k.order].order.lines
    ensures SumReturned(ks, p, m) == SumPutBack(os, ks, p, |os|, m)
  {
    if m > 0 {
      assert ks[m - 1] in ks;
      ReturnedIsPutBack(os, ks, p, m - 1);
      OneMoreCancel(os, ks, p, |os|, m);
    } else {
      NothingPutBack(os, ks, p, |os|);
    }
  }

  /** An order of `p` was cancelled to completion more than once. */
  ghost predicate DoubleCancel(s: State, p: string, n: nat)
    requires n <= |s.orders|
  {
    exists o :: 0 <= o < n && OrderUnits(s.orders, p, o) > 0 && TimesCancelled(s.cancels, o, |s.cancels|) > 1
  }

  lemma {:induction false} PaidAndPutBack(s: State, p: string, n: nat)
    requires n <= |s.orders| && Marked(s)
    ensures var back := SumPutBack(s.orders, s.cancels, p, n, |s.cancels|);
            var gone := SumOrdered(s.orders, p, n) - SumPaid(s.orders, p, n);
            back >= gone && (back == gone <==> !DoubleCancel(s, p, n))
  {
    if n > 0 {
      PaidAndPutBack(s, p, n - 1);
      PutBackByCount(s.cancels, n - 1, OrderUnits(s.orders, p, n - 1), |s.cancels|);
      var twice := OrderUnits(s.orders, p, n - 1) > 0 && TimesCancelled(s.cancels, n - 1, |s.cancels|) > 1;
      assert DoubleCancel(s, p, n) <==> DoubleCancel(s, p, n - 1) || twice;
      assert SumOrdered(s.orders, p, n) == SumOrdered(s.orders, p, n - 1) + OrderUnits(s.orders, p, n - 1);
    }
  }

  /**
   * Stock is conserved: on hand, in paid orders and taken by checkouts still finishing
   * make up all that was supplied - exactly when no order with units of the product was
   * cancelled to completion twice.
   */
  lemma ConservedIff(events: seq<Event>, p: string)
    requires Settled(Run(events).cancels)
    ensures var s := Run(events);
            && WellFormed(s)
            && (At(s.stock, p).onHand + SumPaid(s.orders, p, |s.orders|) + SumTaken(s.checkouts, p, |s.checkouts|)
                == Units(s.supplied, p, 0, |s.supplied|)
                <==> !DoubleCancel(s, p, |s.orders|))
  {
    var s := Run(events);
    Reachable(events);
    RunIsMarked(events);
    assert Balanced(s, p);
    ReturnedIsPutBack(s.orders, s.cancels, p, |s.cancels|);
    PaidAndPutBack(s, p, |s.orders|);
    hide Run, SumHeld, SumTaken, SumReturned, SumOrdered, SumPaid, DoubleCancel;
  }

  // ---- cancellations of one order do not overlap ----

  function ActiveOn(ks: seq<Cancel>, o: nat, n: nat): nat
    requires n <= |ks|
  {
    if n == 0 then 0
    else ActiveOn(ks, o, n - 1) +
         if ks[n - 1].order == o && !ks[n - 1].phase.Cancelled? && !ks[n - 1].phase.Refused? then 1 else 0
  }

  /** A cancellation begins only when none of the same order is in progress. */
  ghost predicate OneAtATime(events: seq<Event>) {
    |events| == 0 ||
    (OneAtATime(events[..|events| - 1]) &&
     var s := Run(events[..|events| - 1]); var e := events[|events| - 1];
     e.BeginCancel? ==> ActiveOn(s.cancels, e.order, |s.cancels|) == 0)
  }

  ghost predicate AtMostOnce(s: State) {
    forall o :: 0 <= o < |s.orders| ==>
      ActiveOn(s.cancels, o, |s.cancels|) + TimesCancelled(s.cancels, o, |s.cancels|) <= 1
  }

  lemma {:induction false} ActiveReplaced(ks: seq<Cancel>, j: nat, k: Cancel, o: nat, n: nat)
    requires j < |ks| && n <= |ks| && k.order == ks[j].order
    requires ks[j].phase.Cancelled? || ks[j].phase.Refused? ==> k == ks[j]
    ensures ActiveOn(ks[j := k], o, n) + TimesCancelled(ks[j := k], o, n)
            <= ActiveOn(ks, o, n) + TimesCancelled(ks, o, n)
  {
    if n > 0 { ActiveReplaced(ks, j, k, o, n - 1); }
  }

  lemma {:induction false} ActiveAdded(ks: seq<Cancel>, k: Cancel, o: nat, n: nat)
    requires n <= |ks|
    ensures ActiveOn(ks + [k], o, n) == ActiveOn(ks, o, n)
  {
    if n > 0 { ActiveAdded(ks, k, o, n - 1); }
  }

  lemma {:induction false} ActiveNone(ks: seq<Cancel>, o: nat, n: nat)
    requires n <= |ks| && forall j :: 0 <= j < n ==> ks[j].order != o
    ensures ActiveOn(ks, o, n) == 0
  {
    if n > 0 { ActiveNone(ks, o, n - 1); }
  }

  lemma {:induction false} OneAtATimeIsOnce(events: seq<Event>)
    requires OneAtATime(events)
    ensures AtMostOnce(Run(events))
  {
    if |events| > 0 {
      OneAtATimeIsOnce(events[..|events| - 1]);
      RunIsMarked(events[..|events| - 1]);
      OnceStays(Run(events[..|events| - 1]), events[|events| - 1]);
    }
  }

  lemma OnceStays(s: State, e: Event)
    requires AtMostOnce(s) && Marked(s)
    requires e.BeginCancel? ==> ActiveOn(s.cancels, e.order, |s.cancels|) == 0
    ensures AtMostOnce(Apply(s, e))
  {
    var t := Apply(s, e);
    forall o | 0 <= o < |t.orders|
      ensures ActiveOn(t.cancels, o, |t.cancels|) + TimesCancelled(t.cancels, o, |t.cancels|) <= 1
    {
      if |t.cancels| > |s.cancels| {
        ActiveAdded(s.cancels, t.cancels[|s.cancels|], o, |s.cancels|);
        CountAdded(s.cancels, t.cancels[|s.cancels|], o, |s.cancels|);
      } else if e.StepCancel? && e.j < |s.cancels| {
        ActiveReplaced(s.cancels, e.j, t.cancels[e.j], o, |s.cancels|);
      } else if o >= |s.orders| {
        ActiveNone(s.cancels, o, |s.cancels|);
        CountNone(s.cancels, o, |s.cancels|);
      }
    }
    hide CheckoutStep, Restock, Reserve;
  }

  /** So it is conserved whenever cancellations of one order do not overlap. */
  lemma ConservedWithoutOverlap(events: seq<Event>, p: string)
    requires OneAtATime(events) && Settled(Run(events).cancels)
    ensures var s := Run(events);
            && WellFormed(s)
            && At(s.stock, p).onHand + SumPaid(s.orders, p, |s.orders|) + SumTaken(s.checkouts, p, |s.checkouts|)
               == Units(s.supplied, p, 0, |s.supplied|)
  {
    OneAtATimeIsOnce(events);
    ConservedIff(events, p);
    hide Run, SumPaid, SumTaken, WellFormed;
  }

  // ---- a run that cancels one order twice ----

  lemma More(events: seq<Event>, e: Event, s: State) returns (longer: seq<Event>)
    requires Apply(Run(events), e) == s
    ensures Run(longer) == s
  {
    longer := events + [e];
    assert longer[..|longer| - 1] == events;
  }

  const UNIT := [Line("p", 1, 0)]
  const SOLD := State(map["p" := Level(0, 0)], map[], [Checkout(UNIT, None, Placed)],
                      [OrderRecord(Order(UNIT, 0, 0, 0), false)], [], UNIT)

  const PRICED := State(map["p" := Level(1, 1)], map[], [Checkout(UNIT, None, Pricing)], [], [], UNIT)

  /** Supply one unit and reserve it. */
  lemma ReserveOne() returns (events: seq<Event>)
    ensures Run(events) == PRICED
  {
    var a := State(map["p" := Level(0, 0)], map[], [], [], [], []);
    events := More([], CreateProduct("p"), a);
    hide Run;
    var b := a.(stock := map["p" := Level(1, 0)], supplied := UNIT);
    events := More(events, Supply("p", 1), b);
    var c := b.(checkouts := [Checkout(UNIT, None, Reserving(0))]);
    events := More(events, Begin(UNIT, None), c);
    events := More(events, StepCheckout(0, true), PRICED);
  }

  /** Sell it. */
  lemma SellOne() returns (events: seq<Event>)
    ensures Run(events) == SOLD
  {
    hide Run;
    var step := StepCheckout(0, true);
    events := ReserveOne();
    var e := PRICED.(checkouts := [Checkout(UNIT, None, Charging(0))]);
    events := More(events, step, e);
    var f := e.(checkouts := [Checkout(UNIT, None, Committing(0, 0))]);
    events := More(events, step, f);
    var g := f.(stock := map["p" := Level(0, 0)], checkouts := [Checkout(UNIT, None, Inserting(0))]);
    events := More(events, step, g);
    events := More(events, step, SOLD);
  }

  const BOTH := SOLD.(cancels := [Cancel(0, UNIT, Refunding), Cancel(0, UNIT, Refunding)])

  lemma BeginBoth() returns (events: seq<Event>)
    ensures Run(events) == BOTH
  {
    hide Run;
    events := SellOne();
    events := More(events, BeginCancel(0), SOLD.(cancels := [Cancel(0, UNIT, Refunding)]));
    events := More(events, BeginCancel(0), BOTH);
  }

  const ONCE := BOTH.(stock := map["p" := Level(1, 0)],
                      cancels := [Cancel(0, UNIT, Cancelled), Cancel(0, UNIT, Refunding)],
                      orders := [OrderRecord(Order(UNIT, 0, 0, 0), true)])

  lemma CancelOnce() returns (events: seq<Event>)
    ensures Run(events) == ONCE
  {
    hide Run;
    var k := Cancel(0, UNIT, Refunding);
    events := BeginBoth();
    var c := BOTH.(cancels := [k.(phase := Restocking(0)), k]);
    events := More(events, StepCancel(0, true), c);
    var d := c.(stock := map["p" := Level(1, 0)], cancels := [k.(phase := Updating), k]);
    events := More(events, StepCancel(0, true), d);
    events := More(events, StepCancel(0, true), ONCE);
  }

  const TWICE := ONCE.(stock := map["p" := Level(2, 0)],
                       cancels := [Cancel(0, UNIT, Cancelled), Cancel(0, UNIT, Cancelled)])

  lemma CancelTwice() returns (events: seq<Event>)
    ensures Run(events) == TWICE
  {
    hide Run;
    var k := Cancel(0, UNIT, Refunding);
    var done := k.(phase := Cancelled);
    events := CancelOnce();
    var f := ONCE.(cancels := [done, k.(phase := Restocking(0))]);
    events := More(events, StepCancel(1, true), f);
    var g := f.(stock := map["p" := Level(2, 0)], cancels := [done, k.(phase := Updating)]);
    events := More(events, StepCancel(1, true), g);
    events := More(events, StepCancel(1, true), TWICE);
  }

  /** Two overlapping cancellations of one order put its unit back twice. */
  lemma OverlapBreaksConservation()
    ensures exists events :: Settled(Run(events).cancels) && DoubleCancel(Run(events), "p", |Run(events).orders|)
  {
    hide Run;
    var events := CancelTwice();
    assert OrderUnits(TWICE.orders, "p", 0) == 1;
    assert TimesCancelled(TWICE.cancels, 0, 0) == 0;
    assert TimesCancelled(TWICE.cancels, 0, 1) == 1;
    assert TimesCancelled(TWICE.cancels, 0, 2) == 2;
    assert Settled(Run(events).cancels) && DoubleCancel(Run(events), "p", |Run(events).orders|);
  }
}
