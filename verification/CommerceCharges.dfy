/**
 * What the gateway's answers decide, over every run: which checkouts are placed, which
 * orders there are and at what discount, and which cancellations go through.
 */
module CommerceCharges {
  import opened Common
  import opened Inventory
  import opened Commerce
  import opened CommerceSafety

  // ---- the subtotal, unit by unit ----

  /** The price of every single unit in the cart. */
  function UnitPrices(lines: seq<Line>): seq<nat> {
    if |lines| == 0 then []
    else
      var n := |lines| - 1;
      UnitPrices(lines[..n]) + seq(lines[n].quantity, _ => lines[n].price)
  }

  function Sum(prices: seq<nat>): nat {
    if |prices| == 0 then 0 else Sum(prices[..|prices| - 1]) + prices[|prices| - 1]
  }

  lemma {:induction false} SumTogether(a: seq<nat>, b: seq<nat>)
    ensures Sum(a + b) == Sum(a) + Sum(b)
  {
    if |b| > 0 {
      assert (a + b)[..|a + b| - 1] == a + b[..|b| - 1];
      SumTogether(a, b[..|b| - 1]);
    } else {
      assert a + b == a;
    }
  }

  lemma {:induction false} SumSame(prices: seq<nat>, price: nat)
    requires forall i :: 0 <= i < |prices| ==> prices[i] == price
    ensures Sum(prices) == price * |prices|
  {
    if |prices| > 0 {
      SumSame(prices[..|prices| - 1], price);
      assert price * |prices| == price * (|prices| - 1) + price;
    }
  }

  lemma {:induction false} AmountsOfFirst(lines: seq<Line>, more: seq<Line>, n: nat)
    requires n <= |lines|
    ensures Amounts(lines + more, n) == Amounts(lines, n)
  {
    if n > 0 { AmountsOfFirst(lines, more, n - 1); }
  }

  /** The subtotal is the sum of the prices of all single units. */
  lemma {:induction false} SubtotalIsUnitSum(lines: seq<Line>)
    ensures Amounts(lines, |lines|) == Sum(UnitPrices(lines))
    decreases |lines|
  {
    if |lines| > 0 {
      var n := |lines| - 1;
      var last := seq(lines[n].quantity, _ => lines[n].price);
      SubtotalIsUnitSum(lines[..n]);
      AmountsOfFirst(lines[..n], [lines[n]], n);
      assert lines[..n] + [lines[n]] == lines;
      SumTogether(UnitPrices(lines[..n]), last);
      SumSame(last, lines[n].price);
    }
  }

  // ---- coupons, by what the discount means ----

  /** `d` is what the coupon takes off: the whole cents of a percentage, or an amount up to the subtotal. */
  predicate TakesOff(c: Coupon, subtotal: nat, d: int) {
    c.active && c.minSubtotal <= subtotal &&
    match c
    case Percent(value, _, _) => d as real * 100.0 <= subtotal as real * value < (d + 1) as real * 100.0
    case Fixed(amount, _, _) => d <= amount && d <= subtotal && (d == amount || d == subtotal)
  }

  /** A coupon applies with the discount `d` exactly when it is active, the subtotal suffices, and `d` is that. */
  lemma DiscountIff(c: Coupon, subtotal: nat, d: int)
    ensures Discount(c, subtotal) == Some(d) <==> TakesOff(c, subtotal, d)
  {
    if c.Percent? {
      var x := subtotal as real * c.value;
      var f := (x / 100.0).Floor;
      assert f as real <= x / 100.0 < (f + 1) as real;
      assert f as real * 100.0 <= x < (f + 1) as real * 100.0;
      if TakesOff(c, subtotal, d) {
        assert d as real < (f + 1) as real && f as real < (d + 1) as real;
        assert d == f;
      }
    }
  }

  /** The last coupon created under the code that was accepted. */
  function LastCoupon(events: seq<Event>, code: string): Option<Coupon> {
    if |events| == 0 then None
    else
      match events[|events| - 1]
      case CreateCoupon(name, coupon) =>
        if name == code && ValidCoupon(coupon) then Some(coupon) else LastCoupon(events[..|events| - 1], code)
      case _ => LastCoupon(events[..|events| - 1], code)
  }

  lemma {:induction false} CouponsAre(events: seq<Event>, code: string)
    ensures var coupons := Run(events).coupons;
            LastCoupon(events, code) == if code in coupons then Some(coupons[code]) else None
  {
    if |events| > 0 {
      CouponsAre(events[..|events| - 1], code);
      CouponsMove(Run(events[..|events| - 1]), events[|events| - 1], code);
      hide Apply, ValidCoupon;
    }
  }

  lemma CouponsMove(s: State, e: Event, code: string)
    ensures var t := Apply(s, e);
            if e.CreateCoupon? && e.name == code && ValidCoupon(e.coupon) then code in t.coupons && t.coupons[code] == e.coupon
            else (code in t.coupons <==> code in s.coupons) && (code in s.coupons ==> t.coupons[code] == s.coupons[code])
  {
    hide CheckoutStep, CancelStep, ValidCoupon;
  }

  /** In `s` the lines may be priced under the code at the discount `d`. */
  ghost predicate Priced(s: State, lines: seq<Line>, code: Option<string>, d: int) {
    match code
    case None => d == 0
    case Some(name) => name in s.coupons && TakesOff(s.coupons[name], Amounts(lines, |lines|), d)
  }

  /** Pricing goes on to the charge, at the discount of the coupon, or else to the releases. */
  lemma PricingIff(s: State, c: Checkout, ok: bool, d: int)
    requires c.phase.Pricing?
    ensures CheckoutStep(s, c, ok).1 == Charging(d) <==> Priced(s, c.lines, c.code, d)
    ensures CheckoutStep(s, c, ok).1.Charging? || CheckoutStep(s, c, ok).1 == Compensating(0)
  {
    if c.code.Some? && c.code.value in s.coupons {
      DiscountIff(s.coupons[c.code.value], Amounts(c.lines, |c.lines|), d);
    }
    hide Discount, TakesOff;
  }

  // ---- charges ----

  /** At step `n` the gateway answered `ok` to the charge of checkout `i`. */
  ghost predicate AnsweredAt(events: seq<Event>, i: nat, ok: bool, n: nat) {
    && n < |events| && events[n] == StepCheckout(i, ok)
    && i < |Run(events[..n]).checkouts| && Run(events[..n]).checkouts[i].phase.Charging?
  }

  ghost predicate Answered(events: seq<Event>, i: nat, ok: bool) {
    exists n: nat :: AnsweredAt(events, i, ok, n)
  }

  lemma AnsweredNext(events: seq<Event>, i: nat, ok: bool)
    requires |events| > 0
    ensures var before, last := events[..|events| - 1], |events| - 1;
            Answered(events, i, ok) <==> Answered(before, i, ok) || AnsweredAt(events, i, ok, last)
  {
    var before, last := events[..|events| - 1], |events| - 1;
    hide Run;
    if Answered(before, i, ok) {
      var n: nat :| AnsweredAt(before, i, ok, n);
      assert before[..n] == events[..n];
      assert AnsweredAt(events, i, ok, n);
    }
    if Answered(events, i, ok) && !AnsweredAt(events, i, ok, last) {
      var n: nat :| AnsweredAt(events, i, ok, n);
      assert before[..n] == events[..n];
      assert AnsweredAt(before, i, ok, n);
    }
  }

  /** Which answers a phase goes with. */
  ghost predicate Fits(phase: Phase, charged: bool, declined: bool) {
    match phase
    case Committing(_, _) => charged && !declined
    case Inserting(_) => charged && !declined
    case Placed => charged && !declined
    case Compensating(_) => !charged
    case Failed => !charged
    case _ => !charged && !declined
  }

  /** How one step moves the phase. */
  lemma PhaseMoves(s: State, c: Checkout, ok: bool)
    ensures var next := CheckoutStep(s, c, ok).1;
            match c.phase
            case Reserving(_) => next.Reserving? || next.Pricing? || next.Undoing? || next.Failed?
            case Undoing(_, _) => next.Undoing? || next.Failed?
            case Pricing => next.Charging? || next.Compensating?
            case Charging(_) => if ok then next.Committing? else next.Compensating?
            case Committing(_, _) => next.Committing? || next.Inserting?
            case Inserting(_) => next.Placed?
            case Compensating(_) => next.Compensating? || next.Failed?
            case _ => next == c.phase
  {
    hide Applied, Reserve, Release, Commit;
  }

  /** The event moves the checkout, if it is about it, by one step and leaves its lines and code. */
  lemma CheckoutMoves(s: State, e: Event, i: nat)
    requires i < |Apply(s, e).checkouts|
    ensures if i >= |s.checkouts| then Apply(s, e).checkouts[i].phase == Reserving(0)
            else
              && Apply(s, e).checkouts[i].lines == s.checkouts[i].lines
              && Apply(s, e).checkouts[i].code == s.checkouts[i].code
              && Apply(s, e).checkouts[i].phase ==
                   if e.StepCheckout? && e.i == i then CheckoutStep(s, s.checkouts[i], e.chargeSucceeds).1
                   else s.checkouts[i].phase
    ensures |s.checkouts| <= |Apply(s, e).checkouts|
  {
    hide CheckoutStep, CancelStep;
  }

  lemma {:induction false} AnswersFit(events: seq<Event>, i: nat)
    ensures var s := Run(events);
            if i < |s.checkouts| then Fits(s.checkouts[i].phase, Answered(events, i, true), Answered(events, i, false))
            else !Answered(events, i, true) && !Answered(events, i, false)
  {
    if |events| > 0 {
      var before, e := events[..|events| - 1], events[|events| - 1];
      var s := Run(before);
      AnswersFit(before, i);
      AnsweredNext(events, i, true);
      AnsweredNext(events, i, false);
      hide Answered;
      if i < |Apply(s, e).checkouts| { CheckoutMoves(s, e, i); }
      if i < |s.checkouts| {
        PhaseMoves(s, s.checkouts[i], if e.StepCheckout? then e.chargeSucceeds else true);
      }
      NeverFewer(s, e);
      hide Apply, CheckoutStep;
    }
  }

  lemma NeverFewer(s: State, e: Event)
    ensures |s.checkouts| <= |Apply(s, e).checkouts|
  {
    hide CheckoutStep, CancelStep;
  }

  /**
   * A checkout takes stock, stores its order or is placed exactly when its charge was answered
   * with success; one whose charge was declined only ever gives its stock back, or has.
   */
  lemma ChargedIff(events: seq<Event>, i: nat)
    requires i < |Run(events).checkouts|
    ensures var phase := Run(events).checkouts[i].phase;
            && (phase.Committing? || phase.Inserting? || phase.Placed? <==> Answered(events, i, true))
            && (Answered(events, i, false) ==> phase.Compensating? || phase.Failed?)
            && !(Answered(events, i, true) && Answered(events, i, false))
  {
    AnswersFit(events, i);
    hide Answered, Run;
  }

  // ---- prices ----

  /** At step `n` checkout `i` was priced, at the discount `d`. */
  ghost predicate PricedAt(events: seq<Event>, i: nat, d: int, n: nat) {
    && n < |events| && events[n].StepCheckout? && events[n].i == i && i < |Run(events[..n]).checkouts|
    && var s := Run(events[..n]);
       s.checkouts[i].phase.Pricing? && Priced(s, s.checkouts[i].lines, s.checkouts[i].code, d)
  }

  ghost predicate WasPriced(events: seq<Event>, i: nat, d: int) {
    exists n: nat :: PricedAt(events, i, d, n)
  }

  lemma PricedStays(events: seq<Event>, i: nat, d: int)
    requires |events| > 0 && WasPriced(events[..|events| - 1], i, d)
    ensures WasPriced(events, i, d)
  {
    var before := events[..|events| - 1];
    hide Run, Priced;
    var n: nat :| PricedAt(before, i, d, n);
    assert before[..n] == events[..n];
    assert PricedAt(events, i, d, n);
  }

  function DiscountOf(phase: Phase): Option<int> {
    match phase
    case Charging(d) => Some(d)
    case Committing(_, d) => Some(d)
    case Inserting(d) => Some(d)
    case _ => None
  }

  /** The discount a checkout goes on with is the one it was priced at. */
  lemma {:induction false} DiscountWasPriced(events: seq<Event>, i: nat)
    requires i < |Run(events).checkouts| && DiscountOf(Run(events).checkouts[i].phase).Some?
    ensures WasPriced(events, i, DiscountOf(Run(events).checkouts[i].phase).value)
  {
    if |events| > 0 {
      var before, e := events[..|events| - 1], events[|events| - 1];
      var s := Run(before);
      CheckoutMoves(s, e, i);
      var d := DiscountOf(Run(events).checkouts[i].phase).value;
      hide Apply;
      if i < |s.checkouts| {
        var ok := if e.StepCheckout? then e.chargeSucceeds else true;
        DiscountMoves(s, s.checkouts[i], ok);
        hide CheckoutStep;
        if DiscountOf(s.checkouts[i].phase).Some? {
          DiscountWasPriced(before, i);
          PricedStays(events, i, d);
        } else {
          PricingIff(s, s.checkouts[i], ok, d);
          assert PricedAt(events, i, d, |events| - 1);
        }
      }
    }
  }

  lemma DiscountMoves(s: State, c: Checkout, ok: bool)
    ensures var next := DiscountOf(CheckoutStep(s, c, ok).1);
            next.Some? ==> if DiscountOf(c.phase).Some? then next == DiscountOf(c.phase) else c.phase.Pricing?
  {
    hide Applied, Reserve, Release, Commit;
  }

  // ---- orders ----

  /** The checkouts whose orders were stored, in that order. */
  function Stored(events: seq<Event>): seq<nat> {
    if |events| == 0 then []
    else
      var before, e := events[..|events| - 1], events[|events| - 1];
      var s := Run(before);
      if e.StepCheckout? && e.i < |s.checkouts| && s.checkouts[e.i].phase.Inserting? then Stored(before) + [e.i]
      else Stored(before)
  }

  /** `o` is the order of checkout `i`: its lines, at the discount it was priced at. */
  ghost predicate OrderFor(events: seq<Event>, i: nat, o: Order) {
    && i < |Run(events).checkouts| && o.lines == Run(events).checkouts[i].lines
    && o.subtotal == Amounts(o.lines, |o.lines|) && o.total == o.subtotal - o.discount
    && WasPriced(events, i, o.discount)
  }

  /** The stored orders are those of `Stored`, and the checkouts placed are those in it, each once. */
  ghost predicate OrdersMatch(events: seq<Event>) {
    var s, ids := Run(events), Stored(events);
    OrdersAreFor(events, s.orders, ids) && PlacedAre(s.checkouts, ids) && NoneTwice(ids)
  }

  ghost predicate OrdersAreFor(events: seq<Event>, orders: seq<OrderRecord>, ids: seq<nat>) {
    |orders| == |ids| && forall k :: 0 <= k < |ids| ==> OrderFor(events, ids[k], orders[k].order)
  }

  ghost predicate PlacedAre(checkouts: seq<Checkout>, ids: seq<nat>) {
    forall i :: 0 <= i < |checkouts| ==> (checkouts[i].phase.Placed? <==> i in ids)
  }

  ghost predicate NoneTwice(ids: seq<nat>) {
    forall j, k :: 0 <= j < k < |ids| ==> ids[j] != ids[k]
  }

  lemma OrderForStays(events: seq<Event>, i: nat, o: Order)
    requires |events| > 0 && OrderFor(events[..|events| - 1], i, o)
    ensures OrderFor(events, i, o)
  {
    var before, e := events[..|events| - 1], events[|events| - 1];
    PricedStays(events, i, o.discount);
    NeverFewer(Run(before), e);
    CheckoutMoves(Run(before), e, i);
    hide Apply, WasPriced;
  }

  /** The event stores the order of the checkout it steps. */
  predicate Stores(s: State, e: Event) {
    e.StepCheckout? && e.i < |s.checkouts| && s.checkouts[e.i].phase.Inserting?
  }

  /** What one event does to the list of orders. */
  lemma OrdersMove(s: State, e: Event)
    ensures var t := Apply(s, e);
            if Stores(s, e) then
              var c := s.checkouts[e.i];
              |t.orders| == |s.orders| + 1 && t.orders[..|s.orders|] == s.orders
              && t.orders[|s.orders|].order == PlacedOrder(c, c.phase.discount)
            else |t.orders| == |s.orders| && forall k :: 0 <= k < |s.orders| ==> t.orders[k].order == s.orders[k].order
  {
    hide CheckoutStep, CancelStep, PlacedOrder;
  }

  lemma {:induction false} OrdersDoMatch(events: seq<Event>)
    ensures OrdersMatch(events)
  {
    if |events| > 0 {
      var before, e := events[..|events| - 1], events[|events| - 1];
      OrdersDoMatch(before);
      OrdersStillMatch(events, before, e);
    }
  }

  lemma OrdersStillMatch(events: seq<Event>, before: seq<Event>, e: Event)
    requires |events| > 0 && before == events[..|events| - 1] && e == events[|events| - 1] && OrdersMatch(before)
    ensures OrdersMatch(events)
  {
    hide *;
    StoredNext(events, before, e);
    MatchIs(before);
    MatchIs(events);
    IdsInside(before);
    OrdersStillFor(events, before, e);
    PlacedStill(Run(before), e, Stored(before), Stored(events));
  }

  lemma MatchIs(events: seq<Event>)
    ensures OrdersMatch(events) <==>
              && OrdersAreFor(events, Run(events).orders, Stored(events))
              && PlacedAre(Run(events).checkouts, Stored(events)) && NoneTwice(Stored(events))
  {
  }

  lemma OrdersStillFor(events: seq<Event>, before: seq<Event>, e: Event)
    requires |events| > 0 && before == events[..|events| - 1] && e == events[|events| - 1]
    requires OrdersAreFor(before, Run(before).orders, Stored(before))
    requires Run(events) == Apply(Run(before), e)
    requires Stored(events) == if Stores(Run(before), e) then Stored(before) + [e.i] else Stored(before)
    ensures OrdersAreFor(events, Run(events).orders, Stored(events))
  {
    var s := Run(before);
    OrdersMove(s, e);
    hide *;
    OrdersStay(events, before, s.orders, Stored(before));
    if Stores(s, e) {
      assert e.StepCheckout? by { OnlyThen(s, e); }
      StoredIsOrder(events, before, e);
    }
    OneMore(events, s.orders, Apply(s, e).orders, Stored(before), Stored(events), Stores(s, e), e);
  }

  lemma OnlyThen(s: State, e: Event)
    requires Stores(s, e)
    ensures e.StepCheckout? && e.i < |s.checkouts| && s.checkouts[e.i].phase.Inserting?
  {
  }

  lemma OrdersStay(events: seq<Event>, before: seq<Event>, orders: seq<OrderRecord>, ids: seq<nat>)
    requires |events| > 0 && before == events[..|events| - 1] && OrdersAreFor(before, orders, ids)
    ensures OrdersAreFor(events, orders, ids)
  {
    hide OrderFor;
    forall k | 0 <= k < |ids| ensures OrderFor(events, ids[k], orders[k].order) {
      OrderForStays(events, ids[k], orders[k].order);
    }
  }

  lemma OneMore(events: seq<Event>, orders: seq<OrderRecord>, after: seq<OrderRecord>, ids: seq<nat>, more: seq<nat>,
                storing: bool, e: Event)
    requires OrdersAreFor(events, orders, ids)
    requires storing ==> e.StepCheckout? && more == ids + [e.i] && |after| == |orders| + 1 && after[..|orders|] == orders
                         && OrderFor(events, e.i, after[|orders|].order)
    requires !storing ==> more == ids && |after| == |orders|
                          && forall k :: 0 <= k < |orders| ==> after[k].order == orders[k].order
    ensures OrdersAreFor(events, after, more)
  {
    hide OrderFor;
    forall k | 0 <= k < |more| ensures OrderFor(events, more[k], after[k].order) {
      if k < |ids| {
        assert OrderFor(events, ids[k], orders[k].order);
        assert storing ==> after[k] == after[..|orders|][k];
      }
    }
  }

  lemma PlacedStill(s: State, e: Event, ids: seq<nat>, more: seq<nat>)
    requires PlacedAre(s.checkouts, ids) && NoneTwice(ids) && forall i :: i in ids ==> i < |s.checkouts|
    requires more == if Stores(s, e) then ids + [e.i] else ids
    ensures PlacedAre(Apply(s, e).checkouts, more) && NoneTwice(more)
  {
    var t := Apply(s, e);
    hide Apply;
    forall i | 0 <= i < |t.checkouts| ensures t.checkouts[i].phase.Placed? <==> i in more { PlacedMoves(s, e, i); }
    if Stores(s, e) { assert e.i !in ids; }
  }

  lemma StoredNext(events: seq<Event>, before: seq<Event>, e: Event)
    requires |events| > 0 && before == events[..|events| - 1] && e == events[|events| - 1]
    ensures var s := Run(before);
            Stored(events) ==
              if Stores(s, e) then Stored(before) + [e.i] else Stored(before)
    ensures Run(events) == Apply(Run(before), e)
  {
    hide Apply;
  }

  lemma IdsInside(events: seq<Event>)
    requires OrdersMatch(events)
    ensures forall i :: i in Stored(events) ==> i < |Run(events).checkouts|
  {
    var ids := Stored(events);
    forall i | i in ids ensures i < |Run(events).checkouts| {
      var k :| 0 <= k < |ids| && ids[k] == i;
      assert OrderFor(events, ids[k], Run(events).orders[k].order);
    }
  }

  lemma PlacedMoves(s: State, e: Event, i: nat)
    requires i < |Apply(s, e).checkouts|
    ensures Apply(s, e).checkouts[i].phase.Placed? <==>
              i < |s.checkouts| && (s.checkouts[i].phase.Placed?
                || (e.StepCheckout? && e.i == i && s.checkouts[i].phase.Inserting?))
  {
    CheckoutMoves(s, e, i);
    if i < |s.checkouts| { PhaseMoves(s, s.checkouts[i], if e.StepCheckout? then e.chargeSucceeds else true); }
    hide Apply, CheckoutStep;
  }

  lemma StoredIsOrder(events: seq<Event>, before: seq<Event>, e: Event)
    requires |events| > 0 && before == events[..|events| - 1] && e == events[|events| - 1]
    requires Stores(Run(before), e)
    ensures var c := Run(before).checkouts[e.i]; OrderFor(events, e.i, PlacedOrder(c, c.phase.discount))
  {
    var s := Run(before);
    DiscountWasPriced(before, e.i);
    PricedStays(events, e.i, s.checkouts[e.i].phase.discount);
    NeverFewer(s, e);
    CheckoutMoves(s, e, e.i);
    hide Apply, WasPriced;
  }

  /**
   * The orders are exactly those of the charged checkouts that have come to store them: one
   * each, with the lines of the checkout and the discount its coupon gave when it was priced.
   */
  lemma OrdersAreCharged(events: seq<Event>, k: nat)
    requires k < |Run(events).orders|
    ensures |Stored(events)| == |Run(events).orders|
    ensures OrderFor(events, Stored(events)[k], Run(events).orders[k].order)
    ensures Answered(events, Stored(events)[k], true)
    ensures forall i :: 0 <= i < |Run(events).checkouts| ==>
              (Run(events).checkouts[i].phase.Placed? <==> i in Stored(events))
    ensures forall j :: 0 <= j < |Stored(events)| && j != k ==> Stored(events)[j] != Stored(events)[k]
  {
    OrdersDoMatch(events);
    assert OrderFor(events, Stored(events)[k], Run(events).orders[k].order);
    assert Stored(events)[k] in Stored(events);
    ChargedIff(events, Stored(events)[k]);
    hide Run, Stored, Answered;
  }

  // ---- refunds ----

  /** At step `n` the gateway answered `ok` to the refund of cancellation `j`. */
  ghost predicate RefundAt(events: seq<Event>, j: nat, ok: bool, n: nat) {
    && n < |events| && events[n] == StepCancel(j, ok)
    && j < |Run(events[..n]).cancels| && Run(events[..n]).cancels[j].phase.Refunding?
  }

  ghost predicate Refunded(events: seq<Event>, j: nat, ok: bool) {
    exists n: nat :: RefundAt(events, j, ok, n)
  }

  lemma RefundedNext(events: seq<Event>, j: nat, ok: bool)
    requires |events| > 0
    ensures var before, last := events[..|events| - 1], |events| - 1;
            Refunded(events, j, ok) <==> Refunded(before, j, ok) || RefundAt(events, j, ok, last)
  {
    var before, last := events[..|events| - 1], |events| - 1;
    hide Run;
    if Refunded(before, j, ok) {
      var n: nat :| RefundAt(before, j, ok, n);
      assert before[..n] == events[..n];
      assert RefundAt(events, j, ok, n);
    }
    if Refunded(events, j, ok) && !RefundAt(events, j, ok, last) {
      var n: nat :| RefundAt(events, j, ok, n);
      assert before[..n] == events[..n];
      assert RefundAt(before, j, ok, n);
    }
  }

  ghost predicate RefundFits(phase: CancelPhase, refunded: bool, refused: bool) {
    match phase
    case Refunding => !refunded && !refused
    case Refused => !refunded && refused
    case _ => refunded && !refused
  }

  lemma CancelMoves(s: State, e: Event, j: nat)
    requires j < |Apply(s, e).cancels|
    ensures if j >= |s.cancels| then Apply(s, e).cancels[j].phase == Refunding
            else
              var phase, next := s.cancels[j].phase, Apply(s, e).cancels[j].phase;
              if e.StepCancel? && e.j == j && phase.Refunding? then
                if e.refundSucceeds then next.Updating? || next.Restocking? else next.Refused?
              else
                && (phase.Refunding? <==> next.Refunding?) && (phase.Refused? <==> next.Refused?)
    ensures |s.cancels| <= |Apply(s, e).cancels|
  {
    hide CheckoutStep, Restock;
  }

  lemma NeverFewerCancels(s: State, e: Event)
    ensures |s.cancels| <= |Apply(s, e).cancels|
  {
    hide CheckoutStep, CancelStep;
  }

  lemma {:induction false} RefundsFit(events: seq<Event>, j: nat)
    ensures var s := Run(events);
            if j < |s.cancels| then RefundFits(s.cancels[j].phase, Refunded(events, j, true), Refunded(events, j, false))
            else !Refunded(events, j, true) && !Refunded(events, j, false)
  {
    if |events| > 0 {
      var before, e := events[..|events| - 1], events[|events| - 1];
      var s := Run(before);
      RefundsFit(before, j);
      RefundedNext(events, j, true);
      RefundedNext(events, j, false);
      hide Refunded;
      if j < |Apply(s, e).cancels| { CancelMoves(s, e, j); }
      NeverFewerCancels(s, e);
      hide Apply;
    }
  }

  /** A cancellation puts stock back and marks its order exactly when its refund was answered with success. */
  lemma RefundedIff(events: seq<Event>, j: nat)
    requires j < |Run(events).cancels|
    ensures var phase := Run(events).cancels[j].phase;
            && (phase.Restocking? || phase.Updating? || phase.Cancelled? <==> Refunded(events, j, true))
            && (phase.Refused? <==> Refunded(events, j, false))
  {
    RefundsFit(events, j);
    hide Refunded, Run;
  }

  /** An order is marked cancelled exactly when some cancellation of it, refunded, has completed. */
  lemma CancelledIffRefunded(events: seq<Event>, o: nat)
    requires o < |Run(events).orders|
    ensures Run(events).orders[o].cancelled <==>
              exists j :: 0 <= j < |Run(events).cancels| && Run(events).cancels[j].order == o
                && Run(events).cancels[j].phase.Cancelled? && Refunded(events, j, true)
  {
    var s := Run(events);
    RunIsMarked(events);
    hide Run, Refunded;
    if TimesCancelled(s.cancels, o, |s.cancels|) > 0 {
      var j := SomeCancelled(s.cancels, o, |s.cancels|);
      RefundedIff(events, j);
    }
    if j :| 0 <= j < |s.cancels| && s.cancels[j].order == o && s.cancels[j].phase.Cancelled? && Refunded(events, j, true) {
      CancelCounts(s.cancels, o, j, |s.cancels|);
    }
  }

  lemma {:induction false} SomeCancelled(ks: seq<Cancel>, o: nat, n: nat) returns (j: nat)
    requires n <= |ks| && TimesCancelled(ks, o, n) > 0
    ensures j < n && ks[j].order == o && ks[j].phase.Cancelled?
  {
    if ks[n - 1].order == o && ks[n - 1].phase.Cancelled? {
      j := n - 1;
    } else {
      j := SomeCancelled(ks, o, n - 1);
    }
  }

  lemma {:induction false} CancelCounts(ks: seq<Cancel>, o: nat, j: nat, n: nat)
    requires j < n <= |ks| && ks[j].order == o && ks[j].phase.Cancelled?
    ensures TimesCancelled(ks, o, n) > 0
  {
    if j < n - 1 { CancelCounts(ks, o, j, n - 1); }
  }
}
