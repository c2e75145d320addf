/**
 * How a checkout that nothing else interrupts ends, whatever else is in flight when it
 * begins: it is placed exactly when every unit it asks for is available, its coupon
 * applies and its charge succeeds.
 */
module CommerceOutcome {
  import opened Common
  import opened Inventory
  import opened Commerce
  import opened CommerceSafety
  import opened CommerceCharges

  /** What the first `n` lines ask of each product is known and available. */
  ghost predicate Available(stock: Stock, lines: seq<Line>, n: nat)
    requires n <= |lines|
  {
    forall k :: 0 <= k < n ==>
      && lines[k].product in stock
      && Units(lines, lines[k].product, 0, n) <= At(stock, lines[k].product).onHand - At(stock, lines[k].product).reserved
  }

  ghost predicate CouponApplies(s: State, lines: seq<Line>, code: Option<string>) {
    exists d :: Priced(s, lines, code, d)
  }

  /** `n` steps of checkout `i` on end, the gateway answering `ok`. */
  function Alone(s: State, i: nat, ok: bool, n: nat): State {
    if n == 0 then s else Apply(Alone(s, i, ok, n - 1), StepCheckout(i, ok))
  }

  /** No more steps than this are left. */
  function Left(c: Checkout): nat
    requires GoodCheckout(c)
  {
    match c.phase
    case Reserving(k) => |c.lines| - k + |c.lines| + 3
    case Undoing(k, upto) => upto - k
    case Pricing => |c.lines| + 3
    case Charging(_) => |c.lines| + 2
    case Committing(k, _) => |c.lines| - k + 1
    case Inserting(_) => 1
    case Compensating(k) => |c.lines| - k
    case _ => 0
  }

  lemma StepsLess(s: State, c: Checkout, ok: bool)
    requires GoodCheckout(c)
    ensures var next := c.(phase := CheckoutStep(s, c, ok).1);
            GoodCheckout(next) ==> Left(next) <= Left(c) && (Left(c) > 0 ==> Left(next) < Left(c))
    ensures Left(c) == 0 ==> c.phase.Placed? || c.phase.Failed?
  {
    var next := CheckoutStep(s, c, ok).1;
    PhaseNext(s, c, ok);
    hide CheckoutStep, Amounts;
    match c.phase {
      case Reserving(k) =>
      case Committing(k, _) =>
      case Undoing(k, upto) =>
      case Compensating(k) =>
      case _ =>
    }
  }

  /** The phases that may come next, with how far they have come. */
  lemma PhaseNext(s: State, c: Checkout, ok: bool)
    requires GoodCheckout(c)
    ensures var next, n := CheckoutStep(s, c, ok).1, |c.lines|;
            match c.phase
            case Reserving(k) => next == NextReserving(c, k + 1) || next == NextUndoing(0, k)
            case Undoing(k, upto) => next == NextUndoing(k + 1, upto)
            case Pricing => next.Charging? || next == Compensating(0)
            case Charging(d) => next == Committing(0, d) || next == Compensating(0)
            case Committing(k, d) => next == NextCommitting(c, k + 1, d)
            case Inserting(_) => next == Placed
            case Compensating(k) => next == NextCompensating(c, k + 1)
            case _ => next == c.phase
  {
    hide Applied, Reserve, Release, Commit, Amounts;
  }

  /** What the phase reached tells of the state `s` in which the checkout began. */
  ghost predicate Tells(s: State, c: Checkout, ok: bool)
    requires GoodCheckout(c)
  {
    var all := Available(s.stock, c.lines, |c.lines|);
    match c.phase
    case Reserving(k) => Available(s.stock, c.lines, k)
    case Undoing(_, _) => !all
    case Pricing => all
    case Charging(_) => all && CouponApplies(s, c.lines, c.code)
    case Compensating(_) => !(CouponApplies(s, c.lines, c.code) && ok)
    case Failed => !(all && CouponApplies(s, c.lines, c.code) && ok)
    case _ => all && CouponApplies(s, c.lines, c.code) && ok
  }

  /** Units of `p` that have left the shelves for the checkout. */
  function Gone(c: Checkout, p: string): nat
    requires GoodCheckout(c)
  {
    if c.phase.Placed? then Units(c.lines, p, 0, |c.lines|) else Taken(c, p)
  }

  /** The stock is that of `s` but for what checkout `c` holds and has taken. */
  ghost predicate OnlyMine(s: State, t: State, c: Checkout)
    requires GoodCheckout(c)
  {
    && t.stock.Keys == s.stock.Keys && t.coupons == s.coupons
    && forall p :: At(t.stock, p).reserved == At(s.stock, p).reserved + Held(c, p)
                   && At(t.stock, p).onHand == At(s.stock, p).onHand - Gone(c, p)
  }

  ghost predicate OnItsWay(s: State, t: State, lines: seq<Line>, code: Option<string>, i: nat, ok: bool) {
    && Inv(t) && i < |t.checkouts| && GoodCheckout(t.checkouts[i])
    && t.checkouts[i].lines == lines && t.checkouts[i].code == code
    && OnlyMine(s, t, t.checkouts[i]) && Tells(s, t.checkouts[i], ok)
  }

  // ---- one step ----

  lemma {:induction false} UnitsGrow(lines: seq<Line>, p: string, a: nat, b: nat)
    requires a <= b <= |lines|
    ensures Units(lines, p, 0, a) <= Units(lines, p, 0, b)
  {
    if a < b { UnitsGrow(lines, p, a, b - 1); }
  }

  /** Line `k` can be reserved, behind those before it, exactly when it is available too. */
  lemma ReserveTells(s: Stock, now: Stock, lines: seq<Line>, k: nat)
    requires k < |lines| && Available(s, lines, k) && now.Keys == s.Keys
    requires forall p :: At(now, p).reserved == At(s, p).reserved + Units(lines, p, 0, k)
                         && At(now, p).onHand == At(s, p).onHand
    ensures var ok := Reserve(now, lines[k].product, lines[k].quantity).1;
            if ok then Available(s, lines, k + 1) else !Available(s, lines, |lines|)
  {
    var p, q := lines[k].product, lines[k].quantity;
    assert Units(lines, p, 0, k + 1) == Units(lines, p, 0, k) + q;
    UnitsGrow(lines, p, k + 1, |lines|);
    if Reserve(now, p, q).1 {
      forall j | 0 <= j < k + 1
        ensures lines[j].product in s
        ensures Units(lines, lines[j].product, 0, k + 1)
                  <= At(s, lines[j].product).onHand - At(s, lines[j].product).reserved
      {
      }
    }
  }

  lemma TellsOn(s: State, t: State, c: Checkout, ok: bool)
    requires GoodCheckout(c) && GoodCheckout(c.(phase := CheckoutStep(t, c, ok).1))
    requires OnlyMine(s, t, c) && Tells(s, c, ok)
    ensures Tells(s, c.(phase := CheckoutStep(t, c, ok).1), ok)
  {
    match c.phase {
      case Reserving(k) =>
        assert forall p :: Held(c, p) == Units(c.lines, p, 0, k) && Gone(c, p) == 0;
        ReserveTells(s.stock, t.stock, c.lines, k);
        hide Reserve, Available, Units;
      case Pricing => PricingTells(s, t, c, ok);
      case Charging(d) =>
      case _ =>
    }
    hide Release, Commit, Applied, Available;
  }

  lemma PricingTells(s: State, t: State, c: Checkout, ok: bool)
    requires c.phase.Pricing? && t.coupons == s.coupons
    ensures CheckoutStep(t, c, ok).1.Charging? || CheckoutStep(t, c, ok).1 == Compensating(0)
    ensures CheckoutStep(t, c, ok).1.Charging? <==> CouponApplies(s, c.lines, c.code)
  {
    var next := CheckoutStep(t, c, ok).1;
    PricingIff(t, c, ok, 0);
    if next.Charging? {
      PricingIff(t, c, ok, next.discount);
      assert Priced(s, c.lines, c.code, next.discount);
    }
    if d :| Priced(s, c.lines, c.code, d) { PricingIff(t, c, ok, d); }
    hide CheckoutStep;
  }

  lemma StaysOnItsWay(s: State, t: State, lines: seq<Line>, code: Option<string>, i: nat, ok: bool)
    requires OnItsWay(s, t, lines, code, i, ok)
    ensures var u := Apply(t, StepCheckout(i, ok));
            && OnItsWay(s, u, lines, code, i, ok) && Left(u.checkouts[i]) <= Left(t.checkouts[i])
            && (Left(t.checkouts[i]) > 0 ==> Left(u.checkouts[i]) < Left(t.checkouts[i]))
  {
    var u := Apply(t, StepCheckout(i, ok));
    GoodOnItsWay(s, t, lines, code, i, ok);
    CheckoutMoves(t, StepCheckout(i, ok), i);
    StepCheckoutKeeps(t, i, ok);
    StockMoves(t, i, ok);
    MovesOn(s, t, u, lines, code, i, ok);
    hide *;
  }

  lemma MovesOn(s: State, t: State, u: State, lines: seq<Line>, code: Option<string>, i: nat, ok: bool)
    requires OnItsWay(s, t, lines, code, i, ok) && Inv(u) && i < |u.checkouts| && GoodCheckout(u.checkouts[i])
    requires u.checkouts[i] == t.checkouts[i].(phase := CheckoutStep(t, t.checkouts[i], ok).1)
    requires u.stock.Keys == t.stock.Keys && u.coupons == t.coupons
    requires forall p :: At(u.stock, p).reserved - At(t.stock, p).reserved
                           == Held(u.checkouts[i], p) - Held(t.checkouts[i], p)
                         && At(t.stock, p).onHand - At(u.stock, p).onHand
                           == Gone(u.checkouts[i], p) - Gone(t.checkouts[i], p)
    ensures OnItsWay(s, u, lines, code, i, ok) && Left(u.checkouts[i]) <= Left(t.checkouts[i])
    ensures Left(t.checkouts[i]) > 0 ==> Left(u.checkouts[i]) < Left(t.checkouts[i])
  {
    hide Inv, CheckoutStep, Tells, Held, Gone, GoodCheckout, Left;
    StepsLess(t, t.checkouts[i], ok);
    TellsOn(s, t, t.checkouts[i], ok);
  }

  lemma StockMoves(t: State, i: nat, ok: bool)
    requires Inv(t) && i < |t.checkouts|
    ensures var c, u := t.checkouts[i], Apply(t, StepCheckout(i, ok));
            && u.stock.Keys == t.stock.Keys && u.coupons == t.coupons
            && i < |u.checkouts| && GoodCheckout(c) && GoodCheckout(u.checkouts[i])
            && forall p :: At(u.stock, p).reserved - At(t.stock, p).reserved == Held(u.checkouts[i], p) - Held(c, p)
                           && At(t.stock, p).onHand - At(u.stock, p).onHand == Gone(u.checkouts[i], p) - Gone(c, p)
  {
    var c, u := t.checkouts[i], Apply(t, StepCheckout(i, ok));
    assert c in t.checkouts;
    StockMovesFor(t, i, ok, "");
    forall p
      ensures At(u.stock, p).reserved - At(t.stock, p).reserved == Held(u.checkouts[i], p) - Held(c, p)
      ensures At(t.stock, p).onHand - At(u.stock, p).onHand == Gone(u.checkouts[i], p) - Gone(c, p)
    {
      StockMovesFor(t, i, ok, p);
    }
    hide Inv, Apply, Held, Gone;
  }

  lemma StockMovesFor(t: State, i: nat, ok: bool, p: string)
    requires Inv(t) && i < |t.checkouts|
    ensures var c, u := t.checkouts[i], Apply(t, StepCheckout(i, ok));
            && u.stock.Keys == t.stock.Keys && u.coupons == t.coupons
            && i < |u.checkouts| && GoodCheckout(c) && GoodCheckout(u.checkouts[i])
            && At(u.stock, p).reserved - At(t.stock, p).reserved == Held(u.checkouts[i], p) - Held(c, p)
            && At(t.stock, p).onHand - At(u.stock, p).onHand == Gone(u.checkouts[i], p) - Gone(c, p)
  {
    var c := t.checkouts[i];
    assert c in t.checkouts && Balanced(t, p);
    HeldIsPart(t.checkouts, i, p, |t.checkouts|);
    CheckoutEffect(t, c, ok, p);
    PhaseMoves(t, c, ok);
    hide Balanced, SumHeld, SumTaken, AllKnown, Known, At, Units;
  }

  // ---- the whole checkout ----

  lemma {:induction false} AloneGoesOn(s: State, b: State, lines: seq<Line>, code: Option<string>, i: nat, ok: bool, n: nat)
    requires OnItsWay(s, b, lines, code, i, ok)
    ensures var t := Alone(b, i, ok, n);
            && OnItsWay(s, t, lines, code, i, ok)
            && Left(t.checkouts[i]) <= if n <= Left(b.checkouts[i]) then Left(b.checkouts[i]) - n else 0
  {
    hide OnItsWay, Left, Apply;
    if n > 0 {
      AloneGoesOn(s, b, lines, code, i, ok, n - 1);
      GoodOnItsWay(s, Alone(b, i, ok, n - 1), lines, code, i, ok);
      StaysOnItsWay(s, Alone(b, i, ok, n - 1), lines, code, i, ok);
    }
  }

  lemma GoodOnItsWay(s: State, t: State, lines: seq<Line>, code: Option<string>, i: nat, ok: bool)
    requires OnItsWay(s, t, lines, code, i, ok)
    ensures i < |t.checkouts| && GoodCheckout(t.checkouts[i]) && Inv(t)
  {
  }

  /**
   * A checkout begun in any reachable state and left alone from then on ends: placed, with
   * exactly its units gone, if and only if all of them were available, its coupon applied and
   * its charge succeeded; failed otherwise, with every level as it was.
   */
  lemma OutcomeIff(events: seq<Event>, lines: seq<Line>, code: Option<string>, ok: bool, n: nat)
    requires |lines| > 0 && n >= 2 * |lines| + 3
    ensures var s, i := Run(events), |Run(events).checkouts|;
            var t := Alone(Apply(s, Begin(lines, code)), i, ok, n);
            && i < |t.checkouts|
            && t.checkouts[i].phase ==
                 (if Available(s.stock, lines, |lines|) && CouponApplies(s, lines, code) && ok then Placed else Failed)
            && forall p :: At(t.stock, p).reserved == At(s.stock, p).reserved
                 && At(t.stock, p).onHand == At(s.stock, p).onHand -
                      if t.checkouts[i].phase.Placed? then Units(lines, p, 0, |lines|) else 0
  {
    var s, i := Run(events), |Run(events).checkouts|;
    var b := Apply(s, Begin(lines, code));
    Reachable(events);
    ApplyKeeps(s, Begin(lines, code));
    BeginsOnItsWay(s, lines, code, ok);
    AloneGoesOn(s, b, lines, code, i, ok, n);
    var t := Alone(b, i, ok, n);
    EndIs(s, t, lines, code, i, ok);
    hide Run, Apply, Alone, OnItsWay;
  }

  lemma BeginsOnItsWay(s: State, lines: seq<Line>, code: Option<string>, ok: bool)
    requires |lines| > 0 && Inv(s) && Inv(Apply(s, Begin(lines, code)))
    ensures var b := Apply(s, Begin(lines, code));
            OnItsWay(s, b, lines, code, |s.checkouts|, ok) && Left(b.checkouts[|s.checkouts|]) == 2 * |lines| + 3
  {
    hide Inv;
  }

  lemma EndIs(s: State, t: State, lines: seq<Line>, code: Option<string>, i: nat, ok: bool)
    requires OnItsWay(s, t, lines, code, i, ok) && Left(t.checkouts[i]) == 0
    ensures t.checkouts[i].phase ==
              (if Available(s.stock, lines, |lines|) && CouponApplies(s, lines, code) && ok then Placed else Failed)
            && forall p :: At(t.stock, p).reserved == At(s.stock, p).reserved
                 && At(t.stock, p).onHand == At(s.stock, p).onHand -
                      if t.checkouts[i].phase.Placed? then Units(lines, p, 0, |lines|) else 0
  {
    hide Inv, Available, CouponApplies, Units;
  }
}
