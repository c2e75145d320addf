/**
 * Many checkouts and cancellations at once, packages/commerce/src/index.ts: each
 * is cut into steps at its awaits, and any step of any of them may come next.
 */
module Commerce {
  import opened Common
  import opened Inventory

  /** Where a checkout is: which of its lines are reserved or committed. */
  datatype Phase =
    | Reserving(done: nat)        // the first `done` lines are reserved
    | Undoing(next: nat, upto: nat)  // stock ran out at line `upto`; lines from `next` are still reserved
    | Pricing                     // every line is reserved
    | Charging(discount: int)
    | Committing(done: nat, discount: int)
    | Inserting(discount: int)
    | Compensating(next: nat)     // coupon or payment failed; lines from `next` are still reserved
    | Placed
    | Failed

  datatype Checkout = Checkout(lines: seq<Line>, code: Option<string>, phase: Phase)

  /** A cancellation works on its own copy of the order, read when it began. */
  datatype Cancel = Cancel(order: nat, lines: seq<Line>, phase: CancelPhase)

  datatype CancelPhase = Refunding | Restocking(done: nat) | Updating | Cancelled | Refused

  datatype OrderRecord = OrderRecord(order: Order, cancelled: bool)

  datatype State = State(
    stock: Stock,
    coupons: map<string, Coupon>,
    checkouts: seq<Checkout>,
    orders: seq<OrderRecord>,
    cancels: seq<Cancel>,
    supplied: seq<Line>)  // every external restock so far

  const START := State(map[], map[], [], [], [], [])

  datatype Event =
    | CreateProduct(product: string)
    | CreateCoupon(name: string, coupon: Coupon)
    | Supply(product: string, quantity: nat)
    | Begin(lines: seq<Line>, code: Option<string>)
    | StepCheckout(i: nat, chargeSucceeds: bool)
    | BeginCancel(order: nat)
    | StepCancel(j: nat, refundSucceeds: bool)

  /** The first phase after `done` lines. */
  function NextReserving(c: Checkout, done: nat): Phase {
    if done == |c.lines| then Pricing else Reserving(done)
  }

  function NextCommitting(c: Checkout, done: nat, discount: int): Phase {
    if done == |c.lines| then Inserting(discount) else Committing(done, discount)
  }

  function NextUndoing(next: nat, upto: nat): Phase {
    if next >= upto then Failed else Undoing(next, upto)
  }

  function NextCompensating(c: Checkout, next: nat): Phase {
    if next >= |c.lines| then Failed else Compensating(next)
  }

  /** What the coupon code takes off; `None` when it is refused. */
  function Applied(s: State, c: Checkout): Option<int> {
    match c.code
    case None => Some(0)
    case Some(code) =>
      if code !in s.coupons then None
      else Discount(s.coupons[code], Amounts(c.lines, |c.lines|))
  }

  /** One step of checkout `c`: the new stock and phase. */
  function CheckoutStep(s: State, c: Checkout, chargeSucceeds: bool): (Stock, Phase) {
    match c.phase
    case Reserving(k) =>
      if k >= |c.lines| then (s.stock, c.phase)
      else
        var (stock, ok) := Reserve(s.stock, c.lines[k].product, c.lines[k].quantity);
        if ok then (stock, NextReserving(c, k + 1)) else (s.stock, NextUndoing(0, k))
    case Undoing(k, upto) =>
      if k >= |c.lines| then (s.stock, c.phase)
      else (Release(s.stock, c.lines[k].product, c.lines[k].quantity), NextUndoing(k + 1, upto))
    case Pricing =>
      (s.stock, match Applied(s, c) case None => Compensating(0) case Some(d) => Charging(d))
    case Charging(d) => (s.stock, if chargeSucceeds then Committing(0, d) else Compensating(0))
    case Committing(k, d) =>
      if k >= |c.lines| then (s.stock, c.phase)
      else (Commit(s.stock, c.lines[k].product, c.lines[k].quantity), NextCommitting(c, k + 1, d))
    case Inserting(_) => (s.stock, Placed)
    case Compensating(k) =>
      if k >= |c.lines| then (s.stock, c.phase)
      else (Release(s.stock, c.lines[k].product, c.lines[k].quantity), NextCompensating(c, k + 1))
    case _ => (s.stock, c.phase)
  }

  function PlacedOrder(c: Checkout, discount: int): Order {
    var subtotal := Amounts(c.lines, |c.lines|);
    Order(c.lines, subtotal, discount, subtotal - discount)
  }

  /** One step of a cancellation: the new stock, its phase, and whether it marks the order. */
  function CancelStep(s: State, k: Cancel, refundSucceeds: bool): (Stock, CancelPhase) {
    match k.phase
    case Refunding =>
      (s.stock, if !refundSucceeds then Refused else if |k.lines| == 0 then Updating else Restocking(0))
    case Restocking(n) =>
      if n >= |k.lines| then (s.stock, k.phase)
      else
        (match Restock(s.stock, k.lines[n].product, k.lines[n].quantity) case Some(t) => t case None => s.stock,
         if n + 1 == |k.lines| then Updating else Restocking(n + 1))
    case Updating => (s.stock, Cancelled)
    case _ => (s.stock, k.phase)
  }

  function Apply(s: State, e: Event): State {
    match e
    case CreateProduct(p) => s.(stock := Init(s.stock, p))
    case CreateCoupon(code, c) => if ValidCoupon(c) then s.(coupons := s.coupons[code := c]) else s
    case Supply(p, q) =>
      (match Restock(s.stock, p, q)
       case None => s
       case Some(t) => s.(stock := t, supplied := s.supplied + [Line(p, q, 0)]))
    case Begin(lines, code) =>
      if |lines| == 0 then s else s.(checkouts := s.checkouts + [Checkout(lines, code, Reserving(0))])
    case StepCheckout(i, ok) =>
      if i >= |s.checkouts| then s
      else
        var c := s.checkouts[i];
        var (stock, phase) := CheckoutStep(s, c, ok);
        s.(stock := stock,
           checkouts := s.checkouts[i := c.(phase := phase)],
           orders := if c.phase.Inserting? then s.orders + [OrderRecord(PlacedOrder(c, c.phase.discount), false)]
                     else s.orders)
    case BeginCancel(o) =>
      if o >= |s.orders| || s.orders[o].cancelled then s
      else s.(cancels := s.cancels + [Cancel(o, s.orders[o].order.lines, Refunding)])
    case StepCancel(j, ok) =>
      if j >= |s.cancels| then s
      else
        var k := s.cancels[j];
        var (stock, phase) := CancelStep(s, k, ok);
        s.(stock := stock,
           cancels := s.cancels[j := k.(phase := phase)],
           orders := if k.phase.Updating? && k.order < |s.orders|
                     then s.orders[k.order := s.orders[k.order].(cancelled := true)]
                     else s.orders)
  }

  function Run(events: seq<Event>): State {
    if |events| == 0 then START else Apply(Run(events[..|events| - 1]), events[|events| - 1])
  }

  // ---- what each process holds ----

  predicate GoodPhase(c: Checkout) {
    match c.phase
    case Reserving(k) => k < |c.lines|
    case Undoing(k, upto) => k < upto <= |c.lines|
    case Committing(k, d) => k < |c.lines| && 0 <= d <= Amounts(c.lines, |c.lines|)
    case Charging(d) => 0 <= d <= Amounts(c.lines, |c.lines|)
    case Inserting(d) => 0 <= d <= Amounts(c.lines, |c.lines|)
    case Compensating(k) => k < |c.lines|
    case _ => true
  }

  predicate GoodCheckout(c: Checkout) {
    |c.lines| > 0 && GoodPhase(c)
  }

  /** Units of `p` reserved by the checkout. */
  function Held(c: Checkout, p: string): nat
    requires GoodCheckout(c)
  {
    match c.phase
    case Reserving(k) => Units(c.lines, p, 0, k)
    case Undoing(k, upto) => Units(c.lines, p, k, upto)
    case Pricing => Units(c.lines, p, 0, |c.lines|)
    case Charging(_) => Units(c.lines, p, 0, |c.lines|)
    case Committing(k, _) => Units(c.lines, p, k, |c.lines|)
    case Compensating(k) => Units(c.lines, p, k, |c.lines|)
    case _ => 0
  }

  /** Units of `p` the checkout has taken off hand, its order not yet stored. */
  function Taken(c: Checkout, p: string): nat
    requires GoodCheckout(c)
  {
    match c.phase
    case Committing(k, _) => Units(c.lines, p, 0, k)
    case Inserting(_) => Units(c.lines, p, 0, |c.lines|)
    case _ => 0
  }

  predicate GoodCancel(k: Cancel) {
    k.phase.Restocking? ==> k.phase.done < |k.lines|
  }

  /** Units of `p` the cancellation has put back. */
  function Returned(k: Cancel, p: string): nat
    requires GoodCancel(k)
  {
    match k.phase
    case Restocking(n) => Units(k.lines, p, 0, n)
    case Updating => Units(k.lines, p, 0, |k.lines|)
    case Cancelled => Units(k.lines, p, 0, |k.lines|)
    case _ => 0
  }

  ghost predicate WellFormed(s: State) {
    && (forall c :: c in s.checkouts ==> GoodCheckout(c))
    && (forall k :: k in s.cancels ==> GoodCancel(k))
  }

  function SumHeld(cs: seq<Checkout>, p: string, n: nat): nat
    requires n <= |cs| && forall c :: c in cs ==> GoodCheckout(c)
  {
    if n == 0 then 0 else SumHeld(cs, p, n - 1) + Held(cs[n - 1], p)
  }

  function SumTaken(cs: seq<Checkout>, p: string, n: nat): nat
    requires n <= |cs| && forall c :: c in cs ==> GoodCheckout(c)
  {
    if n == 0 then 0 else SumTaken(cs, p, n - 1) + Taken(cs[n - 1], p)
  }

  function SumReturned(ks: seq<Cancel>, p: string, n: nat): nat
    requires n <= |ks| && forall k :: k in ks ==> GoodCancel(k)
  {
    if n == 0 then 0 else SumReturned(ks, p, n - 1) + Returned(ks[n - 1], p)
  }

  function SumOrdered(os: seq<OrderRecord>, p: string, n: nat): nat
    requires n <= |os|
  {
    if n == 0 then 0
    else SumOrdered(os, p, n - 1) + Units(os[n - 1].order.lines, p, 0, |os[n - 1].order.lines|)
  }

  /** The products of the first `n` lines have stock records. */
  ghost predicate Known(stock: Stock, lines: seq<Line>, n: nat)
    requires n <= |lines|
  {
    forall i :: 0 <= i < n ==> lines[i].product in stock
  }

  /** How many of the checkout's lines have been reserved at some time. */
  function Reached(c: Checkout): (n: nat)
    requires GoodCheckout(c)
    ensures n <= |c.lines|
  {
    match c.phase
    case Reserving(k) => k
    case Undoing(_, upto) => upto
    case Failed => 0
    case _ => |c.lines|
  }

  ghost predicate AllKnown(s: State)
    requires WellFormed(s)
  {
    && (forall c :: c in s.checkouts ==> Known(s.stock, c.lines, Reached(c)))
    && (forall o :: o in s.orders ==> Known(s.stock, o.order.lines, |o.order.lines|))
    && (forall k :: k in s.cancels ==>
          Known(s.stock, k.lines, |k.lines|) && k.order < |s.orders| && k.lines == s.orders[k.order].order.lines)
  }

  /** The accounts of one product balance. */
  ghost predicate Balanced(s: State, p: string)
    requires WellFormed(s)
  {
    var level := At(s.stock, p);
    && level.reserved == SumHeld(s.checkouts, p, |s.checkouts|)
    && level.reserved <= level.onHand
    && level.onHand + SumOrdered(s.orders, p, |s.orders|) + SumTaken(s.checkouts, p, |s.checkouts|)
       == Units(s.supplied, p, 0, |s.supplied|) + SumReturned(s.cancels, p, |s.cancels|)
  }

  ghost predicate Inv(s: State) {
    && WellFormed(s) && AllKnown(s)
    && (forall p :: Balanced(s, p))
    && (forall o :: o in s.orders ==> GoodOrder(o.order))
    && (forall code :: code in s.coupons ==> ValidCoupon(s.coupons[code]))
  }

  // ---- replacing one element of a sum ----

  lemma {:induction false} HeldReplaced(cs: seq<Checkout>, i: nat, c: Checkout, p: string, n: nat)
    requires i < |cs| && n <= |cs| && GoodCheckout(c) && forall d :: d in cs ==> GoodCheckout(d)
    ensures forall d :: d in cs[i := c] ==> GoodCheckout(d)
    ensures SumHeld(cs[i := c], p, n) == SumHeld(cs, p, n) + if i < n then Held(c, p) - Held(cs[i], p) else 0
    ensures SumTaken(cs[i := c], p, n) == SumTaken(cs, p, n) + if i < n then Taken(c, p) - Taken(cs[i], p) else 0
  {
    hide Held, Taken, GoodCheckout;
    if n > 0 { HeldReplaced(cs, i, c, p, n - 1); }
  }

  lemma {:induction false} HeldIsPart(cs: seq<Checkout>, i: nat, p: string, n: nat)
    requires i < n <= |cs| && forall d :: d in cs ==> GoodCheckout(d)
    ensures Held(cs[i], p) <= SumHeld(cs, p, n)
  {
    if i < n - 1 { HeldIsPart(cs, i, p, n - 1); }
  }

  lemma {:induction false} CheckoutAdded(cs: seq<Checkout>, c: Checkout, p: string, n: nat)
    requires n <= |cs| && GoodCheckout(c) && forall d :: d in cs ==> GoodCheckout(d)
    ensures forall d :: d in cs + [c] ==> GoodCheckout(d)
    ensures SumHeld(cs + [c], p, n) == SumHeld(cs, p, n) && SumTaken(cs + [c], p, n) == SumTaken(cs, p, n)
  {
    if n > 0 { CheckoutAdded(cs, c, p, n - 1); }
  }

  lemma {:induction false} ReturnedReplaced(ks: seq<Cancel>, j: nat, k: Cancel, p: string, n: nat)
    requires j < |ks| && n <= |ks| && GoodCancel(k) && forall d :: d in ks ==> GoodCancel(d)
    ensures forall d :: d in ks[j := k] ==> GoodCancel(d)
    ensures SumReturned(ks[j := k], p, n) ==
            SumReturned(ks, p, n) + if j < n then Returned(k, p) - Returned(ks[j], p) else 0
  {
    hide Returned, GoodCancel;
    if n > 0 { ReturnedReplaced(ks, j, k, p, n - 1); }
  }

  lemma {:induction false} CancelAdded(ks: seq<Cancel>, k: Cancel, p: string, n: nat)
    requires n <= |ks| && GoodCancel(k) && forall d :: d in ks ==> GoodCancel(d)
    ensures forall d :: d in ks + [k] ==> GoodCancel(d)
    ensures SumReturned(ks + [k], p, n) == SumReturned(ks, p, n)
  {
    if n > 0 { CancelAdded(ks, k, p, n - 1); }
  }

  lemma {:induction false} OrdersSame(os: seq<OrderRecord>, os': seq<OrderRecord>, p: string, n: nat)
    requires n <= |os| && n <= |os'| && forall i :: 0 <= i < n ==> os'[i].order == os[i].order
    ensures SumOrdered(os', p, n) == SumOrdered(os, p, n)
  {
    if n > 0 { OrdersSame(os, os', p, n - 1); }
  }

  lemma {:induction false} UnitsAppend(lines: seq<Line>, l: Line, p: string, n: nat)
    requires n <= |lines|
    ensures Units(lines + [l], p, 0, n) == Units(lines, p, 0, n)
  {
    if n > 0 { UnitsAppend(lines, l, p, n - 1); }
  }

  // ---- one step of a checkout ----

  lemma TakeOne(lines: seq<Line>, p: string, k: nat, b: nat)
    requires k < b <= |lines|
    ensures Units(lines, p, k, b) == Units(lines, p, k + 1, b) + if lines[k].product == p then lines[k].quantity else 0
  {
    UnitsSplit(lines, p, k, k + 1, b);
    OneLine(lines, p, k);
  }

  lemma ReserveAt(s: Stock, x: string, q: nat, p: string)
    ensures var (t, ok) := Reserve(s, x, q);
            if ok then
              && x in s && t.Keys == s.Keys && At(t, p).onHand == At(s, p).onHand
              && At(t, p).reserved == At(s, p).reserved + (if p == x then q else 0)
              && (p == x ==> At(t, p).reserved <= At(t, p).onHand)
            else t == s
  {
  }

  lemma ReleaseAt(s: Stock, x: string, q: nat, p: string)
    requires p == x ==> q <= At(s, p).reserved
    ensures var t := Release(s, x, q);
            && t.Keys == s.Keys && At(t, p).onHand == At(s, p).onHand
            && At(t, p).reserved == At(s, p).reserved - if p == x then q else 0
  {
  }

  lemma CommitAt(s: Stock, x: string, q: nat, p: string)
    requires p == x ==> q <= At(s, p).reserved <= At(s, p).onHand
    ensures var t := Commit(s, x, q); var d := if p == x then q else 0;
            && t.Keys == s.Keys && At(t, p) == Level(At(s, p).onHand - d, At(s, p).reserved - d)
  {
  }

  /** What a step changes for `p`. */
  ghost predicate Moves(s: State, c: Checkout, ok: bool, p: string)
    requires GoodCheckout(c)
  {
    var (stock, phase) := CheckoutStep(s, c, ok);
    var c' := c.(phase := phase);
    && GoodCheckout(c') && stock.Keys == s.stock.Keys
    && (Known(s.stock, c.lines, Reached(c)) ==> Known(s.stock, c.lines, Reached(c')))
    && At(stock, p).reserved <= At(stock, p).onHand
    && At(stock, p).reserved - At(s.stock, p).reserved == Held(c', p) - Held(c, p)
    && At(stock, p).onHand - At(s.stock, p).onHand ==
       Taken(c, p) - Taken(c', p) - if c.phase.Inserting? then Units(c.lines, p, 0, |c.lines|) else 0
  }

  ghost predicate Ready(s: State, c: Checkout, p: string) {
    && GoodCheckout(c) && Held(c, p) <= At(s.stock, p).reserved <= At(s.stock, p).onHand
    && forall code :: code in s.coupons ==> ValidCoupon(s.coupons[code])
  }

  lemma ReservingEffect(s: State, c: Checkout, ok: bool, p: string)
    requires Ready(s, c, p) && c.phase.Reserving?
    ensures Moves(s, c, ok, p)
  {
    ReserveAt(s.stock, c.lines[c.phase.done].product, c.lines[c.phase.done].quantity, p);
    hide Reserve, Amounts;
  }

  lemma UndoingEffect(s: State, c: Checkout, ok: bool, p: string)
    requires Ready(s, c, p) && c.phase.Undoing?
    ensures Moves(s, c, ok, p)
  {
    TakeOne(c.lines, p, c.phase.next, c.phase.upto);
    ReleaseAt(s.stock, c.lines[c.phase.next].product, c.lines[c.phase.next].quantity, p);
    hide Release, Amounts;
  }

  lemma CompensatingEffect(s: State, c: Checkout, ok: bool, p: string)
    requires Ready(s, c, p) && c.phase.Compensating?
    ensures Moves(s, c, ok, p)
  {
    TakeOne(c.lines, p, c.phase.next, |c.lines|);
    ReleaseAt(s.stock, c.lines[c.phase.next].product, c.lines[c.phase.next].quantity, p);
    hide Release, Amounts;
  }

  lemma CommittingEffect(s: State, c: Checkout, ok: bool, p: string)
    requires Ready(s, c, p) && c.phase.Committing?
    ensures Moves(s, c, ok, p)
  {
    TakeOne(c.lines, p, c.phase.done, |c.lines|);
    CommitAt(s.stock, c.lines[c.phase.done].product, c.lines[c.phase.done].quantity, p);
    hide Commit, Amounts;
  }

  lemma QuietEffect(s: State, c: Checkout, ok: bool, p: string)
    requires Ready(s, c, p)
    requires !c.phase.Reserving? && !c.phase.Undoing? && !c.phase.Compensating? && !c.phase.Committing?
    ensures Moves(s, c, ok, p)
  {
    if Applied(s, c).Some? { AppliedWithin(s, c); }
    hide Applied, Amounts;
  }

  /**
   * A step moves the reserved level by what the checkout holds, and the level on
   * hand by what it has taken; an order is stored exactly when the taken units leave.
   */
  lemma CheckoutEffect(s: State, c: Checkout, ok: bool, p: string)
    requires Ready(s, c, p)
    ensures Moves(s, c, ok, p)
  {
    hide *;
    match c.phase {
      case Reserving(_) => ReservingEffect(s, c, ok, p);
      case Undoing(_, _) => UndoingEffect(s, c, ok, p);
      case Committing(_, _) => CommittingEffect(s, c, ok, p);
      case Compensating(_) => CompensatingEffect(s, c, ok, p);
      case _ => QuietEffect(s, c, ok, p);
    }
  }

  lemma AppliedWithin(s: State, c: Checkout)
    requires Applied(s, c).Some?
    requires forall code :: code in s.coupons ==> ValidCoupon(s.coupons[code])
    ensures 0 <= Applied(s, c).value <= Amounts(c.lines, |c.lines|)
  {
    if c.code.Some? { DiscountWithinSubtotal(s.coupons[c.code.value], Amounts(c.lines, |c.lines|)); }
  }

  lemma StepCheckoutBalances(s: State, i: nat, ok: bool, p: string)
    requires Inv(s) && i < |s.checkouts|
    ensures WellFormed(Apply(s, StepCheckout(i, ok))) && Balanced(Apply(s, StepCheckout(i, ok)), p)
    ensures Moves(s, s.checkouts[i], ok, p)
  {
    var c := s.checkouts[i];
    var s' := Apply(s, StepCheckout(i, ok));
    assert Balanced(s, p);
    HeldIsPart(s.checkouts, i, p, |s.checkouts|);
    CheckoutEffect(s, c, ok, p);
    HeldReplaced(s.checkouts, i, s'.checkouts[i], p, |s.checkouts|);
    OrdersSame(s.orders, s'.orders, p, |s.orders|);
    hide CheckoutStep, Held, Taken, SumHeld, SumTaken, GoodCheckout, At;
  }

  lemma StepCheckoutKnown(s: State, i: nat, ok: bool)
    requires WellFormed(s) && AllKnown(s) && i < |s.checkouts|
    requires WellFormed(Apply(s, StepCheckout(i, ok))) && Moves(s, s.checkouts[i], ok, "")
    ensures AllKnown(Apply(s, StepCheckout(i, ok)))
  {
    var c := s.checkouts[i];
    var s' := Apply(s, StepCheckout(i, ok));
    assert Known(s.stock, c.lines, Reached(c));
    forall d | d in s'.checkouts ensures Known(s'.stock, d.lines, Reached(d)) {
      if d in s.checkouts { assert Known(s.stock, d.lines, Reached(d)); }
    }
    assert c.phase.Inserting? ==> Known(s.stock, c.lines, |c.lines|);
    hide CheckoutStep, Held, Taken;
  }

  lemma StepCheckoutKeeps(s: State, i: nat, ok: bool)
    requires Inv(s) && i < |s.checkouts|
    ensures Inv(Apply(s, StepCheckout(i, ok)))
  {
    var s' := Apply(s, StepCheckout(i, ok));
    StepCheckoutBalances(s, i, ok, "");
    StepCheckoutKnown(s, i, ok);
    assert s.checkouts[i] in s.checkouts;
    hide CheckoutStep, Moves, AllKnown, Balanced;
    forall p ensures Balanced(s', p) { StepCheckoutBalances(s, i, ok, p); }
  }

  // ---- cancellations and the other events ----

  lemma CancelEffect(s: State, k: Cancel, ok: bool, p: string)
    requires GoodCancel(k) && Known(s.stock, k.lines, |k.lines|)
    ensures var (stock, phase) := CancelStep(s, k, ok);
            var k' := k.(phase := phase);
            && GoodCancel(k') && stock.Keys == s.stock.Keys && At(stock, p).reserved == At(s.stock, p).reserved
            && At(stock, p).onHand - At(s.stock, p).onHand == Returned(k', p) - Returned(k, p)
  {
  }

  lemma StepCancelBalances(s: State, j: nat, ok: bool, p: string)
    requires Inv(s) && j < |s.cancels|
    ensures WellFormed(Apply(s, StepCancel(j, ok))) && Balanced(Apply(s, StepCancel(j, ok)), p)
    ensures Apply(s, StepCancel(j, ok)).stock.Keys == s.stock.Keys
  {
    var k := s.cancels[j];
    var s' := Apply(s, StepCancel(j, ok));
    assert k in s.cancels && Balanced(s, p);
    CancelEffect(s, k, ok, p);
    ReturnedReplaced(s.cancels, j, s'.cancels[j], p, |s.cancels|);
    OrdersSame(s.orders, s'.orders, p, |s.orders|);
    hide CancelStep, Returned, SumReturned, SumHeld, SumTaken, At, GoodCheckout, GoodCancel, Units, Known;
  }

  lemma StepCancelKnown(s: State, j: nat, ok: bool)
    requires WellFormed(s) && AllKnown(s) && j < |s.cancels| && WellFormed(Apply(s, StepCancel(j, ok)))
    requires Apply(s, StepCancel(j, ok)).stock.Keys == s.stock.Keys
    ensures AllKnown(Apply(s, StepCancel(j, ok)))
  {
    var s' := Apply(s, StepCancel(j, ok));
    hide CancelStep, Reached, GoodCheckout, GoodCancel;
    forall d | d in s'.cancels
      ensures Known(s'.stock, d.lines, |d.lines|) && d.order < |s'.orders| && d.lines == s'.orders[d.order].order.lines
    {
      var before := if d in s.cancels then d else s.cancels[j];
      assert before in s.cancels;
    }
    forall o | o in s'.orders ensures Known(s'.stock, o.order.lines, |o.order.lines|) {
      var i :| 0 <= i < |s'.orders| && s'.orders[i] == o;
      assert s.orders[i] in s.orders;
    }
    forall c | c in s'.checkouts ensures Known(s'.stock, c.lines, Reached(c)) {
      assert Known(s.stock, c.lines, Reached(c));
    }
  }

  lemma StepCancelKeeps(s: State, j: nat, ok: bool)
    requires Inv(s) && j < |s.cancels|
    ensures Inv(Apply(s, StepCancel(j, ok)))
  {
    var s' := Apply(s, StepCancel(j, ok));
    StepCancelBalances(s, j, ok, "");
    StepCancelKnown(s, j, ok);
    forall o | o in s'.orders ensures GoodOrder(o.order) {
      var i :| 0 <= i < |s'.orders| && s'.orders[i] == o;
      assert s.orders[i] in s.orders;
    }
    hide CancelStep, AllKnown, Balanced;
    forall p ensures Balanced(s', p) { StepCancelBalances(s, j, ok, p); }
  }

  /** Creating a product or supplying units. */
  lemma SupplyKeeps(s: State, e: Event)
    requires Inv(s) && (e.CreateProduct? || e.Supply?)
    ensures Inv(Apply(s, e))
  {
    var s' := Apply(s, e);
    assert s.stock.Keys <= s'.stock.Keys;
    forall p ensures Balanced(s', p) {
      assert Balanced(s, p);
      if e.Supply? { UnitsAppend(s.supplied, Line(e.product, e.quantity, 0), p, |s.supplied|); }
    }
    forall c | c in s'.checkouts ensures Known(s'.stock, c.lines, Reached(c)) {
      assert Known(s.stock, c.lines, Reached(c));
    }
    hide Held, Taken, Returned;
  }

  lemma BeginKeeps(s: State, lines: seq<Line>, code: Option<string>)
    requires Inv(s) && |lines| > 0
    ensures Inv(Apply(s, Begin(lines, code)))
  {
    var c := Checkout(lines, code, Reserving(0));
    var s' := Apply(s, Begin(lines, code));
    CheckoutAdded(s.checkouts, c, "", |s.checkouts|);
    forall p ensures Balanced(s', p) {
      assert Balanced(s, p);
      CheckoutAdded(s.checkouts, c, p, |s.checkouts|);
    }
    forall d | d in s'.checkouts ensures Known(s'.stock, d.lines, Reached(d)) {
      if d in s.checkouts { assert Known(s.stock, d.lines, Reached(d)); }
    }
  }

  lemma BeginCancelKeeps(s: State, o: nat)
    requires Inv(s) && o < |s.orders|
    ensures Inv(Apply(s, BeginCancel(o)))
  {
    if !s.orders[o].cancelled {
      var k := Cancel(o, s.orders[o].order.lines, Refunding);
      var s' := Apply(s, BeginCancel(o));
      assert s.orders[o] in s.orders;
      CancelAdded(s.cancels, k, "", |s.cancels|);
      forall p ensures Balanced(s', p) {
        assert Balanced(s, p);
        CancelAdded(s.cancels, k, p, |s.cancels|);
      }
      assert AllKnown(s');
    }
  }

  lemma {:induction false} Reachable(events: seq<Event>)
    ensures Inv(Run(events))
  {
    if |events| > 0 {
      var s, e := Run(events[..|events| - 1]), events[|events| - 1];
      Reachable(events[..|events| - 1]);
      hide Inv;
      ApplyKeeps(s, e);
    } else {
      forall p ensures Balanced(START, p) {}
    }
  }

  lemma ApplyKeeps(s: State, e: Event)
    requires Inv(s)
    ensures Inv(Apply(s, e))
  {
    match e {
      case CreateProduct(_) => SupplyKeeps(s, e);
      case Supply(_, _) => SupplyKeeps(s, e);
      case CreateCoupon(_, _) => CouponKeeps(s, e);
      case Begin(lines, code) => if |lines| > 0 { BeginKeeps(s, lines, code); }
      case StepCheckout(i, ok) => if i < |s.checkouts| { StepCheckoutKeeps(s, i, ok); }
      case BeginCancel(o) => if o < |s.orders| { BeginCancelKeeps(s, o); }
      case StepCancel(j, ok) => if j < |s.cancels| { StepCancelKeeps(s, j, ok); }
    }
    hide Inv;
  }

  lemma CouponKeeps(s: State, e: Event)
    requires Inv(s) && e.CreateCoupon?
    ensures Inv(Apply(s, e))
  {
    forall p ensures Balanced(Apply(s, e), p) { assert Balanced(s, p); }
  }
}
