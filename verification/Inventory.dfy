/**
 * Stock levels and their atomic updates, packages/commerce/src/store.ts, with the
 * checkout of packages/commerce/src/index.ts run alone against them.
 */
module Inventory {
  import opened Common

  datatype Level = Level(onHand: int, reserved: int)

  type Stock = map<string, Level>

  datatype Line = Line(product: string, quantity: nat, price: nat)

  function Max0(x: int): nat {
    if x < 0 then 0 else x
  }

  function At(s: Stock, p: string): Level {
    if p in s then s[p] else Level(0, 0)
  }

  // ---- the store's operations ----

  function Init(s: Stock, p: string): Stock {
    if p in s then s else s[p := Level(0, 0)]
  }

  /** The store fails on a product without a stock record. */
  function Restock(s: Stock, p: string, q: nat): Option<Stock> {
    if p in s then Some(s[p := s[p].(onHand := s[p].onHand + q)]) else None
  }

  /** Succeeds, in one step, only when enough is available. */
  function Reserve(s: Stock, p: string, q: nat): (Stock, bool) {
    if p !in s || s[p].onHand - s[p].reserved < q then (s, false)
    else (s[p := s[p].(reserved := s[p].reserved + q)], true)
  }

  function Release(s: Stock, p: string, q: nat): Stock {
    if p in s then s[p := s[p].(reserved := Max0(s[p].reserved - q))] else s
  }

  function Commit(s: Stock, p: string, q: nat): Stock {
    if p in s then s[p := Level(Max0(s[p].onHand - q), Max0(s[p].reserved - q))] else s
  }

  /** Units of `p` in lines `a` up to `b`. */
  function Units(lines: seq<Line>, p: string, a: nat, b: nat): nat
    requires b <= |lines|
    decreases b
  {
    if b <= a then 0
    else Units(lines, p, a, b - 1) + if lines[b - 1].product == p then lines[b - 1].quantity else 0
  }

  lemma {:induction false} UnitsSplit(lines: seq<Line>, p: string, a: nat, m: nat, b: nat)
    requires a <= m <= b <= |lines|
    ensures Units(lines, p, a, b) == Units(lines, p, a, m) + Units(lines, p, m, b)
    decreases b
  {
    if m < b { UnitsSplit(lines, p, a, m, b - 1); }
  }

  // ---- coupons and prices ----

  datatype Coupon =
    | Percent(value: real, minSubtotal: nat, active: bool)
    | Fixed(amount: nat, minSubtotal: nat, active: bool)

  /** What `createCoupon` accepts. */
  predicate ValidCoupon(c: Coupon) {
    c.Percent? ==> 0.0 < c.value <= 100.0
  }

  function Amounts(lines: seq<Line>, n: nat): nat
    requires n <= |lines|
  {
    if n == 0 then 0 else Amounts(lines, n - 1) + lines[n - 1].price * lines[n - 1].quantity
  }

  /** The discount, when the coupon applies. */
  function Discount(c: Coupon, subtotal: nat): Option<int> {
    if !c.active || subtotal < c.minSubtotal then None
    else
      match c
      case Percent(value, _, _) => Some((subtotal as real * value / 100.0).Floor)
      case Fixed(amount, _, _) => Some(if amount < subtotal then amount else subtotal)
  }

  lemma DiscountWithinSubtotal(c: Coupon, subtotal: nat)
    requires ValidCoupon(c) && Discount(c, subtotal).Some?
    ensures 0 <= Discount(c, subtotal).value <= subtotal
  {
    if c.Percent? { Fraction(subtotal as real, c.value); }
  }

  lemma Fraction(x: real, percent: real)
    requires 0.0 <= x && 0.0 < percent <= 100.0
    ensures 0.0 <= x * percent / 100.0 <= x
  {
    assert x * percent <= x * 100.0;
  }

  datatype Order = Order(lines: seq<Line>, subtotal: nat, discount: int, total: int)

  predicate GoodOrder(o: Order) {
    && o.subtotal == Amounts(o.lines, |o.lines|)
    && 0 <= o.discount <= o.subtotal
    && o.total == o.subtotal - o.discount
  }

  datatype Refusal = EmptyCart | InsufficientStock(product: string) | BadCoupon | PaymentFailed

  // ---- the in-memory store ----

  ghost predicate Sound(s: Stock) {
    forall p :: p in s ==> 0 <= s[p].reserved <= s[p].onHand
  }

  /** `now` is `was` with the units of lines `a` up to `b` held on top. */
  ghost predicate Holding(was: Stock, now: Stock, lines: seq<Line>, a: nat, b: nat)
    requires b <= |lines|
  {
    && now.Keys == was.Keys
    && (forall p :: p in was ==>
          now[p].onHand == was[p].onHand && now[p].reserved == was[p].reserved + Units(lines, p, a, b))
    && forall i :: a <= i < b ==> lines[i].product in was
  }

  class InMemoryStore {
    var stock: Stock

    constructor ()
      ensures stock == map[]
    {
      stock := map[];
    }

    method InitStock(p: string)
      modifies this
      ensures stock == Init(old(stock), p)
    {
      if p !in stock {
        stock := stock[p := Level(0, 0)];
      }
    }

    method ReserveStock(p: string, q: nat) returns (ok: bool)
      modifies this
      ensures (stock, ok) == Reserve(old(stock), p, q)
      ensures Sound(old(stock)) ==> Sound(stock)
    {
      if p !in stock || stock[p].onHand - stock[p].reserved < q {
        return false;
      }
      stock := stock[p := stock[p].(reserved := stock[p].reserved + q)];
      return true;
    }

    method ReleaseStock(p: string, q: nat)
      modifies this
      ensures stock == Release(old(stock), p, q)
      ensures Sound(old(stock)) ==> Sound(stock)
    {
      if p in stock {
        stock := stock[p := stock[p].(reserved := Max0(stock[p].reserved - q))];
      }
    }

    method CommitStock(p: string, q: nat)
      modifies this
      ensures stock == Commit(old(stock), p, q)
      ensures Sound(old(stock)) ==> Sound(stock)
    {
      if p in stock {
        stock := stock[p := Level(Max0(stock[p].onHand - q), Max0(stock[p].reserved - q))];
      }
    }

    /** Release lines `0` up to `n`, which are held. */
    method ReleaseLines(lines: seq<Line>, n: nat, ghost was: Stock)
      requires n <= |lines| && Sound(was) && Holding(was, stock, lines, 0, n)
      modifies this
      ensures stock == was
    {
      for k := 0 to n
        invariant Holding(was, stock, lines, k, n)
      {
        ghost var before := stock;
        ReleaseStock(lines[k].product, lines[k].quantity);
        forall p | p in was
          ensures stock[p].onHand == was[p].onHand && stock[p].reserved == was[p].reserved + Units(lines, p, k + 1, n)
        {
          UnitsSplit(lines, p, k, k + 1, n);
          OneLine(lines, p, k);
        }
      }
    }

    /**
     * The checkout run alone.  A refusal of any kind leaves every level as it was; a
     * sale takes exactly the lines' units off hand and leaves reservations as they were.
     */
    method Checkout(lines: seq<Line>, coupon: Option<Option<Coupon>>, chargeSucceeds: bool)
        returns (r: Result<Order, Refusal>)
      requires Sound(stock)
      requires coupon.Some? && coupon.value.Some? ==> ValidCoupon(coupon.value.value)
      modifies this
      ensures Sound(stock)
      ensures r.Err? ==> stock == old(stock)
      ensures r.Err? && r.error.PaymentFailed? ==> !chargeSucceeds
      ensures r.Err? && r.error.InsufficientStock? ==> Short(old(stock), lines, r.error.product)
      ensures r.Ok? ==> chargeSucceeds && lines != [] && GoodOrder(r.value) && r.value.lines == lines
      ensures r.Ok? ==> stock.Keys == old(stock).Keys && forall p :: p in stock ==>
                stock[p] == old(stock)[p].(onHand := old(stock)[p].onHand - Units(lines, p, 0, |lines|))
    {
      if |lines| == 0 {
        return Err(EmptyCart);
      }
      ghost var was := stock;
      for k := 0 to |lines|
        invariant Sound(stock) && Holding(was, stock, lines, 0, k)
      {
        var ok := ReserveStock(lines[k].product, lines[k].quantity);
        if !ok {
          assert Units(lines, lines[k].product, 0, k + 1) ==
                 Units(lines, lines[k].product, 0, k) + lines[k].quantity;
          ReleaseLines(lines, k, was);
          return Err(InsufficientStock(lines[k].product));
        }
      }
      var subtotal := Subtotal(lines);
      var discount := 0;
      if coupon.Some? {
        var applied := if coupon.value.Some? then Discount(coupon.value.value, subtotal) else None;
        if applied.None? {
          ReleaseLines(lines, |lines|, was);
          return Err(BadCoupon);
        }
        DiscountWithinSubtotal(coupon.value.value, subtotal);
        discount := applied.value;
      }
      if !chargeSucceeds {
        ReleaseLines(lines, |lines|, was);
        return Err(PaymentFailed);
      }
      CommitLines(lines, was);
      return Ok(Order(lines, subtotal, discount, subtotal - discount));
    }

    /** Commit every line; all of them are held. */
    method CommitLines(lines: seq<Line>, ghost was: Stock)
      requires Sound(was) && Sound(stock) && Holding(was, stock, lines, 0, |lines|)
      modifies this
      ensures Sound(stock) && stock.Keys == was.Keys
      ensures forall p :: p in was ==>
                stock[p] == was[p].(onHand := was[p].onHand - Units(lines, p, 0, |lines|))
    {
      for k := 0 to |lines|
        invariant Sound(stock) && stock.Keys == was.Keys
        invariant forall p :: p in was ==>
          && stock[p].onHand == was[p].onHand - Units(lines, p, 0, k)
          && stock[p].reserved == was[p].reserved + Units(lines, p, k, |lines|)
      {
        CommitStock(lines[k].product, lines[k].quantity);
        forall p | p in was
          ensures stock[p].onHand == was[p].onHand - Units(lines, p, 0, k + 1)
          ensures stock[p].reserved == was[p].reserved + Units(lines, p, k + 1, |lines|)
        {
          UnitsSplit(lines, p, k, k + 1, |lines|);
          OneLine(lines, p, k);
        }
      }
    }

    method Subtotal(lines: seq<Line>) returns (sum: nat)
      ensures sum == Amounts(lines, |lines|)
    {
      sum := 0;
      for k := 0 to |lines|
        invariant sum == Amounts(lines, k)
      {
        sum := sum + lines[k].price * lines[k].quantity;
      }
    }
  }

  lemma OneLine(lines: seq<Line>, p: string, k: nat)
    requires k < |lines|
    ensures Units(lines, p, k, k + 1) == if lines[k].product == p then lines[k].quantity else 0
  {
  }

  /** Some lines together ask for more of `p` than is available. */
  ghost predicate Short(s: Stock, lines: seq<Line>, p: string) {
    p !in s || exists k :: 0 <= k <= |lines| && Units(lines, p, 0, k) > s[p].onHand - s[p].reserved
  }
}
