/** Coupon discounts: the arithmetic, and the checks a coupon must pass for an order. */
module Discounts {
  import opened Common

  datatype ProductKind = LicenseProduct | V2RayProduct
  datatype ActionKind = NewPurchase | RenewService | MoreTraffic

  /** Zero stands for "no minimum"; an absent or zero `cap` for "no cap". */
  datatype Coupon = Coupon(
    percent: bool,
    value: int,
    cap: Option<int>,
    minOrder: int,
    limit: Option<int>,
    perUser: Option<int>,
    product: Option<nat>,
    kind: Option<ProductKind>,
    action: Option<ActionKind>,
    active: bool,
    startsAt: Option<int>,
    expiresAt: Option<int>,
    usedCount: int)

  datatype CouponError =
    | Disabled | NotFound | Inactive | NotStarted | HasExpired | LimitReached | UserLimitReached
    | BelowMinimum | ProductNotAllowed | KindNotAllowed | ActionNotAllowed

  /** The field rules every created or updated coupon has passed. */
  predicate WellFormed(c: Coupon) {
    if c.percent then 1 <= c.value <= 100 else c.value > 0
  }

  function Min(a: int, b: int): int {
    if a <= b then a else b
  }

  function Discount(c: Coupon, amount: int): int {
    if amount <= 0 then 0
    else
      var discount :=
        if !c.percent then c.value
        else
          var share := amount * c.value / 100;
          if c.cap.Some? && c.cap.value != 0 then Min(share, c.cap.value) else share;
      if Min(discount, amount) < 0 then 0 else Min(discount, amount)
  }

  /** All that is asked of a coupon before it may be applied; the first failed check is reported. */
  function Validate(
    enabled: bool, coupon: Option<Coupon>, now: int, userUses: nat,
    product: nat, kind: ProductKind, action: ActionKind, amount: int): Result<int, CouponError>
  {
    if !enabled then Err(Disabled)
    else if coupon.None? then Err(NotFound)
    else
      var c := coupon.value;
      if !c.active then Err(Inactive)
      else if c.startsAt.Some? && c.startsAt.value > now then Err(NotStarted)
      else if c.expiresAt.Some? && c.expiresAt.value < now then Err(HasExpired)
      else if c.limit.Some? && c.usedCount >= c.limit.value then Err(LimitReached)
      else if c.perUser.Some? && userUses >= c.perUser.value then Err(UserLimitReached)
      else if c.minOrder != 0 && amount < c.minOrder then Err(BelowMinimum)
      else if c.product.Some? && c.product.value != product then Err(ProductNotAllowed)
      else if c.kind.Some? && c.kind.value != kind then Err(KindNotAllowed)
      else if c.action.Some? && c.action.value != action then Err(ActionNotAllowed)
      else Ok(Discount(c, amount))
  }

  /** A discount never is negative, never exceeds the price, and respects a positive percent cap. */
  lemma DiscountBounds(c: Coupon, amount: int)
    ensures 0 <= Discount(c, amount)
    ensures amount >= 0 ==> Discount(c, amount) <= amount
    ensures c.percent && c.cap.Some? && c.cap.value > 0 ==> Discount(c, amount) <= c.cap.value
    ensures amount <= 0 || (c.percent && c.cap.Some? && c.cap.value < 0) || (!c.percent && c.value <= 0) ==>
              Discount(c, amount) == 0
    ensures c.percent && c.cap.None? && WellFormed(c) && amount > 0 ==>
              100 * Discount(c, amount) <= amount * c.value < 100 * Discount(c, amount) + 100
  {
    if c.percent && WellFormed(c) && amount > 0 {
      ShareWithinPrice(amount, c.value);
    }
  }

  /** What a discount may be: within the price, and within the percentage and its cap or the fixed value. */
  predicate Allowed(c: Coupon, amount: int, discount: int) {
    && discount <= amount
    && (if c.percent then
          && 100 * discount <= amount * c.value
          && (c.cap.Some? && c.cap.value != 0 ==> discount <= c.cap.value)
        else discount <= c.value)
  }

  /** The discount is the largest one allowed, to the last unit of currency. */
  lemma DiscountIsLargest(c: Coupon, amount: int, d: int)
    requires WellFormed(c) && amount >= 0 && (c.cap.Some? ==> c.cap.value >= 0)
    ensures Allowed(c, amount, Discount(c, amount))
    ensures d > Discount(c, amount) ==> !Allowed(c, amount, d)
  {
    if amount > 0 && c.percent {
      ShareWithinPrice(amount, c.value);
    }
  }

  lemma ShareWithinPrice(amount: int, percent: int)
    requires 0 <= amount && 0 <= percent <= 100
    ensures 0 <= amount * percent / 100 <= amount
  {
    assert 0 <= amount * percent <= amount * 100;
  }

  /** One percentage of a larger price takes no more than the whole difference. */
  lemma ShareGrowsSlowly(a: int, b: int, percent: int)
    requires 0 <= a <= b && 0 <= percent <= 100
    ensures a * percent / 100 <= b * percent / 100 <= a * percent / 100 + (b - a)
  {
    ShareOfDifference(a, b - a, percent);
    HundredthsGrowSlowly(a * percent, b * percent, b - a);
  }

  lemma ShareOfDifference(a: int, d: int, percent: int)
    requires 0 <= d && 0 <= percent <= 100
    ensures 0 <= (a + d) * percent - a * percent <= d * 100
  {
    assert (a + d) * percent - a * percent == d * percent;
  }

  lemma HundredthsGrowSlowly(x: int, y: int, d: int)
    requires 0 <= y - x <= d * 100
    ensures x / 100 <= y / 100 <= x / 100 + d
  {
    assert (x + d * 100) / 100 == x / 100 + d;
  }

  /** A dearer order never ends up cheaper after the same coupon. */
  lemma PricierStaysPricier(c: Coupon, a: int, b: int)
    requires WellFormed(c) && 0 <= a <= b
    ensures a - Discount(c, a) <= b - Discount(c, b)
  {
    if c.percent {
      ShareGrowsSlowly(a, b, c.value);
      ShareWithinPrice(a, c.value);
      ShareWithinPrice(b, c.value);
    }
  }
}
