/**
 * controllers/couponApplicationController.js: applying a coupon read with the
 * `coupons` columns (`coupon_code`, `minimum_order`, uses counted from
 * `coupon_usage`) to an order amount, and the read-only check of a code.
 *
 * Both look the code up upper-cased and run the same ordered chain of
 * checks; only `applyCoupon` records a use.
 */
module CouponApplicationController {
  import opened Wrappers
  import opened JsStrings
  import opened JsValues
  import opened Schema

  /** The first check of the chain that fails. */
  datatype DetailError = NotYetActive | Expired | LimitReached | BelowMinimum

  /** `times_used`: the number of `coupon_usage` rows of the coupon. */
  function TimesUsed(t: Tables, couponId: nat): nat {
    Count(t.couponUsage, (u: CouponUse) => u.couponId == couponId)
  }

  /** `coupon.minimum_order` is checked only when it is truthy: neither NULL nor 0. */
  predicate HasMinimum(c: AppCoupon) {
    c.minimumOrder.Some? && c.minimumOrder.value != 0.0
  }

  /** The coupon passes every check of the chain. */
  predicate Acceptable(c: AppCoupon, timesUsed: nat, amount: Num, now: int) {
    && c.validFrom <= now <= c.validUntil
    && timesUsed < c.maxUses
    && (HasMinimum(c) ==> !NumLess(amount, Finite(c.minimumOrder.value)))
  }

  /**
   * `validateCouponDetails`: not yet active, expired, usage limit, minimum
   * order, in that order; the first failure is the answer.
   */
  function ValidateCouponDetails(c: AppCoupon, timesUsed: nat, amount: Num, now: int): (r: Option<DetailError>)
    ensures r.None? <==> Acceptable(c, timesUsed, amount, now)
    ensures r == Some(NotYetActive) <==> now < c.validFrom
    ensures r == Some(Expired) <==> c.validFrom <= now && c.validUntil < now
    ensures r == Some(LimitReached) ==> c.validFrom <= now <= c.validUntil && timesUsed >= c.maxUses
    ensures r == Some(BelowMinimum) ==> c.validFrom <= now <= c.validUntil && timesUsed < c.maxUses
  {
    if now < c.validFrom then Some(NotYetActive)
    else if now > c.validUntil then Some(Expired)
    else if timesUsed >= c.maxUses then Some(LimitReached)
    else if HasMinimum(c) && NumLess(amount, Finite(c.minimumOrder.value)) then Some(BelowMinimum)
    else None
  }

  /** The coupon the (upper-cased) code selects: the first row with that `coupon_code`. */
  function FindAppCoupon(t: Tables, code: string): (r: Option<nat>)
    ensures r.Some? ==> r.value < |t.appCoupons| && t.appCoupons[r.value].couponCode == ToUpper(code)
    ensures r.None? <==> forall k :: 0 <= k < |t.appCoupons| ==> t.appCoupons[k].couponCode != ToUpper(code)
  {
    FirstIndex(t.appCoupons, (c: AppCoupon) => c.couponCode == ToUpper(code))
  }

  /** `(orderAmount * discount_percentage) / 100`. */
  function Savings(amount: Num, pct: real): Num {
    NumTimes(amount, pct / 100.0)
  }

  /** The response of `applyCoupon`. */
  datatype ApplyOutcome =
    | MissingFields                                         // 400
    | UnknownCode                                           // 404
    | Rejected(reason: DetailError)                         // 400
    | Applied(couponId: nat, discountPct: real, discountedPrice: Num, savings: Num)  // 200

  /**
   * What `applyCoupon` answers: `couponCode` ("" when absent) and a truthy
   * `orderAmount` are required, the amount is used as `Number(orderAmount)`.
   */
  function ApplyResult(t: Tables, couponCode: string, orderAmount: JsValue, now: int): (r: ApplyOutcome)
    ensures r == MissingFields <==> couponCode == "" || !Truthy(orderAmount)
    ensures r == UnknownCode <==> couponCode != "" && Truthy(orderAmount) && FindAppCoupon(t, couponCode).None?
    ensures r.Rejected? || r.Applied? ==> FindAppCoupon(t, couponCode).Some?
    ensures r.Applied? ==>
      var c := t.appCoupons[FindAppCoupon(t, couponCode).value];
      && r.couponId == c.id
      && r.discountPct == c.discountPct
      && Acceptable(c, TimesUsed(t, c.id), ToNumber(orderAmount), now)
      && r.savings == Savings(ToNumber(orderAmount), c.discountPct)
      && r.discountedPrice == NumMinus(ToNumber(orderAmount), r.savings)
    ensures r.Rejected? ==>
      var c := t.appCoupons[FindAppCoupon(t, couponCode).value];
      ValidateCouponDetails(c, TimesUsed(t, c.id), ToNumber(orderAmount), now) == Some(r.reason)
  {
    if couponCode == "" || !Truthy(orderAmount) then MissingFields
    else
      match FindAppCoupon(t, couponCode)
      case None => UnknownCode
      case Some(i) =>
        var c := t.appCoupons[i];
        var amount := ToNumber(orderAmount);
        match ValidateCouponDetails(c, TimesUsed(t, c.id), amount, now)
        case Some(e) => Rejected(e)
        case None =>
          var savings := Savings(amount, c.discountPct);
          Applied(c.id, c.discountPct, NumMinus(amount, savings), savings)
  }

  /**
   * `applyCoupon`: the response of `ApplyResult`, and one `coupon_usage` row
   * (the coupon, the signed-in user if any, now) exactly when the coupon is applied.
   */
  method ApplyCoupon(db: Database, couponCode: string, orderAmount: JsValue, user: Option<nat>, now: int)
    returns (r: ApplyOutcome)
    modifies db
    ensures r == ApplyResult(old(db.t), couponCode, orderAmount, now)
    ensures r.Applied? ==> db.t == old(db.t).(couponUsage := old(db.t).couponUsage + [CouponUse(r.couponId, user, now)])
    ensures !r.Applied? ==> db.t == old(db.t)
  {
    if couponCode == "" || !Truthy(orderAmount) {
      return MissingFields;
    }
    var found := FindAppCoupon(db.t, couponCode);
    if found.None? {
      return UnknownCode;
    }
    var coupon := db.t.appCoupons[found.value];
    var amount := ToNumber(orderAmount);
    var validationError := ValidateCouponDetails(coupon, TimesUsed(db.t, coupon.id), amount, now);
    if validationError.Some? {
      return Rejected(validationError.value);
    }
    var discountAmount := Savings(amount, coupon.discountPct);
    var finalPrice := NumMinus(amount, discountAmount);
    RecordCouponUsage(db, coupon.id, user, now);
    r := Applied(coupon.id, coupon.discountPct, finalPrice, discountAmount);
  }

  /** `recordCouponUsage`: INSERT INTO coupon_usage. */
  method RecordCouponUsage(db: Database, couponId: nat, user: Option<nat>, now: int)
    modifies db
    ensures db.t == old(db.t).(couponUsage := old(db.t).couponUsage + [CouponUse(couponId, user, now)])
  {
    db.t := db.t.(couponUsage := db.t.couponUsage + [CouponUse(couponId, user, now)]);
  }

  /** The response of `validateCoupon`. */
  datatype CheckOutcome =
    | NotFound                                                      // 404
    | Invalid(reason: DetailError)                                  // 400
    | Valid(discountPct: real, validUntil: int, minimumOrder: real) // 200

  /** `validateCoupon`: the same chain, with an order amount of 0; `minimum_order || 0` is reported. */
  function CheckCoupon(t: Tables, code: string, now: int): (r: CheckOutcome)
    ensures r == NotFound <==> FindAppCoupon(t, code).None?
    ensures r.Valid? ==>
      var c := t.appCoupons[FindAppCoupon(t, code).value];
      && Acceptable(c, TimesUsed(t, c.id), Finite(0.0), now)
      && r.discountPct == c.discountPct
      && r.validUntil == c.validUntil
      && r.minimumOrder == (if HasMinimum(c) then c.minimumOrder.value else 0.0)
    ensures r.Invalid? ==>
      var c := t.appCoupons[FindAppCoupon(t, code).value];
      ValidateCouponDetails(c, TimesUsed(t, c.id), Finite(0.0), now) == Some(r.reason)
  {
    match FindAppCoupon(t, code)
    case None => NotFound
    case Some(i) =>
      var c := t.appCoupons[i];
      match ValidateCouponDetails(c, TimesUsed(t, c.id), Finite(0.0), now)
      case Some(e) => Invalid(e)
      case None => Valid(c.discountPct, c.validUntil, if HasMinimum(c) then c.minimumOrder.value else 0.0)
  }

  // ---------------------------------------------------------------------------
  // Properties

  /** The validity window is closed: a coupon is current on its first and on its last second. */
  lemma WindowInclusive(c: AppCoupon, timesUsed: nat, amount: Num)
    requires c.validFrom <= c.validUntil
    ensures ValidateCouponDetails(c, timesUsed, amount, c.validFrom) !in {Some(NotYetActive), Some(Expired)}
    ensures ValidateCouponDetails(c, timesUsed, amount, c.validUntil) !in {Some(NotYetActive), Some(Expired)}
  {
  }

  /** The chain reports the earliest failure: an expired coupon at its limit is reported expired. */
  lemma EarliestFailureWins(c: AppCoupon, timesUsed: nat, amount: Num, now: int)
    requires now > c.validUntil && c.validFrom <= now
    ensures ValidateCouponDetails(c, timesUsed, amount, now) == Some(Expired)
  {
  }

  /**
   * The read-only check uses an amount of 0, so a coupon with a positive
   * minimum order that passes the other checks is always reported too low.
   */
  lemma CheckRejectsPositiveMinimum(t: Tables, code: string, now: int)
    requires FindAppCoupon(t, code).Some?
    requires var c := t.appCoupons[FindAppCoupon(t, code).value];
      && c.validFrom <= now <= c.validUntil && TimesUsed(t, c.id) < c.maxUses
      && c.minimumOrder.Some? && c.minimumOrder.value > 0.0
    ensures CheckCoupon(t, code, now) == Invalid(BelowMinimum)
  {
  }

  /** The code is matched case-insensitively: a code and its upper-cased form get the same answer. */
  lemma CodeCaseInsensitive(t: Tables, couponCode: string, orderAmount: JsValue, now: int)
    ensures ApplyResult(t, couponCode, orderAmount, now) == ApplyResult(t, ToUpper(couponCode), orderAmount, now)
    ensures CheckCoupon(t, couponCode, now) == CheckCoupon(t, ToUpper(couponCode), now)
  {
    ToUpperIdempotent(couponCode);
    assert FindAppCoupon(t, couponCode) == FindAppCoupon(t, ToUpper(couponCode));
  }

  /**
   * On a finite amount the savings and the discounted price add up to the
   * amount; nothing clamps the price, so a percentage above 100 makes it negative.
   */
  lemma PriceArithmetic(amount: real, pct: real)
    ensures var s := Savings(Finite(amount), pct);
      s == Finite(amount * pct / 100.0) && NumMinus(Finite(amount), s).v + s.v == amount
    ensures amount > 0.0 && pct > 100.0 ==> NumMinus(Finite(amount), Savings(Finite(amount), pct)).v < 0.0
  {
    var saved := amount * (pct / 100.0);
    assert saved == amount * pct / 100.0;
    assert Savings(Finite(amount), pct) == Finite(saved);
    assert NumMinus(Finite(amount), Finite(saved)) == Finite(amount - saved);
    if amount > 0.0 && pct > 100.0 {
      assert amount * pct > amount * 100.0;
      assert saved > amount;
    }
  }

  /** A use is recorded only for an applied coupon, and at most one per request. */
  lemma UsageOnlyAfterValidation(t: Tables, couponCode: string, orderAmount: JsValue, now: int)
    requires ApplyResult(t, couponCode, orderAmount, now).Applied?
    ensures couponCode != "" && Truthy(orderAmount)
    ensures var c := t.appCoupons[FindAppCoupon(t, couponCode).value];
      ValidateCouponDetails(c, TimesUsed(t, c.id), ToNumber(orderAmount), now).None?
  {
  }
}
