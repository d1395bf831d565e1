/**
 * What one checkout does to the database and what it answers, stated over
 * the specification `Checkout.Checkout` for every state and request, and how
 * the coupon preview relates to it.
 */
module CheckoutFacts {
  import opened Wrappers
  import opened JsStrings
  import opened Schema
  import opened CheckoutController
  import CheckoutModel

  /**
   * Every error rolls the transaction back. The one exception is a failure
   * of the cart clearing: the order, saved outside the transaction, stays,
   * and nothing else is written.
   */
  lemma ErrorsRollBack(t: Tables, req: Request, now: int, fault: DbFault)
    ensures var (after, r) := Checkout(t, req, now, fault);
      r.Err? && r.error != CartClearFailed ==> after == t
    ensures var (after, r) := Checkout(t, req, now, fault);
      r == Err(CartClearFailed) ==>
        && |after.orders| == |t.orders| + 1 && after.orders[..|t.orders|] == t.orders
        && after == t.(orders := after.orders, nextId := t.nextId + 1)
  {
  }

  /**
   * A coupon code is rejected exactly when the buyer resolves to a student
   * or a school and no row of the pool its prefix selects is redeemable.
   */
  lemma {:induction false} InvalidCouponIff(t: Tables, req: Request, now: int, fault: DbFault)
    ensures Checkout(t, req, now, fault).1 == Err(InvalidCoupon(req.couponCode)) <==>
      && ResolveRole(t, req.userId).Ok?
      && var role := ResolveRole(t, req.userId).value;
      && var p := ChoosePool(role, req.couponCode);
      && req.couponCode != "" && !role.SeBuyer?
      && forall k :: 0 <= k < |PoolRows(t, p)| ==> !Redeemable(PoolRows(t, p)[k], req.couponCode, SchoolFilter(role, p), now)
  {
    match ResolveRole(t, req.userId)
    case Err(e) =>
      assert e != InvalidCoupon(req.couponCode) by {
        match UserIndex(t, req.userId)
        case None =>
        case Some(i) =>
      }
    case Ok(role) =>
      if req.couponCode != "" && !role.SeBuyer? {
        var p := ChoosePool(role, req.couponCode);
        match FindCoupon(PoolRows(t, p), req.couponCode, SchoolFilter(role, p), now)
        case None =>
        case Some(i) =>
          match SettlePoints(t, req, role)
          case Err(e) =>
            assert e.RewardUpdateFailed?;
          case Ok(_) =>
      }
  }

  /**
   * The coupon block, when it succeeds with a code: the matched row,
   * redeemable now, gives the discount; its pool's uses counter is bumped by
   * the row's id and the other pools are untouched; one usage-log row is appended.
   */
  lemma ApplyCouponEffects(tx: Tables, req: Request, role: Role, now: int)
    requires req.couponCode != "" && !role.SeBuyer?
    requires ApplyCoupon(tx, req, role, now).Ok?
    ensures var s := ApplyCoupon(tx, req, role, now).value;
      var p := ChoosePool(role, req.couponCode);
      var rows := PoolRows(tx, p);
      exists i :: 0 <= i < |rows| && Redeemable(rows[i], req.couponCode, SchoolFilter(role, p), now)
        && PoolRows(s.tx, p) == BumpUses(rows, rows[i].id)
        && s.discount == Discount(req.total, rows[i].discountPct)
    ensures var s := ApplyCoupon(tx, req, role, now).value;
      forall q :: q != ChoosePool(role, req.couponCode) ==> PoolRows(s.tx, q) == PoolRows(tx, q)
    ensures var s := ApplyCoupon(tx, req, role, now).value;
      s.tx.usageLog == tx.usageLog + [UsageRow(req, s.discount, s.points, ChoosePool(role, req.couponCode))]
  {
    var p := ChoosePool(role, req.couponCode);
    var i := FindCoupon(PoolRows(tx, p), req.couponCode, SchoolFilter(role, p), now).value;
    var settled := SettlePoints(tx, req, role).value;
    var logged := LogUsage(settled.0, UsageRow(req, Discount(req.total, PoolRows(tx, p)[i].discountPct), settled.1, p));
    assert forall q :: PoolRows(logged, q) == PoolRows(tx, q);
  }

  /** A checkout succeeds exactly when the role resolves, the coupon block succeeds and no database fault occurs. */
  lemma CheckoutSucceeds(t: Tables, req: Request, now: int, fault: DbFault)
    ensures Checkout(t, req, now, fault).1.Ok? <==>
      && ResolveRole(t, req.userId).Ok?
      && ApplyCoupon(t, req, ResolveRole(t, req.userId).value, now).Ok?
      && fault == NoFault
    ensures Checkout(t, req, now, fault).1.Ok? ==>
      var role := ResolveRole(t, req.userId).value;
      var s := ApplyCoupon(t, req, role, now).value;
      Checkout(t, req, now, fault) ==
        (Commit(CheckoutModel.InsertOrder(t, OrderFor(req, s.discount)), ClearCart(s.tx, req.userId)),
         Ok(Receipt(t.nextId, s.discount,
                    if role.StudentBuyer? then s.points else 0,
                    if role.SchoolBuyer? then s.points else 0)))
  {
  }

  /**
   * A successful checkout with a coupon: the matched row, redeemable now,
   * gives the discount, and the uses counter of its pool, bumped by the
   * row's id, is committed; the other pools are untouched.
   */
  lemma CouponRedemption(t: Tables, req: Request, now: int, fault: DbFault, role: Role)
    requires ResolveRole(t, req.userId) == Ok(role)
    requires req.couponCode != "" && !role.SeBuyer?
    requires Checkout(t, req, now, fault).1.Ok?
    ensures var (after, r) := Checkout(t, req, now, fault);
      var p := ChoosePool(role, req.couponCode);
      var rows := PoolRows(t, p);
      exists i :: 0 <= i < |rows| && Redeemable(rows[i], req.couponCode, SchoolFilter(role, p), now)
        && PoolRows(after, p) == BumpUses(rows, rows[i].id)
        && r.value.discount == Discount(req.total, rows[i].discountPct)
    ensures var (after, r) := Checkout(t, req, now, fault);
      forall q :: q != ChoosePool(role, req.couponCode) ==> PoolRows(after, q) == PoolRows(t, q)
  {
    var s := ApplyCoupon(t, req, role, now).value;
    ApplyCouponEffects(t, req, role, now);
    ClearCartKeepsAccounts(s.tx, req.userId);
    CheckoutSucceeds(t, req, now, fault);
    var saved := CheckoutModel.InsertOrder(t, OrderFor(req, s.discount));
    SameCoupons(s.tx, Commit(saved, ClearCart(s.tx, req.userId)));
  }

  /**
   * A successful checkout with a coupon logs one usage row with the points
   * awarded, and appends the order, with the discounted total, under the
   * receipt's id.
   */
  lemma CouponLogAndOrder(t: Tables, req: Request, now: int, fault: DbFault, role: Role)
    requires ResolveRole(t, req.userId) == Ok(role)
    requires req.couponCode != "" && !role.SeBuyer?
    requires Checkout(t, req, now, fault).1.Ok?
    ensures var (after, r) := Checkout(t, req, now, fault);
      after.usageLog == t.usageLog + [UsageRow(req, r.value.discount, r.value.pointsAwarded + r.value.sePointsAwarded,
                                               ChoosePool(role, req.couponCode))]
    ensures var (after, r) := Checkout(t, req, now, fault);
      && |after.orders| == |t.orders| + 1 && after.orders[..|t.orders|] == t.orders
      && after.orders[|t.orders|].id == r.value.orderId
      && after.orders[|t.orders|].total == Max0(req.total - r.value.discount)
  {
    var s := ApplyCoupon(t, req, role, now).value;
    ApplyCouponEffects(t, req, role, now);
    ClearCartKeepsAccounts(s.tx, req.userId);
    CheckoutSucceeds(t, req, now, fault);
  }

  /**
   * A student's coupon checkout credits `floor(total / 100)` points, of the
   * total before the discount, to the student's school, and reports them as
   * the student's points; no SE is credited.
   */
  lemma StudentPoints(t: Tables, req: Request, now: int, fault: DbFault, schoolId: nat)
    requires ResolveRole(t, req.userId) == Ok(StudentBuyer(schoolId))
    requires req.couponCode != ""
    requires Checkout(t, req, now, fault).1.Ok?
    ensures var (after, r) := Checkout(t, req, now, fault);
      && after.schools == AddRewardPoints(t.schools, schoolId, FloorPoints(req.total))
      && after.seEmployees == t.seEmployees
      && r.value.pointsAwarded == FloorPoints(req.total)
      && r.value.sePointsAwarded == 0
  {
    var role := StudentBuyer(schoolId);
    SettledAccounts(t, req, now, fault, role);
    var settled := SettlePoints(t, req, role).value;
    assert settled.0.schools == AddRewardPoints(t.schools, schoolId, FloorPoints(req.total));
  }

  /**
   * The accounts a coupon checkout commits, and the points it reports, are
   * the ones the points step settled on.
   */
  lemma SettledAccounts(t: Tables, req: Request, now: int, fault: DbFault, role: Role)
    requires ResolveRole(t, req.userId) == Ok(role)
    requires req.couponCode != "" && !role.SeBuyer?
    requires Checkout(t, req, now, fault).1.Ok?
    ensures SettlePoints(t, req, role).Ok?
    ensures var (after, r) := Checkout(t, req, now, fault);
      var settled := SettlePoints(t, req, role).value;
      && after.schools == settled.0.schools
      && after.seEmployees == settled.0.seEmployees
      && r.value.pointsAwarded == (if role.StudentBuyer? then settled.1 else 0)
      && r.value.sePointsAwarded == (if role.SchoolBuyer? then settled.1 else 0)
  {
    var s := ApplyCoupon(t, req, role, now).value;
    CheckoutSucceeds(t, req, now, fault);
    ClearCartKeepsAccounts(s.tx, req.userId);
  }

  /** A student whose school id has no `schools` row cannot redeem a redeemable coupon. */
  lemma StudentWithoutSchoolRow(t: Tables, req: Request, now: int, fault: DbFault, schoolId: nat)
    requires ResolveRole(t, req.userId) == Ok(StudentBuyer(schoolId))
    requires req.couponCode != ""
    requires forall k :: 0 <= k < |t.schools| ==> t.schools[k].id != schoolId
    requires ChoosePool(StudentBuyer(schoolId), req.couponCode) == UniversalPool ==>
      FindCoupon(t.couponsAll, req.couponCode, None, now).Some?
    requires ChoosePool(StudentBuyer(schoolId), req.couponCode) == StudentPool ==>
      FindCoupon(t.studentCoupons, req.couponCode, Some(schoolId), now).Some?
    ensures Checkout(t, req, now, fault) == (t, Err(RewardUpdateFailed(schoolId)))
  {
    assert SchoolsWithId(t.schools, schoolId) == 0;
  }

  /**
   * A school's coupon checkout credits no school. When the school is linked
   * to an SE and has not used the code before, `floor(total / 100)` points
   * are reported and credited to every SE row with that employee id (none
   * when there is no such row); otherwise no points.
   */
  lemma SchoolSePoints(t: Tables, req: Request, now: int, fault: DbFault, schoolId: nat, seId: Option<string>)
    requires ResolveRole(t, req.userId) == Ok(SchoolBuyer(schoolId, seId))
    requires req.couponCode != ""
    requires Checkout(t, req, now, fault).1.Ok?
    ensures var (after, r) := Checkout(t, req, now, fault);
      var first := TruthyText(seId) && PriorUses(t.usageLog, req.couponCode, req.userId) == 0;
      && after.schools == t.schools
      && r.value.pointsAwarded == 0
      && r.value.sePointsAwarded == (if first then FloorPoints(req.total) else 0)
      && after.seEmployees == (if first then AddRedeemPoints(t.seEmployees, seId.value, FloorPoints(req.total))
                               else t.seEmployees)
  {
    var role := SchoolBuyer(schoolId, seId);
    if TruthyText(seId) && PriorUses(t.usageLog, req.couponCode, req.userId) == 0 &&
       SesWithEmployeeId(t.seEmployees, seId.value) == 0 {
      AddRedeemPointsNoMatch(t.seEmployees, seId.value, FloorPoints(req.total));
    }
    SettledAccounts(t, req, now, fault, role);
  }

  /** A second use of the same code by the same school awards its SE nothing. */
  lemma SeRewardOnlyOnFirstUse(t: Tables, req: Request, now: int, fault: DbFault, schoolId: nat, seId: Option<string>)
    requires ResolveRole(t, req.userId) == Ok(SchoolBuyer(schoolId, seId))
    requires req.couponCode != ""
    requires exists k :: 0 <= k < |t.usageLog| && t.usageLog[k].couponCode == req.couponCode && t.usageLog[k].userId == req.userId
    requires Checkout(t, req, now, fault).1.Ok?
    ensures Checkout(t, req, now, fault).0.seEmployees == t.seEmployees
    ensures Checkout(t, req, now, fault).1.value.sePointsAwarded == 0
  {
    SchoolSePoints(t, req, now, fault, schoolId, seId);
  }

  /**
   * Without a code, and for an SE buyer whatever the code, a checkout
   * applies no discount and awards no points: it only saves the order with
   * the total (or 0 when it is negative) and clears the buyer's cart.
   */
  lemma NoCouponPath(t: Tables, req: Request, now: int, fault: DbFault)
    requires ResolveRole(t, req.userId).Ok?
    requires req.couponCode == "" || ResolveRole(t, req.userId).value.SeBuyer?
    requires Checkout(t, req, now, fault).1.Ok?
    ensures var (after, r) := Checkout(t, req, now, fault);
      && r.value.discount == 0.0 && r.value.pointsAwarded == 0 && r.value.sePointsAwarded == 0
      && after == t.(orders := after.orders, nextId := after.nextId, cartItems := after.cartItems)
      && after.orders == t.orders + [after.orders[|t.orders|]]
      && after.orders[|t.orders|].total == Max0(req.total)
  {
    var cleared := ClearCart(t, req.userId);
    assert cleared == t.(cartItems := cleared.cartItems) by {
      match CartIndex(t, req.userId)
      case None =>
      case Some(j) =>
    }
    assert req.total - 0.0 == req.total;
  }

  /** Clearing the cart removes exactly the lines of the buyer's first cart and keeps every other table. */
  lemma ClearCartKeepsAccounts(tx: Tables, userId: nat)
    ensures ClearCart(tx, userId) == tx.(cartItems := ClearCart(tx, userId).cartItems)
    ensures CartIndex(tx, userId).None? ==> ClearCart(tx, userId).cartItems == tx.cartItems
    ensures CartIndex(tx, userId).Some? ==> forall k :: 0 <= k < |ClearCart(tx, userId).cartItems| ==>
      ClearCart(tx, userId).cartItems[k].cartId != CartNo(tx.carts[CartIndex(tx, userId).value].id)
  {
  }

  /** The redeem-points UPDATE changes nothing when no SE has the employee id. */
  lemma AddRedeemPointsNoMatch(rows: seq<SeEmployee>, employeeId: string, points: int)
    requires SesWithEmployeeId(rows, employeeId) == 0
    ensures AddRedeemPoints(rows, employeeId, points) == rows
  {
    var r := AddRedeemPoints(rows, employeeId, points);
    assert forall k :: 0 <= k < |rows| ==> r[k] == rows[k];
  }

  /** The stored total is never negative, even when the discount exceeds the client's total. */
  lemma OrderTotalNonNegative(t: Tables, req: Request, now: int, fault: DbFault)
    ensures var (after, r) := Checkout(t, req, now, fault);
      |after.orders| > |t.orders| ==> after.orders[|t.orders|].total >= 0.0
  {
  }

  /** With a percentage in [0, 100] and a non-negative total, the discount lies in [0, total]. */
  lemma DiscountWithinTotal(total: real, pct: real)
    requires total >= 0.0 && 0.0 <= pct <= 100.0
    ensures 0.0 <= Discount(total, pct) <= total
    ensures Max0(total - Discount(total, pct)) == total - Discount(total, pct)
  {
    assert total * pct <= total * 100.0;
    assert total * pct >= 0.0;
  }

  // ---------------------------------------------------------------------------
  // The uses counter

  /** No row of a pool has more uses than its maximum. */
  ghost predicate WithinLimit(rows: seq<Coupon>) {
    forall k :: 0 <= k < |rows| && rows[k].currentUses.Some? ==> rows[k].currentUses.value <= rows[k].maxUses
  }

  /** The ids of a pool are distinct, as a primary key makes them. */
  ghost predicate UniqueIds(rows: seq<Coupon>) {
    forall i, j :: 0 <= i < j < |rows| ==> rows[i].id != rows[j].id
  }

  /** Bumping a row the WHERE clause let through keeps every row within its maximum. */
  lemma {:induction false} BumpKeepsWithinLimit(rows: seq<Coupon>, i: nat)
    requires WithinLimit(rows) && UniqueIds(rows)
    requires i < |rows| && rows[i].currentUses.GetOr(0) < rows[i].maxUses
    ensures WithinLimit(BumpUses(rows, rows[i].id)) && UniqueIds(BumpUses(rows, rows[i].id))
  {
    var r := BumpUses(rows, rows[i].id);
    forall k | 0 <= k < |r| && r[k].currentUses.Some?
      ensures r[k].currentUses.value <= r[k].maxUses
    {
      if k != i {
        assert rows[k].id != rows[i].id by {
          if k < i { assert rows[k].id != rows[i].id; } else { assert rows[i].id != rows[k].id; }
        }
        assert r[k] == rows[k];
      }
    }
    forall a, b | 0 <= a < b < |r|
      ensures r[a].id != r[b].id
    {
      assert r[a].id == rows[a].id && r[b].id == rows[b].id;
    }
  }

  /** A checkout never takes a pool past a coupon's `max_uses`, when the ids of each pool are distinct. */
  lemma UsesStayWithinLimit(t: Tables, req: Request, now: int, fault: DbFault)
    requires forall p: Pool :: WithinLimit(PoolRows(t, p)) && UniqueIds(PoolRows(t, p))
    ensures forall p: Pool ::
      WithinLimit(PoolRows(Checkout(t, req, now, fault).0, p)) && UniqueIds(PoolRows(Checkout(t, req, now, fault).0, p))
  {
    var r := Checkout(t, req, now, fault).1;
    if r.Ok? && req.couponCode != "" && ResolveRole(t, req.userId).Ok? && !ResolveRole(t, req.userId).value.SeBuyer? {
      RedemptionWithinLimit(t, req, now, fault, ResolveRole(t, req.userId).value);
    } else {
      PoolsUntouched(t, req, now, fault);
    }
  }

  /** The one pool a coupon checkout bumps stays within its maximums; the others are untouched. */
  lemma RedemptionWithinLimit(t: Tables, req: Request, now: int, fault: DbFault, role: Role)
    requires forall p: Pool :: WithinLimit(PoolRows(t, p)) && UniqueIds(PoolRows(t, p))
    requires ResolveRole(t, req.userId) == Ok(role)
    requires req.couponCode != "" && !role.SeBuyer?
    requires Checkout(t, req, now, fault).1.Ok?
    ensures forall p: Pool ::
      WithinLimit(PoolRows(Checkout(t, req, now, fault).0, p)) && UniqueIds(PoolRows(Checkout(t, req, now, fault).0, p))
  {
    var after := Checkout(t, req, now, fault).0;
    CouponRedemption(t, req, now, fault, role);
    var p := ChoosePool(role, req.couponCode);
    var rows := PoolRows(t, p);
    var i :| 0 <= i < |rows| && Redeemable(rows[i], req.couponCode, SchoolFilter(role, p), now)
             && PoolRows(after, p) == BumpUses(rows, rows[i].id);
    BumpKeepsWithinLimit(rows, i);
    forall q: Pool
      ensures WithinLimit(PoolRows(after, q)) && UniqueIds(PoolRows(after, q))
    {
      if q != p {
        assert PoolRows(after, q) == PoolRows(t, q);
      }
    }
  }

  /** A checkout that fails, or succeeds without redeeming a coupon, leaves every pool as it was. */
  lemma PoolsUntouched(t: Tables, req: Request, now: int, fault: DbFault)
    requires !(Checkout(t, req, now, fault).1.Ok? && req.couponCode != ""
               && ResolveRole(t, req.userId).Ok? && !ResolveRole(t, req.userId).value.SeBuyer?)
    ensures forall p: Pool :: PoolRows(Checkout(t, req, now, fault).0, p) == PoolRows(t, p)
  {
    var (after, r) := Checkout(t, req, now, fault);
    if r.Ok? {
      NoCouponPath(t, req, now, fault);
      SameCoupons(t, after);
    } else {
      ErrorsRollBack(t, req, now, fault);
      SameCoupons(t, after);
    }
  }

  lemma SameCoupons(t: Tables, u: Tables)
    requires u.studentCoupons == t.studentCoupons && u.coupons == t.coupons && u.couponsAll == t.couponsAll
    ensures forall p: Pool :: PoolRows(u, p) == PoolRows(t, p)
  {
    forall p: Pool ensures PoolRows(u, p) == PoolRows(t, p) {
      match p
      case StudentPool =>
      case SchoolPool =>
      case UniversalPool =>
    }
  }

  /**
   * A coupon whose `current_uses` is NULL passes COALESCE(current_uses, 0)
   * < max_uses, and NULL + 1 stays NULL, so it stays redeemable however often it is used.
   */
  lemma NullUsesNeverRunOut(rows: seq<Coupon>, i: nat, code: string, school: Option<nat>, now: int)
    requires i < |rows| && rows[i].currentUses.None?
    requires Redeemable(rows[i], code, school, now)
    ensures Redeemable(BumpUses(rows, rows[i].id)[i], code, school, now)
  {
  }

  // ---------------------------------------------------------------------------
  // The preview against the checkout

  /**
   * For a buyer whose body `userType` is their own, the preview accepts a
   * code exactly when the checkout finds a redeemable row for it, in the
   * same pool, unless the code carries the other role's prefix; the
   * percentage it reports is that row's.
   */
  lemma PreviewAgreesWithCheckout(t: Tables, code: string, userId: nat, role: Role, now: int)
    requires ResolveRole(t, userId) == Ok(role) && !role.SeBuyer?
    requires code != "" && userId != 0
    requires role.StudentBuyer? ==> !StartsWith(code, "SE-")
    requires role.SchoolBuyer? ==> !StartsWith(code, "STU-")
    ensures var p := ChoosePool(role, code);
      PreviewCoupon(t, code, userId, RoleName(role), now).Usable? <==>
        FindCoupon(PoolRows(t, p), code, SchoolFilter(role, p), now).Some?
    ensures var r := PreviewCoupon(t, code, userId, RoleName(role), now);
      r.Usable? ==> r.couponTable == PoolLabel(ChoosePool(role, code))
    ensures var r := PreviewCoupon(t, code, userId, RoleName(role), now);
      var p := ChoosePool(role, code);
      r.Usable? ==> r.discountPct == PoolRows(t, p)[FindCoupon(PoolRows(t, p), code, SchoolFilter(role, p), now).value].discountPct
  {
    PrefixesExclusive(code);
  }

  /**
   * A checkout that succeeds with a code the buyer's own preview would
   * accept applies the previewed percentage: the preview accepts the code
   * and the discount is that percentage of the total.
   */
  lemma PreviewedDiscountApplied(t: Tables, req: Request, now: int, fault: DbFault, role: Role)
    requires ResolveRole(t, req.userId) == Ok(role) && !role.SeBuyer?
    requires req.couponCode != "" && req.userId != 0
    requires role.StudentBuyer? ==> !StartsWith(req.couponCode, "SE-")
    requires role.SchoolBuyer? ==> !StartsWith(req.couponCode, "STU-")
    requires Checkout(t, req, now, fault).1.Ok?
    ensures var r := PreviewCoupon(t, req.couponCode, req.userId, RoleName(role), now);
      && r.Usable?
      && Checkout(t, req, now, fault).1.value.discount == Discount(req.total, r.discountPct)
  {
    PreviewAgreesWithCheckout(t, req.couponCode, req.userId, role, now);
    CheckoutSucceeds(t, req, now, fault);
    var p := ChoosePool(role, req.couponCode);
    assert FindCoupon(PoolRows(t, p), req.couponCode, SchoolFilter(role, p), now).Some?;
  }

  /**
   * The preview checks an SE's plain code against the universal pool, but
   * the checkout applies no coupon for an SE.
   */
  lemma SePreviewNotHonoured(t: Tables, req: Request, now: int, fault: DbFault)
    requires ResolveRole(t, req.userId) == Ok(SeBuyer)
    requires req.couponCode != "" && req.userId != 0
    requires !StartsWith(req.couponCode, "SE-") && !StartsWith(req.couponCode, "STU-")
    ensures PreviewCoupon(t, req.couponCode, req.userId, "se", now).Usable? <==>
      FindCoupon(t.couponsAll, req.couponCode, None, now).Some?
    ensures Checkout(t, req, now, fault).1.Ok? ==> Checkout(t, req, now, fault).1.value.discount == 0.0
  {
    if Checkout(t, req, now, fault).1.Ok? {
      NoCouponPath(t, req, now, fault);
    }
  }

  /**
   * A student's `SE-` code is refused by the preview (403) but looked up in
   * the universal pool by the checkout; likewise a school's `STU-` code.
   */
  lemma CrossPrefixFallsThrough(t: Tables, code: string, userId: nat, role: Role, now: int)
    requires userId != 0 && !role.SeBuyer?
    requires role.StudentBuyer? ==> StartsWith(code, "SE-")
    requires role.SchoolBuyer? ==> StartsWith(code, "STU-")
    ensures ChoosePool(role, code) == UniversalPool
    ensures PreviewCoupon(t, code, userId, RoleName(role), now) ==
      if role.StudentBuyer? then WrongRole("school") else WrongRole("student")
  {
    PrefixesExclusive(code);
  }
}
