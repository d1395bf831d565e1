/**
 * controllers/CheckoutController.js: checkout with coupon redemption and
 * reward settlement (`processCheckout`), and the coupon preview
 * (`validateCoupon`).
 *
 * `Checkout` is the specification of one checkout: the state it leaves and
 * its response. `ProcessCheckout` is the handler itself, a step-by-step
 * update of a transaction copy `tx` that is committed at the end, proved to
 * agree with `Checkout`. The lemmas after it state what a checkout does.
 */
module CheckoutController {
  import opened Wrappers
  import opened JsStrings
  import opened Schema
  import CheckoutModel

  /** The buyer's role and affiliation, resolved from `users` and the role's own table. */
  datatype Role =
    | StudentBuyer(schoolId: nat)
    | SchoolBuyer(schoolId: nat, seId: Option<string>)
    | SeBuyer

  /** The error a checkout throws; every one rolls the transaction back. */
  datatype Failure =
    | UserNotFound
    | NoStudentSchool
    | NoSchoolRecord
    | UnsupportedUserType(userType: string)
    | InvalidCoupon(code: string)
    | RewardUpdateFailed(schoolId: nat)
    | OrderInsertFailed
    | CartClearFailed

  /** A database error raised by the order insert or by the cart clearing. */
  datatype DbFault = NoFault | OrderInsertFails | CartClearFails

  /** The request body; a missing or empty `couponCode` is "". */
  datatype Request = Request(
    userId: nat, shipping: Shipping, total: real, couponCode: string, cartItems: seq<OrderItem>)

  datatype Receipt = Receipt(orderId: nat, discount: real, pointsAwarded: int, sePointsAwarded: int)

  /** The three coupon pools. */
  datatype Pool = StudentPool | SchoolPool | UniversalPool

  function RoleName(role: Role): string {
    match role
    case StudentBuyer(_) => "student"
    case SchoolBuyer(_, _) => "school"
    case SeBuyer => "se"
  }

  /** The first `users` row with the id. */
  function UserIndex(t: Tables, userId: nat): (r: Option<nat>)
    ensures r.Some? ==> r.value < |t.users| && t.users[r.value].id == userId
    ensures r.None? <==> forall k :: 0 <= k < |t.users| ==> t.users[k].id != userId
  {
    FirstIndex(t.users, (u: User) => u.id == userId)
  }

  /** The first `students` row of the user. */
  function StudentIndex(t: Tables, userId: nat): (r: Option<nat>)
    ensures r.Some? ==> r.value < |t.students| && t.students[r.value].userId == userId
  {
    FirstIndex(t.students, (s: Student) => s.userId == userId)
  }

  /** The first `schools` row of the user. */
  function SchoolIndex(t: Tables, userId: nat): (r: Option<nat>)
    ensures r.Some? ==> r.value < |t.schools| && t.schools[r.value].userId == userId
  {
    FirstIndex(t.schools, (s: School) => s.userId == userId)
  }

  /**
   * The buyer's role: the `user_type` of the first `users` row with the id,
   * then, for a student, the first `students` row (its `school_id` must be
   * truthy) and, for a school, the first `schools` row.
   */
  function ResolveRole(t: Tables, userId: nat): (r: Result<Role, Failure>)
    ensures r == Err(UserNotFound) <==> forall k :: 0 <= k < |t.users| ==> t.users[k].id != userId
    ensures r.Ok? ==> exists k :: 0 <= k < |t.users| && t.users[k].id == userId
                                  && t.users[k].userType == RoleName(r.value)
    ensures r.Ok? && r.value.StudentBuyer? ==> r.value.schoolId != 0
    ensures r.Ok? && r.value.StudentBuyer? ==>
      exists k :: 0 <= k < |t.students| && t.students[k].userId == userId
                  && t.students[k].schoolId == Some(r.value.schoolId)
    ensures r.Ok? && r.value.SchoolBuyer? ==>
      exists k :: 0 <= k < |t.schools| && t.schools[k].userId == userId && t.schools[k].id == r.value.schoolId
  {
    match UserIndex(t, userId)
    case None => Err(UserNotFound)
    case Some(i) =>
      var userType := t.users[i].userType;
      if userType == "student" then
        match StudentIndex(t, userId)
        case None => Err(NoStudentSchool)
        case Some(j) =>
          if TruthyId(t.students[j].schoolId) then Ok(StudentBuyer(t.students[j].schoolId.value))
          else Err(NoStudentSchool)
      else if userType == "school" then
        match SchoolIndex(t, userId)
        case None => Err(NoSchoolRecord)
        case Some(j) => Ok(SchoolBuyer(t.schools[j].id, t.schools[j].employeeId))
      else if userType == "se" then Ok(SeBuyer)
      else Err(UnsupportedUserType(userType))
  }

  /** The pool a code is looked up in: only a student's `STU-` and a school's `SE-` leave the universal pool. */
  function ChoosePool(role: Role, code: string): (p: Pool)
    ensures p == StudentPool ==> role.StudentBuyer? && StartsWith(code, "STU-")
    ensures p == SchoolPool ==> role.SchoolBuyer? && StartsWith(code, "SE-")
    ensures role.SeBuyer? ==> p == UniversalPool
    ensures !StartsWith(code, "STU-") && !StartsWith(code, "SE-") ==> p == UniversalPool
  {
    if role.StudentBuyer? && StartsWith(code, "STU-") then StudentPool
    else if role.SchoolBuyer? && StartsWith(code, "SE-") then SchoolPool
    else UniversalPool
  }

  /** The `coupon_table` label logged for a pool. */
  function PoolLabel(p: Pool): string {
    match p
    case StudentPool => "student"
    case SchoolPool => "coupon"
    case UniversalPool => "universal"
  }

  /** The table a label selects for the counter update: 'coupon', 'student', anything else. */
  function PoolOfLabel(name: string): (p: Pool)
    ensures PoolLabel(p) == name || (p == UniversalPool && name != "coupon" && name != "student")
  {
    if name == "coupon" then SchoolPool else if name == "student" then StudentPool else UniversalPool
  }

  function PoolRows(t: Tables, p: Pool): seq<Coupon> {
    match p
    case StudentPool => t.studentCoupons
    case SchoolPool => t.coupons
    case UniversalPool => t.couponsAll
  }

  function WithPoolRows(t: Tables, p: Pool, rows: seq<Coupon>): (r: Tables)
    ensures PoolRows(r, p) == rows
    ensures forall q :: q != p ==> PoolRows(r, q) == PoolRows(t, q)
  {
    match p
    case StudentPool => t.(studentCoupons := rows)
    case SchoolPool => t.(coupons := rows)
    case UniversalPool => t.(couponsAll := rows)
  }

  /** The `school_id` a pool's query is filtered by: the buyer's school, except in the universal pool. */
  function SchoolFilter(role: Role, p: Pool): Option<nat> {
    if p == UniversalPool || role.SeBuyer? then None else Some(role.schoolId)
  }

  /**
   * The WHERE clause of the coupon queries: the code, the school filter, a
   * window that contains `now` at both ends, and COALESCE(current_uses, 0) < max_uses.
   */
  predicate Redeemable(c: Coupon, code: string, school: Option<nat>, now: int) {
    && c.code == code
    && (school.Some? ==> c.schoolId == school)
    && c.validFrom <= now <= c.validUntil
    && c.currentUses.GetOr(0) < c.maxUses
  }

  function FindCoupon(rows: seq<Coupon>, code: string, school: Option<nat>, now: int): (r: Option<nat>)
    ensures r.Some? ==> r.value < |rows| && Redeemable(rows[r.value], code, school, now)
    ensures r.None? <==> forall k :: 0 <= k < |rows| ==> !Redeemable(rows[k], code, school, now)
  {
    FirstIndex(rows, (c: Coupon) => Redeemable(c, code, school, now))
  }

  /** `(total * discount_percentage) / 100`. */
  function Discount(total: real, pct: real): real {
    total * pct / 100.0
  }

  /** `Math.floor(total / 100)`. */
  function FloorPoints(total: real): (p: int)
    ensures p as real * 100.0 <= total < (p + 1) as real * 100.0
  {
    (total / 100.0).Floor
  }

  /** `Math.max(0, x)`. */
  function Max0(x: real): (r: real)
    ensures r >= 0.0 && r >= x && (r == 0.0 || r == x)
  {
    if x < 0.0 then 0.0 else x
  }

  /** SQL `current_uses + 1`: NULL stays NULL. */
  function IncUses(u: Option<int>): Option<int> {
    match u
    case None => None
    case Some(n) => Some(n + 1)
  }

  /** UPDATE … SET current_uses = current_uses + 1 WHERE id = `id`. */
  function BumpUses(rows: seq<Coupon>, id: nat): (r: seq<Coupon>)
    ensures |r| == |rows|
    ensures forall k :: 0 <= k < |rows| ==>
      r[k] == if rows[k].id == id then rows[k].(currentUses := IncUses(rows[k].currentUses)) else rows[k]
  {
    if |rows| == 0 then []
    else
      [if rows[0].id == id then rows[0].(currentUses := IncUses(rows[0].currentUses)) else rows[0]]
      + BumpUses(rows[1..], id)
  }

  /** UPDATE schools SET reward_points = reward_points + `points` WHERE id = `id`. */
  function AddRewardPoints(rows: seq<School>, id: nat, points: int): (r: seq<School>)
    ensures |r| == |rows|
    ensures forall k :: 0 <= k < |rows| ==>
      r[k] == if rows[k].id == id then rows[k].(rewardPoints := rows[k].rewardPoints + points) else rows[k]
  {
    if |rows| == 0 then []
    else
      [if rows[0].id == id then rows[0].(rewardPoints := rows[0].rewardPoints + points) else rows[0]]
      + AddRewardPoints(rows[1..], id, points)
  }

  /** UPDATE se_employees SET redeem_points = redeem_points + `points` WHERE employee_id = `employeeId`. */
  function AddRedeemPoints(rows: seq<SeEmployee>, employeeId: string, points: int): (r: seq<SeEmployee>)
    ensures |r| == |rows|
    ensures forall k :: 0 <= k < |rows| ==>
      r[k] == if rows[k].employeeId == employeeId then rows[k].(redeemPoints := rows[k].redeemPoints + points)
              else rows[k]
  {
    if |rows| == 0 then []
    else
      [if rows[0].employeeId == employeeId then rows[0].(redeemPoints := rows[0].redeemPoints + points) else rows[0]]
      + AddRedeemPoints(rows[1..], employeeId, points)
  }

  /** SELECT COUNT(*) FROM coupon_usage_log WHERE coupon_code = `code` AND user_id = `userId`. */
  function PriorUses(log: seq<UsageLogRow>, code: string, userId: nat): nat {
    Count(log, (l: UsageLogRow) => l.couponCode == code && l.userId == userId)
  }

  function SchoolsWithId(rows: seq<School>, id: nat): nat {
    Count(rows, (s: School) => s.id == id)
  }

  function SesWithEmployeeId(rows: seq<SeEmployee>, employeeId: string): nat {
    Count(rows, (e: SeEmployee) => e.employeeId == employeeId)
  }

  /** UPDATE schools SET reward_points = reward_points + `points` WHERE id = `id`. */
  function CreditSchool(tx: Tables, id: nat, points: int): Tables {
    tx.(schools := AddRewardPoints(tx.schools, id, points))
  }

  /** UPDATE se_employees SET redeem_points = redeem_points + `points` WHERE employee_id = `employeeId`. */
  function CreditSe(tx: Tables, employeeId: string, points: int): Tables {
    tx.(seEmployees := AddRedeemPoints(tx.seEmployees, employeeId, points))
  }

  /** INSERT INTO coupon_usage_log. */
  function LogUsage(tx: Tables, row: UsageLogRow): Tables {
    tx.(usageLog := tx.usageLog + [row])
  }

  /** UPDATE on the pool's table: SET current_uses = current_uses + 1 WHERE id = `id`. */
  function IncrementUses(tx: Tables, p: Pool, id: nat): Tables {
    WithPoolRows(tx, p, BumpUses(PoolRows(tx, p), id))
  }

  /** DELETE FROM cart_items WHERE cartId = `cartId`. */
  function DeleteCartItems(tx: Tables, cartId: nat): Tables {
    tx.(cartItems := Filter(tx.cartItems, (x: CartItem) => x.cartId != CartNo(cartId)))
  }

  /**
   * The points a coupon checkout awards and where they go: to the student's
   * school, or, on the school buyer's first use of the code, to its linked SE.
   */
  function SettlePoints(tx: Tables, req: Request, role: Role): (r: Result<(Tables, int), Failure>)
    ensures r.Ok? ==> r.value.0 == tx.(schools := r.value.0.schools, seEmployees := r.value.0.seEmployees)
  {
    if role.SchoolBuyer? && TruthyText(role.seId) then
      if PriorUses(tx.usageLog, req.couponCode, req.userId) == 0 then
        var points := FloorPoints(req.total);
        if SesWithEmployeeId(tx.seEmployees, role.seId.value) > 0 then
          Ok((CreditSe(tx, role.seId.value, points), points))
        else Ok((tx, points))
      else Ok((tx, 0))
    else if role.StudentBuyer? && role.schoolId != 0 then
      var points := FloorPoints(req.total);
      if SchoolsWithId(tx.schools, role.schoolId) == 0 then Err(RewardUpdateFailed(role.schoolId))
      else Ok((CreditSchool(tx, role.schoolId, points), points))
    else Ok((tx, 0))
  }

  /** What the coupon block of a checkout leaves: the transaction state, the discount and the points. */
  datatype Settlement = Settlement(tx: Tables, discount: real, points: int)

  function UsageRow(req: Request, discount: real, points: int, p: Pool): UsageLogRow {
    UsageLogRow(req.userId, req.couponCode, discount, req.total, points, PoolLabel(p))
  }

  /** The coupon block: skipped without a code or for an SE buyer. */
  function ApplyCoupon(tx: Tables, req: Request, role: Role, now: int): Result<Settlement, Failure> {
    if req.couponCode == "" || role.SeBuyer? then Ok(Settlement(tx, 0.0, 0))
    else
      var p := ChoosePool(role, req.couponCode);
      match FindCoupon(PoolRows(tx, p), req.couponCode, SchoolFilter(role, p), now)
      case None => Err(InvalidCoupon(req.couponCode))
      case Some(i) =>
        var coupon := PoolRows(tx, p)[i];
        var discount := Discount(req.total, coupon.discountPct);
        match SettlePoints(tx, req, role)
        case Err(e) => Err(e)
        case Ok(settled) =>
          var logged := LogUsage(settled.0, UsageRow(req, discount, settled.1, p));
          Ok(Settlement(IncrementUses(logged, p, coupon.id), discount, settled.1))
  }

  /** The buyer's first `carts` row. */
  function CartIndex(tx: Tables, userId: nat): (r: Option<nat>)
    ensures r.Some? ==> r.value < |tx.carts| && tx.carts[r.value].userId == userId
  {
    FirstIndex(tx.carts, (c: Cart) => c.userId == userId)
  }

  /** The cart clearing: the items of the buyer's first cart go. */
  function ClearCart(tx: Tables, userId: nat): Tables {
    match CartIndex(tx, userId)
    case None => tx
    case Some(i) => DeleteCartItems(tx, tx.carts[i].id)
  }

  /**
   * COMMIT of a transaction that never writes `orders`: its tables replace
   * the committed ones, and the orders written meanwhile through the pool stay.
   */
  function Commit(current: Tables, tx: Tables): Tables {
    tx.(orders := current.orders, nextId := current.nextId)
  }

  function OrderFor(req: Request, discount: real): CheckoutModel.OrderData {
    CheckoutModel.OrderData(req.userId, req.shipping, Max0(req.total - discount), req.couponCode, discount, req.cartItems)
  }

  /** One checkout: the committed state it leaves and its response. */
  function Checkout(t: Tables, req: Request, now: int, fault: DbFault): (Tables, Result<Receipt, Failure>) {
    match ResolveRole(t, req.userId)
    case Err(e) => (t, Err(e))
    case Ok(role) =>
      match ApplyCoupon(t, req, role, now)
      case Err(e) => (t, Err(e))
      case Ok(s) =>
        if fault == OrderInsertFails then (t, Err(OrderInsertFailed))
        else
          var saved := CheckoutModel.InsertOrder(t, OrderFor(req, s.discount));
          if fault == CartClearFails then (saved, Err(CartClearFailed))
          else
            var receipt := Receipt(
              t.nextId, s.discount,
              if role.StudentBuyer? then s.points else 0,
              if role.SchoolBuyer? then s.points else 0);
            (Commit(saved, ClearCart(s.tx, req.userId)), Ok(receipt))
  }

  /** The role the handler's variables `userType`, `schoolId` and `seId` describe. */
  function BuyerRole(userType: string, schoolId: Option<nat>, seId: Option<string>): Role {
    if userType == "student" then StudentBuyer(schoolId.GetOr(0))
    else if userType == "school" then SchoolBuyer(schoolId.GetOr(0), seId)
    else SeBuyer
  }

  /** The user lookup and the role branch of `processCheckout` (lines 29-55). */
  method ResolveBuyer(tx: Tables, userId: nat)
    returns (r: Result<string, Failure>, schoolId: Option<nat>, seId: Option<string>)
    ensures r.Err? ==> ResolveRole(tx, userId) == Err(r.error)
    ensures r.Ok? ==> ResolveRole(tx, userId) == Ok(BuyerRole(r.value, schoolId, seId))
    ensures r.Ok? ==> RoleName(BuyerRole(r.value, schoolId, seId)) == r.value
    ensures r.Ok? && r.value == "student" ==> TruthyId(schoolId)
    ensures r.Ok? && r.value == "school" ==> schoolId.Some?
  {
    schoolId := None;
    seId := None;
    var user := UserIndex(tx, userId);
    if user.None? {
      return Err(UserNotFound), schoolId, seId;
    }
    var userType := tx.users[user.value].userType;
    if userType == "student" {
      var student := StudentIndex(tx, userId);
      if student.None? || !TruthyId(tx.students[student.value].schoolId) {
        return Err(NoStudentSchool), schoolId, seId;
      }
      schoolId := tx.students[student.value].schoolId;
    } else if userType == "school" {
      var school := SchoolIndex(tx, userId);
      if school.None? {
        return Err(NoSchoolRecord), schoolId, seId;
      }
      schoolId := Some(tx.schools[school.value].id);
      seId := tx.schools[school.value].employeeId;
    } else if userType != "se" {
      return Err(UnsupportedUserType(userType)), schoolId, seId;
    }
    r := Ok(userType);
  }

  /** The points branch of the coupon block (lines 124-168): the new `tx` and `pointsAwarded`. */
  method AwardPoints(tx: Tables, req: Request, userType: string, schoolId: Option<nat>, seId: Option<string>)
    returns (r: Result<(Tables, int), Failure>)
    requires userType == "student" ==> TruthyId(schoolId)
    ensures r == SettlePoints(tx, req, BuyerRole(userType, schoolId, seId))
  {
    var next := tx;
    var pointsAwarded := 0;
    if userType == "school" && TruthyText(seId) {
      if PriorUses(next.usageLog, req.couponCode, req.userId) == 0 {
        pointsAwarded := FloorPoints(req.total);
        if SesWithEmployeeId(next.seEmployees, seId.value) > 0 {
          next := CreditSe(next, seId.value, pointsAwarded);
        }
      } else {
        pointsAwarded := 0;
      }
    } else if userType == "student" && TruthyId(schoolId) {
      pointsAwarded := FloorPoints(req.total);
      var affected := SchoolsWithId(next.schools, schoolId.value);
      next := CreditSchool(next, schoolId.value, pointsAwarded);
      if affected == 0 {
        return Err(RewardUpdateFailed(schoolId.value));
      }
    }
    r := Ok((next, pointsAwarded));
  }

  /** The coupon block of `processCheckout` (lines 57-186): the new `tx`, `discount` and `pointsAwarded`. */
  method RedeemCoupon(tx: Tables, req: Request, userType: string, schoolId: Option<nat>, seId: Option<string>, now: int)
    returns (r: Result<Settlement, Failure>)
    requires userType == "student" ==> TruthyId(schoolId)
    requires userType == "school" ==> schoolId.Some?
    requires userType == "student" || userType == "school" || userType == "se"
    ensures r == ApplyCoupon(tx, req, BuyerRole(userType, schoolId, seId), now)
  {
    ghost var role := BuyerRole(userType, schoolId, seId);
    var next := tx;
    var discount := 0.0;
    var pointsAwarded := 0;
    if req.couponCode != "" && userType != "se" {
      var p: Pool;
      if userType == "student" && StartsWith(req.couponCode, "STU-") {
        p := StudentPool;
      } else if userType == "school" && StartsWith(req.couponCode, "SE-") {
        p := SchoolPool;
      } else {
        p := UniversalPool;
      }
      assert p == ChoosePool(role, req.couponCode);
      var found := FindCoupon(PoolRows(next, p), req.couponCode, if p == UniversalPool then None else schoolId, now);
      assert SchoolFilter(role, p) == (if p == UniversalPool then None else schoolId);
      if found.None? {
        return Err(InvalidCoupon(req.couponCode));
      }
      var coupon := PoolRows(next, p)[found.value];
      var couponTable := PoolLabel(p);
      discount := Discount(req.total, coupon.discountPct);

      var settled := AwardPoints(next, req, userType, schoolId, seId);
      if settled.Err? {
        return Err(settled.error);
      }
      next := settled.value.0;
      pointsAwarded := settled.value.1;

      next := LogUsage(next, UsageLogRow(req.userId, req.couponCode, discount, req.total, pointsAwarded, couponTable));
      var bumped := PoolOfLabel(couponTable);
      assert bumped == p;
      next := IncrementUses(next, bumped, coupon.id);
    }
    r := Ok(Settlement(next, discount, pointsAwarded));
  }

  /** `processCheckout`: the rest of the handler, around the transaction copy `tx`. */
  method ProcessCheckout(db: Database, req: Request, now: int, fault: DbFault) returns (r: Result<Receipt, Failure>)
    modifies db
    ensures (db.t, r) == Checkout(old(db.t), req, now, fault)
  {
    var tx := db.t;                                   // beginTransaction
    var buyer, schoolId, seId := ResolveBuyer(tx, req.userId);
    if buyer.Err? {
      return Err(buyer.error);                        // rollback
    }
    var userType := buyer.value;
    ghost var role := BuyerRole(userType, schoolId, seId);
    assert ResolveRole(old(db.t), req.userId) == Ok(role);
    var settlement := RedeemCoupon(tx, req, userType, schoolId, seId, now);
    if settlement.Err? {
      return Err(settlement.error);                   // rollback
    }
    ghost var s := settlement.value;
    assert ApplyCoupon(old(db.t), req, role, now) == Ok(s);
    tx := settlement.value.tx;
    var discount := settlement.value.discount;
    var pointsAwarded := settlement.value.points;

    var finalTotal := Max0(req.total - discount);
    if fault == OrderInsertFails {
      return Err(OrderInsertFailed);                  // rollback
    }
    var orderData := CheckoutModel.OrderData(req.userId, req.shipping, finalTotal, req.couponCode, discount, req.cartItems);
    assert orderData == OrderFor(req, s.discount);
    var orderId := CheckoutModel.SaveOrder(db, orderData);

    if fault == CartClearFails {
      return Err(CartClearFailed);                    // rollback: the saved order stays
    }
    var cart := CartIndex(tx, req.userId);
    if cart.Some? {
      tx := DeleteCartItems(tx, tx.carts[cart.value].id);
    }

    assert tx == ClearCart(s.tx, req.userId);
    assert db.t == CheckoutModel.InsertOrder(old(db.t), OrderFor(req, s.discount));
    db.t := Commit(db.t, tx);                         // commit
    r := Ok(Receipt(
      orderId, discount,
      if userType == "student" then pointsAwarded else 0,
      if userType == "school" then pointsAwarded else 0));
  }

  /** No code carries both role prefixes. */
  lemma PrefixesExclusive(code: string)
    ensures !(StartsWith(code, "SE-") && StartsWith(code, "STU-"))
  {
    if StartsWith(code, "SE-") {
      assert code[1] == code[..3][1] == 'E';
    }
  }

  /** The response of the coupon preview `validateCoupon`. */
  datatype PreviewResult =
    | MissingField(field: string)                     // 400
    | WrongRole(requiredType: string)                 // 403
    | NoProfile(userType: string)                     // 403
    | NotUsable                                       // 400
    | Usable(discountPct: real, couponTable: string)  // 200

  function PreviewStatus(r: PreviewResult): nat {
    match r
    case MissingField(_) => 400
    case WrongRole(_) => 403
    case NoProfile(_) => 403
    case NotUsable => 400
    case Usable(_, _) => 200
  }

  /** The first redeemable row of a pool, as the preview reports it. */
  function PreviewLookup(t: Tables, p: Pool, code: string, school: Option<nat>, now: int): (r: PreviewResult)
    ensures r == NotUsable || r.Usable?
    ensures r.Usable? <==> FindCoupon(PoolRows(t, p), code, school, now).Some?
    ensures r.Usable? ==> r.couponTable == PoolLabel(p)
    ensures r.Usable? ==> r.discountPct == PoolRows(t, p)[FindCoupon(PoolRows(t, p), code, school, now).value].discountPct
  {
    match FindCoupon(PoolRows(t, p), code, school, now)
    case None => NotUsable
    case Some(i) => Usable(PoolRows(t, p)[i].discountPct, PoolLabel(p))
  }

  /** The three fields `validateCoupon` requires are truthy. */
  predicate PreviewFieldsGiven(code: string, userId: nat, userType: string) {
    code != "" && userId != 0 && userType != ""
  }

  /**
   * `validateCoupon`: the three required fields, then the prefix/role gate,
   * both before any lookup; then the pool the prefix names, filtered by the
   * school of the claimed profile. `userType` is the value the client sends.
   */
  function PreviewCoupon(t: Tables, code: string, userId: nat, userType: string, now: int): (r: PreviewResult)
    ensures code == "" ==> r == MissingField("code")
    ensures code != "" && userId == 0 ==> r == MissingField("userId")
    ensures code != "" && userId != 0 && userType == "" ==> r == MissingField("userType")
    ensures code != "" && userId != 0 && userType != "" && StartsWith(code, "SE-") && userType != "school"
            ==> r == WrongRole("school")
    ensures code != "" && userId != 0 && userType != "" && StartsWith(code, "STU-") && userType != "student"
            ==> r == WrongRole("student")
    ensures r.Usable? ==> StartsWith(code, "SE-") ==> userType == "school" && r.couponTable == "coupon"
    ensures r.Usable? ==> StartsWith(code, "STU-") ==> userType == "student" && r.couponTable == "student"
    ensures r.NoProfile? <==>
      && PreviewFieldsGiven(code, userId, userType)
      && ((StartsWith(code, "SE-") && userType == "school" && SchoolIndex(t, userId).None?)
          || (StartsWith(code, "STU-") && userType == "student" && StudentIndex(t, userId).None?))
    ensures PreviewFieldsGiven(code, userId, userType) && StartsWith(code, "SE-") && userType == "school"
            && SchoolIndex(t, userId).Some? ==>
      var school := Some(t.schools[SchoolIndex(t, userId).value].id);
      && (r.Usable? <==> FindCoupon(t.coupons, code, school, now).Some?)
      && (r.Usable? ==> r.discountPct == t.coupons[FindCoupon(t.coupons, code, school, now).value].discountPct)
    ensures PreviewFieldsGiven(code, userId, userType) && StartsWith(code, "STU-") && userType == "student"
            && StudentIndex(t, userId).Some? ==>
      var school := t.students[StudentIndex(t, userId).value].schoolId;
      && (r.Usable? <==> school.Some? && FindCoupon(t.studentCoupons, code, school, now).Some?)
      && (r.Usable? ==> r.discountPct == t.studentCoupons[FindCoupon(t.studentCoupons, code, school, now).value].discountPct)
    ensures PreviewFieldsGiven(code, userId, userType) && !StartsWith(code, "SE-") && !StartsWith(code, "STU-") ==>
      && (r.Usable? <==> FindCoupon(t.couponsAll, code, None, now).Some?)
      && (r.Usable? ==> r.discountPct == t.couponsAll[FindCoupon(t.couponsAll, code, None, now).value].discountPct)
  {
    PrefixesExclusive(code);
    if code == "" then MissingField("code")
    else if userId == 0 then MissingField("userId")
    else if userType == "" then MissingField("userType")
    else if StartsWith(code, "SE-") && userType != "school" then WrongRole("school")
    else if StartsWith(code, "STU-") && userType != "student" then WrongRole("student")
    else if StartsWith(code, "SE-") then
      match SchoolIndex(t, userId)
      case None => NoProfile("school")
      case Some(j) => PreviewLookup(t, SchoolPool, code, Some(t.schools[j].id), now)
    else if StartsWith(code, "STU-") then
      match StudentIndex(t, userId)
      case None => NoProfile("student")
      case Some(j) =>
        // `school_id = NULL` matches no row
        if t.students[j].schoolId.None? then NotUsable
        else PreviewLookup(t, StudentPool, code, t.students[j].schoolId, now)
    else PreviewLookup(t, UniversalPool, code, None, now)
  }
}
