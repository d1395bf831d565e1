/**
 * controllers/userController.js: registration of the four user types
 * (student, school, sales executive "se", and any other type with no row of
 * its own), the SET list `updateUser` builds, the `deleteUser` cascade over
 * the rows that belong to the user, and the wishlist.
 *
 * Registration and deletion run in one transaction: they work on a copy of
 * the tables and commit it at the end; `fails` says that a query throws
 * (the database is a parameter of the model), which rolls everything back.
 * The bcrypt hash of the password is the parameter `hashed`.
 */
module UserController {
  import opened Wrappers
  import opened JsValues
  import opened JsStrings
  import opened Schema

  // ---------------------------------------------------------------------------
  // registerUser

  /** The fields of the registration body; None is a field that was not sent. */
  datatype RegisterBody = RegisterBody(
    firstName: Option<string>, lastName: Option<string>, email: Option<string>, mobile: Option<string>,
    otp: Option<string>, password: Option<string>, userType: Option<string>,
    schoolId: Option<nat>, schoolName: Option<string>, pinCode: Option<string>, city: Option<string>,
    state: Option<string>, address: Option<string>, employeeId: Option<string>, seRole: Option<string>)

  datatype RegisterOutcome =
    | Registered(userId: nat)
    | RegisterFailed(details: string)  // 500, rolled back

  predicate HasRequired(b: RegisterBody) {
    TruthyText(b.firstName) && TruthyText(b.lastName) && TruthyText(b.email) && TruthyText(b.mobile)
    && TruthyText(b.password) && TruthyText(b.userType)
  }

  /** What each user type needs beyond the common fields. */
  predicate HasTypeFields(b: RegisterBody)
    requires TruthyText(b.userType)
  {
    && (b.userType.value == "school" ==> TruthyText(b.schoolName))
    && (b.userType.value == "student" ==> TruthyId(b.schoolId))
    && (b.userType.value == "se" ==> TruthyText(b.employeeId) && TruthyText(b.seRole))
  }

  /** The validation checks in order; the first one that fails names the error. */
  function RegistrationError(b: RegisterBody): (r: Option<string>)
    ensures r.None? <==> HasRequired(b) && HasTypeFields(b)
    ensures !HasRequired(b) ==> r == Some("All required fields must be provided")
  {
    if !HasRequired(b) then Some("All required fields must be provided")
    else if b.userType.value == "school" && !TruthyText(b.schoolName) then Some("School name is required for school users")
    else if b.userType.value == "student" && !TruthyId(b.schoolId) then Some("School ID is required for students")
    else if b.userType.value == "se" && (!TruthyText(b.employeeId) || !TruthyText(b.seRole)) then
      Some("Employee ID and SE Role are required for SE users")
    else None
  }

  function WithEmail(email: string): User -> bool {
    (u: User) => u.email == email
  }

  predicate EmailTaken(users: seq<User>, email: string) {
    exists k :: 0 <= k < |users| && users[k].email == email
  }

  ghost predicate UniqueEmails(users: seq<User>) {
    forall i, j :: 0 <= i < j < |users| ==> users[i].email != users[j].email
  }

  /** The new `users` row: the role column holds seRole for an SE and NULL otherwise. */
  function NewUser(id: nat, b: RegisterBody, hashed: string): (u: User)
    requires HasRequired(b)
    ensures u.id == id && u.email == b.email.value && u.userType == b.userType.value
    ensures u.role == (if b.userType.value == "se" then b.seRole else None)
  {
    User(id, b.firstName.value, b.lastName.value, b.email.value, b.mobile.value, b.otp, hashed,
         b.userType.value, if b.userType.value == "se" then b.seRole else None)
  }

  /** The tables after a successful registration: the users row, then the row of its type. */
  function Registration(t: Tables, b: RegisterBody, hashed: string): Tables
    requires HasRequired(b) && HasTypeFields(b)
  {
    var userId := t.nextId;
    var t1 := t.(users := t.users + [NewUser(userId, b, hashed)], nextId := userId + 1);
    var ty := b.userType.value;
    if ty == "student" then
      t1.(students := t1.students + [Student(t1.nextId, userId, b.schoolId)], nextId := t1.nextId + 1)
    else if ty == "school" then
      t1.(schools := t1.schools + [School(t1.nextId, userId, b.schoolName.value, b.pinCode, b.city, b.state,
                                          b.address, b.employeeId, 0)], nextId := t1.nextId + 1)
    else if ty == "se" then
      t1.(seEmployees := t1.seEmployees + [SeEmployee(t1.nextId, userId, b.employeeId.value, b.seRole.value, 0)],
          nextId := t1.nextId + 1)
    else t1
  }

  /**
   * `registerUser`. `fails` is a failure of the inserts; the email SELECT
   * before them is taken to succeed.
   */
  method RegisterUser(db: Database, b: RegisterBody, hashed: string, fails: bool) returns (r: RegisterOutcome)
    modifies db
    ensures RegistrationError(b).Some? ==> r == RegisterFailed(RegistrationError(b).value)
    ensures RegistrationError(b).None? && b.email.Some? && EmailTaken(old(db.t).users, b.email.value) ==>
      r == RegisterFailed("Email already registered")
    ensures r.RegisterFailed? ==> db.t == old(db.t)
    ensures r.Registered? <==>
      RegistrationError(b).None? && !EmailTaken(old(db.t).users, b.email.value) && !fails
    ensures r.Registered? ==> r.userId == old(db.t).nextId && db.t == Registration(old(db.t), b, hashed)
  {
    var error := RegistrationError(b);
    if error.Some? {
      return RegisterFailed(error.value);
    }
    var existingUser := FirstIndex(db.t.users, WithEmail(b.email.value));
    if existingUser.Some? {
      return RegisterFailed("Email already registered");
    }
    if fails {
      return RegisterFailed("query failed");
    }
    var tx := db.t;
    var userId := tx.nextId;
    tx := tx.(users := tx.users + [NewUser(userId, b, hashed)], nextId := tx.nextId + 1);
    var ty := b.userType.value;
    if ty == "student" {
      tx := tx.(students := tx.students + [Student(tx.nextId, userId, b.schoolId)], nextId := tx.nextId + 1);
    } else if ty == "school" {
      tx := tx.(schools := tx.schools + [School(tx.nextId, userId, b.schoolName.value, b.pinCode, b.city, b.state,
                                                b.address, b.employeeId, 0)], nextId := tx.nextId + 1);
    } else if ty == "se" {
      tx := tx.(seEmployees := tx.seEmployees + [SeEmployee(tx.nextId, userId, b.employeeId.value, b.seRole.value, 0)],
                nextId := tx.nextId + 1);
    }
    db.t := tx;
    r := Registered(userId);
  }

  /**
   * A registration adds exactly one users row, under the body's email, and
   * keeps the emails unique; a school starts with no reward points.
   */
  lemma RegistrationKeepsEmailsUnique(t: Tables, b: RegisterBody, hashed: string)
    requires HasRequired(b) && HasTypeFields(b)
    requires UniqueEmails(t.users) && !EmailTaken(t.users, b.email.value)
    ensures var t2 := Registration(t, b, hashed);
      && t2.users == t.users + [NewUser(t.nextId, b, hashed)]
      && UniqueEmails(t2.users)
      && Count(t2.users, WithEmail(b.email.value)) == 1
      && (b.userType.value == "school" ==> |t2.schools| == |t.schools| + 1 && t2.schools[|t.schools|].rewardPoints == 0)
  {
    var u := NewUser(t.nextId, b, hashed);
    var users := t.users + [u];
    forall i, j | 0 <= i < j < |users|
      ensures users[i].email != users[j].email
    {
      if j == |t.users| {
        assert users[i] == t.users[i];
      }
    }
    CountAppend(t.users, [u], WithEmail(b.email.value));
    assert Count([u], WithEmail(b.email.value)) == 1 by {
      assert [u][1..] == [];
    }
  }

  // ---------------------------------------------------------------------------
  // updateUser

  /** The `SET` assignments a field may contribute, in the order the code tests them. */
  const FirstNameSet := "first_name = ?"
  const LastNameSet := "last_name = ?"
  const EmailSet := "email = ?"
  const PasswordSet := "password = ?"

  function Rank(s: string): int {
    if s == FirstNameSet then 0 else if s == LastNameSet then 1 else if s == EmailSet then 2
    else if s == PasswordSet then 3 else 4
  }

  /** `parts.join(', ')`. */
  function CommaList(parts: seq<string>): string {
    if |parts| == 0 then "" else if |parts| == 1 then parts[0] else parts[0] + ", " + CommaList(parts[1..])
  }

  datatype UpdateBody = UpdateBody(firstName: JsValue, lastName: JsValue, email: JsValue, password: JsValue)

  /** The statement and its parameters. */
  datatype UpdateQuery = UpdateQuery(query: string, updates: seq<string>, values: seq<JsValue>)

  /** The parameter that goes with an assignment. */
  function ValueFor(set_: string, b: UpdateBody, hashed: string): JsValue {
    if set_ == FirstNameSet then b.firstName
    else if set_ == LastNameSet then b.lastName
    else if set_ == EmailSet then b.email
    else Str(hashed)
  }

  /** The assignments of the provided fields, in the order the code tests them. */
  function Updates(b: UpdateBody): seq<string> {
    (if b.firstName != Undefined then [FirstNameSet] else [])
    + (if b.lastName != Undefined then [LastNameSet] else [])
    + (if b.email != Undefined then [EmailSet] else [])
    + (if Truthy(b.password) then [PasswordSet] else [])
  }

  /** Their parameters, in the same order. */
  function UpdateValues(b: UpdateBody, hashed: string): seq<JsValue> {
    (if b.firstName != Undefined then [b.firstName] else [])
    + (if b.lastName != Undefined then [b.lastName] else [])
    + (if b.email != Undefined then [b.email] else [])
    + (if Truthy(b.password) then [Str(hashed)] else [])
  }

  /**
   * `updateUser`'s SET builder: the provided fields' assignments and their
   * parameters with the id last; nothing to list is a 400 (None).
   */
  method BuildUpdate(id: string, b: UpdateBody, hashed: string) returns (r: Option<UpdateQuery>)
    ensures r.None? <==> Updates(b) == []
    ensures r.Some? ==>
      && r.value.updates == Updates(b)
      && r.value.values == UpdateValues(b, hashed) + [Str(id)]
      && r.value.query == "UPDATE users SET " + CommaList(Updates(b)) + " WHERE id = ?"
  {
    var updates: seq<string> := [];
    var values: seq<JsValue> := [];
    if b.firstName != Undefined {
      updates := updates + [FirstNameSet];
      values := values + [b.firstName];
    }
    if b.lastName != Undefined {
      updates := updates + [LastNameSet];
      values := values + [b.lastName];
    }
    if b.email != Undefined {
      updates := updates + [EmailSet];
      values := values + [b.email];
    }
    assert updates + (if Truthy(b.password) then [PasswordSet] else []) == Updates(b);
    assert values + (if Truthy(b.password) then [Str(hashed)] else []) == UpdateValues(b, hashed);
    if Truthy(b.password) {
      updates := updates + [PasswordSet];
      values := values + [Str(hashed)];
    }
    if |updates| == 0 {
      return None;
    }
    var query := "UPDATE users SET " + CommaList(updates) + " WHERE id = ?";
    values := values + [Str(id)];
    r := Some(UpdateQuery(query, updates, values));
  }

  /**
   * A field is listed iff it is not `undefined` (the password iff it is
   * truthy).
   */
  lemma UpdatesListProvidedFields(b: UpdateBody)
    ensures var u := Updates(b);
      && (FirstNameSet in u <==> b.firstName != Undefined)
      && (LastNameSet in u <==> b.lastName != Undefined)
      && (EmailSet in u <==> b.email != Undefined)
      && (PasswordSet in u <==> Truthy(b.password))
  {
  }

  /** The list follows the order first_name, last_name, email, password, each assignment once. */
  lemma UpdatesInOrder(b: UpdateBody)
    ensures var u := Updates(b);
      forall i, j :: 0 <= i < j < |u| ==> Rank(u[i]) < Rank(u[j])
  {
  }

  /** Each parameter is its own assignment's. */
  lemma ValuesFollowUpdates(b: UpdateBody, hashed: string)
    ensures |UpdateValues(b, hashed)| == |Updates(b)|
    ensures forall k :: 0 <= k < |Updates(b)| ==> UpdateValues(b, hashed)[k] == ValueFor(Updates(b)[k], b, hashed)
  {
  }

  // ---------------------------------------------------------------------------
  // deleteUser

  function UserIs(id: nat): User -> bool { (u: User) => u.id == id }
  function UserIsNot(id: nat): User -> bool { (u: User) => u.id != id }
  function LogNotOf(id: nat): UsageLogRow -> bool { (r: UsageLogRow) => r.userId != id }
  function StudentNotOf(id: nat): Student -> bool { (s: Student) => s.userId != id }
  function StudentNotAt(schoolId: nat): Student -> bool { (s: Student) => s.schoolId != Some(schoolId) }
  function CouponNotAt(schoolId: nat): Coupon -> bool { (c: Coupon) => c.schoolId != Some(schoolId) }
  function CouponNotBy(employeeId: string): Coupon -> bool { (c: Coupon) => c.seEmployeeId != Some(employeeId) }
  function SchoolOf(id: nat): School -> bool { (s: School) => s.userId == id }
  function SchoolNotOf(id: nat): School -> bool { (s: School) => s.userId != id }
  function SeOf(id: nat): SeEmployee -> bool { (s: SeEmployee) => s.userId == id }
  function SeNotOf(id: nat): SeEmployee -> bool { (s: SeEmployee) => s.userId != id }
  function RequestNotBy(employeeId: string): RedeemRequest -> bool { (r: RedeemRequest) => r.seId != employeeId }
  function CartNotOf(id: nat): Cart -> bool { (c: Cart) => c.userId != id }
  function WishNotOf(id: nat): WishlistRow -> bool { (w: WishlistRow) => w.userId != id }

  /** The ids of the user's carts, as the `cartId` values of their lines. */
  function CartKeysOf(carts: seq<Cart>, id: nat): (r: set<CartKey>)
    ensures forall k :: k in r <==> exists i :: 0 <= i < |carts| && carts[i].userId == id && k == CartNo(carts[i].id)
  {
    set i | 0 <= i < |carts| && carts[i].userId == id :: CartNo(carts[i].id)
  }

  function LineNotIn(keys: set<CartKey>): CartItem -> bool { (l: CartItem) => l.cartId !in keys }

  /** `UPDATE schools SET employee_id = NULL WHERE employee_id = ?`. */
  function Unlink(schools: seq<School>, employeeId: string): (r: seq<School>)
    ensures |r| == |schools|
    ensures forall k :: 0 <= k < |schools| ==>
      r[k] == if schools[k].employeeId == Some(employeeId) then schools[k].(employeeId := None) else schools[k]
  {
    if |schools| == 0 then []
    else [if schools[0].employeeId == Some(employeeId) then schools[0].(employeeId := None) else schools[0]]
         + Unlink(schools[1..], employeeId)
  }

  /** The rows a user's type owns: a student's row; a school's students, coupons and row; an SE's requests, coupons and row. */
  function WithoutTypeRows(t: Tables, id: nat, userType: string): Tables {
    if userType == "student" then t.(students := Filter(t.students, StudentNotOf(id)))
    else if userType == "school" then
      match FirstIndex(t.schools, SchoolOf(id))
      case None => t
      case Some(i) =>
        var schoolId := t.schools[i].id;
        t.(students := Filter(t.students, StudentNotAt(schoolId)),
           studentCoupons := Filter(t.studentCoupons, CouponNotAt(schoolId)),
           coupons := Filter(t.coupons, CouponNotAt(schoolId)),
           schools := Filter(t.schools, SchoolNotOf(id)))
    else if userType == "se" then
      match FirstIndex(t.seEmployees, SeOf(id))
      case None => t
      case Some(i) =>
        var employeeId := t.seEmployees[i].employeeId;
        t.(redeemRequests := Filter(t.redeemRequests, RequestNotBy(employeeId)),
           coupons := Filter(t.coupons, CouponNotBy(employeeId)),
           seEmployees := Filter(t.seEmployees, SeNotOf(id)),
           schools := Unlink(t.schools, employeeId))
    else t
  }

  /** The tables after deleting user `id` of type `userType`. */
  function Deletion(t: Tables, id: nat, userType: string): Tables {
    var t1 := t.(usageLog := Filter(t.usageLog, LogNotOf(id)));
    var t2 := WithoutTypeRows(t1, id, userType);
    t2.(cartItems := Filter(t2.cartItems, LineNotIn(CartKeysOf(t2.carts, id))),
        carts := Filter(t2.carts, CartNotOf(id)),
        wishlist := Filter(t2.wishlist, WishNotOf(id)),
        users := Filter(t2.users, UserIsNot(id)))
  }

  datatype DeleteOutcome = UserDeleted | DeleteFailed(details: string)

  /** `deleteUser`: an unknown id or a failing query rolls back. */
  method DeleteUser(db: Database, id: nat, fails: bool) returns (r: DeleteOutcome)
    modifies db
    ensures FirstIndex(old(db.t).users, UserIs(id)).None? ==> r == DeleteFailed("User not found")
    ensures r.DeleteFailed? ==> db.t == old(db.t)
    ensures r == UserDeleted <==> FirstIndex(old(db.t).users, UserIs(id)).Some? && !fails
    ensures r == UserDeleted ==>
      db.t == Deletion(old(db.t), id, old(db.t).users[FirstIndex(old(db.t).users, UserIs(id)).value].userType)
  {
    var user := FirstIndex(db.t.users, UserIs(id));
    if user.None? {
      return DeleteFailed("User not found");
    }
    if fails {
      return DeleteFailed("query failed");
    }
    var tx := db.t;
    var userType := tx.users[user.value].userType;
    tx := tx.(usageLog := Filter(tx.usageLog, LogNotOf(id)));
    ghost var t1 := tx;
    if userType == "student" {
      tx := tx.(students := Filter(tx.students, StudentNotOf(id)));
    } else if userType == "school" {
      var school := FirstIndex(tx.schools, SchoolOf(id));
      if school.Some? {
        var schoolId := tx.schools[school.value].id;
        tx := tx.(students := Filter(tx.students, StudentNotAt(schoolId)));
        tx := tx.(studentCoupons := Filter(tx.studentCoupons, CouponNotAt(schoolId)));
        tx := tx.(coupons := Filter(tx.coupons, CouponNotAt(schoolId)));
        tx := tx.(schools := Filter(tx.schools, SchoolNotOf(id)));
      }
    } else if userType == "se" {
      var se := FirstIndex(tx.seEmployees, SeOf(id));
      if se.Some? {
        var employeeId := tx.seEmployees[se.value].employeeId;
        tx := tx.(redeemRequests := Filter(tx.redeemRequests, RequestNotBy(employeeId)));
        tx := tx.(coupons := Filter(tx.coupons, CouponNotBy(employeeId)));
        tx := tx.(seEmployees := Filter(tx.seEmployees, SeNotOf(id)));
        tx := tx.(schools := Unlink(tx.schools, employeeId));
      }
    }
    assert tx == WithoutTypeRows(t1, id, userType);
    var cartIds := CartKeysOf(tx.carts, id);
    if cartIds != {} {
      tx := tx.(cartItems := Filter(tx.cartItems, LineNotIn(cartIds)));
    } else {
      assert Filter(tx.cartItems, LineNotIn(cartIds)) == tx.cartItems by {
        FilterAll(tx.cartItems, LineNotIn(cartIds));
      }
    }
    tx := tx.(carts := Filter(tx.carts, CartNotOf(id)));
    tx := tx.(wishlist := Filter(tx.wishlist, WishNotOf(id)));
    tx := tx.(users := Filter(tx.users, UserIsNot(id)));
    db.t := tx;
    r := UserDeleted;
  }

  /**
   * After a deletion nothing that belongs to the user is left: no users
   * row, usage log row, cart, line of one of its carts or wishlist row; and
   * every row of anyone else's in those tables is still there.
   */
  lemma DeletionRemovesUserRows(t: Tables, id: nat, userType: string)
    ensures var t2 := Deletion(t, id, userType);
      && (forall k :: 0 <= k < |t2.users| ==> t2.users[k].id != id)
      && (forall k :: 0 <= k < |t2.usageLog| ==> t2.usageLog[k].userId != id)
      && (forall k :: 0 <= k < |t2.carts| ==> t2.carts[k].userId != id)
      && (forall k :: 0 <= k < |t2.wishlist| ==> t2.wishlist[k].userId != id)
      && (forall k, c :: 0 <= k < |t2.cartItems| && 0 <= c < |t.carts| && t.carts[c].userId == id ==>
            t2.cartItems[k].cartId != CartNo(t.carts[c].id))
      && (forall k :: 0 <= k < |t.users| && t.users[k].id != id ==> t.users[k] in t2.users)
      && (forall k :: 0 <= k < |t.wishlist| && t.wishlist[k].userId != id ==> t.wishlist[k] in t2.wishlist)
      && (forall k :: 0 <= k < |t.carts| && t.carts[k].userId != id ==> t.carts[k] in t2.carts)
  {
    var t1 := t.(usageLog := Filter(t.usageLog, LogNotOf(id)));
    var mid := WithoutTypeRows(t1, id, userType);
    assert mid.carts == t.carts && mid.cartItems == t.cartItems && mid.users == t.users && mid.wishlist == t.wishlist;
    var t2 := Deletion(t, id, userType);
    forall k, c | 0 <= k < |t2.cartItems| && 0 <= c < |t.carts| && t.carts[c].userId == id
      ensures t2.cartItems[k].cartId != CartNo(t.carts[c].id)
    {
      assert CartNo(t.carts[c].id) in CartKeysOf(t.carts, id);
      assert LineNotIn(CartKeysOf(t.carts, id))(t2.cartItems[k]);
    }
  }

  /**
   * Deleting a school removes its students, student coupons, school
   * coupons and school row; other schools' rows stay.
   */
  lemma DeletionOfSchool(t: Tables, id: nat, i: nat)
    requires FirstIndex(t.schools, SchoolOf(id)) == Some(i)
    ensures var schoolId := t.schools[i].id;
      var t2 := Deletion(t, id, "school");
      && (forall k :: 0 <= k < |t2.students| ==> t2.students[k].schoolId != Some(schoolId))
      && (forall k :: 0 <= k < |t2.studentCoupons| ==> t2.studentCoupons[k].schoolId != Some(schoolId))
      && (forall k :: 0 <= k < |t2.coupons| ==> t2.coupons[k].schoolId != Some(schoolId))
      && (forall k :: 0 <= k < |t2.schools| ==> t2.schools[k].userId != id)
      && (forall k :: 0 <= k < |t.schools| && t.schools[k].userId != id ==> t.schools[k] in t2.schools)
  {
  }

  /**
   * Deleting an SE removes its redeem requests, its coupons and its se row,
   * and leaves every school but with no link to its employee id.
   */
  lemma DeletionOfSe(t: Tables, id: nat, i: nat)
    requires FirstIndex(t.seEmployees, SeOf(id)) == Some(i)
    ensures var employeeId := t.seEmployees[i].employeeId;
      var t2 := Deletion(t, id, "se");
      && (forall k :: 0 <= k < |t2.redeemRequests| ==> t2.redeemRequests[k].seId != employeeId)
      && (forall k :: 0 <= k < |t2.coupons| ==> t2.coupons[k].seEmployeeId != Some(employeeId))
      && (forall k :: 0 <= k < |t2.seEmployees| ==> t2.seEmployees[k].userId != id)
      && |t2.schools| == |t.schools|
      && (forall k :: 0 <= k < |t2.schools| ==>
            t2.schools[k].employeeId != Some(employeeId) && t2.schools[k].id == t.schools[k].id)
  {
  }

  // ---------------------------------------------------------------------------
  // wishlist

  function IsPair(userId: nat, productId: nat): WishlistRow -> bool {
    (w: WishlistRow) => w.userId == userId && w.productId == productId
  }

  function NotPair(userId: nat, productId: nat): WishlistRow -> bool {
    (w: WishlistRow) => !(w.userId == userId && w.productId == productId)
  }

  /** (user_id, product_id) is a key of `wishlist`. */
  ghost predicate OneRowPerPair(rows: seq<WishlistRow>) {
    forall i, j :: 0 <= i < j < |rows| ==>
      !(rows[i].userId == rows[j].userId && rows[i].productId == rows[j].productId)
  }

  /** `ON DUPLICATE KEY UPDATE created_at = CURRENT_TIMESTAMP`. */
  function Touch(rows: seq<WishlistRow>, userId: nat, productId: nat, now: int): (r: seq<WishlistRow>)
    ensures |r| == |rows|
    ensures forall k :: 0 <= k < |rows| ==>
      r[k] == if IsPair(userId, productId)(rows[k]) then rows[k].(createdAt := now) else rows[k]
  {
    if |rows| == 0 then []
    else [if IsPair(userId, productId)(rows[0]) then rows[0].(createdAt := now) else rows[0]]
         + Touch(rows[1..], userId, productId, now)
  }

  /** The wishlist after `addToWishlist`: the pair's row re-stamped, or a new row. */
  function Wished(rows: seq<WishlistRow>, userId: nat, productId: nat, now: int): seq<WishlistRow> {
    if FirstIndex(rows, IsPair(userId, productId)).Some? then Touch(rows, userId, productId, now)
    else rows + [WishlistRow(userId, productId, now)]
  }

  datatype WishOutcome = WishOk | WishNotFound | WishFailed

  /** `addToWishlist`; `now` is CURRENT_TIMESTAMP. */
  method AddToWishlist(db: Database, userId: nat, productId: nat, now: int, fails: bool) returns (r: WishOutcome)
    modifies db
    ensures fails ==> r == WishFailed && db.t == old(db.t)
    ensures !fails ==> r == WishOk && db.t == old(db.t).(wishlist := Wished(old(db.t).wishlist, userId, productId, now))
  {
    if fails {
      return WishFailed;
    }
    var existing := FirstIndex(db.t.wishlist, IsPair(userId, productId));
    if existing.Some? {
      db.t := db.t.(wishlist := Touch(db.t.wishlist, userId, productId, now));
    } else {
      db.t := db.t.(wishlist := db.t.wishlist + [WishlistRow(userId, productId, now)]);
    }
    r := WishOk;
  }

  /** Adding a pair twice keeps one row for it: afterwards the pair has exactly one row. */
  lemma WishedKeepsOneRow(rows: seq<WishlistRow>, userId: nat, productId: nat, now: int)
    requires OneRowPerPair(rows)
    ensures OneRowPerPair(Wished(rows, userId, productId, now))
    ensures Count(Wished(rows, userId, productId, now), IsPair(userId, productId)) == 1
  {
    var p := IsPair(userId, productId);
    var after := Wished(rows, userId, productId, now);
    match FirstIndex(rows, p)
    case Some(i) =>
      assert forall k :: 0 <= k < |rows| ==> (p(after[k]) <==> p(rows[k]));
      OnlyRow(after, p, i);
    case None =>
      var w := WishlistRow(userId, productId, now);
      forall i, j | 0 <= i < j < |after|
        ensures !(after[i].userId == after[j].userId && after[i].productId == after[j].productId)
      {
        if j == |rows| {
          assert after[i] == rows[i];
        }
      }
      CountAppend(rows, [w], p);
      assert Count([w], p) == 1 by {
        assert [w][1..] == [];
      }
  }

  /** A key value that only row `i` has is counted once. */
  lemma {:induction false} OnlyRow(rows: seq<WishlistRow>, p: WishlistRow -> bool, i: nat)
    requires i < |rows| && p(rows[i])
    requires forall k :: 0 <= k < |rows| && k != i ==> !p(rows[k])
    ensures Count(rows, p) == 1
  {
    if i == 0 {
      assert forall k :: 0 <= k < |rows[1..]| ==> !p(rows[1..][k]);
    } else {
      OnlyRow(rows[1..], p, i - 1);
    }
  }

  /** `removeFromWishlist`: a pair with no row is a 404 and changes nothing. */
  method RemoveFromWishlist(db: Database, userId: nat, productId: nat, fails: bool) returns (r: WishOutcome)
    modifies db
    ensures r == WishFailed <==> fails
    ensures r != WishOk ==> db.t == old(db.t)
    ensures !fails ==> (r == WishNotFound <==> Count(old(db.t).wishlist, IsPair(userId, productId)) == 0)
    ensures r == WishOk ==> db.t == old(db.t).(wishlist := Filter(old(db.t).wishlist, NotPair(userId, productId)))
  {
    if fails {
      return WishFailed;
    }
    var affectedRows := Count(db.t.wishlist, IsPair(userId, productId));
    if affectedRows == 0 {
      return WishNotFound;
    }
    db.t := db.t.(wishlist := Filter(db.t.wishlist, NotPair(userId, productId)));
    r := WishOk;
  }

  /** Removal deletes exactly the pair's rows: as many rows as it counted go, and none of the pair stays. */
  lemma {:induction false} RemovedPairRows(rows: seq<WishlistRow>, userId: nat, productId: nat)
    ensures |Filter(rows, NotPair(userId, productId))| == |rows| - Count(rows, IsPair(userId, productId))
    ensures Count(Filter(rows, NotPair(userId, productId)), IsPair(userId, productId)) == 0
  {
    if |rows| > 0 {
      RemovedPairRows(rows[1..], userId, productId);
    }
  }
}
