/**
 * controllers/couponController.js: school coupons (`generateCoupon`,
 * `validateCoupon`, the look-up half of `sendCouponEmail`) and student
 * coupons (`generateStudentCoupon`, the look-up half of
 * `sendStudentCouponEmail`), with models/coupons.js `createCoupon`.
 *
 * A request id is a natural number, 0 when it is missing or falsy; a text
 * field is "" when missing; a date is None when missing. The random part of
 * a code is the parameter `token` (the UUID the handler draws).
 */
module CouponController {
  import opened Wrappers
  import opened JsStrings
  import opened Schema
  import CheckoutController

  /** The e-mail of the first `users` row with the id, if any. */
  function UserEmail(t: Tables, userId: nat): (r: Option<string>)
    ensures r.Some? ==> exists k :: 0 <= k < |t.users| && t.users[k].id == userId && t.users[k].email == r.value
  {
    match FirstIndex(t.users, (u: User) => u.id == userId)
    case None => None
    case Some(k) => Some(t.users[k].email)
  }

  /** The first `schools` row with the id that joins a `users` row. */
  function SchoolWithUser(t: Tables, schoolId: nat): (r: Option<nat>)
    ensures r.Some? ==> r.value < |t.schools| && t.schools[r.value].id == schoolId
                        && UserEmail(t, t.schools[r.value].userId).Some?
    ensures r.None? <==> forall k :: 0 <= k < |t.schools| ==>
      !(t.schools[k].id == schoolId && UserEmail(t, t.schools[k].userId).Some?)
  {
    FirstIndex(t.schools, (s: School) => s.id == schoolId && UserEmail(t, s.userId).Some?)
  }

  /** The first `se_employees` row with the employee id that joins a `users` row. */
  function SeWithUser(t: Tables, employeeId: string): (r: Option<nat>)
    ensures r.Some? ==> r.value < |t.seEmployees| && t.seEmployees[r.value].employeeId == employeeId
                        && UserEmail(t, t.seEmployees[r.value].userId).Some?
    ensures r.None? <==> forall k :: 0 <= k < |t.seEmployees| ==>
      !(t.seEmployees[k].employeeId == employeeId && UserEmail(t, t.seEmployees[k].userId).Some?)
  {
    FirstIndex(t.seEmployees, (e: SeEmployee) => e.employeeId == employeeId && UserEmail(t, e.userId).Some?)
  }

  // ---------------------------------------------------------------------------
  // Codes

  /** `uuidv4().substring(0, 6).toUpperCase()`. */
  function CodeSuffix(token: string): (r: string)
    ensures |r| == if |token| < 6 then |token| else 6
    ensures forall k :: 0 <= k < |r| ==> !IsLower(r[k])
  {
    ToUpper(token[..if |token| < 6 then |token| else 6])
  }

  /** `schoolId.toString().padStart(4, '0')`. */
  function PaddedSchoolId(schoolId: nat): (r: string)
    ensures |r| >= 4 && forall k :: 0 <= k < |r| ==> IsDigit(r[k])
    ensures |NatToString(schoolId)| <= |r| && r[|r| - |NatToString(schoolId)|..] == NatToString(schoolId)
  {
    PadStart(NatToString(schoolId), 4, '0')
  }

  /** A school coupon code: the padded school id, '-', the suffix. There is no `SE-` prefix. */
  function SchoolCouponCode(schoolId: nat, token: string): string {
    PaddedSchoolId(schoolId) + "-" + CodeSuffix(token)
  }

  /** A student coupon code: `STU-`, the padded school id, '-', the suffix. */
  function StudentCouponCode(schoolId: nat, token: string): string {
    "STU-" + PaddedSchoolId(schoolId) + "-" + CodeSuffix(token)
  }

  /** The shape of a school code: at least four digits, a dash, the upper-cased suffix. */
  lemma SchoolCodeShape(schoolId: nat, token: string)
    ensures var code := SchoolCouponCode(schoolId, token);
      var n := |PaddedSchoolId(schoolId)|;
      && n >= 4 && |code| == n + 1 + |CodeSuffix(token)|
      && (forall k :: 0 <= k < n ==> IsDigit(code[k]))
      && code[n] == '-'
      && code[n + 1..] == CodeSuffix(token)
  {
  }

  /** The shape of a student code: `STU-`, at least four digits, a dash, the upper-cased suffix. */
  lemma StudentCodeShape(schoolId: nat, token: string)
    ensures var code := StudentCouponCode(schoolId, token);
      var n := |PaddedSchoolId(schoolId)|;
      && StartsWith(code, "STU-")
      && |code| == 4 + n + 1 + |CodeSuffix(token)|
      && code[4..4 + n] == PaddedSchoolId(schoolId)
      && code[4 + n] == '-'
      && code[4 + n + 1..] == CodeSuffix(token)
  {
    var code := StudentCouponCode(schoolId, token);
    assert code[..4] == "STU-";
  }

  /**
   * A school code starts with a digit, so the checkout never selects the
   * school pool for it: a school buyer's code is looked up in `couponsall`,
   * not in `coupons` where `generateCoupon` stores it.
   */
  lemma SchoolCodeNeverSelectsSchoolPool(schoolId: nat, token: string, role: CheckoutController.Role)
    ensures CheckoutController.ChoosePool(role, SchoolCouponCode(schoolId, token)) == CheckoutController.UniversalPool
  {
    var code := SchoolCouponCode(schoolId, token);
    var padded := PaddedSchoolId(schoolId);
    assert code[0] == padded[0];
    DigitLedNotPrefixed(code, "SE-");
    DigitLedNotPrefixed(code, "STU-");
  }

  lemma DigitLedNotPrefixed(code: string, p: string)
    requires |code| > 0 && IsDigit(code[0]) && |p| > 0 && !IsDigit(p[0])
    ensures !StartsWith(code, p)
  {
    if |p| <= |code| {
      assert code[..|p|][0] == code[0];
    }
  }

  // ---------------------------------------------------------------------------
  // School coupons

  datatype SchoolCouponRequest = SchoolCouponRequest(
    schoolId: nat, seEmployeeId: string, discountPercentage: real,
    validFrom: Option<int>, validUntil: Option<int>, maxUses: int)

  datatype GenerateOutcome =
    | MissingFields                                              // 400
    | NotFound                                                   // 404
    | Generated(couponCode: string, schoolEmail: string, otherEmail: string)  // 200

  predicate HasSchoolCouponFields(req: SchoolCouponRequest) {
    req.schoolId != 0 && req.seEmployeeId != "" && req.discountPercentage != 0.0
    && req.validFrom.Some? && req.validUntil.Some?
  }

  /** `maxUses || d`. */
  function MaxUsesOr(maxUses: int, d: int): (r: int)
    ensures maxUses != 0 ==> r == maxUses
    ensures maxUses == 0 ==> r == d
  {
    if maxUses == 0 then d else maxUses
  }

  /** models/coupons.js `createCoupon`: one `coupons` row, with `current_uses` 0. */
  function InsertSchoolCoupon(t: Tables, req: SchoolCouponRequest, code: string): (r: Tables)
    requires req.validFrom.Some? && req.validUntil.Some?
    ensures r == t.(coupons := r.coupons, nextId := t.nextId + 1)
    ensures |r.coupons| == |t.coupons| + 1 && r.coupons[..|t.coupons|] == t.coupons
    ensures var c := r.coupons[|t.coupons|];
      && c.id == t.nextId && c.code == code && c.schoolId == Some(req.schoolId)
      && c.seEmployeeId == Some(req.seEmployeeId) && c.discountPct == req.discountPercentage
      && c.validFrom == req.validFrom.value && c.validUntil == req.validUntil.value
      && c.maxUses == MaxUsesOr(req.maxUses, 2) && c.currentUses == Some(0)
  {
    var row := Coupon(t.nextId, code, None, Some(req.schoolId), Some(req.seEmployeeId), req.discountPercentage,
                      req.validFrom.value, req.validUntil.value, MaxUsesOr(req.maxUses, 2), Some(0), true);
    t.(coupons := t.coupons + [row], nextId := t.nextId + 1)
  }

  /** `generateCoupon`: the required fields, the school and the SE (each with a user), then one new coupon. */
  function GenerateResult(t: Tables, req: SchoolCouponRequest, token: string): (r: (Tables, GenerateOutcome))
    ensures r.1 == MissingFields <==> !HasSchoolCouponFields(req)
    ensures r.1 == NotFound <==>
      HasSchoolCouponFields(req) && (SchoolWithUser(t, req.schoolId).None? || SeWithUser(t, req.seEmployeeId).None?)
    ensures !r.1.Generated? ==> r.0 == t
    ensures r.1.Generated? ==> r.1.couponCode == SchoolCouponCode(req.schoolId, token)
                               && r.0 == InsertSchoolCoupon(t, req, r.1.couponCode)
    ensures r.1.Generated? ==>
      && SchoolWithUser(t, req.schoolId).Some? && SeWithUser(t, req.seEmployeeId).Some?
      && Some(r.1.schoolEmail) == UserEmail(t, t.schools[SchoolWithUser(t, req.schoolId).value].userId)
      && Some(r.1.otherEmail) == UserEmail(t, t.seEmployees[SeWithUser(t, req.seEmployeeId).value].userId)
  {
    if !HasSchoolCouponFields(req) then (t, MissingFields)
    else
      match (SchoolWithUser(t, req.schoolId), SeWithUser(t, req.seEmployeeId))
      case (Some(s), Some(e)) =>
        var code := SchoolCouponCode(req.schoolId, token);
        (InsertSchoolCoupon(t, req, code),
         Generated(code, UserEmail(t, t.schools[s].userId).value, UserEmail(t, t.seEmployees[e].userId).value))
      case _ => (t, NotFound)
  }

  method GenerateCoupon(db: Database, req: SchoolCouponRequest, token: string) returns (r: GenerateOutcome)
    modifies db
    ensures (db.t, r) == GenerateResult(old(db.t), req, token)
  {
    if !HasSchoolCouponFields(req) {
      return MissingFields;
    }
    var school := SchoolWithUser(db.t, req.schoolId);
    var se := SeWithUser(db.t, req.seEmployeeId);
    if school.None? || se.None? {
      return NotFound;
    }
    var schoolEmail := UserEmail(db.t, db.t.schools[school.value].userId).value;
    var seEmail := UserEmail(db.t, db.t.seEmployees[se.value].userId).value;
    var couponCode := SchoolCouponCode(req.schoolId, token);
    db.t := InsertSchoolCoupon(db.t, req, couponCode);
    r := Generated(couponCode, schoolEmail, seEmail);
  }

  /** Without `maxUses` a school coupon allows two uses. */
  lemma SchoolCouponDefaultsToTwoUses(t: Tables, req: SchoolCouponRequest, token: string)
    requires req.maxUses == 0
    requires GenerateResult(t, req, token).1.Generated?
    ensures GenerateResult(t, req, token).0.coupons[|t.coupons|].maxUses == 2
  {
  }

  /**
   * `validateCoupon` of a school coupon: the first `coupons` row with the
   * code that joins its school, whose window contains now and whose
   * `current_uses < max_uses` holds; NULL uses make that comparison unknown,
   * so such a row never passes here.
   */
  predicate SchoolCouponValid(t: Tables, c: Coupon, code: string, now: int) {
    && c.code == code && c.validFrom <= now <= c.validUntil
    && c.currentUses.Some? && c.currentUses.value < c.maxUses
    && c.schoolId.Some? && exists s :: 0 <= s < |t.schools| && t.schools[s].id == c.schoolId.value
  }

  datatype ValidCoupon = ValidCoupon(discountPct: real, schoolId: nat, schoolName: string)

  function ValidateSchoolCoupon(t: Tables, code: string, now: int): (r: Option<ValidCoupon>)
    ensures r.None? <==> forall k :: 0 <= k < |t.coupons| ==> !SchoolCouponValid(t, t.coupons[k], code, now)
    ensures r.Some? ==> exists k :: 0 <= k < |t.coupons| && SchoolCouponValid(t, t.coupons[k], code, now)
                                    && t.coupons[k].discountPct == r.value.discountPct
                                    && t.coupons[k].schoolId == Some(r.value.schoolId)
    ensures r.Some? ==> exists s :: 0 <= s < |t.schools| && t.schools[s].id == r.value.schoolId
                                    && t.schools[s].schoolName == r.value.schoolName
  {
    match FirstIndex(t.coupons, (c: Coupon) => SchoolCouponValid(t, c, code, now))
    case None => None
    case Some(k) =>
      var c := t.coupons[k];
      var s := FirstIndex(t.schools, (x: School) => x.id == c.schoolId.value).value;
      Some(ValidCoupon(c.discountPct, c.schoolId.value, t.schools[s].schoolName))
  }

  /**
   * A coupon with NULL `current_uses` is refused by `validateCoupon` but
   * accepted by the checkout's COALESCE(current_uses, 0) < max_uses.
   */
  lemma NullUsesDisagree(t: Tables, c: Coupon, code: string, now: int)
    requires c.currentUses.None? && c.code == code && c.validFrom <= now <= c.validUntil && 0 < c.maxUses
    ensures !SchoolCouponValid(t, c, code, now)
    ensures CheckoutController.Redeemable(c, code, None, now)
  {
  }

  datatype MailLookup =
    | MailMissingFields                                 // 400
    | MailNotFound                                      // 404
    | MailRecipients(schoolEmail: string, otherEmails: seq<string>)  // who the mail goes to
    | MailServerError                                   // 500

  /** A `schools` row with the id, linked to the SE `seEmployeeId`, that joins a `users` row. */
  predicate LinkedSchool(t: Tables, s: School, schoolId: nat, seEmployeeId: string) {
    s.id == schoolId && s.employeeId == Some(seEmployeeId) && UserEmail(t, s.userId).Some?
  }

  /**
   * The look-up of `sendCouponEmail`: the school with the id, its user, the
   * SE it is linked to, which must carry `seEmployeeId`, and that SE's user.
   */
  function CouponMailRecipients(t: Tables, couponCode: string, schoolId: nat, seEmployeeId: string): (r: MailLookup)
    ensures r == MailMissingFields <==> couponCode == "" || schoolId == 0 || seEmployeeId == ""
    ensures r == MailNotFound <==>
      && couponCode != "" && schoolId != 0 && seEmployeeId != ""
      && ((forall k :: 0 <= k < |t.schools| ==> !LinkedSchool(t, t.schools[k], schoolId, seEmployeeId))
          || SeWithUser(t, seEmployeeId).None?)
    ensures !r.MailServerError?
    ensures r.MailRecipients? ==> |r.otherEmails| == 1 && exists s, e ::
      && 0 <= s < |t.schools| && 0 <= e < |t.seEmployees|
      && t.schools[s].id == schoolId && t.schools[s].employeeId == Some(seEmployeeId)
      && t.seEmployees[e].employeeId == seEmployeeId
      && UserEmail(t, t.schools[s].userId) == Some(r.schoolEmail)
      && UserEmail(t, t.seEmployees[e].userId) == Some(r.otherEmails[0])
  {
    if couponCode == "" || schoolId == 0 || seEmployeeId == "" then MailMissingFields
    else
      match FirstIndex(t.schools, (s: School) => LinkedSchool(t, s, schoolId, seEmployeeId))
      case None => MailNotFound
      case Some(s) =>
        match SeWithUser(t, seEmployeeId)
        case None => MailNotFound
        case Some(e) =>
          MailRecipients(UserEmail(t, t.schools[s].userId).value, [UserEmail(t, t.seEmployees[e].userId).value])
  }

  // ---------------------------------------------------------------------------
  // Student coupons

  datatype StudentCouponRequest = StudentCouponRequest(
    schoolId: nat, discountPercentage: real, validFrom: Option<int>, validUntil: Option<int>, maxUses: int)

  predicate HasStudentCouponFields(req: StudentCouponRequest) {
    req.schoolId != 0 && req.discountPercentage != 0.0 && req.validFrom.Some? && req.validUntil.Some?
  }

  datatype StudentCouponOutcome =
    | StudentMissingFields                     // 400
    | SchoolNotFound                           // 404
    | CreateFailed                             // 500
    | StudentGenerated(couponCode: string, schoolEmail: string, schoolName: string, studentCount: nat)  // 200

  /** SELECT COUNT(*) FROM students WHERE school_id = `schoolId`. */
  function StudentCount(students: seq<Student>, schoolId: nat): nat {
    Count(students, (s: Student) => s.schoolId == Some(schoolId))
  }

  /**
   * `generateStudentCoupon` as written: `createStudentCoupon` is imported
   * from models/coupons.js, which does not define it, so the call throws and
   * every request that passes the checks ends in 500 with nothing stored.
   */
  function GenerateStudentAsWritten(t: Tables, req: StudentCouponRequest, token: string): (r: (Tables, StudentCouponOutcome))
    ensures r.0 == t
    ensures r.1 == StudentMissingFields <==> !HasStudentCouponFields(req)
    ensures r.1 == SchoolNotFound <==> HasStudentCouponFields(req) && SchoolWithUser(t, req.schoolId).None?
    ensures !r.1.StudentGenerated?
  {
    if !HasStudentCouponFields(req) then (t, StudentMissingFields)
    else if SchoolWithUser(t, req.schoolId).None? then (t, SchoolNotFound)
    else (t, CreateFailed)
  }

  /** An existing school, a complete request: the handler as written still fails. */
  lemma StudentCouponNeverCreated(t: Tables, req: StudentCouponRequest, token: string)
    requires HasStudentCouponFields(req) && SchoolWithUser(t, req.schoolId).Some?
    ensures GenerateStudentAsWritten(t, req, token) == (t, CreateFailed)
    ensures |GenerateStudentAsWritten(t, req, token).0.studentCoupons| == |t.studentCoupons|
  {
  }

  /** The intended `createStudentCoupon`: one `student_coupons` row, with `current_uses` 0. */
  function InsertStudentCoupon(t: Tables, req: StudentCouponRequest, code: string): (r: Tables)
    requires req.validFrom.Some? && req.validUntil.Some?
    ensures r == t.(studentCoupons := r.studentCoupons, nextId := t.nextId + 1)
    ensures |r.studentCoupons| == |t.studentCoupons| + 1 && r.studentCoupons[..|t.studentCoupons|] == t.studentCoupons
    ensures var c := r.studentCoupons[|t.studentCoupons|];
      && c.id == t.nextId && c.code == code && c.schoolId == Some(req.schoolId) && c.seEmployeeId.None?
      && c.discountPct == req.discountPercentage
      && c.validFrom == req.validFrom.value && c.validUntil == req.validUntil.value
      && c.maxUses == MaxUsesOr(req.maxUses, 100) && c.currentUses == Some(0)
  {
    var row := Coupon(t.nextId, code, None, Some(req.schoolId), None, req.discountPercentage,
                      req.validFrom.value, req.validUntil.value, MaxUsesOr(req.maxUses, 100), Some(0), true);
    t.(studentCoupons := t.studentCoupons + [row], nextId := t.nextId + 1)
  }

  /** `generateStudentCoupon` with the student coupon stored as intended. */
  function GenerateStudentResult(t: Tables, req: StudentCouponRequest, token: string): (r: (Tables, StudentCouponOutcome))
    ensures r.1 == StudentMissingFields <==> !HasStudentCouponFields(req)
    ensures r.1 == SchoolNotFound <==> HasStudentCouponFields(req) && SchoolWithUser(t, req.schoolId).None?
    ensures !r.1.StudentGenerated? ==> r.0 == t
    ensures r.1.StudentGenerated? ==>
      && r.1.couponCode == StudentCouponCode(req.schoolId, token)
      && r.0 == InsertStudentCoupon(t, req, r.1.couponCode)
      && r.1.studentCount == StudentCount(t.students, req.schoolId)
    ensures r.1.StudentGenerated? ==>
      && SchoolWithUser(t, req.schoolId).Some?
      && var s := t.schools[SchoolWithUser(t, req.schoolId).value];
      && Some(r.1.schoolEmail) == UserEmail(t, s.userId)
      && r.1.schoolName == s.schoolName
  {
    if !HasStudentCouponFields(req) then (t, StudentMissingFields)
    else
      match SchoolWithUser(t, req.schoolId)
      case None => (t, SchoolNotFound)
      case Some(s) =>
        var code := StudentCouponCode(req.schoolId, token);
        (InsertStudentCoupon(t, req, code),
         StudentGenerated(code, UserEmail(t, t.schools[s].userId).value, t.schools[s].schoolName,
                          StudentCount(t.students, req.schoolId)))
  }

  method GenerateStudentCoupon(db: Database, req: StudentCouponRequest, token: string) returns (r: StudentCouponOutcome)
    modifies db
    ensures (db.t, r) == GenerateStudentResult(old(db.t), req, token)
  {
    if !HasStudentCouponFields(req) {
      return StudentMissingFields;
    }
    var school := SchoolWithUser(db.t, req.schoolId);
    if school.None? {
      return SchoolNotFound;
    }
    var schoolEmail := UserEmail(db.t, db.t.schools[school.value].userId).value;
    var schoolName := db.t.schools[school.value].schoolName;
    var couponCode := StudentCouponCode(req.schoolId, token);
    var studentCount := StudentCount(db.t.students, req.schoolId);
    db.t := InsertStudentCoupon(db.t, req, couponCode);
    r := StudentGenerated(couponCode, schoolEmail, schoolName, studentCount);
  }

  /**
   * A stored student coupon is what the checkout looks for: a student of
   * that school, inside the window, finds a redeemable row in the student
   * pool, at least while it allows one use.
   */
  lemma StudentCouponRedeemable(t: Tables, req: StudentCouponRequest, token: string, now: int)
    requires GenerateStudentResult(t, req, token).1.StudentGenerated?
    requires req.validFrom.value <= now <= req.validUntil.value
    requires MaxUsesOr(req.maxUses, 100) > 0
    ensures var (after, r) := GenerateStudentResult(t, req, token);
      var role := CheckoutController.StudentBuyer(req.schoolId);
      && CheckoutController.ChoosePool(role, r.couponCode) == CheckoutController.StudentPool
      && CheckoutController.FindCoupon(after.studentCoupons, r.couponCode, Some(req.schoolId), now).Some?
  {
    var (after, r) := GenerateStudentResult(t, req, token);
    StudentCodeShape(req.schoolId, token);
    var k := |t.studentCoupons|;
    assert CheckoutController.Redeemable(after.studentCoupons[k], r.couponCode, Some(req.schoolId), now);
  }

  /** Without `maxUses` a student coupon allows a hundred uses. */
  lemma StudentCouponDefaultsToHundredUses(t: Tables, req: StudentCouponRequest, token: string)
    requires req.maxUses == 0
    requires GenerateStudentResult(t, req, token).1.StudentGenerated?
    ensures GenerateStudentResult(t, req, token).0.studentCoupons[|t.studentCoupons|].maxUses == 100
  {
  }

  /** A student of the school whose user has an e-mail: a row of `students JOIN users WHERE school_id = ?`. */
  function EmailedAt(t: Tables, schoolId: nat): Student -> bool {
    (s: Student) => s.schoolId == Some(schoolId) && UserEmail(t, s.userId).Some?
  }

  /**
   * The look-up of `sendStudentCouponEmail`: the school with the id and its
   * user's e-mail, then the e-mails of the users of its students.
   */
  function StudentMailRecipients(t: Tables, couponCode: string, schoolId: nat): (r: MailLookup)
    ensures r == MailMissingFields <==> couponCode == "" || schoolId == 0
    ensures r == MailNotFound <==> couponCode != "" && schoolId != 0 && SchoolWithUser(t, schoolId).None?
    ensures r.MailRecipients? ==>
      && SchoolWithUser(t, schoolId).Some?
      && Some(r.schoolEmail) == UserEmail(t, t.schools[SchoolWithUser(t, schoolId).value].userId)
      && r.otherEmails == StudentEmails(t, t.students, schoolId)
    ensures !r.MailServerError?
  {
    if couponCode == "" || schoolId == 0 then MailMissingFields
    else
      match SchoolWithUser(t, schoolId)
      case None => MailNotFound
      case Some(s) => MailRecipients(UserEmail(t, t.schools[s].userId).value, StudentEmails(t, t.students, schoolId))
  }

  /** The e-mails of the users of the students of a school, in `students` order. */
  function StudentEmails(t: Tables, students: seq<Student>, schoolId: nat): (r: seq<string>)
    ensures |r| <= StudentCount(students, schoolId)
  {
    if |students| == 0 then []
    else
      var rest := StudentEmails(t, students[1..], schoolId);
      var s := students[0];
      if EmailedAt(t, schoolId)(s) then [UserEmail(t, s.userId).value] + rest else rest
  }

  /**
   * The join row by row: one e-mail per student of the school whose user
   * exists, every one of them, in table order, and no other.
   */
  lemma {:induction false} StudentEmailsJoined(t: Tables, students: seq<Student>, schoolId: nat)
    ensures var joined := Filter(students, EmailedAt(t, schoolId));
      var r := StudentEmails(t, students, schoolId);
      && |r| == |joined|
      && forall k :: 0 <= k < |r| ==> Some(r[k]) == UserEmail(t, joined[k].userId)
  {
    if |students| > 0 {
      StudentEmailsJoined(t, students[1..], schoolId);
      var s := students[0];
      if EmailedAt(t, schoolId)(s) {
        assert Filter(students, EmailedAt(t, schoolId)) == [s] + Filter(students[1..], EmailedAt(t, schoolId));
      }
    }
  }

  /** Every student of the school whose user has an e-mail is mailed. */
  lemma EveryStudentEmailed(t: Tables, students: seq<Student>, schoolId: nat, i: nat)
    requires i < |students| && students[i].schoolId == Some(schoolId) && UserEmail(t, students[i].userId).Some?
    ensures UserEmail(t, students[i].userId).value in StudentEmails(t, students, schoolId)
  {
    StudentEmailsJoined(t, students, schoolId);
    var joined := Filter(students, EmailedAt(t, schoolId));
    assert students[i] in joined;
    var j :| 0 <= j < |joined| && joined[j] == students[i];
    assert StudentEmails(t, students, schoolId)[j] == UserEmail(t, students[i].userId).value;
  }

  /** The e-mails of two runs of students, one after the other: table order is kept. */
  lemma {:induction false} StudentEmailsAppend(t: Tables, a: seq<Student>, b: seq<Student>, schoolId: nat)
    ensures StudentEmails(t, a + b, schoolId) == StudentEmails(t, a, schoolId) + StudentEmails(t, b, schoolId)
  {
    if |a| == 0 {
      assert a + b == b;
    } else {
      var ab := a + b;
      assert ab[0] == a[0] && ab[1..] == a[1..] + b;
      StudentEmailsAppend(t, a[1..], b, schoolId);
      StudentEmailsCons(t, ab, schoolId);
      StudentEmailsCons(t, a, schoolId);
    }
  }

  lemma StudentEmailsCons(t: Tables, students: seq<Student>, schoolId: nat)
    requires |students| > 0
    ensures StudentEmails(t, students, schoolId) ==
      (if EmailedAt(t, schoolId)(students[0]) then [UserEmail(t, students[0].userId).value] else [])
      + StudentEmails(t, students[1..], schoolId)
  {
  }

  /**
   * `sendStudentCouponEmail` as written: after the look-ups it calls
   * `sendStudentCouponNotification`, which the file neither defines nor
   * imports, so every request that finds its school ends in the 500 of the catch.
   */
  function StudentMailAsWritten(t: Tables, couponCode: string, schoolId: nat): (r: MailLookup)
    ensures r == MailServerError <==> StudentMailRecipients(t, couponCode, schoolId).MailRecipients?
    ensures r != MailServerError ==> r == StudentMailRecipients(t, couponCode, schoolId)
  {
    match StudentMailRecipients(t, couponCode, schoolId)
    case MailRecipients(_, _) => MailServerError
    case other => other
  }

  /** A school that exists and a code: as written the recipients are found and still no mail goes out. */
  lemma StudentMailNeverSent(t: Tables, couponCode: string, schoolId: nat)
    requires couponCode != "" && schoolId != 0 && SchoolWithUser(t, schoolId).Some?
    ensures StudentMailRecipients(t, couponCode, schoolId).MailRecipients?
    ensures StudentMailAsWritten(t, couponCode, schoolId) == MailServerError
  {
  }
}
