/**
 * controllers/reviewController.js: `createReview` checks the body's fields
 * in order and stores the review only when every check passes. The store
 * call of models/reviewModel.js is the parameter `insert`: the new row's id,
 * or the error it threw.
 */
module ReviewController {
  import opened Wrappers
  import opened JsValues
  import opened JsStrings

  datatype ReviewBody = ReviewBody(userId: JsValue, username: JsValue, productId: JsValue, rating: JsValue, comment: JsValue)

  /** The object `createReview` returns: the body's values under the new id. */
  datatype Review = Review(id: nat, userId: JsValue, username: JsValue, productId: JsValue, rating: JsValue, comment: JsValue)

  datatype Response =
    | BadRequest(error: string)   // 400
    | Created(review: Review)     // 201
    | ServerError(error: string)  // 500

  /** `!rating || rating < 1 || rating > 5` as written: every comparison with NaN is false. */
  predicate RatingRejectedAsWritten(rating: JsValue) {
    !Truthy(rating) || LessThanLiteral(rating, 1.0) || GreaterThanLiteral(rating, 5.0)
  }

  /** The rating the check evidently means: a number from 1 to 5. */
  predicate RatingInRange(rating: JsValue) {
    var n := ToNumber(rating);
    n.Finite? && 1.0 <= n.v <= 5.0
  }

  /** The validation with the rating check as written; the first failure names the error. */
  function GuardErrorAsWritten(b: ReviewBody): Option<string> {
    if !Truthy(b.userId) then Some("User ID is required")
    else if !Truthy(b.username) then Some("Username is required")
    else if !Truthy(b.productId) then Some("Product ID is required")
    else if RatingRejectedAsWritten(b.rating) then Some("Rating must be between 1 and 5")
    else if !Truthy(b.comment) then Some("Comment is required")
    else None
  }

  /** A non-numeric rating text gets past the rating check as written. */
  lemma TextRatingPassesAsWritten()
    ensures var b := ReviewBody(Number(Finite(7.0)), Str("ann"), Number(Finite(3.0)), Str("x"), Str("ok"));
      GuardErrorAsWritten(b) == None && !RatingInRange(b.rating)
  {
    XIsNaN();
  }

  lemma XIsNaN()
    ensures StringToNumber("x") == NaN
  {
    var t := "x";
    assert Trim(t) == t by {
      assert LeadingSpaces(t) == 0;
      assert t[0..] == t;
    }
    assert PrefixedInteger(t) == NaN;
    assert DigitRun(t, 10) == 0;
  }

  /** The validation with the rating held to 1..5. */
  function GuardError(b: ReviewBody): (r: Option<string>)
    ensures r.None? <==>
      Truthy(b.userId) && Truthy(b.username) && Truthy(b.productId) && RatingInRange(b.rating) && Truthy(b.comment)
  {
    if !Truthy(b.userId) then Some("User ID is required")
    else if !Truthy(b.username) then Some("Username is required")
    else if !Truthy(b.productId) then Some("Product ID is required")
    else if !RatingInRange(b.rating) then Some("Rating must be between 1 and 5")
    else if !Truthy(b.comment) then Some("Comment is required")
    else None
  }

  /**
   * The two rating checks differ only on ratings that convert to NaN: a
   * rating the written check refuses is refused, and one it lets through
   * is either from 1 to 5 or not a number at all.
   */
  lemma RatingChecksAgreeOnNumbers(rating: JsValue)
    ensures RatingRejectedAsWritten(rating) ==> !RatingInRange(rating)
    ensures !RatingRejectedAsWritten(rating) ==> RatingInRange(rating) || ToNumber(rating) == NaN
  {
  }

  /**
   * `createReview`: the guards run in the order userId, username,
   * productId, rating, comment and the first that fails is a 400; the store
   * is called only when all pass, and its error is a 500.
   */
  function CreateReview(b: ReviewBody, insert: Result<nat, string>): (r: Response)
    ensures r.BadRequest? <==> GuardError(b).Some?
    ensures !Truthy(b.userId) ==> r == BadRequest("User ID is required")
    ensures Truthy(b.userId) && !Truthy(b.username) ==> r == BadRequest("Username is required")
    ensures Truthy(b.userId) && Truthy(b.username) && !Truthy(b.productId) ==> r == BadRequest("Product ID is required")
    ensures Truthy(b.userId) && Truthy(b.username) && Truthy(b.productId) && !RatingInRange(b.rating) ==>
      r == BadRequest("Rating must be between 1 and 5")
    ensures r.Created? ==>
      RatingInRange(b.rating) && insert.Ok?
      && r.review == Review(insert.value, b.userId, b.username, b.productId, b.rating, b.comment)
    ensures r.ServerError? <==> GuardError(b).None? && insert.Err?
  {
    match GuardError(b)
    case Some(e) => BadRequest(e)
    case None =>
      match insert
      case Err(e) => ServerError(e)
      case Ok(id) => Created(Review(id, b.userId, b.username, b.productId, b.rating, b.comment))
  }

  /**
   * `createReview` as written: the same handler over the written rating
   * check, so a rating that converts to NaN is stored.
   */
  function CreateReviewAsWritten(b: ReviewBody, insert: Result<nat, string>): (r: Response)
    ensures r.BadRequest? <==> GuardErrorAsWritten(b).Some?
    ensures r.BadRequest? ==> r.error == GuardErrorAsWritten(b).value
    ensures r.Created? <==> GuardErrorAsWritten(b).None? && insert.Ok?
    ensures r.Created? ==> r.review == Review(insert.value, b.userId, b.username, b.productId, b.rating, b.comment)
    ensures r.ServerError? <==> GuardErrorAsWritten(b).None? && insert.Err?
  {
    match GuardErrorAsWritten(b)
    case Some(e) => BadRequest(e)
    case None =>
      match insert
      case Err(e) => ServerError(e)
      case Ok(id) => Created(Review(id, b.userId, b.username, b.productId, b.rating, b.comment))
  }

  /** As written, the rating "x" is stored with a 201; the intended handler answers 400. */
  lemma TextRatingStoredAsWritten(id: nat)
    ensures var b := ReviewBody(Number(Finite(7.0)), Str("ann"), Number(Finite(3.0)), Str("x"), Str("ok"));
      CreateReviewAsWritten(b, Ok(id)).Created?
      && CreateReview(b, Ok(id)) == BadRequest("Rating must be between 1 and 5")
  {
    TextRatingPassesAsWritten();
  }

  /** On every rating that converts to a number, the two handlers answer alike. */
  lemma HandlersAgreeOnNumbers(b: ReviewBody, insert: Result<nat, string>)
    requires ToNumber(b.rating) != NaN
    ensures CreateReviewAsWritten(b, insert) == CreateReview(b, insert)
  {
    RatingChecksAgreeOnNumbers(b.rating);
  }
}
