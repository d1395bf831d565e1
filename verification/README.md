# A verified model of an e-commerce backend's core

The system is the Node.js/Express back end of a school-supplies shop built on MySQL. Students, schools and SE (sales executive) employees buy products. Coupons come from three pools: student coupons issued to a school's students, school coupons issued by an SE to a school, and universal coupons open to everyone. Redeeming a coupon credits reward points to the buyer's school, or redeem points to the SE linked to a buying school.

This project models the core of that back end in Dafny:

- **checkout** (`processCheckout`). This covers role resolution, the choice of coupon pool by code prefix and role, the validity window and use limit, the discount, point settlement, the usage log, the coupon counter, saving the order, clearing the cart, and rollback. The coupon preview endpoint and the checkout model's order, cart and coupon queries are included too.
- **other coupon rules**:
  - the ordered validation chain and price arithmetic of the coupon-application controller;
  - the school and student code formats, defaults and guards of the coupon controller;
  - the random eight-character codes and uniqueness loop of the universal-coupon controller;
  - reward tracking and the SE reward summary.
- **hot deals**: the visibility cap of four, the field merge, and the `hot_deals` table operations.
- **products**: slug generation, attribute id mapping, image splitting and URL prefixing, trending lists, and create, update and delete.
- **categories**: `addCategory` and the other add, rename and delete handlers, with their hierarchy and name checks. `getCategories` folds the flat join rows into a nested tree.
- **carts**: the `cart_items`/`carts` layout of the cart routes, and the cart model and its controller, which read and write `cart_items` with other columns.
- **users**: registration, the `updateUser` SET-list builder, the per-role delete cascade, and the wishlist.
- **OTP store**: single-use verification and six-digit codes.
- **review guard sequence**.

The database is one value of type `Schema.Tables`, with one sequence of rows per table, held by a `Schema.Database` object. A handler that runs in a transaction works on a local copy. It commits by assigning the copy back, and rolls back by leaving the object untouched. Several things become parameters of the operations that use them:

- the result of each query that can fail;
- the clock;
- random draws (UUID characters, `Math.random`);
- the bcrypt hash;
- mail delivery.

Every table draws its row ids from one counter, `Tables.nextId`, shared by all tables. MySQL keeps a separate AUTO_INCREMENT counter per table, so the model's ids are unique across tables, not only within one.

JavaScript's truthiness, `parseInt`, `Number`, `toUpperCase`, `trim`, `split` and `join` are modelled in `JsValues` and `JsStrings`. Four facts about checkout, as the code computes it:

- Points are `floor(total/100)` of the total before the discount.
- The points do not depend on the buyer's role: there is no multiplier.
- No stock is checked or decremented.
- An SE buyer earns no points.

## Model

| member | source | states |
|---|---|---|
| CheckoutController.UserIndex | controllers/CheckoutController.js:29-32 | the index found holds a `users` row with the id; None exactly when no row has it |
| CheckoutController.StudentIndex | controllers/CheckoutController.js:37 | the index found holds a `students` row of the user |
| CheckoutController.SchoolIndex | controllers/CheckoutController.js:44 | the index found holds a `schools` row of the user |
| CheckoutController.ResolveRole | controllers/CheckoutController.js:29-55 | "User not found" exactly when no `users` row has the id; a resolved role is the user's `user_type`; a student's school id is truthy and comes from their `students` row; a school's id comes from its `schools` row |
| CheckoutController.ChoosePool | controllers/CheckoutController.js:64-115 | only a student with `STU-` gets the student pool and only a school with `SE-` the school pool; an SE, and every code with neither prefix, gets the universal pool |
| CheckoutController.PoolOfLabel | controllers/CheckoutController.js:181-185 | the table the counter UPDATE picks is the pool the label was logged for; any other label picks `couponsall` |
| CheckoutController.WithPoolRows | controllers/CheckoutController.js:181-185 | writing one pool's table leaves the other two pools as they were |
| CheckoutController.FindCoupon | controllers/CheckoutController.js:65-71 | a row found has the code, the school (when filtered), a window containing `now` at both ends and COALESCE(current_uses, 0) < max_uses; None exactly when no row qualifies |
| CheckoutController.FloorPoints | controllers/CheckoutController.js:135 | the points are the integer p with 100p <= total < 100(p + 1) |
| CheckoutController.Max0 | controllers/CheckoutController.js:188 | the result is at least 0 and at least x, and is one of them |
| CheckoutController.BumpUses | controllers/CheckoutController.js:181-185 | only rows with the id change, and only their `current_uses`, raised by one (NULL stays NULL) |
| CheckoutController.AddRewardPoints | controllers/CheckoutController.js:160-163 | only schools with the id change, and only their `reward_points`, raised by the points |
| CheckoutController.AddRedeemPoints | controllers/CheckoutController.js:143-146 | only SE rows with the employee id change, and only their `redeem_points`, raised by the points |
| CheckoutController.SettlePoints | controllers/CheckoutController.js:124-168 | the points step writes nothing but `schools` and `se_employees` |
| CheckoutController.CartIndex | controllers/CheckoutController.js:205 | the index found holds a `carts` row of the buyer |
| CheckoutController.ResolveBuyer | controllers/CheckoutController.js:29-55 | the step-by-step user lookup fails with the error `ResolveRole` gives, or yields the `user_type` whose role `ResolveRole` gives; a student has a truthy school id and a school a school id |
| CheckoutController.AwardPoints | controllers/CheckoutController.js:124-168 | the step-by-step points branch computes exactly `SettlePoints` |
| CheckoutController.RedeemCoupon | controllers/CheckoutController.js:57-186 | the step-by-step coupon block computes exactly `ApplyCoupon` |
| CheckoutController.ProcessCheckout | controllers/CheckoutController.js:15-228 | the committed state and the response are exactly those of the function `Checkout`, whose properties the `CheckoutFacts` lemmas prove |
| CheckoutController.PrefixesExclusive | controllers/CheckoutController.js:248-258 | no code starts with both `SE-` and `STU-` |
| CheckoutController.PreviewLookup | controllers/CheckoutController.js:320-333 | the preview reports a coupon exactly when the pool has a redeemable row, names the pool's table, and reports the `discount_percentage` of the first such row |
| CheckoutController.PreviewCoupon | controllers/CheckoutController.js:230-339 | a missing code, userId or userType is a 400 in that order; `SE-` from a non-school and `STU-` from a non-student is a 403 before any lookup; the profile 403 exactly when the claimed school or student has no row; a code is usable exactly when its pool (school, student or universal, filtered by the profile's school) has a redeemable row, and the percentage reported is that row's |
| CheckoutFacts.ErrorsRollBack | controllers/CheckoutController.js:221-222 | every error leaves the committed state as it was, except a failure after `saveOrder`, which leaves exactly the one saved order |
| CheckoutFacts.InvalidCouponIff | controllers/CheckoutController.js:57-119 | "Invalid or expired coupon" exactly when the buyer resolves to a student or school, gives a code, and no row of the chosen pool is redeemable |
| CheckoutFacts.ApplyCouponEffects | controllers/CheckoutController.js:121-185 | a successful coupon block took a redeemable row of the chosen pool, gives its discount, bumps that pool's counter by the row's id, leaves the other pools and appends one usage-log row |
| CheckoutFacts.CheckoutSucceeds | controllers/CheckoutController.js:15-220 | a checkout succeeds exactly when the role resolves, the coupon block succeeds and no fault occurs; the response reports points only for students and SE points only for schools |
| CheckoutFacts.CouponRedemption | controllers/CheckoutController.js:117-185 | a successful coupon checkout commits the chosen pool bumped at one redeemable row, whose percentage gives the discount, and no other pool change |
| CheckoutFacts.CouponLogAndOrder | controllers/CheckoutController.js:170-202 | a successful coupon checkout appends exactly one usage-log row with the points, and one order with total max(0, total − discount) under the receipt's id |
| CheckoutFacts.StudentPoints | controllers/CheckoutController.js:158-167 | a student's coupon checkout credits floor(total/100) of the pre-discount total to the school, reports them, and credits no SE |
| CheckoutFacts.SettledAccounts | controllers/CheckoutController.js:124-220 | the committed `schools` and `se_employees` and the reported points are those the points step settled on |
| CheckoutFacts.StudentWithoutSchoolRow | controllers/CheckoutController.js:164-166 | a student whose school has no row gets "Failed to update reward points" and nothing changes |
| CheckoutFacts.SchoolSePoints | controllers/CheckoutController.js:124-157 | a school's coupon checkout credits no school; floor(total/100) goes to the linked SE only on the first use of the code by the school, otherwise no points |
| CheckoutFacts.SeRewardOnlyOnFirstUse | controllers/CheckoutController.js:134-156 | after an earlier use of the code by the school its SE gets nothing |
| CheckoutFacts.NoCouponPath | controllers/CheckoutController.js:23-220 | without a code, or for an SE, there is no discount, no points, no log row and no counter change: only the order and the cart clearing |
| CheckoutFacts.ClearCartKeepsAccounts | controllers/CheckoutController.js:205-211 | clearing the cart changes only `cart_items`, removing every line of the buyer's first cart |
| CheckoutFacts.AddRedeemPointsNoMatch | controllers/CheckoutController.js:142-153 | with no SE row for the employee id the SE update changes nothing |
| CheckoutFacts.OrderTotalNonNegative | controllers/CheckoutController.js:188 | the saved order total is never negative |
| CheckoutFacts.DiscountWithinTotal | controllers/CheckoutController.js:121-188 | a percentage in [0, 100] of a non-negative total is a discount within [0, total], so the clamp does not bite |
| CheckoutFacts.BumpKeepsWithinLimit | controllers/CheckoutController.js:71-185 | bumping a row that passed COALESCE(current_uses, 0) < max_uses keeps every row within its maximum and the ids distinct |
| CheckoutFacts.UsesStayWithinLimit | controllers/CheckoutController.js:57-186 | a checkout never takes any pool past a coupon's `max_uses`, when each pool's ids are distinct |
| CheckoutFacts.RedemptionWithinLimit | controllers/CheckoutController.js:117-185 | the pool a coupon checkout bumps stays within its maximums |
| CheckoutFacts.PoolsUntouched | controllers/CheckoutController.js:57-222 | a failed checkout, or one without a coupon, leaves every pool as it was |
| CheckoutFacts.SameCoupons | controllers/CheckoutController.js:181-185 | states with the same three coupon tables have the same pools |
| CheckoutFacts.NullUsesNeverRunOut | controllers/CheckoutController.js:71-183 | a coupon with NULL `current_uses` stays redeemable after any number of uses |
| CheckoutFacts.PreviewAgreesWithCheckout | controllers/CheckoutController.js:64-333 | for a buyer sending their own type, the preview accepts a code exactly when the checkout finds a redeemable row in the same pool, names that pool, and reports the percentage of the row the checkout takes |
| CheckoutFacts.PreviewedDiscountApplied | controllers/CheckoutController.js:64-333 | a checkout that succeeds with a code the buyer's own preview checks is one the preview accepts, and its discount is the previewed percentage of the total |
| CheckoutFacts.SePreviewNotHonoured | controllers/CheckoutController.js:57-318 | an SE's plain code is previewed against `couponsall`, but the checkout applies no discount for an SE |
| CheckoutFacts.CrossPrefixFallsThrough | controllers/CheckoutController.js:64-258 | a student's `SE-` code and a school's `STU-` code go to the universal pool at checkout, but the preview refuses them with 403 |
| CheckoutModel.InsertOrder | models/CheckoutModel.js:21-36 | one order row appended under the next id: userId, or NULL when it is 0; couponCode, or NULL when empty; the total and items as passed; nothing else changes |
| CheckoutModel.SaveOrder | models/CheckoutModel.js:17-44 | the committed state gains exactly that row and the result is its insert id |
| CheckoutModel.CartItemsWithPrices | models/CheckoutModel.js:4-15 | as many rows as stored, each with its price converted by `Number` and the other fields unchanged |
| CheckoutModel.ActiveCouponDiscount | models/CheckoutModel.js:46-62 | None exactly when no row has the code and is active; otherwise the percentage of such a row |
| CouponApplicationController.ValidateCouponDetails | controllers/couponApplicationController.js:64-101 | no error exactly when the coupon is current (both ends inclusive), under its limit and, when `minimum_order` is truthy, not above the amount; "not yet active" exactly when now is before `valid_from`, "expired" exactly when it is after `valid_until`; the limit and minimum errors come only after the window passes |
| CouponApplicationController.FindAppCoupon | controllers/couponApplicationController.js:15-30 | the row found carries the upper-cased code; None exactly when no row does |
| CouponApplicationController.ApplyResult | controllers/couponApplicationController.js:3-62 | 400 exactly when the code is empty or the amount falsy; 404 exactly when otherwise no row has the upper-cased code; an applied coupon passed every check and reports that row's id and `discount_percentage`, its savings are amount × pct / 100 and the price the amount minus them; a rejection carries the first failing check |
| CouponApplicationController.ApplyCoupon | controllers/couponApplicationController.js:3-62 | the step-by-step handler answers as `ApplyResult` and appends one usage row exactly when it applies the coupon; otherwise the state is unchanged |
| CouponApplicationController.RecordCouponUsage | controllers/couponApplicationController.js:103-116 | one `coupon_usage` row (coupon, user or NULL, now) appended and nothing else |
| CouponApplicationController.CheckCoupon | controllers/couponApplicationController.js:118-160 | 404 exactly when no row has the upper-cased code; a valid answer passed the chain at amount 0 and reports the row's `discount_percentage`, `valid_until` and `minimum_order \|\| 0`; an invalid one carries the first failing check |
| CouponApplicationController.WindowInclusive | controllers/couponApplicationController.js:77-90 | a coupon is neither early nor expired on its first and its last instant |
| CouponApplicationController.EarliestFailureWins | controllers/couponApplicationController.js:77-98 | an expired coupon is reported expired whatever its usage |
| CouponApplicationController.CheckRejectsPositiveMinimum | controllers/couponApplicationController.js:140-150 | the read-only check rejects every otherwise valid coupon with a positive minimum order as below the minimum |
| CouponApplicationController.CodeCaseInsensitive | controllers/couponApplicationController.js:15-30 | a code and its upper-cased form get the same answer from both handlers |
| CouponApplicationController.PriceArithmetic | controllers/couponApplicationController.js:41-42 | savings plus discounted price equal the amount; a percentage above 100 makes the price negative |
| CouponApplicationController.UsageOnlyAfterValidation | controllers/couponApplicationController.js:35-45 | a coupon is applied (and its use recorded) only with a code, a truthy amount and a clean validation |
| CouponController.UserEmail | controllers/couponController.js:25-36 | an e-mail found belongs to a `users` row with the id |
| CouponController.SchoolWithUser | controllers/couponController.js:25-36 | the row found is a school with the id that joins a user; None exactly when no such school exists |
| CouponController.SeWithUser | controllers/couponController.js:25-36 | the row found is an SE with the employee id that joins a user; None exactly when no such SE exists |
| CouponController.CodeSuffix | controllers/couponController.js:45 | the suffix is the first six characters of the token (or all of a shorter one), with no lower-case letter |
| CouponController.PaddedSchoolId | controllers/couponController.js:45 | at least four characters, all digits, ending with the decimal school id |
| CouponController.SchoolCodeShape | controllers/couponController.js:45 | a school code is at least four digits, a dash and the upper-cased suffix |
| CouponController.StudentCodeShape | controllers/couponController.js:256 | a student code is `STU-`, the padded school id, a dash and the upper-cased suffix |
| CouponController.SchoolCodeNeverSelectsSchoolPool | controllers/couponController.js:45 | a school code starts with a digit, so the checkout never looks it up in the school pool it is stored in |
| CouponController.MaxUsesOr | controllers/couponController.js:57 | a non-zero `maxUses` is kept; 0 gives the default |
| CouponController.InsertSchoolCoupon | models/coupons.js:3-25 | exactly one `coupons` row appended under the next id, with the request's school, SE, percentage, window, `maxUses \|\| 2` and `current_uses` 0; nothing else changes |
| CouponController.GenerateResult | controllers/couponController.js:7-83 | 400 exactly when a required field is falsy; 404 exactly when the school or the SE (with their users) is missing; otherwise the code is the padded id and suffix, the one coupon is stored, and the e-mails reported are those of the found school's and SE's users; nothing is stored on an error |
| CouponController.GenerateCoupon | controllers/couponController.js:7-83 | the step-by-step handler computes exactly `GenerateResult` |
| CouponController.SchoolCouponDefaultsToTwoUses | controllers/couponController.js:57 | without `maxUses` the stored school coupon allows two uses |
| CouponController.ValidateSchoolCoupon | controllers/couponController.js:176-218 | None exactly when no `coupons` row has the code, joins its school, is current and has `current_uses < max_uses`; otherwise the percentage and school of such a row, and the `school_name` of a school with that id |
| CouponController.NullUsesDisagree | controllers/couponController.js:184-201 | a coupon with NULL `current_uses` is refused here yet redeemable at checkout |
| CouponController.CouponMailRecipients | controllers/couponController.js:85-159 | 400 exactly when the code, the school id or the SE id is falsy; 404 exactly when no school with the id is linked to that SE and joins a user, or no SE with the id joins a user; never 500; a found pair is a school with the id linked to that SE, and the SE row, with their users' e-mails |
| CouponController.GenerateStudentAsWritten | controllers/couponController.js:223-301 | as written: 400 exactly when a field is falsy, 404 exactly when the school is missing, never a generated coupon and never a state change |
| CouponController.StudentCouponNeverCreated | controllers/couponController.js:261-275 | for a complete request and an existing school the handler as written answers 500 and stores nothing |
| CouponController.InsertStudentCoupon | controllers/couponController.js:261-268 | the intended insert: exactly one `student_coupons` row under the next id with the school, no SE, the percentage, window, `maxUses \|\| 100` and `current_uses` 0 |
| CouponController.GenerateStudentResult | controllers/couponController.js:223-301 | intended handler: 400 and 404 as written; otherwise the `STU-` code is stored, the school's user's e-mail, its `school_name` and its student count are reported; nothing is stored on an error |
| CouponController.GenerateStudentCoupon | controllers/couponController.js:223-301 | the step-by-step intended handler computes exactly `GenerateStudentResult` |
| CouponController.StudentCouponRedeemable | controllers/couponController.js:256-268 | a generated student coupon sends a student of the school to the student pool, where it is redeemable inside its window |
| CouponController.StudentCouponDefaultsToHundredUses | controllers/couponController.js:267 | without `maxUses` a student coupon allows a hundred uses |
| CouponController.StudentMailRecipients | controllers/couponController.js:303-378 | intended handler: 400 exactly when the code or school id is falsy, 404 exactly when they are given and no school with the id joins a user; otherwise the recipients are the e-mail of that school's user and exactly the `StudentEmails` of the `students` table; never a 500 |
| CouponController.StudentEmails | controllers/couponController.js:339-346 | no more e-mails than the school has students |
| CouponController.StudentEmailsJoined | controllers/couponController.js:339-346 | one e-mail per student of the school whose user exists, in table order: the k-th e-mail is that of the k-th such student's user |
| CouponController.EveryStudentEmailed | controllers/couponController.js:339-346 | every student of the school whose user exists has their user's e-mail in the list |
| CouponController.StudentEmailsAppend | controllers/couponController.js:339-346 | the e-mails of two runs of students are the first run's followed by the second's: the list keeps table order |
| CouponController.StudentMailAsWritten | controllers/couponController.js:357-361 | as written: a 500 exactly where the intended handler finds recipients; the 400 and 404 answers are the intended ones |
| CouponController.StudentMailNeverSent | controllers/couponController.js:357-361 | for a request with a code and a school id whose school joins a user, recipients are found and the handler as written answers 500 |
| CouponallController.AlphabetCharacters | controllers/couponallController.js:5 | every character of the alphabet is an upper-case letter or a digit |
| CouponallController.DrawIndex | controllers/couponallController.js:8 | the index is inside the alphabet and, for a draw in [0, 1), is floor(draw × 36) |
| CouponallController.CodeChar | controllers/couponallController.js:8 | every drawn character is an upper-case letter or a digit |
| CouponallController.CodeOf | controllers/couponallController.js:7-9 | one character per draw, the k-th picked by the k-th draw |
| CouponallController.GenerateCouponCode | controllers/couponallController.js:4-11 | the loop builds exactly the eight characters the draws pick, each a letter or digit |
| CouponallController.DrawUnusedCode | controllers/couponallController.js:24-32 | the code returned is the first attempt whose code no row has, every earlier attempt collided; None only when every attempt collides |
| CouponallController.CreateCoupon | controllers/couponallController.js:14-49 | 400 exactly when a field is falsy; a created coupon has an unused code from the first free attempt, the request's fields and the next id, and is the one row appended; otherwise nothing changes |
| CouponallController.UserCoupons | controllers/couponallController.js:52-64 | exactly the rows that are named, current today and below their maximum (NULL uses excluded), taken from the table |
| CouponallController.CreatedCouponOffered | controllers/couponallController.js:35-58 | a coupon just created, current and allowing a use, is offered to every user |
| RewardController.BumpByCode | controllers/rewardController.js:29-33 | every row with the code has its uses raised by one (NULL stays NULL), every other row is unchanged |
| RewardController.TrackReward | controllers/rewardController.js:6-40 | one reward row with the six fields appended and every coupon with the code bumped; nothing else changes |
| RewardController.IncrementUnguarded | controllers/rewardController.js:29-33 | a coupon at its maximum is taken past it |
| RewardController.SchoolName | controllers/rewardController.js:53 | None exactly when no school has the id; a name found is that of a school with the id |
| RewardController.JoinSchools | controllers/rewardController.js:47-56 | no more rows than given; each is one of the SE's rows carrying the name of its school; and every SE row whose school exists appears with that name |
| RewardController.SeRewards | controllers/rewardController.js:47-56 | the SE's rows joined with a school, newest first, a permutation of the join |
| RewardController.SchoolIdsMembers | controllers/rewardController.js:61 | an id is in the set exactly when some row has it as its school id |
| RewardController.SeSummary | controllers/rewardController.js:59-67 | the order count is the number of the SE's rows and the school count the number of their distinct school ids; SUM and AVG are NULL exactly when there are no rows, and otherwise the sum of the discounts and the mean of the percentages |
| RewardController.DistinctAtMostCount | controllers/rewardController.js:61 | no more distinct school ids than rows |
| RewardController.SumDiscountAppend | controllers/rewardController.js:63 | the discount sum over two row lists is the sum of their sums |
| RewardController.RowsAfterTrack | controllers/rewardController.js:17-26 | an appended row joins its own SE's rows and no other's |
| RewardController.TrackedRewardInSummary | controllers/rewardController.js:6-67 | after tracking, the SE's summary has one more order and the discount added; every other SE's summary is unchanged |
| RewardController.ListWithinSummary | controllers/rewardController.js:47-67 | the joined list never has more rows than the summary counts |
| RewardController.JoinWithinFilter | controllers/rewardController.js:52-54 | the school join keeps at most the SE's rows |
| HotDealModel.Selected | models/HotDeal.js:6-10 | with the visibility filter only visible rows are selected; without it, every row |
| HotDealModel.GetAll | models/HotDeal.js:4-20 | the rows are the selection cut to the limit when the limit is truthy, the whole selection otherwise; with the filter all are visible |
| HotDealModel.Overwrite | models/HotDeal.js:25 | the overwritten row keeps its id |
| HotDealModel.UpdateRows | models/HotDeal.js:22-32 | same number of rows; exactly the rows with the id get the six new columns |
| HotDealModel.DeleteRows | models/HotDeal.js:46-53 | every row left lacks the id and was there before; every row without the id is kept |
| HotDealModel.Update | models/HotDeal.js:22-32 | only `hot_deals` changes, by `UpdateRows` |
| HotDealModel.Create | models/HotDeal.js:34-44 | one row with the six columns appended under the next id, which is returned |
| HotDealModel.Delete | models/HotDeal.js:46-53 | only `hot_deals` changes, by `DeleteRows` |
| HotDealModel.VisibleCount | controllers/hotDealController.js:42 | the visible count never exceeds the row count |
| HotDealModel.UpdateVisibleCount | controllers/hotDealController.js:42-56 | with unique ids, overwriting the row with the id changes the visible count by that row's change alone; an absent id changes nothing |
| HotDealController.GetHotDeals | controllers/hotDealController.js:17-25 | `admin=true` lists every deal; anything else lists at most four deals, all visible, the first four visible in table order |
| HotDealController.OrOld | controllers/hotDealController.js:48-53 | a given field wins, an absent or empty one keeps the stored column |
| HotDealController.ImagePath | controllers/hotDealController.js:30 | a path exactly when a file was uploaded, `/uploads/` followed by its name |
| HotDealController.Merged | controllers/hotDealController.js:47-54 | title, image, price and subcategory fall back to the stored column when falsy; the offer text only when absent; visibility is exactly `is_visible === 'true'` |
| HotDealController.FindDeal | controllers/hotDealController.js:38 | the deal found has the id `parseInt` gives; none found exactly when no deal has it |
| HotDealController.UpdateHotDeal | controllers/hotDealController.js:27-62 | 404 exactly when no deal has the id, 400 exactly when a hidden deal is asked to show with four visible, both with no change; otherwise the merged columns are written to that deal |
| HotDealController.UpdateKeepsCap | controllers/hotDealController.js:41-45 | an accepted update either does not raise the visible count or raises it by one to at most four |
| HotDealController.FifthVisibleRefused | controllers/hotDealController.js:43 | with four visible, showing a hidden deal is refused |
| HotDealController.OnlyStringTrueShows | controllers/hotDealController.js:41 | any `is_visible` other than the string 'true', a boolean true included, hides the deal on update |
| HotDealController.NewDeal | controllers/hotDealController.js:69-76 | visible exactly for 'true' or true; the offer text is stored only when truthy; the other fields as given |
| HotDealController.CreateHotDeal | controllers/hotDealController.js:64-81 | one row with the new deal's columns appended under the next id |
| HotDealController.CreateIgnoresCap | controllers/hotDealController.js:64-81 | creating a visible deal with four visible makes five: creation has no cap |
| HotDealController.DeleteHotDeal | controllers/hotDealController.js:83-91 | the rows with the parsed id go; an id that does not parse deletes nothing |
| ProductSlug.Dashed | controllers/productController.js:26 | the same length, each white-space character turned into '-' and every other one kept |
| ProductSlug.SquashKeepsOthers | controllers/productController.js:26 | shortening runs keeps every character outside them, in order |
| ProductSlug.SquashLeavesNoPair | controllers/productController.js:26 | after shortening runs, no two run characters stand side by side |
| ProductSlug.SquashIdentity | controllers/productController.js:26 | a string with no two run characters side by side is unchanged by shortening runs |
| ProductSlug.DashSpaces | controllers/productController.js:26 | no white space is left, every other character comes from the input, and a string without white space is unchanged |
| ProductSlug.DashSpacesSquashes | controllers/productController.js:26 | each white-space run becomes one '-' and every other character is kept, in order |
| ProductSlug.KeepWordChars | controllers/productController.js:26 | only word characters and dashes of the input are left, and a string of such characters is unchanged |
| ProductSlug.KeepWordCharsFilters | controllers/productController.js:26 | exactly the word characters and dashes of the input are kept, in order |
| ProductSlug.DashRun | controllers/productController.js:26 | the count is exactly the length of the leading run of dashes |
| ProductSlug.CollapseDashesSquashes | controllers/productController.js:26 | each run of dashes becomes one dash and every other character is kept, in order |
| ProductSlug.CollapseDashes | controllers/productController.js:26 | no two dashes in a row, characters from the input, a leading dash kept exactly when there was one, and a string without "--" unchanged |
| ProductSlug.CollapseKeepsOthers | controllers/productController.js:26 | collapsing dashes keeps every character other than '-', in order |
| ProductSlug.GenerateSlug | controllers/productController.js:25-26 | a slug is made of a-z, 0-9, `_` and `-` only, with no "--" |
| ProductSlug.SlugIgnoresOuterSpace | controllers/productController.js:26 | leading and trailing white space does not change the slug |
| ProductSlug.SlugOfWords | controllers/productController.js:26 | words of letters, digits and `_` separated by single white-space characters come out lower-cased, each separator a '-', nothing dropped |
| ProductSlug.NoSpaceTrim | controllers/productController.js:26 | trimming a string without white space changes nothing |
| ProductSlug.SlugFixedPoint | controllers/productController.js:25-26 | a string of slug characters without "--" is its own slug |
| ProductSlug.SlugIdempotent | controllers/productController.js:25-26 | slugging a slug changes nothing |
| ProductSlug.LeadingRun | controllers/productController.js:26 | a leading run of white space becomes a single dash |
| ProductSlug.LeadingSpacesOfRun | controllers/productController.js:26 | the leading white space of a run followed by a non-space is exactly the run |
| ProductSlug.SpaceRunToOneDash | controllers/productController.js:26 | a white-space run between two parts becomes exactly one dash, the part before copied |
| ProductController.IdOrNull | controllers/productController.js:34-48 | a truthy id is kept, a falsy one stored NULL |
| ProductController.AttributeMapSnoc | controllers/productController.js:51-54 | one more row of the `forEach` sets its value to its id, overwriting earlier rows |
| ProductController.BuildAttributeMap | controllers/productController.js:51-54 | the loop builds exactly the value-to-id map of the rows |
| ProductController.AttributeMapKeys | controllers/productController.js:51-54 | the map's keys are exactly the rows' values |
| ProductController.AttributeMapLast | controllers/productController.js:51-54 | a value maps to the id of its last row |
| ProductController.AttributeIds | controllers/productController.js:56-58 | at most one id per selected value, none of them 0, each the id of a selected value; when every value is known with a non-zero id, exactly those ids in order |
| ProductController.AttributeIdsAppend | controllers/productController.js:56-58 | the ids of concatenated selections are the concatenated ids |
| ProductController.AttributeRows | controllers/productController.js:45-67 | every row links the new product to a non-zero attribute; no rows unless the attributes are a list |
| ProductController.MapAttributes | controllers/productController.js:45-67 | the step-by-step attribute block computes exactly `AttributeRows` |
| ProductController.SelectionKeepsIds | controllers/productController.js:47-54 | restricting the rows to the selected values keeps each selected value's entry |
| ProductController.SelectionKeepsAttributeIds | controllers/productController.js:47-58 | the ids looked up are those of the whole `attributes` table |
| ProductController.ImageUrls | controllers/productController.js:117-120 | no more paths than image rows |
| ProductController.GroupConcat | controllers/productController.js:156 | NULL exactly when the product has no image |
| ProductController.SplitImages | controllers/productController.js:173 | NULL or '' gives an empty list |
| ProductController.ImagesRoundTrip | controllers/productController.js:156-173 | splitting the concatenation gives the paths back when none holds a comma, except that a single empty path reads as none |
| ProductController.ImageRows | controllers/productController.js:70-74 | one row per uploaded file, in upload order, for the product |
| ProductController.ImageRowsRead | controllers/productController.js:70-74 | reading back a new product's images gives the uploaded files in order |
| ProductController.FreshImageRowsRead | controllers/productController.js:70-74 | the image rows of the files read back as the files |
| ProductController.PrefixImage | controllers/productController.js:223-228 | the result starts with `http` or `/`; such a path is kept, any other gets the API host prefix |
| ProductController.PrefixIdempotent | controllers/productController.js:223-228 | prefixing twice is prefixing once |
| ProductController.CategoryName | controllers/productController.js:119 | a category name found belongs to a category with the product's category id; None exactly when the product has no category id or no category has it |
| ProductController.AllProducts | controllers/productController.js:99-136 | one listing per product, in table order (see Left out), whose category is the LEFT JOIN's name for it and whose images read back as the product's paths |
| ProductController.ProductById | controllers/productController.js:139-192 | 400 exactly when the id does not parse, 404 exactly when no product has it; a found product is in the table with that id, with the LEFT JOIN's category name and its image paths split from their concatenation |
| ProductController.ProductBySlug | controllers/productController.js:336-382 | never 400; 404 exactly when no product has the slug; a found product is in the table with that slug, with the LEFT JOIN's category name and its image paths split from their concatenation |
| ProductController.Formatted | controllers/productController.js:219-237 | the product is kept; the images are the product's stored paths, split, each prefixed by `PrefixImage` (a path not starting with `http` or `/` gets `http://localhost:5000/`, the others unchanged), so every image starts with `http` or `/`; the discount is `parseInt(...) \|\| 0` |
| ProductController.TrendingByAge | controllers/productController.js:210-212 | exactly as many products as are trending, each trending and in the table, newest first |
| ProductController.NewestTrending | controllers/productController.js:210-213 | the trending count capped at five, each trending and in the table, newest first |
| ProductController.TopTrending | controllers/productController.js:195-244 | 404 exactly when no product is trending; otherwise the k-th item is the k-th of the newest five trending products, formatted by `Formatted` |
| ProductController.TopTrendingOrder | controllers/productController.js:195-244 | every listed product is trending and in the table, newest first |
| ProductController.FormatAll | controllers/productController.js:219-237 | each product formatted, in order |
| ProductController.FilterCount | controllers/productController.js:210 | a filter keeps exactly as many elements as satisfy the predicate |
| ProductController.CreateSlug | controllers/productController.js:28 | a non-empty slug is kept; otherwise the name's slug, and a failure without a name |
| ProductController.CreateProduct | controllers/productController.js:5-96 | 500 with nothing stored exactly when there is no slug or the attributes do not parse; otherwise one product under the next id, its attribute rows and its image rows, committed together |
| ProductController.EmptySlugRules | controllers/productController.js:28-302 | an empty slug is regenerated on create (`\|\|`) but kept on update (`??`) |
| ProductController.UpdateSlug | controllers/productController.js:302 | any given slug, empty included, is kept; otherwise the name's slug, and a failure without a name |
| ProductController.Updated | controllers/productController.js:304-307 | the seven columns come from the body with their defaults; id, creation time, discount and category ids are kept |
| ProductController.UpdateProducts | controllers/productController.js:304-307 | exactly the products with the id are updated |
| ProductController.UnknownIdUnchanged | controllers/productController.js:304-307 | an update of an id no product has changes no product |
| ProductController.OtherImages | controllers/productController.js:258 | exactly the image rows of other products are kept |
| ProductController.OtherAttributes | controllers/productController.js:259 | exactly the attribute rows of other products are kept |
| ProductController.UpdateProduct | controllers/productController.js:278-333 | 400 exactly when the id does not parse, 500 with nothing changed exactly when there is no slug; otherwise the products updated and, with uploads, the product's images replaced by the new ones |
| ProductController.DeleteProduct | controllers/productController.js:246-276 | 400 exactly when the id does not parse, 404 with nothing changed exactly when no product has it; otherwise the product, its images and its attributes go |
| ProductController.UpdateTrendingStatus | controllers/productController.js:385-438 | 400 for a bad id, 500 without the flag, 404 for an unknown id, each with no change; otherwise exactly the flag of the product with the id is written and that product returned |
| CategoryController.NewSubcategories | controllers/categoryController.js:43-48 | one row per requested subcategory, the k-th with id `insertId + k`, the category as parent and the trimmed name |
| CategoryController.TrimmedUnder | controllers/categoryController.js:55-57 | one pair per name, all under the subcategory's id |
| CategoryController.TrimmedUnderNames | controllers/categoryController.js:55-57 | the k-th pair holds the k-th name trimmed |
| CategoryController.SubSubGroups | controllers/categoryController.js:52-59 | the i-th group holds the i-th subcategory's names trimmed under id `insertId + i` |
| CategoryController.CollectSubSubValues | controllers/categoryController.js:51-59 | the nested loop collects exactly the groups, concatenated in input order |
| CategoryController.PushTrimmed | controllers/categoryController.js:55-57 | the inner loop pushes exactly the trimmed names under the id |
| CategoryController.SubSubPairsRange | controllers/categoryController.js:52-59 | every collected pair names one of the new subcategories |
| CategoryController.SubSubPairsOfSub | controllers/categoryController.js:52-59 | the pairs under the i-th new subcategory are exactly its names, trimmed, in the order given |
| CategoryController.Numbered | controllers/categoryController.js:61-66 | one row per pair with consecutive ids from the first insert id |
| CategoryController.InsertSubcategories | controllers/categoryController.js:42-68 | the two batch inserts, each skipped when empty, append the new subcategories and their sub-subcategories |
| CategoryController.AddCategory | controllers/categoryController.js:4-90 | 400 exactly for an invalid name or one taken in any case; 500 exactly when a subcategory has no string name; otherwise the trimmed category and its whole tree are committed under the next ids; nothing changes on an error |
| CategoryController.AddKeepsHierarchy | controllers/categoryController.js:33-68 | an added category keeps every subcategory under a category and every sub-subcategory under a subcategory |
| CategoryController.AddedSubcategoriesUnderCategory | controllers/categoryController.js:43-48 | every subcategory after the add lies in an existing category |
| CategoryController.AddedSubSubcategoriesUnderSubcategory | controllers/categoryController.js:51-66 | every sub-subcategory after the add lies under an existing subcategory |
| CategoryController.RowsUnderNewSubcategories | controllers/categoryController.js:53 | rows appended under consecutively numbered new subcategories hang under one of them |
| CategoryController.AddKeepsNamesDistinct | controllers/categoryController.js:21-31 | category names stay distinct ignoring case |
| CategoryController.AddedSubcategoryRows | controllers/categoryController.js:39-48 | the i-th stored subcategory has id `insertId + i`, the new category as parent and the trimmed name |
| CategoryController.StoredSubcategories | controllers/categoryController.js:43-48 | the new subcategories are appended after the existing ones |
| CategoryController.AddSubcategory | controllers/categoryController.js:92-146 | 404 exactly without the category, 500 without a name, 400 exactly for a name the category has; otherwise one subcategory appended under the next id; nothing changes on an error |
| CategoryController.AddSubcategoryKeepsInvariants | controllers/categoryController.js:92-146 | an added subcategory keeps the hierarchy and the distinct sibling names |
| CategoryController.RenameSubcategory | controllers/categoryController.js:430-482 | exactly the rows with the id get the new name |
| CategoryController.UpdateSubcategory | controllers/categoryController.js:430-482 | 404 exactly when the subcategory is not in the category, 500 without a name, 400 exactly for a name another sibling has; otherwise only the name is written |
| CategoryController.RenameKeepsSiblingsDistinct | controllers/categoryController.js:430-482 | an accepted rename keeps sibling names distinct |
| CategoryController.DeleteSubcategory | controllers/categoryController.js:204-242 | 404 exactly when the subcategory is not in the category, with no change; otherwise its rows go |
| CategoryController.DeleteLeafSubcategoryKeepsHierarchy | controllers/categoryController.js:204-242 | deleting a subcategory with nothing under it keeps the hierarchy |
| CategoryController.AddSubSubcategory | controllers/categoryController.js:148-202 | 404 exactly when the subcategory is not in the category, 500 without a name, 400 exactly for a name the subcategory has; otherwise one row appended under the next id |
| CategoryController.AddSubSubcategoryKeepsHierarchy | controllers/categoryController.js:148-202 | an added sub-subcategory keeps the hierarchy |
| CategoryController.RenameSubSubcategory | controllers/categoryController.js:485-540 | exactly the rows with the id get the new name |
| CategoryController.UpdateSubSubcategory | controllers/categoryController.js:485-540 | 404 exactly on a broken category–subcategory–sub-subcategory chain, 500 without a name, 400 exactly for a name another sibling has; otherwise only the name is written |
| CategoryController.DeleteSubSubcategory | controllers/categoryController.js:244-285 | 404 exactly on a broken chain, with no change; otherwise its rows go |
| CategoryController.DeleteSubSubcategoryKeepsHierarchy | controllers/categoryController.js:244-285 | deleting sub-subcategories never breaks the hierarchy |
| CategoryController.RenameCategory | controllers/categoryController.js:362-401 | exactly the rows with the id get the new name |
| CategoryController.UpdateCategory | controllers/categoryController.js:362-401 | 500 exactly without a name, 400 exactly for a name another category has; otherwise the rename is written, even for an unknown id |
| CategoryController.RenameUnknownCategory | controllers/categoryController.js:362-401 | renaming an unknown id changes no category |
| CategoryController.DeleteCategory | controllers/categoryController.js:403-428 | always succeeds; the rows with the id go and nothing else changes |
| CategoryController.DeleteEmptyCategoryKeepsHierarchy | controllers/categoryController.js:403-428 | deleting a category without subcategories keeps the hierarchy |
| IndexObjects.LeastExists | controllers/categoryController.js:341-343 | a set of ids holding one at most n has a least id |
| IndexObjects.MinKey | controllers/categoryController.js:341-343 | the least key of a non-empty key set |
| IndexObjects.SortedKeys | controllers/categoryController.js:341-343 | the keys of an object in enumeration order: each once, strictly ascending |
| IndexObjects.ValuesOf | controllers/categoryController.js:341-343 | one entry per key, in the keys' order |
| IndexObjects.ValuesInKeyOrder | controllers/categoryController.js:341-343 | `Object.values` of an object whose entries record their own keys lists every key once, strictly ascending |
| CategoryTree.AddToSubs | controllers/categoryController.js:320-336 | the row's subcategory is added (named by its first row) and its sub-subcategory pushed when present; other subcategories are untouched and every node stays under its own id |
| CategoryTree.Step | controllers/categoryController.js:309-338 | the row's category is created on its first row with that row's name; only its subcategories change, and only when the row has a subcategory |
| CategoryTree.Group | controllers/categoryController.js:309-338 | every category and subcategory of the fold sits under its own id |
| CategoryTree.GroupRows | controllers/categoryController.js:309-338 | the reduce, row by row, builds exactly `Group` |
| CategoryTree.Format | controllers/categoryController.js:342-343 | the id and name are kept and the subcategories become `Object.values` of their object |
| CategoryTree.FormatAll | controllers/categoryController.js:341-344 | each category formatted, in order |
| CategoryTree.GetCategories | controllers/categoryController.js:288-360 | the response is the fold of the rows with both levels turned into arrays |
| CategoryTree.LeavesOf | controllers/categoryController.js:330-335 | no more leaves than rows |
| CategoryTree.GroupCategoryIds | controllers/categoryController.js:311-317 | one category entry exactly per category id among the rows |
| CategoryTree.FormattedIds | controllers/categoryController.js:341-344 | the formatted categories are the fold's keys, each once, strictly ascending |
| CategoryTree.CategoriesAscending | controllers/categoryController.js:305-344 | the response lists one category per category id of the rows, by ascending id, whatever the ORDER BY |
| CategoryTree.CategoryNameFromFirstRow | controllers/categoryController.js:311-317 | a category takes its name from the first row that carries its id |
| CategoryTree.GroupSubcategoryIds | controllers/categoryController.js:320-327 | a category's subcategories are exactly the truthy subcategory ids of its rows |
| CategoryTree.GroupLeaves | controllers/categoryController.js:330-335 | a subcategory lists the truthy sub-subcategories of its rows, in row order, one per row |
| CategoryTree.LeavesWithoutRows | controllers/categoryController.js:330-335 | without a row for the subcategory there is no leaf under it |
| CategoryTree.SubcategoryNameFromFirstRow | controllers/categoryController.js:321-327 | a subcategory takes its name from the first row that carries it under the category |
| CategoryTree.SubcategoriesAscending | controllers/categoryController.js:320-343 | a category's subcategories come out one per distinct subcategory id of its rows, by ascending id |
| CartRoutes.QuantityAppend | routes/cartRoutes.js:36-51 | a pair's quantity over two line lists is the sum of its quantities in each |
| CartRoutes.GuestCart | routes/cartRoutes.js:32 | a truthy session cart id is used as is; otherwise a key `guest_` followed by the clock |
| CartRoutes.AddQuantity | routes/cartRoutes.js:42-45 | same number of lines; exactly the line with the id is raised by the quantity |
| CartRoutes.AddToCart | routes/cartRoutes.js:8-58 | 404 with no change exactly when no product has the id; otherwise the cart is found or created and the pair's line raised or inserted |
| CartRoutes.FindOrCreateCart | routes/cartRoutes.js:21-29 | a user with a cart reuses it with no change; a user without one gets exactly one new cart numbered with the next id |
| CartRoutes.AddQuantityEffect | routes/cartRoutes.js:42-45 | with unique line ids, raising one line adds to its own pair only |
| CartRoutes.AddLineQuantities | routes/cartRoutes.js:36-51 | `/add` raises exactly its pair's quantity by the amount, creating the line when missing, and no other pair's |
| CartRoutes.AddKeepsLinesValid | routes/cartRoutes.js:21-51 | `/add` keeps line ids a key below the next id and one line per pair |
| CartRoutes.RemoveFromCart | routes/cartRoutes.js:61-82 | 404 with no change exactly when the user has no cart; otherwise the pair's lines in the user's cart go |
| CartRoutes.RemoveQuantities | routes/cartRoutes.js:72-75 | removal takes the pair's quantity to 0 and leaves every other pair's |
| CartRoutes.SetQuantity | routes/cartRoutes.js:90-93 | exactly the pair's lines get the new quantity |
| CartRoutes.UpdateQuantity | routes/cartRoutes.js:84-98 | 404 with no change exactly when the user has no cart; otherwise the pair's lines in the user's cart get the quantity |
| CartRoutes.SetQuantities | routes/cartRoutes.js:90-93 | with one line per pair, the pair's quantity becomes exactly the new one if it has a line and stays 0 otherwise; other pairs keep theirs |
| CartRoutes.ImageRows | routes/cartRoutes.js:116 | the LEFT JOIN gives at least one row per product |
| CartRoutes.ForwardSlashes | routes/cartRoutes.js:135 | same length, no backslash left, every other character kept |
| CartRoutes.AddRow | routes/cartRoutes.js:124-138 | the row's product entry is created from its first row and a truthy image pushed with forward slashes; other entries are untouched |
| CartRoutes.Grouped | routes/cartRoutes.js:123-138 | every entry sits under its own product id |
| CartRoutes.GroupRows | routes/cartRoutes.js:123-138 | the loop builds exactly `Grouped` |
| CartRoutes.GetCart | routes/cartRoutes.js:101-146 | no cart gives no items; otherwise the cart's rows grouped, by ascending product id |
| CartRoutes.ImagesOf | routes/cartRoutes.js:134-135 | no image path holds a backslash |
| CartRoutes.GroupedProducts | routes/cartRoutes.js:125-133 | one entry exactly per product id among the rows |
| CartRoutes.GroupedImages | routes/cartRoutes.js:134-135 | a product's images are its rows' truthy urls in row order, slashes turned forward |
| CartRoutes.NoImagesWithoutRows | routes/cartRoutes.js:134-135 | a product without rows has no images |
| CartRoutes.GroupedFirstRow | routes/cartRoutes.js:125-133 | name, price and quantity come from the product's first row |
| CartRoutes.ItemsAscending | routes/cartRoutes.js:140 | the response lists each product of the rows once, by ascending id |
| CartModel.Row | models/cartModel.js:13 | a row found has the id and is in the table; None exactly when no row has it |
| CartModel.RowAt | models/cartModel.js:13 | with unique ids, an id finds the row that carries it |
| CartModel.AddQuantity | models/cartModel.js:18-22 | exactly the rows with the id are raised by the quantity |
| CartModel.SetQuantity | models/cartModel.js:34-40 | exactly the rows with the id get the quantity |
| CartModel.AddToCart | models/cartModel.js:9-32 | a failed lookup writes nothing; otherwise the id's row is raised or the item appended |
| CartModel.UpdateCartItem | models/cartModel.js:34-40 | an error writes nothing; otherwise the id's rows get the quantity |
| CartModel.RemoveCartItem | models/cartModel.js:42-44 | an error writes nothing; otherwise the id's rows go |
| CartModel.GetCartItems | models/cartModel.js:4-6 | None exactly on an error; otherwise every row as stored |
| CartModel.SameIds | models/cartModel.js:18-40 | rewriting fields other than the id keeps the ids a key and every other id's row |
| CartModel.RaiseExistingRow | models/cartModel.js:16-22 | adding a present id raises that row's quantity, keeps its other columns, no other row changes and ids stay a key |
| CartModel.AppendNewRow | models/cartModel.js:23-29 | adding a new id stores the item as given, no other row changes and ids stay a key |
| CartModel.UpdateRows | models/cartModel.js:34-40 | the id's quantity becomes exactly the value, nothing is inserted, other rows are unchanged |
| CartModel.RemoveRows | models/cartModel.js:42-44 | the id's row goes and every other id's row stays |
| CartModel.FilterKeepsUniqueIds | models/cartModel.js:42-44 | deleting rows keeps the ids a key |
| CartModel.ConsUnique | models/cartModel.js:23-29 | a row whose id is new can join a keyed table |
| CartController.GetCart | controllers/cartController.js:4-9 | 500 on an error; otherwise every row |
| CartController.AddCartItem | controllers/cartController.js:12-22 | 400 with no change exactly when a field is falsy; a store error is 500 with no change; otherwise the body merged into the table |
| CartController.UpdateCartItem | controllers/cartController.js:25-33 | 400 with no change exactly for a falsy quantity; a store error is 500; otherwise the id's rows get the quantity |
| CartController.RemoveCartItem | controllers/cartController.js:36-41 | a store error is 500 with no change; otherwise the id's rows go |
| OtpGenerator.Pow10 | utils/otpGenerator.js:3 | every power of ten is at least 1 |
| OtpGenerator.DigitCount | utils/otpGenerator.js:3 | a number from 10^(k-1) to 10^k − 1 is written with exactly k digits |
| OtpGenerator.GenerateOtp | utils/otpGenerator.js:3 | every OTP lies from 100000 to 999999 |
| OtpGenerator.SixDigits | utils/otpGenerator.js:3 | every OTP is written with exactly six digits, the first not 0 |
| OtpGenerator.OtpStore.constructor | utils/otpGenerator.js:1 | the store starts empty |
| AuthController.SendOtp | controllers/authController.js:5-23 | the OTP is a generated one and replaces any earlier entry for the email whether or not the mail fails; a mail failure is a 500 |
| AuthController.VerifyOtp | controllers/authController.js:25-34 | success exactly when a truthy OTP is stored for the email and equals `parseInt` of the code; success removes the entry, failure is a 400 and changes nothing |
| AuthController.SentOtpVerifiesOnce | controllers/authController.js:7-29 | the code sent verifies, and after that no code verifies for the email until another is sent |
| AuthController.OnlyLatestOtp | controllers/authController.js:7-8 | after two sends only the later code is accepted |
| ReviewController.TextRatingPassesAsWritten | controllers/reviewController.js:31 | as written, a body whose rating is the text "x" passes every check though it is no rating from 1 to 5 |
| ReviewController.XIsNaN | controllers/reviewController.js:31 | the text "x" converts to NaN |
| ReviewController.GuardError | controllers/reviewController.js:22-36 | corrected validation: no error exactly when userId, username, productId and comment are truthy and the rating is a number from 1 to 5 |
| ReviewController.RatingChecksAgreeOnNumbers | controllers/reviewController.js:31 | a rating the written check refuses is out of range, and one it lets through is in range or not a number |
| ReviewController.CreateReview | controllers/reviewController.js:16-44 | intended handler (see Findings): the first failing guard, in the source's order, is the 400; the store is called only when all pass; a stored review carries the body's values under the new id; a store error is a 500 |
| ReviewController.CreateReviewAsWritten | controllers/reviewController.js:16-44 | as written: a 400 with the first error of the written guards; otherwise the body's values are stored under the new id, or a store error is a 500 |
| ReviewController.TextRatingStoredAsWritten | controllers/reviewController.js:31 | as written the rating "x" is stored with a 201, where the intended handler answers 400 |
| ReviewController.HandlersAgreeOnNumbers | controllers/reviewController.js:31 | on every rating that converts to a number, the handler as written and the intended one answer alike |
| UserController.RegistrationError | controllers/userController.js:29-41 | no error exactly when the common fields and the fields the user type needs are all present; missing common fields give "All required fields must be provided" |
| UserController.NewUser | controllers/userController.js:50-53 | the stored user gets the next id, the request's email and type, and the SE role only for an SE |
| UserController.RegisterUser | controllers/userController.js:5-80 | a validation error, an already registered email or a failing query ends in an error and the transaction rolls back; otherwise the user row and its type row are committed and the new id is answered |
| UserController.RegistrationKeepsEmailsUnique | controllers/userController.js:43-62 | after a registration that passed the email check the emails stay unique, the new email has exactly one row, and a new school starts with zero reward points |
| UserController.BuildUpdate | controllers/userController.js:336-366 | no query (400) exactly when no field is given; otherwise the SET list joins the assignments and the values are the assignments' values followed by the id |
| UserController.UpdatesListProvidedFields | controllers/userController.js:344-359 | first name, last name and email are listed exactly when not undefined, the password exactly when truthy |
| UserController.UpdatesInOrder | controllers/userController.js:344-359 | the assignments keep the order first_name, last_name, email, password |
| UserController.ValuesFollowUpdates | controllers/userController.js:341-359 | the parameter at each position is the value of the assignment at that position |
| UserController.CartKeysOf | controllers/userController.js:605-607 | the cart keys collected are exactly those of the user's carts |
| UserController.Unlink | controllers/userController.js:599 | every school keeps its row, and the ones linked to the employee id lose the link |
| UserController.DeleteUser | controllers/userController.js:541-635 | an unknown id is "User not found"; a failure rolls everything back; otherwise the whole cascade is committed |
| UserController.DeletionRemovesUserRows | controllers/userController.js:558-624 | no user, usage log, cart, cart item of the user's carts or wishlist row of the deleted user is left, and every other user's rows remain |
| UserController.DeletionOfSchool | controllers/userController.js:566-583 | deleting a school removes its students, student coupons, coupons and school row, keeping the other schools |
| UserController.DeletionOfSe | controllers/userController.js:584-601 | deleting an SE removes its redeem requests, coupons and se row, and every school stays but without a link to its employee id |
| UserController.Touch | controllers/userController.js:380-382 | only the pair's row gets the new timestamp; the table keeps its length |
| UserController.AddToWishlist | controllers/userController.js:375-390 | a failure changes nothing; otherwise the pair's row is touched or a new row is appended |
| UserController.WishedKeepsOneRow | controllers/userController.js:379-384 | adding a pair keeps one row per pair, and the pair then has exactly one row |
| UserController.RemoveFromWishlist | controllers/userController.js:426-438 | 500 exactly when the DELETE fails; 404 exactly when the pair has no row; otherwise the pair's rows are deleted and nothing else changes |
| UserController.RemovedPairRows | controllers/userController.js:430-434 | the delete removes exactly the pair's rows and leaves none of them |

## Left out

- Mail delivery: nodemailer, the coupon e-mails, the OTP mail and its text. The model keeps only the look-ups that pick the recipients, and the OTP is stored before any mail is sent.
- bcrypt is the `hashed` parameter. The UUID, `Math.random`, `Date.now`, `CURRENT_TIMESTAMP` and `CURDATE()` are parameters too.
- Concurrency between requests, such as two checkouts racing on `current_uses` or on a balance, is not modelled. Each handler is one sequential, all-or-nothing step.
- Database faults: each query that can fail has a `fails`/fault parameter. Faults of any other statement are not modelled.
- Foreign keys and `ON DELETE` actions are not modelled.
- MySQL's case-insensitive collation is treated as exact equality, except where the code uppercases or lowercases itself.
- Case mapping covers ASCII only.
- Money is modelled as exact `real`s. IEEE floating point and the rounding of DECIMAL columns are not modelled.
- The order's items are stored as the list itself. Their JSON text and `JSON.parse` are not modelled.
- `DATE()` formatting is not modelled.
- Object keys such as `__proto__` are not modelled.
- Path parameters that must be ids are taken as natural numbers. The hot-deal update and delete bind the raw id string, which MySQL casts; the model uses `parseInt` instead.
- The product attribute column and its value lists are simplified to id mapping through the attributes table.
- In the category tree, sub-subcategory list elements are taken to be strings.
- The `getCategories` SQL join and ORDER BY are not modelled: the joined rows are a parameter.
- The cart GET join's rows come in table order, `cart_items` by `products`. The order MySQL actually returns them in, which the SQL leaves unspecified, is not modelled.
- `carts` has one user column in the model, `Cart.userId`. The source names it `userId` in routes/cartRoutes.js but `user_id` in controllers/CheckoutController.js and controllers/userController.js; the model does not capture that both names cannot refer to one column.
- `cart_items` is one MySQL table in the source, but the model keeps it as two tables. `Tables.cartItems` holds the lines the cart routes, the checkout and the user deletion use (`cartId`, `productId`, `quantity`). `Tables.cartModelItems` holds the rows models/cartModel.js and models/CheckoutModel.js use (`id`, `name`, `price`, `quantity`, `image`). The model therefore does not capture that the cart model's GET and `CheckoutModel.CartItemsWithPrices` would also list the cart routes' lines, that the cart model's remove-by-id could delete one of them, or that the checkout's cart clearing and the user deletion never reach the cart model's rows.
- `coupons` is one MySQL table in the source, but the model keeps it as two tables. `Tables.coupons` holds the rows the coupon controller and the checkout use (`code`, `school_id`, `current_uses`). `Tables.appCoupons` holds the rows controllers/couponApplicationController.js reads (`coupon_code`, `minimum_order`). The model therefore does not capture that a coupon the coupon controller generates is one that `applyCoupon` could look up, or the reverse.
- A guest cart key made only of digits is not distinguished from a numeric cart id.
- The cart body's fields are taken as the column values they are stored as.
- Wishlist ids are natural numbers.
- `CartRoutes.RemoveFromCart`: `productId` is a natural number, so a missing one cannot be expressed. In the source it binds as NULL, the DELETE matches no line, and the route still answers 200.
- `ProductController.GroupConcat`: `GROUP_CONCAT(pi.image_url)` has no ORDER BY, so MySQL leaves the order of the paths unspecified; the model uses `product_images` table order. The result is also cut at `group_concat_max_len` (1024 bytes by default), which the model does not do, so `ImagesRoundTrip` does not hold on the server for a product whose joined paths are longer.
- `ProductController.AllProducts`: `getAll` groups by `p.id` without ORDER BY, so MySQL leaves the order of the products unspecified; the model lists them in table order.
- `ProductController.IdOrNull`: body ids are natural numbers, with 0 standing for a missing or falsy one. `createProduct` reads multipart form data, so `categoryId` arrives as text, and the text "0" is truthy and stored; the model turns 0 into NULL.
- `CouponController.InsertSchoolCoupon`: the INSERT of models/coupons.js leaves `name` and `is_active` to the column defaults; the model writes no name and active, taking those to be the defaults.
- `CouponController.InsertStudentCoupon`: the intended row takes `name` and `is_active` the same way, as no name and active.
- `getWishlist` and its image split are not modelled. Its comma split is the one `ProductController.SplitImages` models.
- Getting reviews and the other one-statement CRUD handlers and models are not modelled. Neither are the upload-driven category controller, routing, server setup, the JWT authentication controller and logging.
- `CouponController.GenerateResult`: does not model the 500 answered when the coupon insert itself fails.
- `CartModel.AddToCart`: models an error of the first query only. An error of the UPDATE or INSERT that follows is not modelled.
- `CouponallController.CreateCoupon`: the retry loop, which in the source has no bound, is bounded by the supplied list of random draws, and running out of draws is its own outcome. The read-back SELECT and the 500 path are not modelled.
- `UserController.RegisterUser`: `fails` stands for a failure of the inserts only. A failure of the email SELECT is not modelled; in the source it answers 500 with the query's error, even for an email that is already registered. An SE's `redeem_points` starts at 0, the column default. The `!schoolResult.insertId` check is not modelled, because an insert that succeeds always yields an id.
- `UserController.DeleteUser`: the final `affectedRows === 0` check is not modelled, because the user's row was found earlier in the same transaction.
- `CouponallController.CreateCoupon`: the INSERT leaves `current_uses` and `is_active` to the column defaults; the model writes 0 and true, taking those to be the defaults. The schema is not part of this model.
- `CouponallController.CreatedCouponOffered`: holds only under those assumed defaults, 0 uses and active.
- `ProductController.CreateProduct`: whether `JSON.parse(selectedAttributes)` throws is the free parameter `attributesParse`. It is not tied to the text of the attribute list: a list such as `[]` or `["Red","Blue"]` sent as form data turns into text that does not parse.
- `JsValues.ToNumber`: every object, arrays included, converts to NaN. JavaScript converts an array through its string, so `Number([])` is 0 and `Number([3])` is 3. So `ReviewController.RatingRejectedAsWritten`, `ReviewController.TextRatingPassesAsWritten` and `ReviewController.CreateReviewAsWritten` let the rating `[]` through, where the source refuses it.
- `JsValues.ParseInt`: a digit run too long for a double, more than 309 decimal digits, is an exact integer here, where JavaScript yields Infinity.
- `ProductSlug.DashSpaces`: its own ensures state only the shape of the result. That each white-space run becomes one '-' with every other character kept in order is the lemma `ProductSlug.DashSpacesSquashes`.
- `ProductSlug.KeepWordChars`: its own ensures state only the shape of the result. That exactly the word characters and dashes are kept, in order, is the lemma `ProductSlug.KeepWordCharsFilters`.
- `ProductSlug.CollapseDashes`: its own ensures state only the shape of the result. That each dash run becomes one dash with every other character kept in order is the lemma `ProductSlug.CollapseDashesSquashes`.
- `CouponController.StudentEmails`: its own ensures state only a bound on the number of e-mails. Which e-mails it returns, and in what order, is the lemma `CouponController.StudentEmailsJoined`.
- `UserController.BuildUpdate`: the model stops at the statement and its parameters. Neither the UPDATE's effect on the `users` row nor its 500 path is modelled.

## Findings

| source | as written | input that shows it | evidently intended | confidence | as-written member | corrected member |
|---|---|---|---|---|---|---|
| controllers/couponController.js:261 | `generateStudentCoupon` calls `createStudentCoupon`, imported from models/coupons.js, which does not export it, so the call throws | any valid request for an existing school, e.g. schoolId 7 with discount 10 and a valid window | a `student_coupons` row with the `STU-` code is inserted and returned | not executed | CouponController.StudentCouponNeverCreated | CouponController.GenerateStudentResult |
| controllers/reviewController.js:31 | `rating < 1 \|\| rating > 5` lets a non-numeric rating through, because every comparison with NaN is false | rating "x" | only ratings from 1 to 5 are accepted | not executed | ReviewController.TextRatingStoredAsWritten | ReviewController.CreateReview |
| controllers/couponController.js:357 | `sendStudentCouponEmail` calls `sendStudentCouponNotification`, which the file neither defines nor imports, so the call throws and the handler answers 500 | any request with a code and the id of a school that joins a user | the mail goes out and the school's e-mail and student count are answered with a 200 | not executed | CouponController.StudentMailNeverSent | CouponController.StudentMailRecipients |
