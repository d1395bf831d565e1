/**
 * controllers/couponallController.js: universal coupons (`couponsall`): a
 * random eight-character code, drawn again until no row has it, and the
 * list of coupons currently on offer.
 *
 * `Math.random()` is the parameter `draws`: the values it returns, in order,
 * each in [0, 1) (a value outside is clamped to the nearest character).
 */
module CouponallController {
  import opened Wrappers
  import opened Schema

  const Alphabet: string := "ABCDEFGHIJKLMNOPQRSTUVWXYZ0123456789"

  predicate ValidDraw(x: real) { 0.0 <= x < 1.0 }

  /** An upper-case ASCII letter or a decimal digit. */
  predicate CodeCharacter(c: char) { 'A' <= c <= 'Z' || '0' <= c <= '9' }

  lemma AlphabetCharacters(i: nat)
    requires i < |Alphabet|
    ensures CodeCharacter(Alphabet[i])
  {
  }

  /** `Math.floor(x * chars.length)` for a draw `x`. */
  function DrawIndex(x: real): (i: nat)
    ensures i < |Alphabet|
    ensures ValidDraw(x) ==> i == (x * 36.0).Floor
  {
    var i := (x * 36.0).Floor;
    if i < 0 then 0 else if i >= |Alphabet| then |Alphabet| - 1 else i
  }

  /** `chars.charAt(Math.floor(x * chars.length))`. */
  function CodeChar(x: real): (c: char)
    ensures CodeCharacter(c)
  {
    AlphabetCharacters(DrawIndex(x));
    Alphabet[DrawIndex(x)]
  }

  /** The characters the draws pick, in order. */
  function CodeOf(draws: seq<real>): (r: string)
    ensures |r| == |draws|
    ensures forall k :: 0 <= k < |r| ==> r[k] == CodeChar(draws[k])
  {
    if |draws| == 0 then "" else CodeOf(draws[..|draws| - 1]) + [CodeChar(draws[|draws| - 1])]
  }

  /** `generateCouponCode`: eight characters, each drawn from A-Z and 0-9. */
  method GenerateCouponCode(draws: seq<real>) returns (code: string)
    requires |draws| == 8
    ensures code == CodeOf(draws)
    ensures |code| == 8 && forall k :: 0 <= k < 8 ==> CodeCharacter(code[k])
  {
    code := "";
    for i := 0 to 8
      invariant code == CodeOf(draws[..i])
    {
      assert draws[..i + 1][..i] == draws[..i];
      code := code + [CodeChar(draws[i])];
    }
    assert draws[..8] == draws;
  }

  /** The request body of `createCoupon`; a missing or falsy field is "", 0 or None. */
  datatype CouponRequest = CouponRequest(
    name: string, discountPercentage: real, validFrom: Option<int>, validUntil: Option<int>, maxUses: int)

  predicate HasAllFields(req: CouponRequest) {
    req.name != "" && req.discountPercentage != 0.0 && req.validFrom.Some? && req.validUntil.Some? && req.maxUses != 0
  }

  predicate CodeTaken(rows: seq<Coupon>, code: string) {
    exists k :: 0 <= k < |rows| && rows[k].code == code
  }

  datatype CreateOutcome =
    | MissingFields        // 400
    | Created(row: Coupon) // 201
    | DrawsExhausted       // every supplied attempt collided

  /** The INSERT INTO couponsall of the six fields; `current_uses` starts at 0. */
  function NewUniversalCoupon(id: nat, req: CouponRequest, code: string): Coupon
    requires HasAllFields(req)
  {
    Coupon(id, code, Some(req.name), None, None, req.discountPercentage,
           req.validFrom.value, req.validUntil.value, req.maxUses, Some(0), true)
  }

  /**
   * The loop of `createCoupon`: codes drawn attempt after attempt until one
   * has no row in `rows`; None when every supplied attempt collides.
   */
  method DrawUnusedCode(rows: seq<Coupon>, attempts: seq<seq<real>>) returns (r: Option<string>)
    requires forall a :: 0 <= a < |attempts| ==> |attempts[a]| == 8
    ensures r.Some? ==> exists a :: 0 <= a < |attempts| && r.value == CodeOf(attempts[a])
                                    && forall b :: 0 <= b < a ==> CodeTaken(rows, CodeOf(attempts[b]))
    ensures r.Some? ==> !CodeTaken(rows, r.value)
    ensures r.None? ==> forall a :: 0 <= a < |attempts| ==> CodeTaken(rows, CodeOf(attempts[a]))
  {
    var code := "";
    var isUnique := false;
    var a := 0;
    while !isUnique
      invariant 0 <= a <= |attempts|
      invariant !isUnique ==> forall b :: 0 <= b < a ==> CodeTaken(rows, CodeOf(attempts[b]))
      invariant isUnique ==> 0 < a && code == CodeOf(attempts[a - 1]) && !CodeTaken(rows, code)
                             && forall b :: 0 <= b < a - 1 ==> CodeTaken(rows, CodeOf(attempts[b]))
      decreases |attempts| - a, !isUnique
    {
      if a == |attempts| {
        return None;
      }
      code := GenerateCouponCode(attempts[a]);
      var found := FirstIndex(rows, (c: Coupon) => c.code == code);
      if found.None? {
        isUnique := true;
      } else {
        assert rows[found.value].code == CodeOf(attempts[a]);
      }
      a := a + 1;
    }
    r := Some(code);
  }

  /**
   * `createCoupon`: the required fields, then an unused code, then the row
   * with that code and the supplied fields, which is returned.
   */
  method CreateCoupon(db: Database, req: CouponRequest, attempts: seq<seq<real>>) returns (r: CreateOutcome)
    requires forall a :: 0 <= a < |attempts| ==> |attempts[a]| == 8
    modifies db
    ensures r.MissingFields? <==> !HasAllFields(req)
    ensures r.Created? ==> exists a :: 0 <= a < |attempts| && r.row.code == CodeOf(attempts[a])
                                       && forall b :: 0 <= b < a ==> CodeTaken(old(db.t).couponsAll, CodeOf(attempts[b]))
    ensures r.Created? ==> !CodeTaken(old(db.t).couponsAll, r.row.code)
    ensures r.Created? ==> r.row == NewUniversalCoupon(old(db.t).nextId, req, r.row.code)
    ensures r.Created? ==> db.t == old(db.t).(couponsAll := old(db.t).couponsAll + [r.row], nextId := old(db.t).nextId + 1)
    ensures !r.Created? ==> db.t == old(db.t)
  {
    if !HasAllFields(req) {
      return MissingFields;
    }
    var code := DrawUnusedCode(db.t.couponsAll, attempts);
    if code.None? {
      return DrawsExhausted;
    }
    var row := NewUniversalCoupon(db.t.nextId, req, code.value);
    db.t := db.t.(couponsAll := db.t.couponsAll + [row], nextId := db.t.nextId + 1);
    r := Created(row);
  }

  /** A coupon on offer: named, its window holding `today`, uses below the maximum (NULL uses fail). */
  predicate OnOffer(c: Coupon, today: int) {
    c.name.Some? && c.validFrom <= today <= c.validUntil && c.currentUses.Some? && c.currentUses.value < c.maxUses
  }

  /** `getUserCoupons`: the universal coupons on offer, in table order; the user id is not used. */
  function UserCoupons(t: Tables, today: int): (r: seq<Coupon>)
    ensures forall k :: 0 <= k < |r| ==> OnOffer(r[k], today) && r[k] in t.couponsAll
    ensures forall k :: 0 <= k < |t.couponsAll| && OnOffer(t.couponsAll[k], today) ==> t.couponsAll[k] in r
  {
    Filter(t.couponsAll, (c: Coupon) => OnOffer(c, today))
  }

  /** A coupon just created, inside its window and allowing a use, is offered to every user. */
  lemma CreatedCouponOffered(t: Tables, req: CouponRequest, code: string, today: int)
    requires HasAllFields(req)
    requires req.validFrom.value <= today <= req.validUntil.value && req.maxUses > 0
    ensures var row := NewUniversalCoupon(t.nextId, req, code);
      row in UserCoupons(t.(couponsAll := t.couponsAll + [row]), today)
  {
    var row := NewUniversalCoupon(t.nextId, req, code);
    var after := t.(couponsAll := t.couponsAll + [row]);
    assert after.couponsAll[|t.couponsAll|] == row;
  }
}
