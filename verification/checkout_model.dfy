/**
 * models/CheckoutModel.js: saving an order, listing the cart items (with the
 * columns models/cartModel.js uses) with their prices as numbers, and looking
 * up an active school coupon.
 *
 * This module writes through its own connection pool, never through a
 * caller's transaction: `SaveOrder` changes the committed state directly.
 */
module CheckoutModel {
  import opened Wrappers
  import opened JsValues
  import opened Schema

  /** The `orderData` object the checkout passes in. */
  datatype OrderData = OrderData(
    userId: nat, shipping: Shipping, total: real, couponCode: string,
    discountAmount: real, items: seq<OrderItem>)

  /** The state after the INSERT INTO orders of `saveOrder`. */
  function InsertOrder(t: Tables, data: OrderData): (r: Tables)
    ensures |r.orders| == |t.orders| + 1 && r.orders[..|t.orders|] == t.orders
    ensures r == t.(orders := r.orders, nextId := t.nextId + 1)
    ensures r.orders[|t.orders|].id == t.nextId
    ensures r.orders[|t.orders|].userId.None? <==> data.userId == 0
    ensures r.orders[|t.orders|].userId.Some? ==> r.orders[|t.orders|].userId.value == data.userId
    ensures r.orders[|t.orders|].couponCode.None? <==> data.couponCode == ""
    ensures r.orders[|t.orders|].couponCode.Some? ==> r.orders[|t.orders|].couponCode.value == data.couponCode
    ensures r.orders[|t.orders|].total == data.total
    ensures r.orders[|t.orders|].shipping == data.shipping
    ensures r.orders[|t.orders|].items == data.items
  {
    var row := Order(
      t.nextId,
      if data.userId == 0 then None else Some(data.userId),
      data.shipping,
      data.total,
      TextOrNull(data.couponCode),
      data.items);
    t.(orders := t.orders + [row], nextId := t.nextId + 1)
  }

  /** `saveOrder`: one new order row in the committed state; the result is its insert id. */
  method SaveOrder(db: Database, data: OrderData) returns (orderId: nat)
    modifies db
    ensures db.t == InsertOrder(old(db.t), data)
    ensures orderId == old(db.t).nextId
  {
    orderId := db.t.nextId;
    db.t := InsertOrder(db.t, data);
  }

  /** A `cart_items` row with its price converted by `Number(item.price)`. */
  datatype PricedItem = PricedItem(id: nat, name: string, price: Num, quantity: int, image: string)

  /** `getCartItems`: every row, in table order, with the price converted and the rest as stored. */
  function CartItemsWithPrices(rows: seq<CartModelItem>): (r: seq<PricedItem>)
    ensures |r| == |rows|
    ensures forall k :: 0 <= k < |rows| ==>
      && r[k].price == ToNumber(rows[k].price)
      && r[k].id == rows[k].id && r[k].name == rows[k].name
      && r[k].quantity == rows[k].quantity && r[k].image == rows[k].image
  {
    if |rows| == 0 then []
    else
      var x := rows[0];
      [PricedItem(x.id, x.name, ToNumber(x.price), x.quantity, x.image)] + CartItemsWithPrices(rows[1..])
  }

  /**
   * `validateCoupon(code)`: the discount of the first `coupons` row with
   * that code and `is_active = 1`, or None when there is no such row.
   */
  function ActiveCouponDiscount(t: Tables, code: string): (r: Option<real>)
    ensures r.None? <==> forall k :: 0 <= k < |t.coupons| ==> !(t.coupons[k].code == code && t.coupons[k].isActive)
    ensures r.Some? ==> exists k :: 0 <= k < |t.coupons| && t.coupons[k].code == code && t.coupons[k].isActive
                                    && t.coupons[k].discountPct == r.value
  {
    match FirstIndex(t.coupons, (c: Coupon) => c.code == code && c.isActive)
    case None => None
    case Some(k) => Some(t.coupons[k].discountPct)
  }
}
