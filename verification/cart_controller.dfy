/**
 * controllers/cartController.js: request guards in front of the cart
 * store of models/cartModel.js. The body's fields are taken as the column
 * values they are stored as; JavaScript truthiness of each is what the
 * guards test.
 */
module CartController {
  import opened Wrappers
  import opened JsValues
  import opened Schema
  import CartModel

  datatype Response =
    | BadRequest(message: string)      // 400
    | ServerError                      // 500, `success: false`
    | Success(message: string)         // `success: true`
    | Items(data: seq<CartModelItem>) // `success: true`, the rows

  /** `id && name && price && quantity && image`. */
  predicate Complete(body: CartModelItem) {
    body.id != 0 && body.name != "" && Truthy(body.price) && body.quantity != 0 && body.image != ""
  }

  /** `getCart`. */
  method GetCart(db: Database, fails: bool) returns (r: Response)
    ensures fails ==> r == ServerError
    ensures !fails ==> r == Items(db.t.cartModelItems)
  {
    var rows := CartModel.GetCartItems(db, fails);
    if rows.None? {
      return ServerError;
    }
    r := Items(rows.value);
  }

  /**
   * `addCartItem`: a body missing any field, or with a zero price or
   * quantity, is refused before the store is touched; otherwise the body
   * goes to the store unchanged and a store error is a 500.
   */
  method AddCartItem(db: Database, body: CartModelItem, fails: bool) returns (r: Response)
    modifies db
    ensures !Complete(body) ==> r == BadRequest("Missing required fields") && db.t == old(db.t)
    ensures Complete(body) && fails ==> r == ServerError && db.t == old(db.t)
    ensures Complete(body) && !fails ==>
      r == Success("Item added to cart")
      && db.t == old(db.t).(cartModelItems := CartModel.Merged(old(db.t).cartModelItems, body))
  {
    if !Complete(body) {
      return BadRequest("Missing required fields");
    }
    var err := CartModel.AddToCart(db, body, fails);
    if err == CartModel.StoreError {
      return ServerError;
    }
    r := Success("Item added to cart");
  }

  /** `updateCartItem`: a zero quantity is refused before the store is touched. */
  method UpdateCartItem(db: Database, id: nat, quantity: int, fails: bool) returns (r: Response)
    modifies db
    ensures quantity == 0 ==> r == BadRequest("Quantity is required") && db.t == old(db.t)
    ensures quantity != 0 && fails ==> r == ServerError && db.t == old(db.t)
    ensures quantity != 0 && !fails ==>
      r == Success("Cart updated successfully")
      && db.t == old(db.t).(cartModelItems := CartModel.SetQuantity(old(db.t).cartModelItems, id, quantity))
  {
    if quantity == 0 {
      return BadRequest("Quantity is required");
    }
    var err := CartModel.UpdateCartItem(db, id, quantity, fails);
    if err == CartModel.StoreError {
      return ServerError;
    }
    r := Success("Cart updated successfully");
  }

  /** `removeCartItem`. */
  method RemoveCartItem(db: Database, id: nat, fails: bool) returns (r: Response)
    modifies db
    ensures fails ==> r == ServerError && db.t == old(db.t)
    ensures !fails ==>
      r == Success("Item removed from cart")
      && db.t == old(db.t).(cartModelItems := Filter(old(db.t).cartModelItems, CartModel.OtherId(id)))
  {
    var err := CartModel.RemoveCartItem(db, id, fails);
    if err == CartModel.StoreError {
      return ServerError;
    }
    r := Success("Item removed from cart");
  }
}
