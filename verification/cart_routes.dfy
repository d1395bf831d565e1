/**
 * routes/cartRoutes.js: the cart of a logged-in user (one `carts` row per
 * user, found or created on the first add) or of a guest (a text cart id),
 * and its lines in `cart_items`, one per (cart, product) pair, whose
 * quantities `/add` raises, `/update` sets and `/remove` deletes; and the
 * cart read back with each product's images grouped under it.
 *
 * Body ids are the values MySQL casts them to; an id that is absent is None,
 * which the driver binds as NULL, so it matches no row.
 */
module CartRoutes {
  import opened Wrappers
  import opened JsStrings
  import opened Schema
  import opened IndexObjects

  function ForUser(userId: Option<nat>): Cart -> bool {
    (c: Cart) => Some(c.userId) == userId
  }

  /** `WHERE cartId = ? AND productId = ?`. */
  function IsLine(key: CartKey, productId: nat): CartItem -> bool {
    (i: CartItem) => i.cartId == key && i.productId == productId
  }

  function NotLine(key: CartKey, productId: nat): CartItem -> bool {
    (i: CartItem) => !(i.cartId == key && i.productId == productId)
  }

  predicate ProductExists(products: seq<Product>, id: nat) {
    exists k :: 0 <= k < |products| && products[k].id == id
  }

  // ---------------------------------------------------------------------------
  // The quantity of a (cart, product) pair, and the invariant of the lines

  /** The quantity the lines of the pair add up to: the line's quantity, or 0 without a line. */
  function QuantityOf(items: seq<CartItem>, key: CartKey, productId: nat): int {
    if |items| == 0 then 0
    else (if items[0].cartId == key && items[0].productId == productId then items[0].quantity else 0)
         + QuantityOf(items[1..], key, productId)
  }

  ghost predicate UniqueItemIds(items: seq<CartItem>) {
    forall i, j :: 0 <= i < j < |items| ==> items[i].id != items[j].id
  }

  /** At most one line per (cart, product) pair. */
  ghost predicate OneLinePerPair(items: seq<CartItem>) {
    forall i, j :: 0 <= i < j < |items| ==>
      !(items[i].cartId == items[j].cartId && items[i].productId == items[j].productId)
  }

  /** The line ids are a key below the next id, and a pair has at most one line. */
  ghost predicate LinesValid(t: Tables) {
    && UniqueItemIds(t.cartItems)
    && (forall k :: 0 <= k < |t.cartItems| ==> t.cartItems[k].id < t.nextId)
    && OneLinePerPair(t.cartItems)
  }

  lemma {:induction false} QuantityAppend(a: seq<CartItem>, b: seq<CartItem>, key: CartKey, productId: nat)
    ensures QuantityOf(a + b, key, productId) == QuantityOf(a, key, productId) + QuantityOf(b, key, productId)
  {
    if |a| > 0 {
      assert (a + b)[1..] == a[1..] + b;
      QuantityAppend(a[1..], b, key, productId);
    } else {
      assert a + b == b;
    }
  }

  // ---------------------------------------------------------------------------
  // POST /add

  /** `sessionCartId || guest_${Date.now()}`; the clock is the parameter `now`. */
  function GuestCart(sessionCartId: Option<string>, now: nat): (r: CartKey)
    ensures r.GuestKey?
    ensures TruthyText(sessionCartId) ==> r.s == sessionCartId.value
    ensures !TruthyText(sessionCartId) ==> StartsWith(r.s, "guest_") && |r.s| > 6
  {
    if TruthyText(sessionCartId) then GuestKey(sessionCartId.value) else GuestKey("guest_" + NatToString(now))
  }

  /**
   * The cart the line goes to and the tables after finding or creating it: a
   * logged-in user's first cart row, or a new one numbered with the next id;
   * a guest's text id.
   */
  function CartFor(t: Tables, userId: Option<nat>, sessionCartId: Option<string>, now: nat): (Tables, CartKey) {
    if TruthyId(userId) then
      match FirstIndex(t.carts, ForUser(userId))
      case Some(i) => (t, CartNo(t.carts[i].id))
      case None => (t.(carts := t.carts + [Cart(t.nextId, userId.value)], nextId := t.nextId + 1), CartNo(t.nextId))
    else (t, GuestCart(sessionCartId, now))
  }

  /** UPDATE cart_items SET quantity = quantity + `q` WHERE id = `id`. */
  function AddQuantity(items: seq<CartItem>, id: nat, q: int): (r: seq<CartItem>)
    ensures |r| == |items|
    ensures forall k :: 0 <= k < |items| ==>
      r[k] == if items[k].id == id then items[k].(quantity := items[k].quantity + q) else items[k]
  {
    if |items| == 0 then []
    else [if items[0].id == id then items[0].(quantity := items[0].quantity + q) else items[0]]
         + AddQuantity(items[1..], id, q)
  }

  /** The line of the pair raised by `q`, or a new line with `q` when the pair has none. */
  function AddLine(t: Tables, key: CartKey, productId: nat, q: int): Tables {
    match FirstIndex(t.cartItems, IsLine(key, productId))
    case Some(i) => t.(cartItems := AddQuantity(t.cartItems, t.cartItems[i].id, q))
    case None => t.(cartItems := t.cartItems + [CartItem(t.nextId, key, productId, q)], nextId := t.nextId + 1)
  }

  datatype AddOutcome =
    | ProductNotFound      // 404
    | ItemAdded(cartId: CartKey)

  /** `POST /add`. */
  method AddToCart(db: Database, userId: Option<nat>, productId: nat, quantity: int, sessionCartId: Option<string>, now: nat)
    returns (r: AddOutcome)
    modifies db
    ensures !ProductExists(old(db.t).products, productId) ==> r == ProductNotFound && db.t == old(db.t)
    ensures ProductExists(old(db.t).products, productId) ==>
      var (t1, key) := CartFor(old(db.t), userId, sessionCartId, now);
      r == ItemAdded(key) && db.t == AddLine(t1, key, productId, quantity)
  {
    if !ProductExists(db.t.products, productId) {
      return ProductNotFound;
    }
    var cartId: CartKey;
    if TruthyId(userId) {
      var cart := FirstIndex(db.t.carts, ForUser(userId));
      if cart.None? {
        cartId := CartNo(db.t.nextId);
        db.t := db.t.(carts := db.t.carts + [Cart(db.t.nextId, userId.value)], nextId := db.t.nextId + 1);
      } else {
        cartId := CartNo(db.t.carts[cart.value].id);
      }
    } else {
      cartId := GuestCart(sessionCartId, now);
    }
    var cartItem := FirstIndex(db.t.cartItems, IsLine(cartId, productId));
    if cartItem.Some? {
      db.t := db.t.(cartItems := AddQuantity(db.t.cartItems, db.t.cartItems[cartItem.value].id, quantity));
    } else {
      db.t := db.t.(cartItems := db.t.cartItems + [CartItem(db.t.nextId, cartId, productId, quantity)], nextId := db.t.nextId + 1);
    }
    r := ItemAdded(cartId);
  }

  /**
   * A logged-in user with a cart reuses the first one and nothing else
   * changes; a user without one gets exactly one new cart, numbered with
   * the next id.
   */
  lemma FindOrCreateCart(t: Tables, userId: Option<nat>, sessionCartId: Option<string>, now: nat)
    requires TruthyId(userId)
    ensures var (t1, key) := CartFor(t, userId, sessionCartId, now);
      && t1.cartItems == t.cartItems
      && t1.nextId >= t.nextId
      && ((exists k :: 0 <= k < |t.carts| && t.carts[k].userId == userId.value) ==>
            t1 == t && key.CartNo? && exists k :: 0 <= k < |t.carts| && t.carts[k].userId == userId.value && t.carts[k].id == key.n)
      && ((forall k :: 0 <= k < |t.carts| ==> t.carts[k].userId != userId.value) ==>
            key == CartNo(t.nextId) && t1.carts == t.carts + [Cart(t.nextId, userId.value)]
            && Count(t1.carts, ForUser(userId)) == 1)
  {
    if forall k :: 0 <= k < |t.carts| ==> t.carts[k].userId != userId.value {
      var t1 := CartFor(t, userId, sessionCartId, now).0;
      CountAppend(t.carts, [Cart(t.nextId, userId.value)], ForUser(userId));
      assert Count(t.carts, ForUser(userId)) == 0;
      assert Count([Cart(t.nextId, userId.value)], ForUser(userId)) == 1 by {
        assert [Cart(t.nextId, userId.value)][1..] == [];
      }
    }
  }

  /** With unique line ids, raising line `i` adds `q` to its own pair and nothing to any other. */
  lemma {:induction false} AddQuantityEffect(items: seq<CartItem>, i: nat, q: int, key: CartKey, productId: nat)
    requires i < |items| && UniqueItemIds(items)
    ensures QuantityOf(AddQuantity(items, items[i].id, q), key, productId) ==
      QuantityOf(items, key, productId) + (if items[i].cartId == key && items[i].productId == productId then q else 0)
  {
    var id := items[i].id;
    var r := AddQuantity(items, id, q);
    assert r[1..] == AddQuantity(items[1..], id, q);
    if i == 0 {
      assert forall k :: 0 <= k < |items[1..]| ==> items[1..][k].id != id;
      assert AddQuantity(items[1..], id, q) == items[1..];
    } else {
      AddQuantityEffect(items[1..], i - 1, q, key, productId);
    }
  }

  /**
   * `/add` raises the quantity of exactly its pair by `q` (creating the line
   * when there is none) and leaves every other pair's quantity alone.
   */
  lemma AddLineQuantities(t: Tables, key: CartKey, productId: nat, q: int, key2: CartKey, productId2: nat)
    requires UniqueItemIds(t.cartItems)
    ensures QuantityOf(AddLine(t, key, productId, q).cartItems, key2, productId2) ==
      QuantityOf(t.cartItems, key2, productId2) + (if key2 == key && productId2 == productId then q else 0)
  {
    match FirstIndex(t.cartItems, IsLine(key, productId))
    case Some(i) =>
      AddQuantityEffect(t.cartItems, i, q, key2, productId2);
    case None =>
      var line := CartItem(t.nextId, key, productId, q);
      QuantityAppend(t.cartItems, [line], key2, productId2);
      assert QuantityOf([line], key2, productId2) == (if key2 == key && productId2 == productId then q else 0) by {
        assert [line][1..] == [];
      }
  }

  /** `/add` keeps the line ids a key below the next id and one line per pair. */
  lemma AddKeepsLinesValid(t: Tables, userId: Option<nat>, sessionCartId: Option<string>, now: nat, productId: nat, q: int)
    requires LinesValid(t)
    ensures var (t1, key) := CartFor(t, userId, sessionCartId, now);
      LinesValid(AddLine(t1, key, productId, q))
  {
    var (t1, key) := CartFor(t, userId, sessionCartId, now);
    assert t1.cartItems == t.cartItems && t1.nextId >= t.nextId;
    var after := AddLine(t1, key, productId, q);
    match FirstIndex(t1.cartItems, IsLine(key, productId))
    case Some(i) =>
      assert forall k :: 0 <= k < |after.cartItems| ==>
        after.cartItems[k].id == t.cartItems[k].id && after.cartItems[k].cartId == t.cartItems[k].cartId
        && after.cartItems[k].productId == t.cartItems[k].productId;
    case None =>
      var items := t.cartItems + [CartItem(t1.nextId, key, productId, q)];
      assert after.cartItems == items;
      forall i, j | 0 <= i < j < |items|
        ensures items[i].id != items[j].id
        ensures !(items[i].cartId == items[j].cartId && items[i].productId == items[j].productId)
      {
        if j == |t.cartItems| {
          assert !IsLine(key, productId)(items[i]);
        }
      }
  }

  // ---------------------------------------------------------------------------
  // POST /remove and PUT /update

  datatype Outcome =
    | CartNotFound   // 404
    | Done

  /** `POST /remove`: no cart for the user is 404; otherwise the pair's lines go. */
  method RemoveFromCart(db: Database, userId: Option<nat>, productId: nat) returns (r: Outcome)
    modifies db
    ensures r == CartNotFound <==> FirstIndex(old(db.t).carts, ForUser(userId)).None?
    ensures r == CartNotFound ==> db.t == old(db.t)
    ensures r == Done ==>
      var cart := old(db.t).carts[FirstIndex(old(db.t).carts, ForUser(userId)).value];
      db.t == old(db.t).(cartItems := Filter(old(db.t).cartItems, NotLine(CartNo(cart.id), productId)))
  {
    var cart := FirstIndex(db.t.carts, ForUser(userId));
    if cart.None? {
      return CartNotFound;
    }
    var key := CartNo(db.t.carts[cart.value].id);
    db.t := db.t.(cartItems := Filter(db.t.cartItems, NotLine(key, productId)));
    r := Done;
  }

  /** Removing a pair's lines takes its quantity to 0 and leaves every other pair's alone. */
  lemma {:induction false} RemoveQuantities(items: seq<CartItem>, key: CartKey, productId: nat, key2: CartKey, productId2: nat)
    ensures QuantityOf(Filter(items, NotLine(key, productId)), key2, productId2) ==
      if key2 == key && productId2 == productId then 0 else QuantityOf(items, key2, productId2)
  {
    if |items| > 0 {
      RemoveQuantities(items[1..], key, productId, key2, productId2);
      var rest := Filter(items[1..], NotLine(key, productId));
      if NotLine(key, productId)(items[0]) {
        assert Filter(items, NotLine(key, productId)) == [items[0]] + rest;
        assert ([items[0]] + rest)[1..] == rest;
      }
    }
  }

  /** UPDATE cart_items SET quantity = `q` WHERE cartId = `key` AND productId = `productId`. */
  function SetQuantity(items: seq<CartItem>, key: CartKey, productId: nat, q: int): (r: seq<CartItem>)
    ensures |r| == |items|
    ensures forall k :: 0 <= k < |items| ==>
      r[k] == if items[k].cartId == key && items[k].productId == productId then items[k].(quantity := q) else items[k]
  {
    if |items| == 0 then []
    else [if items[0].cartId == key && items[0].productId == productId then items[0].(quantity := q) else items[0]]
         + SetQuantity(items[1..], key, productId, q)
  }

  /** `PUT /update`: no cart for the user is 404; otherwise the pair's lines get quantity `q`. */
  method UpdateQuantity(db: Database, userId: Option<nat>, productId: nat, q: int) returns (r: Outcome)
    modifies db
    ensures r == CartNotFound <==> FirstIndex(old(db.t).carts, ForUser(userId)).None?
    ensures r == CartNotFound ==> db.t == old(db.t)
    ensures r == Done ==>
      var cart := old(db.t).carts[FirstIndex(old(db.t).carts, ForUser(userId)).value];
      db.t == old(db.t).(cartItems := SetQuantity(old(db.t).cartItems, CartNo(cart.id), productId, q))
  {
    var cart := FirstIndex(db.t.carts, ForUser(userId));
    if cart.None? {
      return CartNotFound;
    }
    db.t := db.t.(cartItems := SetQuantity(db.t.cartItems, CartNo(db.t.carts[cart.value].id), productId, q));
    r := Done;
  }

  /**
   * After `/update` the pair's quantity is exactly `q` when it has one line
   * and stays 0 when it has none (no line is inserted); other pairs keep theirs.
   */
  lemma {:induction false} SetQuantities(items: seq<CartItem>, key: CartKey, productId: nat, q: int, key2: CartKey, productId2: nat)
    requires OneLinePerPair(items)
    ensures QuantityOf(SetQuantity(items, key, productId, q), key2, productId2) ==
      if key2 == key && productId2 == productId then (if Count(items, IsLine(key, productId)) > 0 then q else 0)
      else QuantityOf(items, key2, productId2)
  {
    if |items| > 0 {
      var r := SetQuantity(items, key, productId, q);
      assert r[1..] == SetQuantity(items[1..], key, productId, q);
      assert OneLinePerPair(items[1..]);
      SetQuantities(items[1..], key, productId, q, key2, productId2);
      if IsLine(key, productId)(items[0]) {
        assert forall k :: 0 <= k < |items[1..]| ==> !IsLine(key, productId)(items[1..][k]);
        assert Count(items[1..], IsLine(key, productId)) == 0;
      }
    }
  }

  // ---------------------------------------------------------------------------
  // GET /:userId

  /** One row of the cart query: a line joined with its product and one of its images (NULL without one). */
  datatype ItemRow = ItemRow(quantity: int, id: nat, name: Option<string>, price: real, imageUrl: Option<string>)

  /** One entry of `items` in the response. */
  datatype CartEntry = CartEntry(id: nat, name: Option<string>, price: real, quantity: int, images: seq<string>)

  function InCart(key: CartKey): CartItem -> bool {
    (i: CartItem) => i.cartId == key
  }

  function ProductWithId(id: nat): Product -> bool {
    (p: Product) => p.id == id
  }

  function ImageOf(id: nat): ProductImage -> bool {
    (i: ProductImage) => i.productId == id as int
  }

  /** `p LEFT JOIN product_images`: a row per image, or one row with NULL. */
  function ImageRows(line: CartItem, p: Product, images: seq<ProductImage>): (r: seq<ItemRow>)
    ensures |r| > 0
  {
    var mine := Filter(images, ImageOf(p.id));
    if |mine| == 0 then [ItemRow(line.quantity, p.id, p.name, p.price, None)]
    else seq(|mine|, k requires 0 <= k < |mine| => ItemRow(line.quantity, p.id, p.name, p.price, Some(mine[k].imageUrl)))
  }

  /** `cart_items ci JOIN products p`: the line with each product of its id. */
  function LineRows(t: Tables, line: CartItem): seq<ItemRow> {
    var ps := Filter(t.products, ProductWithId(line.productId));
    Concat(seq(|ps|, j requires 0 <= j < |ps| => ImageRows(line, ps[j], t.productImages)))
  }

  /** The cart query, in table order (it has no ORDER BY). */
  function CartRows(t: Tables, key: CartKey): seq<ItemRow> {
    var lines := Filter(t.cartItems, InCart(key));
    Concat(seq(|lines|, i requires 0 <= i < |lines| => LineRows(t, lines[i])))
  }

  /** `image_url.replace(/\\/g, "/")`. */
  function ForwardSlashes(url: string): (r: string)
    ensures |r| == |url|
    ensures '\\' !in r
    ensures forall k :: 0 <= k < |url| && url[k] != '\\' ==> r[k] == url[k]
  {
    var r := ReplaceChar(url, '\\', '/');
    assert forall k :: 0 <= k < |r| ==> r[k] != '\\';
    r
  }

  /** The `forEach` body: the product's entry is created on its first row; a truthy image is pushed. */
  function AddRow(itemMap: IndexObject<CartEntry>, row: ItemRow): (r: IndexObject<CartEntry>)
    ensures r.Keys == itemMap.Keys + {row.id}
    ensures forall p :: p in itemMap && p != row.id ==> r[p] == itemMap[p]
    ensures var e := r[row.id];
      && (row.id in itemMap ==> e == itemMap[row.id].(images := e.images))
      && (row.id !in itemMap ==> e.id == row.id && e.name == row.name && e.price == row.price && e.quantity == row.quantity)
      && e.images == (if row.id in itemMap then itemMap[row.id].images else [])
                     + (if TruthyText(row.imageUrl) then [ForwardSlashes(row.imageUrl.value)] else [])
    ensures (forall p :: p in itemMap ==> itemMap[p].id == p) ==> forall p :: p in r ==> r[p].id == p
  {
    var entry := if row.id in itemMap then itemMap[row.id] else CartEntry(row.id, row.name, row.price, row.quantity, []);
    itemMap[row.id := if TruthyText(row.imageUrl) then entry.(images := entry.images + [ForwardSlashes(row.imageUrl.value)]) else entry]
  }

  /** `items.forEach(...)` from `{}`. */
  function Grouped(rows: seq<ItemRow>): (r: IndexObject<CartEntry>)
    ensures forall p :: p in r ==> r[p].id == p
  {
    if |rows| == 0 then map[] else AddRow(Grouped(rows[..|rows| - 1]), rows[|rows| - 1])
  }

  method GroupRows(rows: seq<ItemRow>) returns (itemMap: IndexObject<CartEntry>)
    ensures itemMap == Grouped(rows)
  {
    itemMap := map[];
    for i := 0 to |rows|
      invariant itemMap == Grouped(rows[..i])
    {
      assert rows[..i + 1][..i] == rows[..i];
      itemMap := AddRow(itemMap, rows[i]);
    }
    assert rows[..|rows|] == rows;
  }

  /** `GET /:userId`: no cart gives no items; otherwise the grouped rows by ascending product id. */
  method GetCart(db: Database, userId: nat) returns (items: seq<CartEntry>)
    ensures var cart := FirstIndex(db.t.carts, ForUser(Some(userId)));
      && (cart.None? ==> items == [])
      && (cart.Some? ==> items == Values(Grouped(CartRows(db.t, CartNo(db.t.carts[cart.value].id)))))
  {
    var cart := FirstIndex(db.t.carts, ForUser(Some(userId)));
    if cart.None? {
      return [];
    }
    var rows := CartRows(db.t, CartNo(db.t.carts[cart.value].id));
    var itemMap := GroupRows(rows);
    items := Values(itemMap);
  }

  /** The images of product `p` among the rows: each truthy url, slashes turned forward, in row order. */
  function ImagesOf(rows: seq<ItemRow>, p: nat): (r: seq<string>)
    ensures forall k :: 0 <= k < |r| ==> '\\' !in r[k]
  {
    if |rows| == 0 then []
    else
      var last := rows[|rows| - 1];
      ImagesOf(rows[..|rows| - 1], p)
        + (if last.id == p && TruthyText(last.imageUrl) then [ForwardSlashes(last.imageUrl.value)] else [])
  }

  predicate HasProductRow(rows: seq<ItemRow>, p: nat) {
    exists k :: 0 <= k < |rows| && rows[k].id == p
  }

  /** There is one entry per distinct product id among the rows. */
  lemma {:induction false} GroupedProducts(rows: seq<ItemRow>)
    ensures forall p :: p in Grouped(rows) <==> HasProductRow(rows, p)
  {
    if |rows| > 0 {
      var prefix := rows[..|rows| - 1];
      GroupedProducts(prefix);
      forall p | HasProductRow(prefix, p)
        ensures HasProductRow(rows, p)
      {
        var k :| 0 <= k < |prefix| && prefix[k].id == p;
        assert rows[k] == prefix[k];
      }
      forall p | HasProductRow(rows, p) && p != rows[|rows| - 1].id
        ensures HasProductRow(prefix, p)
      {
        var k :| 0 <= k < |rows| && rows[k].id == p;
        assert prefix[k] == rows[k];
      }
    }
  }

  /** A product's images are those of its rows, in row order, with every '\' turned into '/'. */
  lemma {:induction false} GroupedImages(rows: seq<ItemRow>, p: nat)
    requires p in Grouped(rows)
    ensures Grouped(rows)[p].images == ImagesOf(rows, p)
  {
    var prefix := rows[..|rows| - 1];
    if p in Grouped(prefix) {
      GroupedImages(prefix, p);
    } else {
      GroupedProducts(prefix);
      NoImagesWithoutRows(prefix, p);
    }
  }

  lemma {:induction false} NoImagesWithoutRows(rows: seq<ItemRow>, p: nat)
    requires !HasProductRow(rows, p)
    ensures ImagesOf(rows, p) == []
  {
    if |rows| > 0 {
      var prefix := rows[..|rows| - 1];
      forall k | 0 <= k < |prefix|
        ensures prefix[k] == rows[k]
      {
      }
      NoImagesWithoutRows(prefix, p);
    }
  }

  /** A product's name, price and quantity come from its first row. */
  lemma {:induction false} GroupedFirstRow(rows: seq<ItemRow>, i: nat)
    requires i < |rows|
    requires forall j :: 0 <= j < i ==> rows[j].id != rows[i].id
    ensures rows[i].id in Grouped(rows)
    ensures var e := Grouped(rows)[rows[i].id];
      e.name == rows[i].name && e.price == rows[i].price && e.quantity == rows[i].quantity
  {
    var prefix := rows[..|rows| - 1];
    if i < |rows| - 1 {
      assert prefix[i] == rows[i];
      GroupedFirstRow(prefix, i);
    } else {
      GroupedProducts(prefix);
      assert !HasProductRow(prefix, rows[i].id) by {
        forall j | 0 <= j < |prefix|
          ensures prefix[j].id != rows[i].id
        {
          assert prefix[j] == rows[j];
        }
      }
    }
  }

  function EntryId(): CartEntry -> nat {
    (e: CartEntry) => e.id
  }

  /** The response lists each product of the rows once, by strictly ascending id. */
  lemma ItemsAscending(rows: seq<ItemRow>)
    ensures var items := Values(Grouped(rows));
      && (forall i, j :: 0 <= i < j < |items| ==> items[i].id < items[j].id)
      && (forall i :: 0 <= i < |items| ==> HasProductRow(rows, items[i].id))
      && (forall p :: HasProductRow(rows, p) ==> exists i :: 0 <= i < |items| && items[i].id == p)
  {
    GroupedProducts(rows);
    ValuesInKeyOrder(Grouped(rows), EntryId());
  }
}
