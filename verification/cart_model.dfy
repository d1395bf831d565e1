/**
 * models/cartModel.js: `cart_items` read with the columns whose rows carry the
 * product's id, name, price and image themselves, keyed by `id`. Adding an
 * id that is present raises its quantity; adding a new one inserts it.
 *
 * Each store call takes `fails`: whether its first query reports an error
 * (the database is a parameter of the model); a failed query writes nothing.
 */
module CartModel {
  import opened Wrappers
  import opened Schema

  datatype StoreResult = StoreError | StoreOk

  function HasId(id: nat): CartModelItem -> bool {
    (i: CartModelItem) => i.id == id
  }

  function OtherId(id: nat): CartModelItem -> bool {
    (i: CartModelItem) => i.id != id
  }

  /** `id` is a key of the table. */
  ghost predicate UniqueIds(items: seq<CartModelItem>) {
    forall i, j :: 0 <= i < j < |items| ==> items[i].id != items[j].id
  }

  /** `SELECT * FROM cart_items WHERE id = ?`, first row: the row with that id, if any. */
  function Row(items: seq<CartModelItem>, id: nat): (r: Option<CartModelItem>)
    ensures r.None? <==> forall k :: 0 <= k < |items| ==> items[k].id != id
    ensures r.Some? ==> r.value.id == id && r.value in items
  {
    match FirstIndex(items, HasId(id))
    case None => None
    case Some(k) => Some(items[k])
  }

  /** With unique ids, the row an id finds is the one that carries it. */
  lemma RowAt(items: seq<CartModelItem>, k: nat)
    requires k < |items| && UniqueIds(items)
    ensures Row(items, items[k].id) == Some(items[k])
  {
    var i := FirstIndex(items, HasId(items[k].id));
    assert i.Some? && i.value <= k;
  }

  /** `UPDATE cart_items SET quantity = quantity + ? WHERE id = ?`. */
  function AddQuantity(items: seq<CartModelItem>, id: nat, q: int): (r: seq<CartModelItem>)
    ensures |r| == |items|
    ensures forall k :: 0 <= k < |items| ==>
      r[k] == if items[k].id == id then items[k].(quantity := items[k].quantity + q) else items[k]
  {
    if |items| == 0 then []
    else [if items[0].id == id then items[0].(quantity := items[0].quantity + q) else items[0]]
         + AddQuantity(items[1..], id, q)
  }

  /** `UPDATE cart_items SET quantity = ? WHERE id = ?`. */
  function SetQuantity(items: seq<CartModelItem>, id: nat, q: int): (r: seq<CartModelItem>)
    ensures |r| == |items|
    ensures forall k :: 0 <= k < |items| ==>
      r[k] == if items[k].id == id then items[k].(quantity := q) else items[k]
  {
    if |items| == 0 then []
    else [if items[0].id == id then items[0].(quantity := q) else items[0]]
         + SetQuantity(items[1..], id, q)
  }

  /** The table after `addToCart(item)`: the id's row raised by the item's quantity, or the item appended. */
  function Merged(items: seq<CartModelItem>, item: CartModelItem): seq<CartModelItem> {
    if Row(items, item.id).Some? then AddQuantity(items, item.id, item.quantity) else items + [item]
  }

  /** `Cart.addToCart`. */
  method AddToCart(db: Database, item: CartModelItem, fails: bool) returns (r: StoreResult)
    modifies db
    ensures fails ==> r == StoreError && db.t == old(db.t)
    ensures !fails ==> r == StoreOk && db.t == old(db.t).(cartModelItems := Merged(old(db.t).cartModelItems, item))
  {
    if fails {
      return StoreError;
    }
    var results := Row(db.t.cartModelItems, item.id);
    if results.Some? {
      db.t := db.t.(cartModelItems := AddQuantity(db.t.cartModelItems, item.id, item.quantity));
    } else {
      db.t := db.t.(cartModelItems := db.t.cartModelItems + [item]);
    }
    r := StoreOk;
  }

  /** `Cart.updateCartItem`. */
  method UpdateCartItem(db: Database, id: nat, quantity: int, fails: bool) returns (r: StoreResult)
    modifies db
    ensures fails ==> r == StoreError && db.t == old(db.t)
    ensures !fails ==> r == StoreOk && db.t == old(db.t).(cartModelItems := SetQuantity(old(db.t).cartModelItems, id, quantity))
  {
    if fails {
      return StoreError;
    }
    db.t := db.t.(cartModelItems := SetQuantity(db.t.cartModelItems, id, quantity));
    r := StoreOk;
  }

  /** `Cart.removeCartItem`. */
  method RemoveCartItem(db: Database, id: nat, fails: bool) returns (r: StoreResult)
    modifies db
    ensures fails ==> r == StoreError && db.t == old(db.t)
    ensures !fails ==> r == StoreOk && db.t == old(db.t).(cartModelItems := Filter(old(db.t).cartModelItems, OtherId(id)))
  {
    if fails {
      return StoreError;
    }
    db.t := db.t.(cartModelItems := Filter(db.t.cartModelItems, OtherId(id)));
    r := StoreOk;
  }

  /** `Cart.getCartItems`: every row, as stored. */
  method GetCartItems(db: Database, fails: bool) returns (r: Option<seq<CartModelItem>>)
    ensures fails <==> r.None?
    ensures r.Some? ==> r.value == db.t.cartModelItems
  {
    if fails {
      return None;
    }
    r := Some(db.t.cartModelItems);
  }

  // ---------------------------------------------------------------------------
  // What each write does to the row of an id

  /** Rewriting fields other than the id keeps the ids a key, and every other id's row. */
  lemma {:induction false} SameIds(items: seq<CartModelItem>, after: seq<CartModelItem>, id: nat)
    requires UniqueIds(items) && |after| == |items|
    requires forall k :: 0 <= k < |items| ==> after[k].id == items[k].id
    requires forall k :: 0 <= k < |items| && items[k].id != id ==> after[k] == items[k]
    ensures UniqueIds(after)
    ensures forall id2 :: id2 != id ==> Row(after, id2) == Row(items, id2)
  {
    forall id2 | id2 != id
      ensures Row(after, id2) == Row(items, id2)
    {
      if k :| 0 <= k < |items| && items[k].id == id2 {
        RowAt(items, k);
        RowAt(after, k);
      }
    }
  }

  /**
   * `addToCart` on a present id (the row at `k`) raises that row's quantity
   * by the item's and keeps its name, price and image; every other id's row
   * is untouched and the ids stay a key.
   */
  lemma RaiseExistingRow(items: seq<CartModelItem>, k: nat, q: int)
    requires UniqueIds(items) && k < |items|
    ensures UniqueIds(AddQuantity(items, items[k].id, q))
    ensures Row(AddQuantity(items, items[k].id, q), items[k].id) == Some(items[k].(quantity := items[k].quantity + q))
    ensures forall id2 :: id2 != items[k].id ==> Row(AddQuantity(items, items[k].id, q), id2) == Row(items, id2)
  {
    var after := AddQuantity(items, items[k].id, q);
    SameIds(items, after, items[k].id);
    RowAt(after, k);
  }

  /**
   * `addToCart` on a new id stores the item as given; every other id's row
   * is untouched and the ids stay a key.
   */
  lemma AppendNewRow(items: seq<CartModelItem>, item: CartModelItem)
    requires UniqueIds(items) && Row(items, item.id).None?
    ensures UniqueIds(items + [item])
    ensures Row(items + [item], item.id) == Some(item)
    ensures forall id2 :: id2 != item.id ==> Row(items + [item], id2) == Row(items, id2)
  {
    var after := items + [item];
    forall i, j | 0 <= i < j < |after|
      ensures after[i].id != after[j].id
    {
      assert after[i] == items[i];
    }
    RowAt(after, |items|);
    forall id2 | id2 != item.id
      ensures Row(after, id2) == Row(items, id2)
    {
      if k :| 0 <= k < |items| && items[k].id == id2 {
        RowAt(items, k);
        RowAt(after, k);
      }
    }
  }

  /** `updateCartItem` sets the id's quantity to exactly the given value, inserting nothing. */
  lemma UpdateRows(items: seq<CartModelItem>, id: nat, q: int)
    requires UniqueIds(items)
    ensures UniqueIds(SetQuantity(items, id, q))
    ensures Row(SetQuantity(items, id, q), id) ==
      match Row(items, id)
      case Some(old_) => Some(old_.(quantity := q))
      case None => None
    ensures forall id2 :: id2 != id ==> Row(SetQuantity(items, id, q), id2) == Row(items, id2)
  {
    var after := SetQuantity(items, id, q);
    SameIds(items, after, id);
    if Row(items, id).Some? {
      var k :| 0 <= k < |items| && items[k] == Row(items, id).value;
      RowAt(items, k);
      RowAt(after, k);
    }
  }

  /** `removeCartItem` deletes the id's row and no other. */
  lemma RemoveRows(items: seq<CartModelItem>, id: nat)
    requires UniqueIds(items)
    ensures UniqueIds(Filter(items, OtherId(id)))
    ensures Row(Filter(items, OtherId(id)), id).None?
    ensures forall id2 :: id2 != id ==> Row(Filter(items, OtherId(id)), id2) == Row(items, id2)
  {
    var after := Filter(items, OtherId(id));
    FilterKeepsUniqueIds(items, id);
    forall id2 | id2 != id
      ensures Row(after, id2) == Row(items, id2)
    {
      if k :| 0 <= k < |items| && items[k].id == id2 {
        RowAt(items, k);
        assert items[k] in after;
        var j :| 0 <= j < |after| && after[j] == items[k];
        RowAt(after, j);
      } else {
        assert forall j :: 0 <= j < |after| ==> after[j] in items;
      }
    }
  }

  lemma {:induction false} FilterKeepsUniqueIds(items: seq<CartModelItem>, id: nat)
    requires UniqueIds(items)
    ensures UniqueIds(Filter(items, OtherId(id)))
  {
    if |items| > 0 {
      var rest := Filter(items[1..], OtherId(id));
      FilterKeepsUniqueIds(items[1..], id);
      if items[0].id != id {
        assert Filter(items, OtherId(id)) == [items[0]] + rest;
        forall k | 0 <= k < |rest|
          ensures rest[k].id != items[0].id
        {
          assert rest[k] in items[1..];
        }
        ConsUnique(items[0], rest);
      } else {
        assert Filter(items, OtherId(id)) == rest;
      }
    }
  }

  lemma ConsUnique(x: CartModelItem, rest: seq<CartModelItem>)
    requires UniqueIds(rest)
    requires forall k :: 0 <= k < |rest| ==> rest[k].id != x.id
    ensures UniqueIds([x] + rest)
  {
    var after := [x] + rest;
    forall i, j | 0 <= i < j < |after|
      ensures after[i].id != after[j].id
    {
      assert after[j] == rest[j - 1];
      if i > 0 {
        assert after[i] == rest[i - 1];
      }
    }
  }
}
