/**
 * models/HotDeal.js: the `hot_deals` table. `getAll` reads it, filtered to
 * visible rows and cut to a limit on request; `update`, `create` and
 * `delete` change it in place.
 */
module HotDealModel {
  import opened Wrappers
  import opened Schema

  /** The six columns `update` and `create` write. */
  datatype DealData = DealData(
    title: Option<string>, imagePath: Option<string>, price: Option<string>,
    offerText: Option<string>, isVisible: bool, subcategoryId: Option<string>)

  function IsVisible(): HotDeal -> bool {
    (d: HotDeal) => d.isVisible
  }

  /** The rows `getAll` selects before its limit: all of them, or `WHERE is_visible = TRUE`. */
  function Selected(rows: seq<HotDeal>, onlyVisible: bool): (r: seq<HotDeal>)
    ensures onlyVisible ==> forall k :: 0 <= k < |r| ==> r[k].isVisible
    ensures !onlyVisible ==> r == rows
  {
    if onlyVisible then Filter(rows, IsVisible()) else rows
  }

  /**
   * `getAll(limit, onlyVisible)`: a limit of NULL or 0 is not applied (`if
   * (limit)`); the query has no ORDER BY, so the rows come in table order.
   */
  method GetAll(db: Database, limit: Option<nat>, onlyVisible: bool) returns (rows: seq<HotDeal>)
    ensures onlyVisible ==> forall k :: 0 <= k < |rows| ==> rows[k].isVisible
    ensures limit.Some? && limit.value != 0 ==> rows == Limit(Selected(db.t.hotDeals, onlyVisible), limit.value)
    ensures limit.None? || limit.value == 0 ==> rows == Selected(db.t.hotDeals, onlyVisible)
  {
    rows := db.t.hotDeals;
    if onlyVisible {
      rows := Filter(rows, IsVisible());
    }
    if limit.Some? && limit.value != 0 {
      rows := Limit(rows, limit.value);
    }
  }

  /** The row with its six columns overwritten; the id is kept. */
  function Overwrite(d: HotDeal, data: DealData): (r: HotDeal)
    ensures r.id == d.id
  {
    HotDeal(d.id, data.title, data.imagePath, data.price, data.offerText, data.isVisible, data.subcategoryId)
  }

  /** UPDATE hot_deals SET ... WHERE id = `id`. */
  function UpdateRows(rows: seq<HotDeal>, id: int, data: DealData): (r: seq<HotDeal>)
    ensures |r| == |rows|
    ensures forall k :: 0 <= k < |rows| ==> r[k] == if rows[k].id == id then Overwrite(rows[k], data) else rows[k]
  {
    if |rows| == 0 then []
    else [if rows[0].id == id then Overwrite(rows[0], data) else rows[0]] + UpdateRows(rows[1..], id, data)
  }

  /** DELETE FROM hot_deals WHERE id = `id`. */
  function DeleteRows(rows: seq<HotDeal>, id: int): (r: seq<HotDeal>)
    ensures forall k :: 0 <= k < |r| ==> r[k].id != id && r[k] in rows
    ensures forall k :: 0 <= k < |rows| && rows[k].id != id ==> rows[k] in r
  {
    Filter(rows, (d: HotDeal) => d.id != id)
  }

  /** `update`: the six columns of the rows with the id are overwritten, nothing else. */
  method Update(db: Database, id: int, data: DealData)
    modifies db
    ensures db.t == old(db.t).(hotDeals := UpdateRows(old(db.t).hotDeals, id, data))
  {
    db.t := db.t.(hotDeals := UpdateRows(db.t.hotDeals, id, data));
  }

  /** `create`: one new row with the next id. */
  method Create(db: Database, data: DealData) returns (id: nat)
    modifies db
    ensures id == old(db.t).nextId
    ensures db.t == old(db.t).(
      hotDeals := old(db.t).hotDeals + [HotDeal(id, data.title, data.imagePath, data.price, data.offerText, data.isVisible, data.subcategoryId)],
      nextId := id + 1)
  {
    id := db.t.nextId;
    db.t := db.t.(hotDeals := db.t.hotDeals + [HotDeal(id, data.title, data.imagePath, data.price, data.offerText, data.isVisible, data.subcategoryId)],
                  nextId := id + 1);
  }

  /** `delete`: the rows with the id go, the others stay in order. */
  method Delete(db: Database, id: int)
    modifies db
    ensures db.t == old(db.t).(hotDeals := DeleteRows(old(db.t).hotDeals, id))
  {
    db.t := db.t.(hotDeals := DeleteRows(db.t.hotDeals, id));
  }

  /** The number of visible deals. */
  function VisibleCount(rows: seq<HotDeal>): (n: nat)
    ensures n <= |rows|
  {
    Count(rows, IsVisible())
  }

  /** Overwriting one row changes the visible count by that row's change alone. */
  lemma {:induction false} UpdateVisibleCount(rows: seq<HotDeal>, id: int, data: DealData)
    requires forall i, j :: 0 <= i < j < |rows| ==> rows[i].id != rows[j].id
    ensures forall k :: 0 <= k < |rows| && rows[k].id == id ==>
      VisibleCount(UpdateRows(rows, id, data)) + (if rows[k].isVisible then 1 else 0)
        == VisibleCount(rows) + (if data.isVisible then 1 else 0)
    ensures (forall k :: 0 <= k < |rows| ==> rows[k].id != id) ==> UpdateRows(rows, id, data) == rows
  {
    if |rows| > 0 {
      UpdateVisibleCount(rows[1..], id, data);
      var r := UpdateRows(rows, id, data);
      assert r[1..] == UpdateRows(rows[1..], id, data);
      if rows[0].id == id {
        assert forall k :: 0 <= k < |rows[1..]| ==> rows[1..][k].id != id;
        assert UpdateRows(rows[1..], id, data) == rows[1..];
      }
      forall k | 0 <= k < |rows| && rows[k].id == id
        ensures VisibleCount(r) + (if rows[k].isVisible then 1 else 0) == VisibleCount(rows) + (if data.isVisible then 1 else 0)
      {
        if k > 0 {
          assert rows[1..][k - 1].id == id;
        }
      }
    }
  }
}
