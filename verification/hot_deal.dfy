/**
 * controllers/hotDealController.js: the hot-deal list (at most four visible
 * deals for shoppers, every deal for the admin) and the edits, which never
 * make a fifth deal visible.
 *
 * Request fields are `Option<string>`: None when the field is absent
 * (`undefined`); the uploaded file, when there is one, is given by the name
 * the upload store chose for it.
 */
module HotDealController {
  import opened Wrappers
  import opened JsValues
  import opened Schema
  import opened HotDealModel

  /** The most deals a shopper is shown, and the most that an update lets be visible. */
  const MaxVisible: nat := 4

  /** `getHotDeals`: `?admin=true` lists everything; anything else, the first four visible deals. */
  method GetHotDeals(db: Database, admin: Option<string>) returns (deals: seq<HotDeal>)
    ensures admin == Some("true") ==> deals == db.t.hotDeals
    ensures admin != Some("true") ==> |deals| <= MaxVisible && forall k :: 0 <= k < |deals| ==> deals[k].isVisible
    ensures admin != Some("true") ==> deals == Limit(Filter(db.t.hotDeals, IsVisible()), MaxVisible)
  {
    var isAdmin := admin == Some("true");
    deals := GetAll(db, if isAdmin then None else Some(MaxVisible), !isAdmin);
  }

  /** The body of `updateHotDeal` and `createHotDeal`. */
  datatype DealRequest = DealRequest(
    title: Option<string>, price: Option<string>, offerText: Option<string>,
    isVisible: JsValue, subcategoryId: Option<string>, upload: Option<string>)

  /** A body field that is absent or empty is falsy. */
  predicate Given(x: Option<string>) { x.Some? && x.value != "" }

  /** `a || b` on a body field and a stored column. */
  function OrOld(x: Option<string>, old_: Option<string>): (r: Option<string>)
    ensures Given(x) ==> r == x
    ensures !Given(x) ==> r == old_
  {
    if Given(x) then x else old_
  }

  /** The stored path of an upload: `/uploads/<name>`, or NULL without a file. */
  function ImagePath(upload: Option<string>): (r: Option<string>)
    ensures upload.Some? <==> r.Some?
    ensures upload.Some? ==> r.value == "/uploads/" + upload.value
  {
    match upload
    case None => None
    case Some(name) => Some("/uploads/" + name)
  }

  /**
   * `updatedData`: a falsy title, image, price or subcategory keeps the old
   * column; the offer text keeps it only when absent (an empty text
   * clears it); visibility is exactly `is_visible === 'true'`.
   */
  function Merged(d: HotDeal, req: DealRequest): (r: DealData)
    ensures r.title == OrOld(req.title, d.title)
    ensures r.imagePath == (if req.upload.Some? then ImagePath(req.upload) else d.imagePath)
    ensures r.price == OrOld(req.price, d.price)
    ensures r.offerText == (if req.offerText.Some? then req.offerText else d.offerText)
    ensures r.isVisible <==> req.isVisible == Str("true")
    ensures r.subcategoryId == OrOld(req.subcategoryId, d.subcategoryId)
  {
    DealData(
      OrOld(req.title, d.title),
      OrOld(ImagePath(req.upload), d.imagePath),
      OrOld(req.price, d.price),
      if req.offerText.Some? then req.offerText else d.offerText,
      req.isVisible == Str("true"),
      OrOld(req.subcategoryId, d.subcategoryId))
  }

  datatype UpdateOutcome =
    | DealNotFound    // 404
    | TooManyVisible  // 400
    | DealUpdated

  /** The deal `d.id === parseInt(id)` finds. */
  function FindDeal(rows: seq<HotDeal>, id: string): (r: Option<nat>)
    ensures r.Some? ==> r.value < |rows| && ParseInt(id) == Some(rows[r.value].id as int)
    ensures r.None? ==> forall k :: 0 <= k < |rows| ==> ParseInt(id) != Some(rows[k].id as int)
  {
    FirstIndex(rows, (d: HotDeal) => ParseInt(id) == Some(d.id as int))
  }

  /** Making a hidden deal visible is refused once four deals are visible. */
  predicate ExceedsCap(rows: seq<HotDeal>, d: HotDeal, req: DealRequest) {
    req.isVisible == Str("true") && !d.isVisible && VisibleCount(rows) >= MaxVisible
  }

  /**
   * `updateHotDeal`: an unknown id is 404 and a fifth visible deal 400, both
   * with no change; otherwise the merged columns are written to the deal.
   */
  method UpdateHotDeal(db: Database, id: string, req: DealRequest) returns (r: UpdateOutcome)
    modifies db
    ensures r == DealNotFound <==> FindDeal(old(db.t).hotDeals, id).None?
    ensures r == TooManyVisible <==>
      var k := FindDeal(old(db.t).hotDeals, id);
      k.Some? && ExceedsCap(old(db.t).hotDeals, old(db.t).hotDeals[k.value], req)
    ensures r != DealUpdated ==> db.t == old(db.t)
    ensures r == DealUpdated ==>
      var d := old(db.t).hotDeals[FindDeal(old(db.t).hotDeals, id).value];
      db.t == old(db.t).(hotDeals := UpdateRows(old(db.t).hotDeals, d.id, Merged(d, req)))
  {
    var currentDeals := GetAll(db, None, false);
    var found := FindDeal(currentDeals, id);
    if found.None? {
      return DealNotFound;
    }
    var dealToUpdate := currentDeals[found.value];
    var willBeVisible := req.isVisible == Str("true");
    var visibleCount := VisibleCount(currentDeals);
    if willBeVisible && !dealToUpdate.isVisible && visibleCount >= MaxVisible {
      return TooManyVisible;
    }
    Update(db, dealToUpdate.id, Merged(dealToUpdate, req));
    r := DealUpdated;
  }

  /** The id is the table's primary key. */
  predicate UniqueDealIds(rows: seq<HotDeal>) {
    forall i, j :: 0 <= i < j < |rows| ==> rows[i].id != rows[j].id
  }

  /**
   * An update never takes the visible count past four: it either does not
   * raise it or raises it by one to at most four.
   */
  lemma UpdateKeepsCap(rows: seq<HotDeal>, id: string, req: DealRequest)
    requires UniqueDealIds(rows)
    requires FindDeal(rows, id).Some?
    requires var d := rows[FindDeal(rows, id).value]; !ExceedsCap(rows, d, req)
    ensures var d := rows[FindDeal(rows, id).value];
      var after := VisibleCount(UpdateRows(rows, d.id, Merged(d, req)));
      after <= VisibleCount(rows) || (after == VisibleCount(rows) + 1 && after <= MaxVisible)
  {
    var k := FindDeal(rows, id).value;
    UpdateVisibleCount(rows, rows[k].id, Merged(rows[k], req));
  }

  /** With four deals visible, a hidden deal asked to show is refused. */
  lemma FifthVisibleRefused(rows: seq<HotDeal>, id: string, req: DealRequest)
    requires FindDeal(rows, id).Some? && !rows[FindDeal(rows, id).value].isVisible
    requires VisibleCount(rows) == MaxVisible && req.isVisible == Str("true")
    ensures ExceedsCap(rows, rows[FindDeal(rows, id).value], req)
  {
  }

  /** Any value of `is_visible` other than the string 'true' hides the deal, a boolean true included. */
  lemma OnlyStringTrueShows(d: HotDeal, req: DealRequest)
    requires req.isVisible != Str("true")
    ensures !Merged(d, req).isVisible
    ensures req.isVisible == Bool(true) ==> !Merged(d, req).isVisible
  {
  }

  /**
   * `createHotDeal`: 'true' or true makes the deal visible, a falsy offer
   * text is stored NULL, and no cap is checked.
   */
  function NewDeal(req: DealRequest): (r: DealData)
    ensures r.isVisible <==> req.isVisible == Str("true") || req.isVisible == Bool(true)
    ensures r.offerText.Some? <==> Given(req.offerText)
    ensures r.offerText.Some? ==> r.offerText == req.offerText
    ensures r.title == req.title && r.price == req.price && r.subcategoryId == req.subcategoryId
    ensures r.imagePath == ImagePath(req.upload)
  {
    DealData(req.title, ImagePath(req.upload), req.price,
             if Given(req.offerText) then req.offerText else None,
             req.isVisible == Str("true") || req.isVisible == Bool(true),
             req.subcategoryId)
  }

  method CreateHotDeal(db: Database, req: DealRequest)
    modifies db
    ensures var data := NewDeal(req);
      db.t == old(db.t).(
        hotDeals := old(db.t).hotDeals + [HotDeal(old(db.t).nextId, data.title, data.imagePath, data.price, data.offerText, data.isVisible, data.subcategoryId)],
        nextId := old(db.t).nextId + 1)
  {
    var _ := Create(db, NewDeal(req));
  }

  /** Creating is not capped: a fifth visible deal can be created, though no update could make one. */
  lemma CreateIgnoresCap(rows: seq<HotDeal>, id: nat, req: DealRequest)
    requires VisibleCount(rows) == MaxVisible && req.isVisible == Bool(true)
    ensures var data := NewDeal(req);
      VisibleCount(rows + [HotDeal(id, data.title, data.imagePath, data.price, data.offerText, data.isVisible, data.subcategoryId)]) == MaxVisible + 1
  {
    var data := NewDeal(req);
    var row := HotDeal(id, data.title, data.imagePath, data.price, data.offerText, data.isVisible, data.subcategoryId);
    CountAppend(rows, [row], IsVisible());
    assert Count([row], IsVisible()) == 1 by {
      assert [row][1..] == [];
    }
  }

  /** `deleteHotDeal`: the rows whose id is the number the path parameter parses to. */
  method DeleteHotDeal(db: Database, id: string)
    modifies db
    ensures ParseInt(id).None? ==> db.t == old(db.t)
    ensures ParseInt(id).Some? ==> db.t == old(db.t).(hotDeals := DeleteRows(old(db.t).hotDeals, ParseInt(id).value))
  {
    var n := ParseInt(id);
    if n.Some? {
      Delete(db, n.value);
    }
  }
}
