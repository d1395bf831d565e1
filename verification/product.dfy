/**
 * controllers/productController.js: creating, listing, reading, updating and
 * deleting products with their images and attributes.
 *
 * The writes run in one transaction each: the handler works on a copy of the
 * tables and the copy becomes the database only at the commit; a thrown
 * error or a rollback leaves the database as it was. Uploaded files are
 * given by the paths the upload store chose for them, in order.
 */
module ProductController {
  import opened Wrappers
  import opened JsStrings
  import opened JsValues
  import opened Schema
  import opened ProductSlug

  /** A body field that is absent or empty is falsy. */
  predicate Given(x: Option<string>) { x.Some? && x.value != "" }

  /** `x || null` on an id field. */
  function IdOrNull(x: Option<nat>): (r: Option<nat>)
    ensures r.Some? <==> TruthyId(x)
    ensures r.Some? ==> r == x
  {
    if TruthyId(x) then x else None
  }

  // ---------------------------------------------------------------------------
  // Attributes

  /** `selectedAttributes` as the body carries it. */
  datatype AttributeField = NoAttributes | AttributeText(text: string) | AttributeList(values: seq<string>)

  predicate TruthyAttributes(f: AttributeField) {
    f.AttributeList? || (f.AttributeText? && f.text != "")
  }

  /** `WHERE value IN (?)`. */
  function SelectedValue(values: seq<string>): Attribute -> bool {
    (a: Attribute) => a.value in values
  }

  /**
   * `attributeMap` after the `forEach` over `rows`: each value maps to an id,
   * and a later row with the same value overwrites an earlier one.
   */
  function AttributeMap(rows: seq<Attribute>): map<string, nat> {
    if |rows| == 0 then map[] else map[rows[0].value := rows[0].id] + AttributeMap(rows[1..])
  }

  /** One more step of the `forEach`. */
  lemma {:induction false} AttributeMapSnoc(rows: seq<Attribute>, x: Attribute)
    ensures AttributeMap(rows + [x]) == AttributeMap(rows)[x.value := x.id]
  {
    if |rows| > 0 {
      assert (rows + [x])[1..] == rows[1..] + [x];
      AttributeMapSnoc(rows[1..], x);
    } else {
      assert rows + [x] == [x];
    }
  }

  /** The `forEach` that fills `attributeMap`. */
  method BuildAttributeMap(rows: seq<Attribute>) returns (attributeMap: map<string, nat>)
    ensures attributeMap == AttributeMap(rows)
  {
    attributeMap := map[];
    for i := 0 to |rows|
      invariant attributeMap == AttributeMap(rows[..i])
    {
      assert rows[..i + 1] == rows[..i] + [rows[i]];
      AttributeMapSnoc(rows[..i], rows[i]);
      attributeMap := attributeMap[rows[i].value := rows[i].id];
    }
    assert rows[..|rows|] == rows;
  }

  /** The map holds exactly the values of the rows. */
  lemma {:induction false} AttributeMapKeys(rows: seq<Attribute>, v: string)
    ensures v in AttributeMap(rows) <==> exists k :: 0 <= k < |rows| && rows[k].value == v
  {
    if |rows| > 0 {
      AttributeMapKeys(rows[1..], v);
      if exists k :: 0 <= k < |rows| && rows[k].value == v {
        var k :| 0 <= k < |rows| && rows[k].value == v;
        if k > 0 {
          assert rows[1..][k - 1].value == v;
        }
      }
      if exists k :: 0 <= k < |rows[1..]| && rows[1..][k].value == v {
        var k :| 0 <= k < |rows[1..]| && rows[1..][k].value == v;
        assert rows[k + 1].value == v;
      }
    }
  }

  /** A value's id is the id of its last row. */
  lemma {:induction false} AttributeMapLast(rows: seq<Attribute>, k: nat)
    requires k < |rows|
    requires forall j :: k < j < |rows| ==> rows[j].value != rows[k].value
    ensures rows[k].value in AttributeMap(rows) && AttributeMap(rows)[rows[k].value] == rows[k].id
  {
    if k == 0 {
      AttributeMapKeys(rows[1..], rows[0].value);
    } else {
      assert rows[1..][k - 1] == rows[k];
      AttributeMapLast(rows[1..], k - 1);
    }
  }

  /** The ids the selected values map to. */
  function IdsOf(m: map<string, nat>, selected: seq<string>): set<nat> {
    set j | 0 <= j < |selected| && selected[j] in m :: m[selected[j]]
  }

  /** `.map(v => attributeMap[v]).filter(id => id)`: unknown values and the id 0 drop out, order is kept. */
  function AttributeIds(m: map<string, nat>, selected: seq<string>): (r: seq<nat>)
    ensures |r| <= |selected|
    ensures forall k :: 0 <= k < |r| ==> r[k] != 0 && r[k] in IdsOf(m, selected)
    ensures (forall j :: 0 <= j < |selected| ==> selected[j] in m && m[selected[j]] != 0) ==>
      |r| == |selected| && forall j :: 0 <= j < |selected| ==> r[j] == m[selected[j]]
  {
    if |selected| == 0 then []
    else
      var rest := AttributeIds(m, selected[1..]);
      assert IdsOf(m, selected[1..]) <= IdsOf(m, selected) by {
        forall x | x in IdsOf(m, selected[1..]) ensures x in IdsOf(m, selected) {
          var j :| 0 <= j < |selected[1..]| && selected[1..][j] in m && m[selected[1..][j]] == x;
          assert selected[j + 1] == selected[1..][j];
        }
      }
      var v := selected[0];
      if v in m && m[v] != 0 then [m[v]] + rest else rest
  }

  /** The mapping runs value by value: the ids of a concatenation are the concatenated ids. */
  lemma {:induction false} AttributeIdsAppend(m: map<string, nat>, a: seq<string>, b: seq<string>)
    ensures AttributeIds(m, a + b) == AttributeIds(m, a) + AttributeIds(m, b)
  {
    if |a| > 0 {
      assert (a + b)[1..] == a[1..] + b;
      AttributeIdsAppend(m, a[1..], b);
    } else {
      assert a + b == b;
    }
  }

  /** The `product_attributes` rows `create` inserts for a list of values. */
  function AttributeRows(attributes: seq<Attribute>, productId: nat, f: AttributeField): (r: seq<ProductAttribute>)
    ensures forall k :: 0 <= k < |r| ==> r[k].productId == productId && r[k].attributeId != 0
    ensures !f.AttributeList? ==> r == []
  {
    if f.AttributeList? && |f.values| > 0 then
      var ids := AttributeIds(AttributeMap(Filter(attributes, SelectedValue(f.values))), f.values);
      seq(|ids|, k requires 0 <= k < |ids| => ProductAttribute(productId, ids[k]))
    else []
  }

  /** The attribute block of `create`: the SELECT, the `forEach`, the mapping and the rows to insert. */
  method MapAttributes(attributes: seq<Attribute>, productId: nat, f: AttributeField) returns (rows: seq<ProductAttribute>)
    ensures rows == AttributeRows(attributes, productId, f)
  {
    rows := [];
    if f.AttributeList? && |f.values| > 0 {
      var selected := f.values;
      var attributeRows := Filter(attributes, SelectedValue(selected));
      var attributeMap := BuildAttributeMap(attributeRows);
      var attributeValues := AttributeIds(attributeMap, selected);
      if |attributeValues| > 0 {
        rows := seq(|attributeValues|, k requires 0 <= k < |attributeValues| => ProductAttribute(productId, attributeValues[k]));
      }
    }
  }

  /** Restricting the rows to the selected values does not change any selected value's entry. */
  lemma {:induction false} SelectionKeepsIds(rows: seq<Attribute>, values: seq<string>, v: string)
    requires v in values
    ensures v in AttributeMap(rows) <==> v in AttributeMap(Filter(rows, SelectedValue(values)))
    ensures v in AttributeMap(rows) ==> AttributeMap(rows)[v] == AttributeMap(Filter(rows, SelectedValue(values)))[v]
  {
    if |rows| > 0 {
      SelectionKeepsIds(rows[1..], values, v);
    }
  }

  /** The ids `create` looks up are those of the whole `attributes` table. */
  lemma {:induction false} SelectionKeepsAttributeIds(rows: seq<Attribute>, values: seq<string>, selected: seq<string>)
    requires forall j :: 0 <= j < |selected| ==> selected[j] in values
    ensures AttributeIds(AttributeMap(Filter(rows, SelectedValue(values))), selected) == AttributeIds(AttributeMap(rows), selected)
  {
    if |selected| > 0 {
      SelectionKeepsIds(rows, values, selected[0]);
      SelectionKeepsAttributeIds(rows, values, selected[1..]);
    }
  }

  // ---------------------------------------------------------------------------
  // Images

  /** The image paths of a product, in table order. */
  function ImageUrls(rows: seq<ProductImage>, productId: int): (r: seq<string>)
    ensures |r| <= |rows|
  {
    if |rows| == 0 then []
    else if rows[0].productId == productId then [rows[0].imageUrl] + ImageUrls(rows[1..], productId)
    else ImageUrls(rows[1..], productId)
  }

  /** `GROUP_CONCAT(pi.image_url)` over the LEFT JOIN: NULL when the product has no image. */
  function GroupConcat(urls: seq<string>): (r: Option<string>)
    ensures r.None? <==> urls == []
  {
    if urls == [] then None else Some(Join(urls, ','))
  }

  /** `images ? images.split(',') : []`. */
  function SplitImages(images: Option<string>): (r: seq<string>)
    ensures images.None? || images == Some("") ==> r == []
  {
    if images.None? || images.value == "" then [] else Split(images.value, ',')
  }

  /**
   * Splitting the concatenation gives the paths back when none holds a comma,
   * except for a product whose only image path is empty, which reads as no image.
   */
  lemma ImagesRoundTrip(urls: seq<string>)
    requires forall k :: 0 <= k < |urls| ==> ',' !in urls[k]
    ensures urls != [""] ==> SplitImages(GroupConcat(urls)) == urls
    ensures urls == [""] ==> SplitImages(GroupConcat(urls)) == []
  {
    if |urls| > 0 && urls != [""] {
      SplitJoin(urls, ',');
      if |urls| >= 2 {
        assert ',' in Join(urls, ',') by {
          assert Join(urls, ',') == urls[0] + [','] + Join(urls[1..], ',');
          assert Join(urls, ',')[|urls[0]|] == ',';
        }
      }
    }
  }

  /** The `product_images` rows for the uploaded files, in upload order. */
  function ImageRows(productId: int, files: seq<string>): (r: seq<ProductImage>)
    ensures |r| == |files|
    ensures forall k :: 0 <= k < |r| ==> r[k] == ProductImage(productId, files[k])
  {
    seq(|files|, k requires 0 <= k < |files| => ProductImage(productId, files[k]))
  }

  /** The stored images of a freshly inserted product are the uploaded files in order. */
  lemma {:induction false} ImageRowsRead(rows: seq<ProductImage>, productId: int, files: seq<string>)
    requires forall k :: 0 <= k < |rows| ==> rows[k].productId != productId
    ensures ImageUrls(rows + ImageRows(productId, files), productId) == files
  {
    if |rows| > 0 {
      assert (rows + ImageRows(productId, files))[1..] == rows[1..] + ImageRows(productId, files);
      ImageRowsRead(rows[1..], productId, files);
    } else {
      assert rows + ImageRows(productId, files) == ImageRows(productId, files);
      FreshImageRowsRead(productId, files);
    }
  }

  lemma {:induction false} FreshImageRowsRead(productId: int, files: seq<string>)
    ensures ImageUrls(ImageRows(productId, files), productId) == files
  {
    if |files| > 0 {
      assert ImageRows(productId, files)[1..] == ImageRows(productId, files[1..]);
      FreshImageRowsRead(productId, files[1..]);
      assert files == [files[0]] + files[1..];
    }
  }

  /** `getTopTrending`: a relative path is served from the API host; absolute URLs and rooted paths are kept. */
  function PrefixImage(path: string): (r: string)
    ensures StartsWith(r, "http") || StartsWith(r, "/")
    ensures StartsWith(path, "http") || StartsWith(path, "/") ==> r == path
    ensures !(StartsWith(path, "http") || StartsWith(path, "/")) ==> r == "http://localhost:5000/" + path
  {
    if !StartsWith(path, "http") && !StartsWith(path, "/") then
      var r := "http://localhost:5000/" + path;
      assert r[..4] == "http";
      r
    else path
  }

  /** Prefixing twice is prefixing once. */
  lemma PrefixIdempotent(path: string)
    ensures PrefixImage(PrefixImage(path)) == PrefixImage(path)
  {
  }

  // ---------------------------------------------------------------------------
  // Reads

  /** `c.name AS category`: the LEFT JOIN with `categories` on the product's category id. */
  function CategoryName(t: Tables, categoryId: Option<nat>): (r: Option<string>)
    ensures r.Some? ==> categoryId.Some? && exists k :: 0 <= k < |t.categories| && t.categories[k].id == categoryId.value && t.categories[k].name == r.value
    ensures r.None? <==> categoryId.None? || forall k :: 0 <= k < |t.categories| ==> t.categories[k].id != categoryId.value
  {
    if categoryId.None? then None
    else match FirstIndex(t.categories, (c: Category) => c.id == categoryId.value)
      case None => None
      case Some(k) => Some(t.categories[k].name)
  }

  /** A row of `getAll`: `images` is the concatenated paths, '' when there are none. */
  datatype Listing = Listing(product: Product, category: Option<string>, images: string)

  function ListingOf(t: Tables, p: Product): Listing {
    Listing(p, CategoryName(t, p.categoryId), GroupConcat(ImageUrls(t.productImages, p.id)).GetOr(""))
  }

  /** `getAll`: one row per product, in table order. */
  function AllProducts(t: Tables): (r: seq<Listing>)
    ensures |r| == |t.products|
    ensures forall k :: 0 <= k < |r| ==> r[k].product == t.products[k]
    ensures forall k :: 0 <= k < |r| ==> r[k].category == CategoryName(t, t.products[k].categoryId)
    ensures forall k :: 0 <= k < |r| ==>
      SplitImages(Some(r[k].images)) == SplitImages(GroupConcat(ImageUrls(t.productImages, t.products[k].id)))
  {
    seq(|t.products|, k requires 0 <= k < |t.products| => ListingOf(t, t.products[k]))
  }

  /** `getById` and `getBySlug`: the product with its category name and its image list. */
  datatype Detail = Detail(product: Product, categoryName: Option<string>, images: seq<string>)

  datatype ReadOutcome =
    | InvalidId       // 400
    | ProductNotFound // 404
    | Found(detail: Detail)

  function DetailOf(t: Tables, p: Product): Detail {
    Detail(p, CategoryName(t, p.categoryId), SplitImages(GroupConcat(ImageUrls(t.productImages, p.id))))
  }

  /** `getById`: `parseInt` of the path parameter, 400 when it is NaN, 404 when no product has the id. */
  function ProductById(t: Tables, id: string): (r: ReadOutcome)
    ensures r == InvalidId <==> ParseInt(id).None?
    ensures r == ProductNotFound <==> ParseInt(id).Some? && forall k :: 0 <= k < |t.products| ==> t.products[k].id as int != ParseInt(id).value
    ensures r.Found? ==> r.detail.product in t.products && r.detail.product.id as int == ParseInt(id).value
    ensures r.Found? ==> r.detail.categoryName == CategoryName(t, r.detail.product.categoryId)
    ensures r.Found? ==> r.detail.images == SplitImages(GroupConcat(ImageUrls(t.productImages, r.detail.product.id)))
  {
    match ParseInt(id)
    case None => InvalidId
    case Some(n) =>
      match FirstIndex(t.products, (p: Product) => p.id as int == n)
      case None => ProductNotFound
      case Some(k) => Found(DetailOf(t, t.products[k]))
  }

  /** `getBySlug`: the first product with the slug, 404 when there is none. */
  function ProductBySlug(t: Tables, slug: string): (r: ReadOutcome)
    ensures r != InvalidId
    ensures r == ProductNotFound <==> forall k :: 0 <= k < |t.products| ==> t.products[k].slug != slug
    ensures r.Found? ==> r.detail.product in t.products && r.detail.product.slug == slug
    ensures r.Found? ==> r.detail.categoryName == CategoryName(t, r.detail.product.categoryId)
    ensures r.Found? ==> r.detail.images == SplitImages(GroupConcat(ImageUrls(t.productImages, r.detail.product.id)))
  {
    match FirstIndex(t.products, (p: Product) => p.slug == slug)
    case None => ProductNotFound
    case Some(k) => Found(DetailOf(t, t.products[k]))
  }

  /** A product of `getTopTrending`, after the formatting. */
  datatype TrendingItem = TrendingItem(product: Product, images: seq<string>, discountPct: int)

  function IsTrending(): Product -> bool {
    (p: Product) => p.isTrending
  }

  /** The sort key of `ORDER BY p.created_at DESC`. */
  function ProductCreatedAt(): Product -> int {
    (p: Product) => p.createdAt
  }

  /** The number of trending products `getTopTrending` shows at most. */
  const TrendingLimit: nat := 5

  /**
   * One product of `getTopTrending` after `products.map(...)`: its stored
   * paths, split, each through `PrefixImage`, and `parseInt(discount) || 0`.
   */
  function Formatted(t: Tables, p: Product): (r: TrendingItem)
    ensures r.product == p
    ensures var paths := SplitImages(GroupConcat(ImageUrls(t.productImages, p.id)));
      && |r.images| == |paths|
      && forall k :: 0 <= k < |paths| ==> r.images[k] == PrefixImage(paths[k])
    ensures forall k :: 0 <= k < |r.images| ==> StartsWith(r.images[k], "http") || StartsWith(r.images[k], "/")
    ensures r.discountPct == ParseIntOrZero(p.discountPct)
  {
    var paths := SplitImages(GroupConcat(ImageUrls(t.productImages, p.id)));
    TrendingItem(p, seq(|paths|, k requires 0 <= k < |paths| => PrefixImage(paths[k])), ParseIntOrZero(p.discountPct))
  }

  /** `WHERE p.is_trending = TRUE ... ORDER BY p.created_at DESC`: every trending product, newest first. */
  function TrendingByAge(t: Tables): (r: seq<Product>)
    ensures |r| == Count(t.products, IsTrending())
    ensures forall k :: 0 <= k < |r| ==> r[k].isTrending && r[k] in t.products
    ensures DescendingBy(r, ProductCreatedAt())
  {
    FilterCount(t.products, IsTrending());
    SortKeepsElements(Filter(t.products, IsTrending()), ProductCreatedAt());
    SortDescending(Filter(t.products, IsTrending()), ProductCreatedAt())
  }

  /** `... LIMIT 5`. */
  function NewestTrending(t: Tables): (r: seq<Product>)
    ensures |r| == if Count(t.products, IsTrending()) < TrendingLimit then Count(t.products, IsTrending()) else TrendingLimit
    ensures forall k :: 0 <= k < |r| ==> r[k].isTrending && r[k] in t.products
    ensures DescendingBy(r, ProductCreatedAt())
  {
    Limit(TrendingByAge(t), TrendingLimit)
  }

  /**
   * `getTopTrending`: the five newest trending products, formatted; None
   * (404) when no product is trending.
   */
  function TopTrending(t: Tables): (r: Option<seq<TrendingItem>>)
    ensures r.None? <==> forall k :: 0 <= k < |t.products| ==> !t.products[k].isTrending
    ensures r.Some? ==>
      && |r.value| == |NewestTrending(t)|
      && (forall k :: 0 <= k < |r.value| ==> r.value[k].product == NewestTrending(t)[k])
      && (forall k :: 0 <= k < |r.value| ==> r.value[k] == Formatted(t, NewestTrending(t)[k]))
  {
    var top := NewestTrending(t);
    assert |top| == 0 <==> Count(t.products, IsTrending()) == 0;
    if |top| == 0 then None else Some(FormatAll(t, top))
  }

  /** What `getTopTrending` lists: trending products, newest first. */
  lemma TopTrendingOrder(t: Tables)
    requires TopTrending(t).Some?
    ensures forall k :: 0 <= k < |TopTrending(t).value| ==>
      TopTrending(t).value[k].product.isTrending && TopTrending(t).value[k].product in t.products
    ensures forall i, j :: 0 <= i < j < |TopTrending(t).value| ==>
      TopTrending(t).value[i].product.createdAt >= TopTrending(t).value[j].product.createdAt
  {
    var items := TopTrending(t).value;
    var top := NewestTrending(t);
    forall i, j | 0 <= i < j < |items|
      ensures items[i].product.createdAt >= items[j].product.createdAt
    {
      assert ProductCreatedAt()(top[i]) >= ProductCreatedAt()(top[j]);
    }
  }

  /** `products.map(...)`: each product formatted, in order. */
  function FormatAll(t: Tables, ps: seq<Product>): (r: seq<TrendingItem>)
    ensures |r| == |ps|
    ensures forall k :: 0 <= k < |ps| ==> r[k] == Formatted(t, ps[k])
  {
    if |ps| == 0 then [] else [Formatted(t, ps[0])] + FormatAll(t, ps[1..])
  }

  lemma {:induction false} FilterCount<T>(s: seq<T>, p: T -> bool)
    ensures |Filter(s, p)| == Count(s, p)
  {
    if |s| > 0 {
      FilterCount(s[1..], p);
    }
  }

  // ---------------------------------------------------------------------------
  // Writes

  datatype CreateRequest = CreateRequest(
    name: Option<string>, slug: Option<string>, shortDescription: Option<string>, description: Option<string>,
    price: Option<real>, stockQuantity: Option<int>, categoryId: Option<nat>, subcategoryId: Option<nat>,
    subSubcategoryId: Option<nat>, selectedAttributes: AttributeField, discountPercentage: Option<string>,
    files: seq<string>)

  /**
   * `slug || generateSlug(name)`: an empty slug is regenerated too; None
   * when the name it needs is absent (`undefined.toLowerCase` throws).
   */
  function CreateSlug(slug: Option<string>, name: Option<string>): (r: Option<string>)
    ensures Given(slug) ==> r == slug
    ensures !Given(slug) ==> (r.Some? <==> name.Some?)
    ensures !Given(slug) && name.Some? ==> r == Some(GenerateSlug(name.value))
  {
    if Given(slug) then slug else if name.Some? then Some(GenerateSlug(name.value)) else None
  }

  /** The INSERT INTO products of `create`; `is_trending` starts false. */
  function NewProduct(id: nat, req: CreateRequest, slug: string, now: int): Product {
    Product(
      id, if Given(req.name) then req.name else None, slug,
      if Given(req.shortDescription) then req.shortDescription else None,
      if Given(req.description) then req.description else None,
      req.price.GetOr(0.0), req.stockQuantity.GetOr(0),
      IdOrNull(req.categoryId), IdOrNull(req.subcategoryId), IdOrNull(req.subSubcategoryId),
      if Given(req.discountPercentage) then req.discountPercentage.value else "0",
      false, now)
  }

  datatype CreateOutcome =
    | CreateFailed          // 500, rolled back
    | Created(productId: nat) // 201

  /**
   * `create`. `attributesParse` says whether `JSON.parse` accepts the text of
   * a truthy `selectedAttributes` (the parsed value itself is never used).
   */
  method CreateProduct(db: Database, req: CreateRequest, attributesParse: bool, now: int) returns (r: CreateOutcome)
    modifies db
    ensures r == CreateFailed <==> CreateSlug(req.slug, req.name).None? || (TruthyAttributes(req.selectedAttributes) && !attributesParse)
    ensures r == CreateFailed ==> db.t == old(db.t)
    ensures r.Created? ==>
      var id := old(db.t).nextId;
      && r.productId == id
      && db.t == old(db.t).(
           products := old(db.t).products + [NewProduct(id, req, CreateSlug(req.slug, req.name).value, now)],
           productAttributes := old(db.t).productAttributes + AttributeRows(old(db.t).attributes, id, req.selectedAttributes),
           productImages := old(db.t).productImages + ImageRows(id, req.files),
           nextId := id + 1)
  {
    var finalSlug := CreateSlug(req.slug, req.name);
    if finalSlug.None? {
      return CreateFailed;
    }
    if TruthyAttributes(req.selectedAttributes) && !attributesParse {
      return CreateFailed;
    }
    var tx := db.t;
    var productId := tx.nextId;
    tx := tx.(products := tx.products + [NewProduct(productId, req, finalSlug.value, now)], nextId := productId + 1);
    var attributeInsertValues := MapAttributes(tx.attributes, productId, req.selectedAttributes);
    tx := tx.(productAttributes := tx.productAttributes + attributeInsertValues);
    if |req.files| > 0 {
      tx := tx.(productImages := tx.productImages + ImageRows(productId, req.files));
    }
    db.t := tx;
    r := Created(productId);
  }

  /** `create` and `update` treat an empty slug differently: `||` regenerates it, `??` keeps it. */
  lemma EmptySlugRules(name: string)
    ensures CreateSlug(Some(""), Some(name)) == Some(GenerateSlug(name))
    ensures UpdateSlug(Some(""), Some(name)) == Some("")
  {
  }

  datatype UpdateRequest = UpdateRequest(
    name: Option<string>, slug: Option<string>, shortDescription: Option<string>, description: Option<string>,
    price: Option<real>, stockQuantity: Option<int>, isTrending: Option<bool>, files: seq<string>)

  /** `slug ?? generateSlug(name)`: only an absent slug is generated. */
  function UpdateSlug(slug: Option<string>, name: Option<string>): (r: Option<string>)
    ensures slug.Some? ==> r == slug
    ensures slug.None? ==> (r.Some? <==> name.Some?)
    ensures slug.None? && name.Some? ==> r == Some(GenerateSlug(name.value))
  {
    if slug.Some? then slug else if name.Some? then Some(GenerateSlug(name.value)) else None
  }

  /** The UPDATE of `updateProduct`: seven columns from the body, each `?? default`. */
  function Updated(p: Product, req: UpdateRequest, slug: string): (r: Product)
    ensures r.id == p.id && r.createdAt == p.createdAt && r.discountPct == p.discountPct
    ensures r.categoryId == p.categoryId && r.subcategoryId == p.subcategoryId && r.subSubcategoryId == p.subSubcategoryId
    ensures r.name == req.name && r.slug == slug && r.isTrending == req.isTrending.GetOr(false)
  {
    p.(name := req.name, slug := slug, shortDescription := req.shortDescription, description := req.description,
       price := req.price.GetOr(0.0), stockQuantity := req.stockQuantity.GetOr(0), isTrending := req.isTrending.GetOr(false))
  }

  function UpdateProducts(rows: seq<Product>, id: int, req: UpdateRequest, slug: string): (r: seq<Product>)
    ensures |r| == |rows|
    ensures forall k :: 0 <= k < |rows| ==> r[k] == if rows[k].id as int == id then Updated(rows[k], req, slug) else rows[k]
  {
    if |rows| == 0 then []
    else [if rows[0].id as int == id then Updated(rows[0], req, slug) else rows[0]] + UpdateProducts(rows[1..], id, req, slug)
  }

  /** An update of an id no product has changes no product. */
  lemma UnknownIdUnchanged(rows: seq<Product>, id: int, req: UpdateRequest, slug: string)
    requires forall k :: 0 <= k < |rows| ==> rows[k].id as int != id
    ensures UpdateProducts(rows, id, req, slug) == rows
  {
  }

  function OtherImages(rows: seq<ProductImage>, id: int): (r: seq<ProductImage>)
    ensures forall k :: 0 <= k < |r| ==> r[k].productId as int != id && r[k] in rows
    ensures forall k :: 0 <= k < |rows| && rows[k].productId as int != id ==> rows[k] in r
  {
    Filter(rows, (x: ProductImage) => x.productId as int != id)
  }

  function OtherAttributes(rows: seq<ProductAttribute>, id: int): (r: seq<ProductAttribute>)
    ensures forall k :: 0 <= k < |r| ==> r[k].productId as int != id && r[k] in rows
    ensures forall k :: 0 <= k < |rows| && rows[k].productId as int != id ==> rows[k] in r
  {
    Filter(rows, (x: ProductAttribute) => x.productId as int != id)
  }

  datatype UpdateOutcome = UpdateInvalidId | UpdateFailed | ProductUpdated

  /**
   * `updateProduct`: 400 for a NaN id; with uploads the old images are
   * replaced by the new ones. The number of rows changed is not checked, so
   * an unknown id is reported updated.
   */
  method UpdateProduct(db: Database, id: string, req: UpdateRequest) returns (r: UpdateOutcome)
    modifies db
    ensures r == UpdateInvalidId <==> ParseInt(id).None?
    ensures r == UpdateFailed <==> ParseInt(id).Some? && UpdateSlug(req.slug, req.name).None?
    ensures r != ProductUpdated ==> db.t == old(db.t)
    ensures r == ProductUpdated ==>
      var n := ParseInt(id).value;
      db.t == old(db.t).(
        products := UpdateProducts(old(db.t).products, n, req, UpdateSlug(req.slug, req.name).value),
        productImages := if |req.files| > 0 then OtherImages(old(db.t).productImages, n) + ImageRows(n, req.files)
                         else old(db.t).productImages)
  {
    var productId := ParseInt(id);
    if productId.None? {
      return UpdateInvalidId;
    }
    var finalSlug := UpdateSlug(req.slug, req.name);
    if finalSlug.None? {
      return UpdateFailed;
    }
    var n := productId.value;
    var tx := db.t;
    tx := tx.(products := UpdateProducts(tx.products, n, req, finalSlug.value));
    if |req.files| > 0 {
      tx := tx.(productImages := OtherImages(tx.productImages, n) + ImageRows(n, req.files));
    }
    db.t := tx;
    r := ProductUpdated;
  }

  datatype DeleteOutcome = DeleteInvalidId | DeleteNotFound | ProductDeleted

  /**
   * `deleteProduct`: images, attributes, then the product; when no product
   * had the id the transaction is rolled back, so the images and attributes
   * deleted before stay.
   */
  method DeleteProduct(db: Database, id: string) returns (r: DeleteOutcome)
    modifies db
    ensures r == DeleteInvalidId <==> ParseInt(id).None?
    ensures r == DeleteNotFound <==> ParseInt(id).Some? && forall k :: 0 <= k < |old(db.t).products| ==> old(db.t).products[k].id as int != ParseInt(id).value
    ensures r != ProductDeleted ==> db.t == old(db.t)
    ensures r == ProductDeleted ==>
      var n := ParseInt(id).value;
      db.t == old(db.t).(
        products := Filter(old(db.t).products, (p: Product) => p.id as int != n),
        productImages := OtherImages(old(db.t).productImages, n),
        productAttributes := OtherAttributes(old(db.t).productAttributes, n))
  {
    var productId := ParseInt(id);
    if productId.None? {
      return DeleteInvalidId;
    }
    var n := productId.value;
    var tx := db.t;
    tx := tx.(productImages := OtherImages(tx.productImages, n));
    tx := tx.(productAttributes := OtherAttributes(tx.productAttributes, n));
    var affectedRows := Count(tx.products, (p: Product) => p.id as int == n);
    tx := tx.(products := Filter(tx.products, (p: Product) => p.id as int != n));
    if affectedRows == 0 {
      return DeleteNotFound;
    }
    db.t := tx;
    r := ProductDeleted;
  }

  datatype TrendingOutcome = TrendingInvalidId | TrendingFailed | TrendingNotFound | TrendingSet(product: Product)

  /**
   * `updateTrendingStatus`: 400 for a NaN id, 500 when `isTrending` is
   * absent (an `undefined` bind value is refused), 404 when no product has
   * the id; otherwise the flag is written and the product read back.
   */
  method UpdateTrendingStatus(db: Database, id: string, isTrending: Option<bool>) returns (r: TrendingOutcome)
    modifies db
    ensures r == TrendingInvalidId <==> ParseInt(id).None?
    ensures r == TrendingFailed <==> ParseInt(id).Some? && isTrending.None?
    ensures r == TrendingNotFound <==>
      && ParseInt(id).Some? && isTrending.Some?
      && forall k :: 0 <= k < |old(db.t).products| ==> old(db.t).products[k].id as int != ParseInt(id).value
    ensures !r.TrendingSet? ==> db.t == old(db.t)
    ensures r.TrendingSet? ==>
      && isTrending.Some?
      && r.product.id as int == ParseInt(id).value && r.product.isTrending == isTrending.value
      && |db.t.products| == |old(db.t).products|
      && (forall k :: 0 <= k < |db.t.products| ==>
            db.t.products[k] == if old(db.t).products[k].id as int == ParseInt(id).value
                                then old(db.t).products[k].(isTrending := isTrending.value) else old(db.t).products[k])
      && db.t == old(db.t).(products := db.t.products)
  {
    var productId := ParseInt(id);
    if productId.None? {
      return TrendingInvalidId;
    }
    if isTrending.None? {
      return TrendingFailed;
    }
    var n := productId.value;
    var found := FirstIndex(db.t.products, (p: Product) => p.id as int == n);
    if found.None? {
      return TrendingNotFound;
    }
    var products := db.t.products;
    var rows := seq(|products|, k requires 0 <= k < |products| =>
      if products[k].id as int == n then products[k].(isTrending := isTrending.value) else products[k]);
    db.t := db.t.(products := rows);
    r := TrendingSet(rows[found.value]);
  }
}
