/**
 * `getCategories` of controllers/categoryController.js: the flat rows of
 * categories LEFT JOIN subcategories LEFT JOIN sub_subcategories folded into
 * an object keyed by category id, each holding an object keyed by
 * subcategory id, each holding the list of its sub-subcategories; then both
 * levels turned into arrays with `Object.values`.
 */
module CategoryTree {
  import opened Wrappers
  import opened IndexObjects

  /** An id and a name, as the join selects them for one level. */
  datatype Named = Named(id: nat, name: string)

  /**
   * One row of the join. A subcategory or sub-subcategory column pair is
   * None when the LEFT JOIN found no row (SQL NULL).
   */
  datatype JoinRow = JoinRow(categoryId: nat, categoryName: string, sub: Option<Named>, subSub: Option<Named>)

  datatype SubcategoryNode = SubcategoryNode(id: nat, name: string, subSubcategories: seq<Named>)

  /** A category while the rows are folded: its subcategories are still an object. */
  datatype CategoryEntry = CategoryEntry(id: nat, name: string, subcategories: IndexObject<SubcategoryNode>)

  /** A category in the response. */
  datatype CategoryNode = CategoryNode(id: nat, name: string, subcategories: seq<SubcategoryNode>)

  /** `if (row.subcategory_id)`: a NULL or a 0 id is falsy. */
  predicate Present(x: Option<Named>) {
    x.Some? && x.value.id != 0
  }

  /** Each node sits under its own id. */
  ghost predicate ValidSubs(subs: IndexObject<SubcategoryNode>) {
    forall s :: s in subs ==> subs[s].id == s
  }

  /** Each category sits under its own id, and so does each of its subcategories. */
  ghost predicate ValidAcc(acc: IndexObject<CategoryEntry>) {
    forall c :: c in acc ==> acc[c].id == c && ValidSubs(acc[c].subcategories)
  }

  /** The subcategories object of category `c` so far; `{}` before its first row. */
  function SubsOf(acc: IndexObject<CategoryEntry>, c: nat): IndexObject<SubcategoryNode> {
    if c in acc then acc[c].subcategories else map[]
  }

  /**
   * The subcategory part of the callback, on a row with a present
   * subcategory: the node is created on its first row, then the
   * sub-subcategory is pushed if present.
   */
  function AddToSubs(subs: IndexObject<SubcategoryNode>, row: JoinRow): (r: IndexObject<SubcategoryNode>)
    requires Present(row.sub)
    ensures r.Keys == subs.Keys + {row.sub.value.id}
    ensures forall s :: s in subs && s != row.sub.value.id ==> r[s] == subs[s]
    ensures ValidSubs(subs) ==> ValidSubs(r)
    ensures var sid := row.sub.value.id;
      && r[sid].name == (if sid in subs then subs[sid].name else row.sub.value.name)
      && r[sid].subSubcategories ==
           (if sid in subs then subs[sid].subSubcategories else [])
           + (if Present(row.subSub) then [row.subSub.value] else [])
  {
    var sid := row.sub.value.id;
    var node := if sid in subs then subs[sid] else SubcategoryNode(sid, row.sub.value.name, []);
    subs[sid := if Present(row.subSub) then node.(subSubcategories := node.subSubcategories + [row.subSub.value]) else node]
  }

  /**
   * The reduce callback: the row's category is created on its first row with
   * the row's name and `{}`; a present subcategory goes under it.
   */
  function Step(acc: IndexObject<CategoryEntry>, row: JoinRow): (r: IndexObject<CategoryEntry>)
    ensures r.Keys == acc.Keys + {row.categoryId}
    ensures forall c :: c in acc && c != row.categoryId ==> r[c] == acc[c]
    ensures r[row.categoryId].name == if row.categoryId in acc then acc[row.categoryId].name else row.categoryName
    ensures forall c ::
      SubsOf(r, c) == (if c == row.categoryId && Present(row.sub) then AddToSubs(SubsOf(acc, c), row) else SubsOf(acc, c))
    ensures ValidAcc(acc) ==> ValidAcc(r)
  {
    var cid := row.categoryId;
    var cat := if cid in acc then acc[cid] else CategoryEntry(cid, row.categoryName, map[]);
    acc[cid := if Present(row.sub) then cat.(subcategories := AddToSubs(cat.subcategories, row)) else cat]
  }

  /** `results.reduce(callback, {})`. */
  function Group(rows: seq<JoinRow>): (r: IndexObject<CategoryEntry>)
    ensures ValidAcc(r)
  {
    if |rows| == 0 then map[] else Step(Group(rows[..|rows| - 1]), rows[|rows| - 1])
  }

  /** The reduce as the loop it runs: the accumulator is changed row by row. */
  method GroupRows(rows: seq<JoinRow>) returns (acc: IndexObject<CategoryEntry>)
    ensures acc == Group(rows)
  {
    acc := map[];
    for i := 0 to |rows|
      invariant acc == Group(rows[..i])
    {
      assert rows[..i + 1][..i] == rows[..i];
      acc := Step(acc, rows[i]);
    }
    assert rows[..|rows|] == rows;
  }

  /** `{...category, subcategories: Object.values(category.subcategories)}`. */
  function Format(e: CategoryEntry): (r: CategoryNode)
    ensures r.id == e.id && r.name == e.name
    ensures r.subcategories == Values(e.subcategories)
  {
    CategoryNode(e.id, e.name, Values(e.subcategories))
  }

  /** `.map(category => ...)` over the categories. */
  function FormatAll(values: seq<CategoryEntry>): (r: seq<CategoryNode>)
    ensures |r| == |values|
    ensures forall i :: 0 <= i < |r| ==> r[i] == Format(values[i])
  {
    if |values| == 0 then [] else [Format(values[0])] + FormatAll(values[1..])
  }

  /** `getCategories`: the rows folded, then both levels turned into arrays. */
  method GetCategories(rows: seq<JoinRow>) returns (data: seq<CategoryNode>)
    ensures data == FormatAll(Values(Group(rows)))
  {
    var acc := GroupRows(rows);
    data := FormatAll(Values(acc));
  }

  // ---------------------------------------------------------------------------
  // What the grouping produces, stated on the rows

  /** The rows that carry a sub-subcategory of subcategory `s` in category `c`, as leaves, in row order. */
  function LeavesOf(rows: seq<JoinRow>, c: nat, s: nat): (r: seq<Named>)
    ensures |r| <= |rows|
  {
    if |rows| == 0 then []
    else
      var last := rows[|rows| - 1];
      LeavesOf(rows[..|rows| - 1], c, s)
        + (if last.categoryId == c && Present(last.sub) && last.sub.value.id == s && Present(last.subSub)
           then [last.subSub.value] else [])
  }

  predicate HasRowOf(rows: seq<JoinRow>, c: nat) {
    exists i :: 0 <= i < |rows| && rows[i].categoryId == c
  }

  predicate HasSubRowOf(rows: seq<JoinRow>, c: nat, s: nat) {
    exists i :: 0 <= i < |rows| && rows[i].categoryId == c && Present(rows[i].sub) && rows[i].sub.value.id == s
  }

  /** There is one category entry per distinct category id among the rows. */
  lemma {:induction false} GroupCategoryIds(rows: seq<JoinRow>)
    ensures forall c :: c in Group(rows) <==> HasRowOf(rows, c)
  {
    if |rows| > 0 {
      var prefix := rows[..|rows| - 1];
      GroupCategoryIds(prefix);
      forall c | HasRowOf(prefix, c)
        ensures HasRowOf(rows, c)
      {
        var i :| 0 <= i < |prefix| && prefix[i].categoryId == c;
        assert rows[i] == prefix[i];
      }
      forall c | HasRowOf(rows, c) && c != rows[|rows| - 1].categoryId
        ensures HasRowOf(prefix, c)
      {
        var i :| 0 <= i < |rows| && rows[i].categoryId == c;
        assert prefix[i] == rows[i];
      }
    }
  }

  function NodeId(): SubcategoryNode -> nat {
    (n: SubcategoryNode) => n.id
  }

  /** The formatted categories of an accumulator: its keys, ascending, one entry each. */
  lemma FormattedIds(acc: IndexObject<CategoryEntry>)
    requires ValidAcc(acc)
    ensures var data := FormatAll(Values(acc));
      && (forall i, j :: 0 <= i < j < |data| ==> data[i].id < data[j].id)
      && (forall i :: 0 <= i < |data| ==> data[i].id in acc)
      && (forall c :: c in acc ==> exists i :: 0 <= i < |data| && data[i].id == c)
  {
    var keys := SortedKeys(acc.Keys);
    var data := FormatAll(Values(acc));
    forall i | 0 <= i < |data|
      ensures data[i].id == keys[i]
    {
      assert data[i] == Format(Values(acc)[i]);
    }
    forall c | c in acc
      ensures exists i :: 0 <= i < |data| && data[i].id == c
    {
      assert c in keys;
      var i :| 0 <= i < |keys| && keys[i] == c;
      assert data[i].id == c;
    }
    forall i | 0 <= i < |data|
      ensures data[i].id in acc
    {
      assert keys[i] in keys;
    }
  }

  /**
   * The response lists one category per distinct category id of the rows,
   * by strictly ascending id.
   */
  lemma CategoriesAscending(rows: seq<JoinRow>)
    ensures var data := FormatAll(Values(Group(rows)));
      && (forall i, j :: 0 <= i < j < |data| ==> data[i].id < data[j].id)
      && (forall i :: 0 <= i < |data| ==> HasRowOf(rows, data[i].id))
      && (forall c :: HasRowOf(rows, c) ==> exists i :: 0 <= i < |data| && data[i].id == c)
  {
    GroupCategoryIds(rows);
    FormattedIds(Group(rows));
  }

  /** A category takes its name from the first row that carries its id. */
  lemma {:induction false} CategoryNameFromFirstRow(rows: seq<JoinRow>, i: nat)
    requires i < |rows|
    requires forall j :: 0 <= j < i ==> rows[j].categoryId != rows[i].categoryId
    ensures var acc := Group(rows);
      rows[i].categoryId in acc && acc[rows[i].categoryId].name == rows[i].categoryName
  {
    var c := rows[i].categoryId;
    var prefix, last := rows[..|rows| - 1], rows[|rows| - 1];
    var acc := Group(prefix);
    assert Group(rows) == Step(acc, last);
    if i < |rows| - 1 {
      CategoryNameFromFirstRow(prefix, i);
    } else {
      GroupCategoryIds(prefix);
      forall j | 0 <= j < |prefix|
        ensures prefix[j] == rows[j]
      {
      }
    }
  }

  /** The subcategories of a category are exactly the present subcategory ids of its rows. */
  lemma {:induction false} GroupSubcategoryIds(rows: seq<JoinRow>, c: nat)
    ensures forall s :: s in SubsOf(Group(rows), c) <==> HasSubRowOf(rows, c, s)
  {
    if |rows| > 0 {
      var prefix, last := rows[..|rows| - 1], rows[|rows| - 1];
      var acc := Group(prefix);
      assert Group(rows) == Step(acc, last);
      GroupSubcategoryIds(prefix, c);
      forall s | HasSubRowOf(prefix, c, s)
        ensures HasSubRowOf(rows, c, s)
      {
        var i :| 0 <= i < |prefix| && prefix[i].categoryId == c && Present(prefix[i].sub) && prefix[i].sub.value.id == s;
        assert rows[i] == prefix[i];
      }
      forall s | HasSubRowOf(rows, c, s) && !(last.categoryId == c && Present(last.sub) && last.sub.value.id == s)
        ensures HasSubRowOf(prefix, c, s)
      {
        var i :| 0 <= i < |rows| && rows[i].categoryId == c && Present(rows[i].sub) && rows[i].sub.value.id == s;
        assert prefix[i] == rows[i];
      }
    }
  }

  /** A subcategory lists the sub-subcategories of its rows, in row order, each row once. */
  lemma {:induction false} GroupLeaves(rows: seq<JoinRow>, c: nat, s: nat)
    requires s in SubsOf(Group(rows), c)
    ensures SubsOf(Group(rows), c)[s].subSubcategories == LeavesOf(rows, c, s)
  {
    var prefix, last := rows[..|rows| - 1], rows[|rows| - 1];
    var acc := Group(prefix);
    assert Group(rows) == Step(acc, last);
    var before := SubsOf(acc, c);
    if s in before {
      GroupLeaves(prefix, c, s);
    } else {
      GroupSubcategoryIds(prefix, c);
      LeavesWithoutRows(prefix, c, s);
    }
  }

  /** Without a row for the subcategory there is no leaf under it. */
  lemma {:induction false} LeavesWithoutRows(rows: seq<JoinRow>, c: nat, s: nat)
    requires !HasSubRowOf(rows, c, s)
    ensures LeavesOf(rows, c, s) == []
  {
    if |rows| > 0 {
      var prefix := rows[..|rows| - 1];
      forall i | 0 <= i < |prefix|
        ensures prefix[i] == rows[i]
      {
      }
      LeavesWithoutRows(prefix, c, s);
    }
  }

  /** A subcategory takes its name from the first row that carries it under the category. */
  lemma {:induction false} SubcategoryNameFromFirstRow(rows: seq<JoinRow>, i: nat)
    requires i < |rows| && Present(rows[i].sub)
    requires forall j :: 0 <= j < i ==> !(rows[j].categoryId == rows[i].categoryId && Present(rows[j].sub) && rows[j].sub.value.id == rows[i].sub.value.id)
    ensures var subs := SubsOf(Group(rows), rows[i].categoryId);
      rows[i].sub.value.id in subs && subs[rows[i].sub.value.id].name == rows[i].sub.value.name
  {
    var c, s := rows[i].categoryId, rows[i].sub.value.id;
    var prefix, last := rows[..|rows| - 1], rows[|rows| - 1];
    var acc := Group(prefix);
    assert Group(rows) == Step(acc, last);
    if i < |rows| - 1 {
      SubcategoryNameFromFirstRow(prefix, i);
    } else {
      GroupSubcategoryIds(prefix, c);
      forall j | 0 <= j < |prefix|
        ensures prefix[j] == rows[j]
      {
      }
    }
  }

  /**
   * A category's subcategories come out by strictly ascending id, one per
   * distinct present subcategory id among the category's rows.
   */
  lemma SubcategoriesAscending(rows: seq<JoinRow>, c: nat)
    requires c in Group(rows)
    ensures var subs := Format(Group(rows)[c]).subcategories;
      && (forall i, j :: 0 <= i < j < |subs| ==> subs[i].id < subs[j].id)
      && (forall i :: 0 <= i < |subs| ==> HasSubRowOf(rows, c, subs[i].id))
      && (forall s :: HasSubRowOf(rows, c, s) ==> exists i :: 0 <= i < |subs| && subs[i].id == s)
  {
    GroupSubcategoryIds(rows, c);
    ValuesInKeyOrder(Group(rows)[c].subcategories, NodeId());
  }
}
