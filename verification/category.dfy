/**
 * controllers/categoryController.js, the edits: a category added with its
 * subcategories and their sub-subcategories in one transaction, and the
 * add, rename and delete of a single category, subcategory or
 * sub-subcategory, each checked against the hierarchy and the names of its
 * siblings.
 *
 * Path parameters are the ids MySQL casts them to. A body `name` that is
 * absent is None: the MySQL driver refuses an undefined bound value, so the
 * statement that binds it throws (500).
 */
module CategoryController {
  import opened Wrappers
  import opened JsStrings
  import opened JsValues
  import opened Schema

  datatype Outcome =
    | InvalidName      // 400
    | NotFound         // 404
    | NameTaken        // 400
    | Failed           // 500; a transaction is rolled back
    | Added(id: nat)   // 201 with the new id
    | Done             // 200

  // ---------------------------------------------------------------------------
  // The hierarchy and the sibling names

  predicate HasCategory(cats: seq<Category>, id: nat) {
    exists j :: 0 <= j < |cats| && cats[j].id == id
  }

  predicate HasSubcategory(subs: seq<Subcategory>, id: nat) {
    exists j :: 0 <= j < |subs| && subs[j].id == id
  }

  /** Every subcategory lies in an existing category and every sub-subcategory under an existing subcategory. */
  ghost predicate Hierarchy(t: Tables) {
    && (forall k :: 0 <= k < |t.subcategories| ==> HasCategory(t.categories, t.subcategories[k].categoryId))
    && (forall k :: 0 <= k < |t.subSubcategories| ==> HasSubcategory(t.subcategories, t.subSubcategories[k].subcategoryId))
  }

  /** No two categories have names that differ only in case: what `addCategory` keeps. */
  ghost predicate NamesDistinctIgnoringCase(cats: seq<Category>) {
    forall i, j :: 0 <= i < j < |cats| ==> ToLower(cats[i].name) != ToLower(cats[j].name)
  }

  /** No two subcategories of one category share a name. */
  ghost predicate SiblingsDistinct(subs: seq<Subcategory>) {
    forall i, j :: 0 <= i < j < |subs| && subs[i].categoryId == subs[j].categoryId ==> subs[i].name != subs[j].name
  }

  /** The id is the primary key of `subcategories`. */
  ghost predicate UniqueSubcategoryIds(subs: seq<Subcategory>) {
    forall i, j :: 0 <= i < j < |subs| ==> subs[i].id != subs[j].id
  }

  // ---------------------------------------------------------------------------
  // addCategory

  /**
   * One entry of `subcategories` in the body of `addCategory`. A name that
   * is not a string is None; a `subSubcategories` that is absent or not an
   * array adds nothing, so it is given as [].
   */
  datatype SubRequest = SubRequest(name: Option<string>, subSubcategories: seq<string>)

  /** A row of the sub-subcategory batch before MySQL numbers it. */
  datatype SubSubValue = SubSubValue(subcategoryId: nat, name: string)

  /** The name passes `!name || typeof name !== 'string' || name.trim().length === 0`. */
  predicate ValidName(name: JsValue) {
    Truthy(name) && name.Str? && |Trim(name.s)| > 0
  }

  /** `WHERE LOWER(name) = LOWER(?)`. */
  predicate NameTakenIgnoringCase(cats: seq<Category>, name: string) {
    exists j :: 0 <= j < |cats| && ToLower(cats[j].name) == ToLower(name)
  }

  /** `subcategories && Array.isArray(subcategories)`: anything else adds none. */
  function SubsOf(subcategories: Option<seq<SubRequest>>): seq<SubRequest> {
    subcategories.GetOr([])
  }

  /** `sub.name.trim()` throws for an entry whose name is not a string. */
  predicate AllNamed(subs: seq<SubRequest>) {
    forall k :: 0 <= k < |subs| ==> subs[k].name.Some?
  }

  /** `subValues` with the ids the batch INSERT hands out from `firstId` on. */
  function NewSubcategories(subs: seq<SubRequest>, categoryId: nat, firstId: nat): (r: seq<Subcategory>)
    requires AllNamed(subs)
    ensures |r| == |subs|
    ensures forall k :: 0 <= k < |r| ==> r[k] == Subcategory(firstId + k, categoryId, Trim(subs[k].name.value))
  {
    seq(|subs|, k requires 0 <= k < |subs| => Subcategory(firstId + k, categoryId, Trim(subs[k].name.value)))
  }

  /** The trimmed names of a list, all under subcategory `id`. */
  function TrimmedUnder(names: seq<string>, id: nat): (r: seq<SubSubValue>)
    ensures |r| == |names|
    ensures forall k :: 0 <= k < |r| ==> r[k].subcategoryId == id
  {
    if |names| == 0 then []
    else TrimmedUnder(names[..|names| - 1], id) + [SubSubValue(id, Trim(names[|names| - 1]))]
  }

  /** Each name is trimmed and keeps its place. */
  lemma {:induction false} TrimmedUnderNames(names: seq<string>, id: nat)
    ensures forall k :: 0 <= k < |names| ==> TrimmedUnder(names, id)[k] == SubSubValue(id, Trim(names[k]))
  {
    if |names| > 0 {
      var n := |names| - 1;
      TrimmedUnderNames(names[..n], id);
      forall k | 0 <= k < n
        ensures TrimmedUnder(names, id)[k] == SubSubValue(id, Trim(names[k]))
      {
        assert names[..n][k] == names[k];
      }
    }
  }

  /** What each subcategory contributes, the i-th under id `firstId + i`. */
  function SubSubGroups(subs: seq<SubRequest>, firstId: nat): (r: seq<seq<SubSubValue>>)
    ensures |r| == |subs|
    ensures forall i :: 0 <= i < |subs| ==> r[i] == TrimmedUnder(subs[i].subSubcategories, firstId + i)
  {
    seq(|subs|, i requires 0 <= i < |subs| => TrimmedUnder(subs[i].subSubcategories, firstId + i))
  }

  /** `subSubValues` for subcategories numbered from `firstId`, in input order. */
  function SubSubPairs(subs: seq<SubRequest>, firstId: nat): seq<SubSubValue> {
    Concat(SubSubGroups(subs, firstId))
  }

  /** The nested `forEach` that fills `subSubValues`: the i-th subcategory has id `insertId + i`. */
  method CollectSubSubValues(subs: seq<SubRequest>, firstId: nat) returns (values: seq<SubSubValue>)
    ensures values == SubSubPairs(subs, firstId)
  {
    ghost var groups := SubSubGroups(subs, firstId);
    values := [];
    for index := 0 to |subs|
      invariant values == Concat(groups[..index])
    {
      var sub := subs[index];
      var subcategoryId := firstId + index;
      var pushed := PushTrimmed(sub.subSubcategories, subcategoryId);
      assert pushed == groups[index];
      ConcatSnoc(groups, index);
      values := values + pushed;
    }
    assert groups[..|subs|] == groups;
  }

  /** The inner `forEach`: each name trimmed and pushed under the subcategory's id. */
  method PushTrimmed(names: seq<string>, subcategoryId: nat) returns (pushed: seq<SubSubValue>)
    ensures pushed == TrimmedUnder(names, subcategoryId)
  {
    pushed := [];
    for j := 0 to |names|
      invariant pushed == TrimmedUnder(names[..j], subcategoryId)
    {
      assert names[..j + 1][..j] == names[..j];
      pushed := pushed + [SubSubValue(subcategoryId, Trim(names[j]))];
    }
    assert names[..|names|] == names;
  }

  function UnderSubcategory(id: nat): SubSubValue -> bool {
    (v: SubSubValue) => v.subcategoryId == id
  }

  function InRange(lo: nat, hi: nat): SubSubValue -> bool {
    (v: SubSubValue) => lo <= v.subcategoryId < hi
  }

  /** Every recorded pair names one of the new subcategories. */
  lemma SubSubPairsRange(subs: seq<SubRequest>, firstId: nat)
    ensures var r := SubSubPairs(subs, firstId);
      forall k :: 0 <= k < |r| ==> firstId <= r[k].subcategoryId < firstId + |subs|
  {
    ConcatAll(SubSubGroups(subs, firstId), InRange(firstId, firstId + |subs|));
  }

  /**
   * The sub-subcategories given under the i-th subcategory are the ones
   * recorded under id `firstId + i`, trimmed and in the order given.
   */
  lemma SubSubPairsOfSub(subs: seq<SubRequest>, firstId: nat, i: nat)
    requires i < |subs|
    ensures Filter(SubSubPairs(subs, firstId), UnderSubcategory(firstId + i)) == TrimmedUnder(subs[i].subSubcategories, firstId + i)
  {
    FilterConcatGroup(SubSubGroups(subs, firstId), UnderSubcategory(firstId + i), i);
  }

  /** The batch INSERT of sub-subcategories: ids from `firstId` on. */
  function Numbered(pairs: seq<SubSubValue>, firstId: nat): (r: seq<SubSubcategory>)
    ensures |r| == |pairs|
    ensures forall k :: 0 <= k < |r| ==> r[k] == SubSubcategory(firstId + k, pairs[k].subcategoryId, pairs[k].name)
  {
    seq(|pairs|, k requires 0 <= k < |pairs| => SubSubcategory(firstId + k, pairs[k].subcategoryId, pairs[k].name))
  }

  /**
   * The subcategories of a new category, numbered from the next id, and
   * their sub-subcategories, numbered after them. With no subcategories or
   * no sub-subcategories the batch is empty and skipped.
   */
  function WithSubcategories(t: Tables, categoryId: nat, subs: seq<SubRequest>): Tables
    requires AllNamed(subs)
  {
    var firstSub := t.nextId;
    var pairs := SubSubPairs(subs, firstSub);
    t.(subcategories := t.subcategories + NewSubcategories(subs, categoryId, firstSub),
       subSubcategories := t.subSubcategories + Numbered(pairs, firstSub + |subs|),
       nextId := firstSub + |subs| + |pairs|)
  }

  /** The tables after a committed `addCategory` of `name` (already trimmed) with `subs`. */
  function WithCategory(t: Tables, name: string, subs: seq<SubRequest>): Tables
    requires AllNamed(subs)
  {
    WithSubcategories(t.(categories := t.categories + [Category(t.nextId, name)], nextId := t.nextId + 1), t.nextId, subs)
  }

  /** The two batch INSERTs of `addCategory`, each skipped when it has no rows. */
  method InsertSubcategories(tx: Tables, categoryId: nat, subs: seq<SubRequest>) returns (r: Tables)
    requires AllNamed(subs)
    ensures r == WithSubcategories(tx, categoryId, subs)
  {
    r := tx;
    if |subs| > 0 {
      var firstSub := r.nextId;
      r := r.(subcategories := r.subcategories + NewSubcategories(subs, categoryId, firstSub),
              nextId := firstSub + |subs|);
      var subSubValues := CollectSubSubValues(subs, firstSub);
      if |subSubValues| > 0 {
        r := r.(subSubcategories := r.subSubcategories + Numbered(subSubValues, r.nextId),
                nextId := r.nextId + |subSubValues|);
      } else {
        assert r.subSubcategories + Numbered(subSubValues, r.nextId) == r.subSubcategories;
      }
    } else {
      assert SubSubPairs(subs, r.nextId) == [];
      assert r.subcategories + NewSubcategories(subs, categoryId, r.nextId) == r.subcategories;
      assert r.subSubcategories + Numbered([], r.nextId) == r.subSubcategories;
    }
  }

  /**
   * `addCategory`: an invalid name is 400, a name already used in any case
   * 400, a subcategory without a string name 500; otherwise the trimmed
   * category, its trimmed subcategories and their sub-subcategories are
   * committed together.
   */
  method AddCategory(db: Database, name: JsValue, subcategories: Option<seq<SubRequest>>) returns (r: Outcome)
    modifies db
    ensures r == InvalidName <==> !ValidName(name)
    ensures r == NameTaken <==> ValidName(name) && NameTakenIgnoringCase(old(db.t).categories, Trim(name.s))
    ensures r == Failed <==>
      ValidName(name) && !NameTakenIgnoringCase(old(db.t).categories, Trim(name.s)) && !AllNamed(SubsOf(subcategories))
    ensures r.Added? <==>
      ValidName(name) && !NameTakenIgnoringCase(old(db.t).categories, Trim(name.s)) && AllNamed(SubsOf(subcategories))
    ensures !r.Added? ==> db.t == old(db.t)
    ensures r.Added? ==> r.id == old(db.t).nextId && db.t == WithCategory(old(db.t), Trim(name.s), SubsOf(subcategories))
  {
    if !Truthy(name) || !name.Str? || |Trim(name.s)| == 0 {
      return InvalidName;
    }
    var trimmed := Trim(name.s);
    if NameTakenIgnoringCase(db.t.categories, trimmed) {
      return NameTaken;
    }
    var subs := SubsOf(subcategories);
    if !AllNamed(subs) {
      return Failed;
    }
    var tx := db.t;
    var categoryId := tx.nextId;
    tx := tx.(categories := tx.categories + [Category(categoryId, trimmed)], nextId := categoryId + 1);
    tx := InsertSubcategories(tx, categoryId, subs);
    db.t := tx;
    r := Added(categoryId);
  }

  /** An added category keeps the hierarchy: each new row hangs under a row added with it. */
  lemma AddKeepsHierarchy(t: Tables, name: string, subs: seq<SubRequest>)
    requires AllNamed(subs)
    requires Hierarchy(t)
    ensures Hierarchy(WithCategory(t, name, subs))
  {
    AddedSubcategoriesUnderCategory(t, name, subs);
    AddedSubSubcategoriesUnderSubcategory(t, name, subs);
  }

  lemma AddedSubcategoriesUnderCategory(t: Tables, name: string, subs: seq<SubRequest>)
    requires AllNamed(subs)
    requires forall k :: 0 <= k < |t.subcategories| ==> HasCategory(t.categories, t.subcategories[k].categoryId)
    ensures var after := WithCategory(t, name, subs);
      forall k :: 0 <= k < |after.subcategories| ==> HasCategory(after.categories, after.subcategories[k].categoryId)
  {
    var cats := t.categories + [Category(t.nextId, name)];
    var all := t.subcategories + NewSubcategories(subs, t.nextId, t.nextId + 1);
    assert WithCategory(t, name, subs).categories == cats;
    assert WithCategory(t, name, subs).subcategories == all;
    assert HasCategory(cats, t.nextId) by {
      assert cats[|t.categories|].id == t.nextId;
    }
    forall k | 0 <= k < |all|
      ensures HasCategory(cats, all[k].categoryId)
    {
      if k < |t.subcategories| {
        assert all[k] == t.subcategories[k];
        var j :| 0 <= j < |t.categories| && t.categories[j].id == all[k].categoryId;
        assert cats[j] == t.categories[j];
      }
    }
  }

  lemma AddedSubSubcategoriesUnderSubcategory(t: Tables, name: string, subs: seq<SubRequest>)
    requires AllNamed(subs)
    requires forall k :: 0 <= k < |t.subSubcategories| ==> HasSubcategory(t.subcategories, t.subSubcategories[k].subcategoryId)
    ensures var after := WithCategory(t, name, subs);
      forall k :: 0 <= k < |after.subSubcategories| ==> HasSubcategory(after.subcategories, after.subSubcategories[k].subcategoryId)
  {
    var firstSub := t.nextId + 1;
    var news := NewSubcategories(subs, t.nextId, firstSub);
    var pairs := SubSubPairs(subs, firstSub);
    var numbered := Numbered(pairs, firstSub + |subs|);
    SubSubPairsRange(subs, firstSub);
    assert forall k :: 0 <= k < |numbered| ==> numbered[k].subcategoryId == pairs[k].subcategoryId;
    RowsUnderNewSubcategories(t.subcategories, news, t.subSubcategories, numbered, firstSub);
  }

  /** Rows appended under subcategories appended with consecutive ids from `firstSub` hang under one of them. */
  lemma RowsUnderNewSubcategories(subs: seq<Subcategory>, news: seq<Subcategory>, rows: seq<SubSubcategory>,
                                  added: seq<SubSubcategory>, firstSub: nat)
    requires forall k :: 0 <= k < |rows| ==> HasSubcategory(subs, rows[k].subcategoryId)
    requires forall k :: 0 <= k < |news| ==> news[k].id == firstSub + k
    requires forall k :: 0 <= k < |added| ==> firstSub <= added[k].subcategoryId < firstSub + |news|
    ensures forall k :: 0 <= k < |rows + added| ==> HasSubcategory(subs + news, (rows + added)[k].subcategoryId)
  {
    var all := subs + news;
    forall k | 0 <= k < |rows + added|
      ensures HasSubcategory(all, (rows + added)[k].subcategoryId)
    {
      var id := (rows + added)[k].subcategoryId;
      if k < |rows| {
        var j :| 0 <= j < |subs| && subs[j].id == id;
        assert all[j] == subs[j];
      } else {
        assert id == added[k - |rows|].subcategoryId;
        assert all[|subs| + (id - firstSub)] == news[id - firstSub];
      }
    }
  }

  /** An added category keeps the names distinct ignoring case, since the check refuses a clash. */
  lemma AddKeepsNamesDistinct(t: Tables, name: string, subs: seq<SubRequest>)
    requires AllNamed(subs)
    requires NamesDistinctIgnoringCase(t.categories)
    requires !NameTakenIgnoringCase(t.categories, name)
    ensures NamesDistinctIgnoringCase(WithCategory(t, name, subs).categories)
  {
    var cats := WithCategory(t, name, subs).categories;
    forall i, j | 0 <= i < j < |cats|
      ensures ToLower(cats[i].name) != ToLower(cats[j].name)
    {
      if j == |t.categories| {
        assert cats[i] == t.categories[i];
      } else {
        assert cats[i] == t.categories[i] && cats[j] == t.categories[j];
      }
    }
  }

  /** The stored subcategory i has id `insertId + i`, the new category as its parent and the trimmed name. */
  lemma AddedSubcategoryRows(t: Tables, name: string, subs: seq<SubRequest>, i: nat)
    requires AllNamed(subs) && i < |subs|
    ensures WithCategory(t, name, subs).subcategories[|t.subcategories| + i] ==
      Subcategory(t.nextId + 1 + i, t.nextId, Trim(subs[i].name.value))
  {
    StoredSubcategories(t, name, subs);
  }

  /** `addCategory` appends its subcategories after the existing ones. */
  lemma StoredSubcategories(t: Tables, name: string, subs: seq<SubRequest>)
    requires AllNamed(subs)
    ensures WithCategory(t, name, subs).subcategories == t.subcategories + NewSubcategories(subs, t.nextId, t.nextId + 1)
  {
  }

  // ---------------------------------------------------------------------------
  // addSubcategory, updateSubcategory, deleteSubcategory

  /** A subcategory other than `self` in the category already has the name. */
  predicate SubNameTaken(subs: seq<Subcategory>, categoryId: nat, name: string, self: Option<nat>) {
    exists k :: 0 <= k < |subs| && subs[k].categoryId == categoryId && subs[k].name == name && Some(subs[k].id) != self
  }

  /** `addSubcategory`: 404 without the category, 400 for a name the category already has. */
  method AddSubcategory(db: Database, categoryId: nat, name: Option<string>) returns (r: Outcome)
    modifies db
    ensures r == NotFound <==> !HasCategory(old(db.t).categories, categoryId)
    ensures r == Failed <==> HasCategory(old(db.t).categories, categoryId) && name.None?
    ensures r == NameTaken <==>
      HasCategory(old(db.t).categories, categoryId) && name.Some? && SubNameTaken(old(db.t).subcategories, categoryId, name.value, None)
    ensures r.Added? <==>
      HasCategory(old(db.t).categories, categoryId) && name.Some? && !SubNameTaken(old(db.t).subcategories, categoryId, name.value, None)
    ensures !r.Added? ==> db.t == old(db.t)
    ensures r.Added? ==> r.id == old(db.t).nextId && db.t == old(db.t).(
      subcategories := old(db.t).subcategories + [Subcategory(r.id, categoryId, name.value)],
      nextId := r.id + 1)
  {
    if !HasCategory(db.t.categories, categoryId) {
      return NotFound;
    }
    if name.None? {
      return Failed;
    }
    if SubNameTaken(db.t.subcategories, categoryId, name.value, None) {
      return NameTaken;
    }
    var id := db.t.nextId;
    db.t := db.t.(subcategories := db.t.subcategories + [Subcategory(id, categoryId, name.value)], nextId := id + 1);
    r := Added(id);
  }

  /** An added subcategory keeps the hierarchy and the distinct sibling names. */
  lemma AddSubcategoryKeepsInvariants(t: Tables, categoryId: nat, name: string)
    requires Hierarchy(t) && SiblingsDistinct(t.subcategories)
    requires HasCategory(t.categories, categoryId) && !SubNameTaken(t.subcategories, categoryId, name, None)
    ensures var after := t.(subcategories := t.subcategories + [Subcategory(t.nextId, categoryId, name)], nextId := t.nextId + 1);
      Hierarchy(after) && SiblingsDistinct(after.subcategories)
  {
    var subs := t.subcategories + [Subcategory(t.nextId, categoryId, name)];
    forall k | 0 <= k < |t.subSubcategories|
      ensures HasSubcategory(subs, t.subSubcategories[k].subcategoryId)
    {
      var j :| 0 <= j < |t.subcategories| && t.subcategories[j].id == t.subSubcategories[k].subcategoryId;
      assert subs[j] == t.subcategories[j];
    }
    forall i, j | 0 <= i < j < |subs| && subs[i].categoryId == subs[j].categoryId
      ensures subs[i].name != subs[j].name
    {
      assert subs[i] == t.subcategories[i];
    }
  }

  /** The subcategory `subcategoryId` belongs to category `categoryId`. */
  predicate SubcategoryIn(subs: seq<Subcategory>, subcategoryId: nat, categoryId: nat) {
    exists k :: 0 <= k < |subs| && subs[k].id == subcategoryId && subs[k].categoryId == categoryId
  }

  /** UPDATE subcategories SET name = `name` WHERE id = `id`. */
  function RenameSubcategory(subs: seq<Subcategory>, id: nat, name: string): (r: seq<Subcategory>)
    ensures |r| == |subs|
    ensures forall k :: 0 <= k < |subs| ==> r[k] == if subs[k].id == id then subs[k].(name := name) else subs[k]
  {
    seq(|subs|, k requires 0 <= k < |subs| => if subs[k].id == id then subs[k].(name := name) else subs[k])
  }

  /** `updateSubcategory`: 404 outside the category, 400 for a name another sibling has. */
  method UpdateSubcategory(db: Database, categoryId: nat, subcategoryId: nat, name: Option<string>) returns (r: Outcome)
    modifies db
    ensures r == NotFound <==> !SubcategoryIn(old(db.t).subcategories, subcategoryId, categoryId)
    ensures r == Failed <==> SubcategoryIn(old(db.t).subcategories, subcategoryId, categoryId) && name.None?
    ensures r == NameTaken <==> (SubcategoryIn(old(db.t).subcategories, subcategoryId, categoryId) && name.Some?
      && SubNameTaken(old(db.t).subcategories, categoryId, name.value, Some(subcategoryId)))
    ensures r == Done <==> (SubcategoryIn(old(db.t).subcategories, subcategoryId, categoryId) && name.Some?
      && !SubNameTaken(old(db.t).subcategories, categoryId, name.value, Some(subcategoryId)))
    ensures r != Done ==> db.t == old(db.t)
    ensures r == Done ==> db.t == old(db.t).(subcategories := RenameSubcategory(old(db.t).subcategories, subcategoryId, name.value))
  {
    if !SubcategoryIn(db.t.subcategories, subcategoryId, categoryId) {
      return NotFound;
    }
    if name.None? {
      return Failed;
    }
    if SubNameTaken(db.t.subcategories, categoryId, name.value, Some(subcategoryId)) {
      return NameTaken;
    }
    db.t := db.t.(subcategories := RenameSubcategory(db.t.subcategories, subcategoryId, name.value));
    r := Done;
  }

  /** A rename that passed the checks keeps sibling names distinct, the renamed row excluded from its own check. */
  lemma RenameKeepsSiblingsDistinct(subs: seq<Subcategory>, categoryId: nat, subcategoryId: nat, name: string)
    requires SiblingsDistinct(subs) && UniqueSubcategoryIds(subs)
    requires SubcategoryIn(subs, subcategoryId, categoryId)
    requires !SubNameTaken(subs, categoryId, name, Some(subcategoryId))
    ensures SiblingsDistinct(RenameSubcategory(subs, subcategoryId, name))
  {
    var after := RenameSubcategory(subs, subcategoryId, name);
    var s :| 0 <= s < |subs| && subs[s].id == subcategoryId && subs[s].categoryId == categoryId;
    forall i, j | 0 <= i < j < |after| && after[i].categoryId == after[j].categoryId
      ensures after[i].name != after[j].name
    {
      if subs[i].id == subcategoryId {
        assert subs[j].id != subcategoryId;
      }
    }
  }

  function NotSubcategory(id: nat): Subcategory -> bool {
    (s: Subcategory) => s.id != id
  }

  /** `deleteSubcategory`: 404 outside the category; otherwise the rows with the id go. */
  method DeleteSubcategory(db: Database, categoryId: nat, subcategoryId: nat) returns (r: Outcome)
    modifies db
    ensures r == NotFound <==> !SubcategoryIn(old(db.t).subcategories, subcategoryId, categoryId)
    ensures r == Done <==> SubcategoryIn(old(db.t).subcategories, subcategoryId, categoryId)
    ensures r == NotFound ==> db.t == old(db.t)
    ensures r == Done ==> db.t == old(db.t).(subcategories := Filter(old(db.t).subcategories, NotSubcategory(subcategoryId)))
  {
    if !SubcategoryIn(db.t.subcategories, subcategoryId, categoryId) {
      return NotFound;
    }
    db.t := db.t.(subcategories := Filter(db.t.subcategories, NotSubcategory(subcategoryId)));
    r := Done;
  }

  /** Deleting a subcategory that no sub-subcategory lies under keeps the hierarchy. */
  lemma DeleteLeafSubcategoryKeepsHierarchy(t: Tables, subcategoryId: nat)
    requires Hierarchy(t)
    requires forall k :: 0 <= k < |t.subSubcategories| ==> t.subSubcategories[k].subcategoryId != subcategoryId
    ensures Hierarchy(t.(subcategories := Filter(t.subcategories, NotSubcategory(subcategoryId))))
  {
    var subs := Filter(t.subcategories, NotSubcategory(subcategoryId));
    forall k | 0 <= k < |t.subSubcategories|
      ensures HasSubcategory(subs, t.subSubcategories[k].subcategoryId)
    {
      var j :| 0 <= j < |t.subcategories| && t.subcategories[j].id == t.subSubcategories[k].subcategoryId;
      assert t.subcategories[j] in subs;
    }
    forall k | 0 <= k < |subs|
      ensures HasCategory(t.categories, subs[k].categoryId)
    {
      var j :| 0 <= j < |t.subcategories| && t.subcategories[j] == subs[k];
    }
  }

  // ---------------------------------------------------------------------------
  // addSubSubcategory, updateSubSubcategory, deleteSubSubcategory

  /** A sub-subcategory other than `self` under the subcategory already has the name. */
  predicate SubSubNameTaken(rows: seq<SubSubcategory>, subcategoryId: nat, name: string, self: Option<nat>) {
    exists k :: 0 <= k < |rows| && rows[k].subcategoryId == subcategoryId && rows[k].name == name && Some(rows[k].id) != self
  }

  /** `addSubSubcategory`: 404 when the subcategory is not in the category, 400 for a name it already has. */
  method AddSubSubcategory(db: Database, categoryId: nat, subcategoryId: nat, name: Option<string>) returns (r: Outcome)
    modifies db
    ensures r == NotFound <==> !SubcategoryIn(old(db.t).subcategories, subcategoryId, categoryId)
    ensures r == Failed <==> SubcategoryIn(old(db.t).subcategories, subcategoryId, categoryId) && name.None?
    ensures r == NameTaken <==> (SubcategoryIn(old(db.t).subcategories, subcategoryId, categoryId) && name.Some?
      && SubSubNameTaken(old(db.t).subSubcategories, subcategoryId, name.value, None))
    ensures r.Added? <==> (SubcategoryIn(old(db.t).subcategories, subcategoryId, categoryId) && name.Some?
      && !SubSubNameTaken(old(db.t).subSubcategories, subcategoryId, name.value, None))
    ensures !r.Added? ==> db.t == old(db.t)
    ensures r.Added? ==> r.id == old(db.t).nextId && db.t == old(db.t).(
      subSubcategories := old(db.t).subSubcategories + [SubSubcategory(r.id, subcategoryId, name.value)],
      nextId := r.id + 1)
  {
    if !SubcategoryIn(db.t.subcategories, subcategoryId, categoryId) {
      return NotFound;
    }
    if name.None? {
      return Failed;
    }
    if SubSubNameTaken(db.t.subSubcategories, subcategoryId, name.value, None) {
      return NameTaken;
    }
    var id := db.t.nextId;
    db.t := db.t.(subSubcategories := db.t.subSubcategories + [SubSubcategory(id, subcategoryId, name.value)], nextId := id + 1);
    r := Added(id);
  }

  /** An added sub-subcategory hangs under an existing subcategory, so the hierarchy holds. */
  lemma AddSubSubcategoryKeepsHierarchy(t: Tables, categoryId: nat, subcategoryId: nat, name: string)
    requires Hierarchy(t)
    requires SubcategoryIn(t.subcategories, subcategoryId, categoryId)
    ensures Hierarchy(t.(subSubcategories := t.subSubcategories + [SubSubcategory(t.nextId, subcategoryId, name)], nextId := t.nextId + 1))
  {
    var rows := t.subSubcategories + [SubSubcategory(t.nextId, subcategoryId, name)];
    forall k | 0 <= k < |rows|
      ensures HasSubcategory(t.subcategories, rows[k].subcategoryId)
    {
      if k < |t.subSubcategories| {
        assert rows[k] == t.subSubcategories[k];
      }
    }
  }

  /** The joined hierarchy check: the sub-subcategory lies under the subcategory, which lies in the category. */
  predicate SubSubcategoryIn(t: Tables, subSubcategoryId: nat, subcategoryId: nat, categoryId: nat) {
    && SubcategoryIn(t.subcategories, subcategoryId, categoryId)
    && exists k :: 0 <= k < |t.subSubcategories| && t.subSubcategories[k].id == subSubcategoryId
                   && t.subSubcategories[k].subcategoryId == subcategoryId
  }

  /** UPDATE sub_subcategories SET name = `name` WHERE id = `id`. */
  function RenameSubSubcategory(rows: seq<SubSubcategory>, id: nat, name: string): (r: seq<SubSubcategory>)
    ensures |r| == |rows|
    ensures forall k :: 0 <= k < |rows| ==> r[k] == if rows[k].id == id then rows[k].(name := name) else rows[k]
  {
    seq(|rows|, k requires 0 <= k < |rows| => if rows[k].id == id then rows[k].(name := name) else rows[k])
  }

  /** `updateSubSubcategory`: 404 on a broken hierarchy, 400 for a name another sibling has. */
  method UpdateSubSubcategory(db: Database, categoryId: nat, subcategoryId: nat, subSubcategoryId: nat, name: Option<string>)
    returns (r: Outcome)
    modifies db
    ensures r == NotFound <==> !SubSubcategoryIn(old(db.t), subSubcategoryId, subcategoryId, categoryId)
    ensures r == Failed <==> SubSubcategoryIn(old(db.t), subSubcategoryId, subcategoryId, categoryId) && name.None?
    ensures r == NameTaken <==> (SubSubcategoryIn(old(db.t), subSubcategoryId, subcategoryId, categoryId) && name.Some?
      && SubSubNameTaken(old(db.t).subSubcategories, subcategoryId, name.value, Some(subSubcategoryId)))
    ensures r == Done <==> (SubSubcategoryIn(old(db.t), subSubcategoryId, subcategoryId, categoryId) && name.Some?
      && !SubSubNameTaken(old(db.t).subSubcategories, subcategoryId, name.value, Some(subSubcategoryId)))
    ensures r != Done ==> db.t == old(db.t)
    ensures r == Done ==>
      db.t == old(db.t).(subSubcategories := RenameSubSubcategory(old(db.t).subSubcategories, subSubcategoryId, name.value))
  {
    if !SubSubcategoryIn(db.t, subSubcategoryId, subcategoryId, categoryId) {
      return NotFound;
    }
    if name.None? {
      return Failed;
    }
    if SubSubNameTaken(db.t.subSubcategories, subcategoryId, name.value, Some(subSubcategoryId)) {
      return NameTaken;
    }
    db.t := db.t.(subSubcategories := RenameSubSubcategory(db.t.subSubcategories, subSubcategoryId, name.value));
    r := Done;
  }

  function NotSubSubcategory(id: nat): SubSubcategory -> bool {
    (s: SubSubcategory) => s.id != id
  }

  /** `deleteSubSubcategory`: 404 on a broken hierarchy; otherwise the rows with the id go. */
  method DeleteSubSubcategory(db: Database, categoryId: nat, subcategoryId: nat, subSubcategoryId: nat) returns (r: Outcome)
    modifies db
    ensures r == NotFound <==> !SubSubcategoryIn(old(db.t), subSubcategoryId, subcategoryId, categoryId)
    ensures r == Done <==> SubSubcategoryIn(old(db.t), subSubcategoryId, subcategoryId, categoryId)
    ensures r == NotFound ==> db.t == old(db.t)
    ensures r == Done ==>
      db.t == old(db.t).(subSubcategories := Filter(old(db.t).subSubcategories, NotSubSubcategory(subSubcategoryId)))
  {
    if !SubSubcategoryIn(db.t, subSubcategoryId, subcategoryId, categoryId) {
      return NotFound;
    }
    db.t := db.t.(subSubcategories := Filter(db.t.subSubcategories, NotSubSubcategory(subSubcategoryId)));
    r := Done;
  }

  /** Removing sub-subcategories never breaks the hierarchy. */
  lemma DeleteSubSubcategoryKeepsHierarchy(t: Tables, subSubcategoryId: nat)
    requires Hierarchy(t)
    ensures Hierarchy(t.(subSubcategories := Filter(t.subSubcategories, NotSubSubcategory(subSubcategoryId))))
  {
    var rows := Filter(t.subSubcategories, NotSubSubcategory(subSubcategoryId));
    forall k | 0 <= k < |rows|
      ensures HasSubcategory(t.subcategories, rows[k].subcategoryId)
    {
      var j :| 0 <= j < |t.subSubcategories| && t.subSubcategories[j] == rows[k];
    }
  }

  // ---------------------------------------------------------------------------
  // updateCategory, deleteCategory

  /** A category other than `self` already has the name (`WHERE name = ? AND id != ?`). */
  predicate CategoryNameTaken(cats: seq<Category>, name: string, self: nat) {
    exists k :: 0 <= k < |cats| && cats[k].name == name && cats[k].id != self
  }

  /** UPDATE categories SET name = `name` WHERE id = `id`. */
  function RenameCategory(cats: seq<Category>, id: nat, name: string): (r: seq<Category>)
    ensures |r| == |cats|
    ensures forall k :: 0 <= k < |cats| ==> r[k] == if cats[k].id == id then cats[k].(name := name) else cats[k]
  {
    seq(|cats|, k requires 0 <= k < |cats| => if cats[k].id == id then cats[k].(name := name) else cats[k])
  }

  /**
   * `updateCategory`: 400 for a name another category has; there is no
   * check that the category exists, so an unknown id changes nothing and
   * still succeeds.
   */
  method UpdateCategory(db: Database, id: nat, name: Option<string>) returns (r: Outcome)
    modifies db
    ensures r == Failed <==> name.None?
    ensures r == NameTaken <==> name.Some? && CategoryNameTaken(old(db.t).categories, name.value, id)
    ensures r == Done <==> name.Some? && !CategoryNameTaken(old(db.t).categories, name.value, id)
    ensures r != Done ==> db.t == old(db.t)
    ensures r == Done ==> db.t == old(db.t).(categories := RenameCategory(old(db.t).categories, id, name.value))
  {
    if name.None? {
      return Failed;
    }
    if CategoryNameTaken(db.t.categories, name.value, id) {
      return NameTaken;
    }
    db.t := db.t.(categories := RenameCategory(db.t.categories, id, name.value));
    r := Done;
  }

  /** Renaming an id no category has leaves the categories as they were. */
  lemma RenameUnknownCategory(cats: seq<Category>, id: nat, name: string)
    requires !HasCategory(cats, id)
    ensures RenameCategory(cats, id, name) == cats
  {
    assert forall k :: 0 <= k < |cats| ==> cats[k].id != id;
  }

  function NotCategory(id: nat): Category -> bool {
    (c: Category) => c.id != id
  }

  /** `deleteCategory`: the rows with the id go; an unknown id still succeeds. */
  method DeleteCategory(db: Database, id: nat) returns (r: Outcome)
    modifies db
    ensures r == Done
    ensures db.t == old(db.t).(categories := Filter(old(db.t).categories, NotCategory(id)))
  {
    db.t := db.t.(categories := Filter(db.t.categories, NotCategory(id)));
    r := Done;
  }

  /** Deleting a category that has no subcategory keeps the hierarchy. */
  lemma DeleteEmptyCategoryKeepsHierarchy(t: Tables, id: nat)
    requires Hierarchy(t)
    requires forall k :: 0 <= k < |t.subcategories| ==> t.subcategories[k].categoryId != id
    ensures Hierarchy(t.(categories := Filter(t.categories, NotCategory(id))))
  {
    var cats := Filter(t.categories, NotCategory(id));
    forall k | 0 <= k < |t.subcategories|
      ensures HasCategory(cats, t.subcategories[k].categoryId)
    {
      var j :| 0 <= j < |t.categories| && t.categories[j].id == t.subcategories[k].categoryId;
      assert t.categories[j] in cats;
    }
  }
}
