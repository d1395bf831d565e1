/**
 * controllers/rewardController.js: recording a reward for an SE's coupon
 * use (`trackReward`) and the SE's reward list and summary (`getSeRewards`).
 */
module RewardController {
  import opened Wrappers
  import opened Schema
  import CheckoutController

  /** The request body of `trackReward`. */
  datatype RewardRequest = RewardRequest(
    seEmployeeId: string, couponCode: string, schoolId: nat, discountPct: real, discountAmount: real, orderId: nat)

  /** UPDATE coupons SET current_uses = current_uses + 1 WHERE code = `code`: every row with the code. */
  function BumpByCode(rows: seq<Coupon>, code: string): (r: seq<Coupon>)
    ensures |r| == |rows|
    ensures forall k :: 0 <= k < |rows| ==>
      r[k] == if rows[k].code == code then rows[k].(currentUses := CheckoutController.IncUses(rows[k].currentUses)) else rows[k]
  {
    if |rows| == 0 then []
    else
      [if rows[0].code == code then rows[0].(currentUses := CheckoutController.IncUses(rows[0].currentUses)) else rows[0]]
      + BumpByCode(rows[1..], code)
  }

  /** The row `trackReward` appends; `created_at` is the insert time. */
  function RewardRowOf(req: RewardRequest, now: int): RewardRow {
    RewardRow(req.seEmployeeId, req.couponCode, req.schoolId, req.discountPct, req.discountAmount, req.orderId, now)
  }

  /**
   * `trackReward`: one `reward_tracking` row with the six fields, then every
   * `coupons` row with the code has its uses raised by one, whatever its
   * maximum. Nothing else changes.
   */
  method TrackReward(db: Database, req: RewardRequest, now: int)
    modifies db
    ensures db.t.rewardTracking == old(db.t).rewardTracking + [RewardRowOf(req, now)]
    ensures db.t.coupons == BumpByCode(old(db.t).coupons, req.couponCode)
    ensures db.t == old(db.t).(rewardTracking := db.t.rewardTracking, coupons := db.t.coupons)
  {
    db.t := db.t.(rewardTracking := db.t.rewardTracking + [RewardRowOf(req, now)]);
    db.t := db.t.(coupons := BumpByCode(db.t.coupons, req.couponCode));
  }

  /** The increment has no guard: a coupon at its maximum goes past it. */
  lemma IncrementUnguarded(rows: seq<Coupon>, k: nat, code: string)
    requires k < |rows| && rows[k].code == code && rows[k].currentUses == Some(rows[k].maxUses)
    ensures BumpByCode(rows, code)[k].currentUses == Some(rows[k].maxUses + 1)
    ensures BumpByCode(rows, code)[k].currentUses.value > BumpByCode(rows, code)[k].maxUses
  {
    var after := BumpByCode(rows, code);
    var c := rows[k];
    assert CheckoutController.IncUses(c.currentUses) == Some(c.maxUses + 1);
    assert after[k] == c.(currentUses := Some(c.maxUses + 1));
  }

  // ---------------------------------------------------------------------------
  // getSeRewards

  /** A reward row with the name of its school and its time. */
  datatype RewardView = RewardView(row: RewardRow, schoolName: string)

  function SchoolWithId(id: nat): School -> bool {
    (s: School) => s.id == id
  }

  /** The name of the first school with the id, if there is one: what the join pairs a row with. */
  function SchoolName(t: Tables, id: nat): (r: Option<string>)
    ensures r.None? <==> forall s :: 0 <= s < |t.schools| ==> t.schools[s].id != id
    ensures r.Some? ==> exists s :: 0 <= s < |t.schools| && t.schools[s].id == id && t.schools[s].schoolName == r.value
  {
    match FirstIndex(t.schools, SchoolWithId(id))
    case None => None
    case Some(s) => Some(t.schools[s].schoolName)
  }

  /**
   * `JOIN schools s ON rt.school_id = s.id WHERE rt.se_employee_id = ?`:
   * exactly the SE's rows that have a school, each with that school's name;
   * rows without a school drop out.
   */
  function JoinSchools(t: Tables, rows: seq<RewardRow>, se: string): (r: seq<RewardView>)
    ensures |r| <= |rows|
    ensures forall k :: 0 <= k < |r| ==>
      r[k].row in rows && r[k].row.seEmployeeId == se && SchoolName(t, r[k].row.schoolId) == Some(r[k].schoolName)
    ensures forall k :: 0 <= k < |rows| && rows[k].seEmployeeId == se && SchoolName(t, rows[k].schoolId).Some? ==>
      RewardView(rows[k], SchoolName(t, rows[k].schoolId).value) in r
  {
    if |rows| == 0 then []
    else
      var rest := JoinSchools(t, rows[1..], se);
      var x := rows[0];
      assert forall k :: 1 <= k < |rows| ==> rows[k] == rows[1..][k - 1];
      if x.seEmployeeId != se then rest
      else
        match SchoolName(t, x.schoolId)
        case None => rest
        case Some(name) => [RewardView(x, name)] + rest
  }

  /** The sort key of `ORDER BY rt.created_at DESC`. */
  function CreatedAt(): RewardView -> int {
    (v: RewardView) => v.row.createdAt
  }

  /** The `rewards` list of `getSeRewards`. */
  function SeRewards(t: Tables, se: string): (r: seq<RewardView>)
    ensures forall i, j :: 0 <= i < j < |r| ==> r[i].row.createdAt >= r[j].row.createdAt
    ensures forall k :: 0 <= k < |r| ==> r[k].row.seEmployeeId == se && r[k].row in t.rewardTracking
    ensures multiset(r) == multiset(JoinSchools(t, t.rewardTracking, se))
  {
    var joined := JoinSchools(t, t.rewardTracking, se);
    var r := SortDescending(joined, CreatedAt());
    SameElements(joined, r);
    r
  }

  lemma SameElements(a: seq<RewardView>, b: seq<RewardView>)
    requires multiset(a) == multiset(b)
    ensures forall k :: 0 <= k < |b| ==> b[k] in a
  {
    forall k | 0 <= k < |b|
      ensures b[k] in a
    {
      assert b[k] in multiset(b);
    }
  }

  /** The `summary` of `getSeRewards`, over all the SE's rows (no join). SUM and AVG of no rows are NULL. */
  datatype Summary = Summary(totalSchools: nat, totalOrders: nat, totalDiscount: Option<real>, avgDiscountPct: Option<real>)

  function OfSe(se: string): RewardRow -> bool {
    (x: RewardRow) => x.seEmployeeId == se
  }

  function RowsOf(rows: seq<RewardRow>, se: string): seq<RewardRow> {
    Filter(rows, OfSe(se))
  }

  function SumDiscount(rows: seq<RewardRow>): real {
    if |rows| == 0 then 0.0 else rows[0].discountAmount + SumDiscount(rows[1..])
  }

  function SumPct(rows: seq<RewardRow>): real {
    if |rows| == 0 then 0.0 else rows[0].discountPct + SumPct(rows[1..])
  }

  /** COUNT(DISTINCT school_id): the set of the rows' school ids. */
  function SchoolIds(rows: seq<RewardRow>): set<nat> {
    if |rows| == 0 then {} else {rows[0].schoolId} + SchoolIds(rows[1..])
  }

  /** An id is counted exactly when some row has it as its school id. */
  lemma {:induction false} SchoolIdsMembers(rows: seq<RewardRow>)
    ensures forall s :: s in SchoolIds(rows) <==> exists k :: 0 <= k < |rows| && rows[k].schoolId == s
  {
    if |rows| > 0 {
      SchoolIdsMembers(rows[1..]);
      assert forall k :: 1 <= k < |rows| ==> rows[k] == rows[1..][k - 1];
      forall s | s in SchoolIds(rows)
        ensures exists k :: 0 <= k < |rows| && rows[k].schoolId == s
      {
        if s != rows[0].schoolId {
          assert s in SchoolIds(rows[1..]);
          var j :| 0 <= j < |rows[1..]| && rows[1..][j].schoolId == s;
          assert rows[j + 1].schoolId == s;
        }
      }
    }
  }

  /**
   * The summary counts the SE's rows and their distinct schools, sums their
   * discount amounts and averages their percentages; with no rows SUM and AVG are NULL.
   */
  function SeSummary(t: Tables, se: string): (r: Summary)
    ensures var rows := RowsOf(t.rewardTracking, se);
      && r.totalOrders == |rows|
      && r.totalSchools == |SchoolIds(rows)|
      && r.totalSchools <= r.totalOrders
      && (r.totalDiscount.None? <==> r.totalOrders == 0)
      && (r.avgDiscountPct.None? <==> r.totalOrders == 0)
      && (|rows| > 0 ==> r.totalDiscount == Some(SumDiscount(rows)) && r.avgDiscountPct == Some(SumPct(rows) / |rows| as real))
  {
    var rows := RowsOf(t.rewardTracking, se);
    DistinctAtMostCount(rows);
    Summary(
      |SchoolIds(rows)|, |rows|,
      if |rows| == 0 then None else Some(SumDiscount(rows)),
      if |rows| == 0 then None else Some(SumPct(rows) / |rows| as real))
  }

  /** There are no more distinct school ids than rows. */
  lemma {:induction false} DistinctAtMostCount(rows: seq<RewardRow>)
    ensures |SchoolIds(rows)| <= |rows|
  {
    if |rows| > 0 {
      DistinctAtMostCount(rows[1..]);
      var rest := SchoolIds(rows[1..]);
      if rows[0].schoolId in rest {
        assert SchoolIds(rows) == rest;
      } else {
        assert |SchoolIds(rows)| == |rest| + 1;
      }
    }
  }

  lemma {:induction false} SumDiscountAppend(a: seq<RewardRow>, b: seq<RewardRow>)
    ensures SumDiscount(a + b) == SumDiscount(a) + SumDiscount(b)
  {
    if |a| == 0 {
      assert a + b == b;
    } else {
      assert (a + b)[1..] == a[1..] + b;
      SumDiscountAppend(a[1..], b);
    }
  }

  /** Appending a reward row adds it to its own SE's rows and to no other's. */
  lemma RowsAfterTrack(rows: seq<RewardRow>, row: RewardRow, se: string)
    ensures RowsOf(rows + [row], se) == RowsOf(rows, se) + (if row.seEmployeeId == se then [row] else [])
  {
    FilterAppend(rows, [row], OfSe(se));
    assert Filter([row], OfSe(se)) == (if row.seEmployeeId == se then [row] else []) by {
      assert [row][1..] == [];
    }
  }

  /**
   * A tracked reward shows in its SE's summary: one more order and the
   * discount amount added to the total; every other SE's summary is unchanged.
   */
  lemma TrackedRewardInSummary(t: Tables, req: RewardRequest, now: int, se: string)
    ensures var after := t.(rewardTracking := t.rewardTracking + [RewardRowOf(req, now)]);
      && (se == req.seEmployeeId ==>
            && SeSummary(after, se).totalOrders == SeSummary(t, se).totalOrders + 1
            && SeSummary(after, se).totalDiscount == Some(SeSummary(t, se).totalDiscount.GetOr(0.0) + req.discountAmount))
      && (se != req.seEmployeeId ==> SeSummary(after, se) == SeSummary(t, se))
  {
    var row := RewardRowOf(req, now);
    RowsAfterTrack(t.rewardTracking, row, se);
    if se == req.seEmployeeId {
      TrackedRowAdds(t, row, se);
    } else {
      var before := RowsOf(t.rewardTracking, se);
      assert before + [] == before;
      SameRowsSameSummary(t, t.(rewardTracking := t.rewardTracking + [row]), se);
    }
  }

  lemma TrackedRowAdds(t: Tables, row: RewardRow, se: string)
    requires RowsOf(t.rewardTracking + [row], se) == RowsOf(t.rewardTracking, se) + [row]
    ensures var after := t.(rewardTracking := t.rewardTracking + [row]);
      && SeSummary(after, se).totalOrders == SeSummary(t, se).totalOrders + 1
      && SeSummary(after, se).totalDiscount == Some(SeSummary(t, se).totalDiscount.GetOr(0.0) + row.discountAmount)
  {
    var before := RowsOf(t.rewardTracking, se);
    var after := t.(rewardTracking := t.rewardTracking + [row]);
    var total := SumDiscount(before + [row]);
    assert total == SumDiscount(before) + row.discountAmount by {
      SumDiscountAppend(before, [row]);
      assert SumDiscount([row]) == row.discountAmount by {
        assert [row][1..] == [];
      }
    }
    assert SeSummary(after, se).totalDiscount == Some(total);
    assert SeSummary(t, se).totalDiscount.GetOr(0.0) == SumDiscount(before);
  }

  lemma SameRowsSameSummary(t: Tables, u: Tables, se: string)
    requires RowsOf(u.rewardTracking, se) == RowsOf(t.rewardTracking, se)
    ensures SeSummary(u, se) == SeSummary(t, se)
  {
  }

  /** The list joins schools and the summary does not: the list never has more rows than the summary counts. */
  lemma ListWithinSummary(t: Tables, se: string)
    ensures |SeRewards(t, se)| <= SeSummary(t, se).totalOrders
  {
    JoinWithinFilter(t, t.rewardTracking, se);
    assert |SeRewards(t, se)| == |multiset(SeRewards(t, se))|;
  }

  lemma {:induction false} JoinWithinFilter(t: Tables, rows: seq<RewardRow>, se: string)
    ensures |JoinSchools(t, rows, se)| <= |RowsOf(rows, se)|
  {
    if |rows| > 0 {
      JoinWithinFilter(t, rows[1..], se);
      assert rows == [rows[0]] + rows[1..];
      FilterAppend([rows[0]], rows[1..], OfSe(se));
    }
  }
}
