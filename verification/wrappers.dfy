/**
 * The optional value used for SQL NULL, JavaScript `undefined` and "no row
 * found", the result of an operation that can fail, and the table queries
 * shared by every controller (first match, WHERE, COUNT, ORDER BY ... DESC).
 */
module Wrappers {

  /** An operation's value, or the error it throws. */
  datatype Result<+T, +E> = Ok(value: T) | Err(error: E)

  datatype Option<+T> = None | Some(value: T) {

    /** The value, or `default` when there is none (SQL COALESCE, JavaScript `??`). */
    function GetOr(default: T): T {
      match this
      case Some(v) => v
      case None => default
    }
  }

  /** The first index of `s` whose element satisfies `p`, if any. */
  function FirstIndex<T>(s: seq<T>, p: T -> bool): (r: Option<nat>)
    ensures r.Some? ==> r.value < |s| && p(s[r.value])
    ensures r.Some? ==> forall k :: 0 <= k < r.value ==> !p(s[k])
    ensures r.None? ==> forall k :: 0 <= k < |s| ==> !p(s[k])
  {
    if |s| == 0 then None
    else if p(s[0]) then Some(0)
    else
      match FirstIndex(s[1..], p)
      case None => None
      case Some(i) => Some(i + 1)
  }

  /** The elements of `s` that satisfy `p`, in their order: SQL WHERE over a table. */
  function Filter<T>(s: seq<T>, p: T -> bool): (r: seq<T>)
    ensures |r| <= |s|
    ensures forall k :: 0 <= k < |r| ==> r[k] in s
    ensures forall k :: 0 <= k < |s| && p(s[k]) ==> s[k] in r
    ensures forall k :: 0 <= k < |r| ==> p(r[k])
  {
    if |s| == 0 then []
    else if p(s[0]) then [s[0]] + Filter(s[1..], p)
    else Filter(s[1..], p)
  }

  /** The number of elements of `s` that satisfy `p`: SQL COUNT(*) with a WHERE clause. */
  function Count<T>(s: seq<T>, p: T -> bool): (n: nat)
    ensures n <= |s|
    ensures n == 0 <==> forall k :: 0 <= k < |s| ==> !p(s[k])
  {
    if |s| == 0 then 0
    else (if p(s[0]) then 1 else 0) + Count(s[1..], p)
  }

  /** Count distributes over concatenation. */
  lemma {:induction false} CountAppend<T>(a: seq<T>, b: seq<T>, p: T -> bool)
    ensures Count(a + b, p) == Count(a, p) + Count(b, p)
  {
    if |a| == 0 {
      assert a + b == b;
    } else {
      assert (a + b)[1..] == a[1..] + b;
      CountAppend(a[1..], b, p);
    }
  }

  /** Filter distributes over concatenation. */
  lemma {:induction false} FilterAppend<T>(a: seq<T>, b: seq<T>, p: T -> bool)
    ensures Filter(a + b, p) == Filter(a, p) + Filter(b, p)
  {
    if |a| == 0 {
      assert a + b == b;
    } else {
      assert (a + b)[1..] == a[1..] + b;
      FilterAppend(a[1..], b, p);
    }
  }

  /** A WHERE clause every row meets keeps the rows as they are. */
  lemma {:induction false} FilterAll<T>(s: seq<T>, p: T -> bool)
    requires forall k :: 0 <= k < |s| ==> p(s[k])
    ensures Filter(s, p) == s
  {
    if |s| > 0 {
      FilterAll(s[1..], p);
    }
  }

  /** A WHERE clause no row meets selects nothing. */
  lemma FilterNone<T>(s: seq<T>, p: T -> bool)
    requires forall k :: 0 <= k < |s| ==> !p(s[k])
    ensures Filter(s, p) == []
  {
  }

  /** Filtering `a + b` when only `b`'s elements qualify, all of them. */
  lemma FilterOnlySecond<T>(a: seq<T>, b: seq<T>, p: T -> bool)
    requires forall k :: 0 <= k < |a| ==> !p(a[k])
    requires forall k :: 0 <= k < |b| ==> p(b[k])
    ensures Filter(a + b, p) == b
  {
    FilterAppend(a, b, p);
    FilterNone(a, p);
    FilterAll(b, p);
  }

  /** Filtering `a + b` when none of `b`'s elements qualify. */
  lemma FilterOnlyFirst<T>(a: seq<T>, b: seq<T>, p: T -> bool)
    requires forall k :: 0 <= k < |b| ==> !p(b[k])
    ensures Filter(a + b, p) == Filter(a, p)
  {
    FilterAppend(a, b, p);
    FilterNone(b, p);
  }

  /** The groups one after another, in order. */
  function Concat<T>(groups: seq<seq<T>>): (r: seq<T>) {
    if |groups| == 0 then [] else Concat(groups[..|groups| - 1]) + groups[|groups| - 1]
  }

  lemma ConcatSnoc<T>(groups: seq<seq<T>>, i: nat)
    requires i < |groups|
    ensures Concat(groups[..i + 1]) == Concat(groups[..i]) + groups[i]
  {
    assert groups[..i + 1][..i] == groups[..i];
  }

  /** What holds of every element of every group holds of every element of the concatenation. */
  lemma {:induction false} ConcatAll<T>(groups: seq<seq<T>>, p: T -> bool)
    requires forall j, k :: 0 <= j < |groups| && 0 <= k < |groups[j]| ==> p(groups[j][k])
    ensures forall k :: 0 <= k < |Concat(groups)| ==> p(Concat(groups)[k])
  {
    if |groups| > 0 {
      var n := |groups| - 1;
      ConcatAll(groups[..n], p);
      var a := Concat(groups[..n]);
      forall k | 0 <= k < |Concat(groups)|
        ensures p(Concat(groups)[k])
      {
        if k >= |a| {
          assert Concat(groups)[k] == groups[n][k - |a|];
        } else {
          assert Concat(groups)[k] == a[k];
        }
      }
    }
  }

  /**
   * When the elements that satisfy `p` are exactly those of group `i`, the
   * filtered concatenation is that group.
   */
  lemma {:induction false} FilterConcatGroup<T>(groups: seq<seq<T>>, p: T -> bool, i: nat)
    requires i < |groups|
    requires forall k :: 0 <= k < |groups[i]| ==> p(groups[i][k])
    requires forall j, k :: 0 <= j < |groups| && j != i && 0 <= k < |groups[j]| ==> !p(groups[j][k])
    ensures Filter(Concat(groups), p) == groups[i]
  {
    var n := |groups| - 1;
    var init := groups[..n];
    if i == n {
      ConcatAll(init, (x: T) => !p(x));
      FilterOnlySecond(Concat(init), groups[n], p);
    } else {
      FilterConcatGroup(init, p, i);
      FilterOnlyFirst(Concat(init), groups[n], p);
    }
  }

  /** `ORDER BY key DESC`: no element is followed by one with a larger key. */
  predicate DescendingBy<T>(s: seq<T>, key: T -> int) {
    forall i, j :: 0 <= i < j < |s| ==> key(s[i]) >= key(s[j])
  }

  /** `x` placed before the first element whose key is not larger than its own. */
  function InsertDescending<T>(x: T, s: seq<T>, key: T -> int): (r: seq<T>)
    ensures |r| == |s| + 1
    ensures r[0] == x || (|s| > 0 && r[0] == s[0])
  {
    if |s| == 0 || key(s[0]) <= key(x) then [x] + s
    else [s[0]] + InsertDescending(x, s[1..], key)
  }

  lemma {:induction false} InsertKeepsDescending<T>(x: T, s: seq<T>, key: T -> int)
    requires DescendingBy(s, key)
    ensures DescendingBy(InsertDescending(x, s, key), key)
  {
    if |s| > 0 && key(s[0]) > key(x) {
      InsertKeepsDescending(x, s[1..], key);
      var rest := InsertDescending(x, s[1..], key);
      forall j | 0 <= j < |rest| ensures key(s[0]) >= key(rest[j]) {
        if j > 0 {
          assert key(rest[0]) >= key(rest[j]);
        }
      }
    }
  }

  lemma {:induction false} InsertAddsOne<T>(x: T, s: seq<T>, key: T -> int)
    ensures multiset(InsertDescending(x, s, key)) == multiset(s) + multiset{x}
  {
    if |s| > 0 && key(s[0]) > key(x) {
      InsertAddsOne(x, s[1..], key);
      assert s == [s[0]] + s[1..];
    }
  }

  /** Insertion sort, largest key first: a permutation of `s` in descending order. */
  function SortDescending<T>(s: seq<T>, key: T -> int): (r: seq<T>)
    ensures DescendingBy(r, key)
    ensures multiset(r) == multiset(s)
  {
    if |s| == 0 then []
    else
      var rest := SortDescending(s[1..], key);
      InsertKeepsDescending(s[0], rest, key);
      InsertAddsOne(s[0], rest, key);
      assert s == [s[0]] + s[1..];
      InsertDescending(s[0], rest, key)
  }

  /** Sorting neither adds nor drops elements. */
  lemma SortKeepsElements<T>(s: seq<T>, key: T -> int)
    ensures |SortDescending(s, key)| == |s|
    ensures forall k :: 0 <= k < |SortDescending(s, key)| ==> SortDescending(s, key)[k] in s
  {
    var r := SortDescending(s, key);
    assert |multiset(r)| == |multiset(s)|;
    forall k | 0 <= k < |r|
      ensures r[k] in s
    {
      assert r[k] in multiset(r);
    }
  }

  /** `LIMIT n`: the first `n` elements, or all of them when there are fewer. */
  function Limit<T>(s: seq<T>, n: nat): (r: seq<T>)
    ensures |r| <= n && |r| <= |s|
    ensures r == s[..|r|]
    ensures |s| <= n ==> r == s
    ensures |s| > n ==> |r| == n
  {
    if |s| <= n then s else s[..n]
  }
}
