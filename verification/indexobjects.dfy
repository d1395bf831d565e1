/**
 * A JavaScript object whose keys are row ids, as a map from id to entry.
 * JavaScript enumerates integer keys in ascending numeric order, whatever
 * the order they were added in, so `Object.values(o)` lists the entries by
 * ascending id.
 */
module IndexObjects {

  type IndexObject<V> = map<nat, V>

  predicate StrictlyAscending(s: seq<nat>) {
    forall i, j :: 0 <= i < j < |s| ==> s[i] < s[j]
  }

  /** A set of keys holding some key at most `n` has a least key. */
  lemma {:induction false} LeastExists(keys: set<nat>, n: nat)
    requires exists x :: x in keys && x <= n
    ensures exists m :: m in keys && forall k :: k in keys ==> m <= k
  {
    if n > 0 && exists x :: x in keys && x <= n - 1 {
      LeastExists(keys, n - 1);
    } else {
      assert n in keys;
      assert forall k :: k in keys ==> n <= k;
    }
  }

  /** The least key. */
  function MinKey(keys: set<nat>): (m: nat)
    requires keys != {}
    ensures m in keys && forall k :: k in keys ==> m <= k
  {
    var x :| x in keys;
    LeastExists(keys, x);
    var m :| m in keys && forall k :: k in keys ==> m <= k;
    m
  }

  /** The keys in the order JavaScript enumerates them. */
  function SortedKeys(keys: set<nat>): (r: seq<nat>)
    ensures StrictlyAscending(r)
    ensures forall k :: k in r <==> k in keys
    ensures |r| == |keys|
    decreases |keys|
  {
    if keys == {} then []
    else
      var m := MinKey(keys);
      var rest := SortedKeys(keys - {m});
      assert forall i :: 0 <= i < |rest| ==> m < rest[i] by {
        forall i | 0 <= i < |rest|
          ensures m < rest[i]
        {
          assert rest[i] in rest;
        }
      }
      [m] + rest
  }

  /** `Object.values(o)`: each entry once, by ascending key. */
  function Values<V>(o: IndexObject<V>): (r: seq<V>)
  {
    ValuesOf(SortedKeys(o.Keys), o)
  }

  function ValuesOf<V>(keys: seq<nat>, o: IndexObject<V>): (r: seq<V>)
    requires forall i :: 0 <= i < |keys| ==> keys[i] in o
    ensures |r| == |keys|
    ensures forall i :: 0 <= i < |keys| ==> r[i] == o[keys[i]]
  {
    if |keys| == 0 then [] else [o[keys[0]]] + ValuesOf(keys[1..], o)
  }

  /**
   * When every entry records its own key, `Object.values` lists the keys by
   * strictly ascending value, each key once.
   */
  lemma ValuesInKeyOrder<V>(o: IndexObject<V>, id: V -> nat)
    requires forall k :: k in o ==> id(o[k]) == k
    ensures var vs := Values(o);
      && (forall i, j :: 0 <= i < j < |vs| ==> id(vs[i]) < id(vs[j]))
      && (forall i :: 0 <= i < |vs| ==> id(vs[i]) in o)
      && (forall k :: k in o ==> exists i :: 0 <= i < |vs| && id(vs[i]) == k)
  {
    var keys := SortedKeys(o.Keys);
    var vs := Values(o);
    assert forall i :: 0 <= i < |vs| ==> vs[i] == o[keys[i]];
    forall i | 0 <= i < |vs|
      ensures id(vs[i]) == keys[i] && keys[i] in o
    {
      assert keys[i] in keys;
    }
    forall k | k in o
      ensures exists i :: 0 <= i < |vs| && id(vs[i]) == k
    {
      assert k in keys;
      var i :| 0 <= i < |keys| && keys[i] == k;
      assert id(vs[i]) == k;
    }
  }
}
