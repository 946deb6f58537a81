/**
 * A Python `dict` as the sequence of its items in insertion order.
 * Assigning to an existing key keeps its position; a new key goes last.
 */
module Dicts {
  import opened Wrappers

  type Dict<K, V> = seq<(K, V)>

  predicate DistinctKeys<K(==), V>(d: Dict<K, V>) {
    forall i, j :: 0 <= i < j < |d| ==> d[i].0 != d[j].0
  }

  predicate HasKey<K(==), V>(d: Dict<K, V>, k: K) {
    exists i :: 0 <= i < |d| && d[i].0 == k
  }

  /** Position of the item with key `k`, or -1. */
  function IndexOf<K(==), V>(d: Dict<K, V>, k: K): (i: int)
    ensures -1 <= i < |d|
    ensures 0 <= i ==> d[i].0 == k && forall j :: 0 <= j < i ==> d[j].0 != k
    ensures i == -1 <==> !HasKey(d, k)
  {
    if |d| == 0 then -1
    else if d[|d| - 1].0 == k && IndexOf(d[..|d| - 1], k) == -1 then |d| - 1
    else
      var i := IndexOf(d[..|d| - 1], k);
      assert i == -1 && d[|d| - 1].0 != k ==> !HasKey(d, k) by {
        if i == -1 && d[|d| - 1].0 != k {
          forall j | 0 <= j < |d| ensures d[j].0 != k {
            if j < |d| - 1 { assert d[j] == d[..|d| - 1][j]; }
          }
        }
      }
      i
  }

  /** `d.get(k)`: `None` when the key is missing. */
  function Get<K(==), V>(d: Dict<K, V>, k: K): (r: Option<V>)
    ensures r.Some? <==> HasKey(d, k)
    ensures DistinctKeys(d) ==> forall i :: 0 <= i < |d| && d[i].0 == k ==> r == Some(d[i].1)
  {
    var i := IndexOf(d, k);
    if i < 0 then None else Some(d[i].1)
  }

  /** Two dicts whose keys sit at the same positions find every key at the same position. */
  lemma SameKeysSameIndex<K, V>(d1: Dict<K, V>, d2: Dict<K, V>, k: K)
    requires |d1| == |d2|
    requires forall m :: 0 <= m < |d1| ==> d1[m].0 == d2[m].0
    ensures IndexOf(d1, k) == IndexOf(d2, k)
  {
    var a, b := IndexOf(d1, k), IndexOf(d2, k);
    assert 0 <= a ==> d2[a].0 == k;
    assert 0 <= b ==> d1[b].0 == k;
  }

  /** `d[k] = v`. */
  function Put<K(==,!new), V>(d: Dict<K, V>, k: K, v: V): (r: Dict<K, V>)
    ensures Get(r, k) == Some(v)
    ensures forall k' {:trigger Get(d, k')} :: k' != k ==> Get(r, k') == Get(d, k')
    ensures DistinctKeys(d) ==> DistinctKeys(r)
    ensures HasKey(d, k) ==> |r| == |d|
    ensures !HasKey(d, k) ==> r == d + [(k, v)]
  {
    var i := IndexOf(d, k);
    if i >= 0 then
      var r := d[i := (k, v)];
      assert forall k' :: IndexOf(r, k') == IndexOf(d, k') by {
        forall k' ensures IndexOf(r, k') == IndexOf(d, k') {
          SameKeysSameIndex(r, d, k');
        }
      }
      r
    else
      var r := d + [(k, v)];
      assert forall k' :: k' != k ==> IndexOf(r, k') == IndexOf(d, k') by {
        forall k' | k' != k ensures IndexOf(r, k') == IndexOf(d, k') {
          assert r[..|r| - 1] == d;
        }
      }
      assert IndexOf(r, k) == |d| by { assert r[..|r| - 1] == d; }
      r
  }

  /** Putting the next item of a dict with distinct keys after its prefix gives the longer prefix. */
  lemma PutNextItem<K(!new), V>(d: Dict<K, V>, i: nat)
    requires DistinctKeys(d) && i < |d|
    ensures Put(d[..i], d[i].0, d[i].1) == d[..i + 1]
    ensures DistinctKeys(d[..i + 1])
  {
    assert !HasKey(d[..i], d[i].0) by {
      forall j | 0 <= j < i ensures d[..i][j].0 != d[i].0 {
        assert d[..i][j] == d[j];
      }
    }
    assert d[..i] + [(d[i].0, d[i].1)] == d[..i + 1];
  }
}
