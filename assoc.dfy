/**
 * Python's dict as the metric store uses it: an association list kept in first-insertion
 * order. Assigning to a key that is already present replaces its value in place, so the
 * key keeps its position; assigning to a new key appends it.
 */
module Assoc {
  import opened Wrappers

  type Assoc<K, V> = seq<(K, V)>

  /** The keys in iteration order: what `list(d)` gives. */
  function Keys<K, V>(a: Assoc<K, V>): (r: seq<K>)
    ensures |r| == |a| && forall i :: 0 <= i < |a| ==> r[i] == a[i].0
  {
    seq(|a|, i requires 0 <= i < |a| => a[i].0)
  }

  /** `k in d`. */
  predicate HasKey<K(==, !new), V>(a: Assoc<K, V>, k: K) {
    exists i :: 0 <= i < |a| && a[i].0 == k
  }

  /** A dict holds each key at most once. */
  predicate DistinctKeys<K(==, !new), V>(a: Assoc<K, V>) {
    forall i, j :: 0 <= i < j < |a| ==> a[i].0 != a[j].0
  }

  /** The position of the first entry for `k`, if any. */
  function Find<K(==, !new), V>(a: Assoc<K, V>, k: K): (r: Option<nat>)
    ensures r.Some? ==> r.value < |a| && a[r.value].0 == k
                        && forall j :: 0 <= j < r.value ==> a[j].0 != k
    ensures r.None? <==> !HasKey(a, k)
  {
    if |a| == 0 then None
    else if a[0].0 == k then Some(0)
    else
      match Find(a[1..], k)
      case None =>
        assert forall i :: 1 <= i < |a| ==> a[i].0 == a[1..][i - 1].0;
        None
      case Some(i) => Some(i + 1)
  }

  lemma FindFirst<K(!new), V>(a: Assoc<K, V>, k: K, i: nat)
    requires i < |a| && a[i].0 == k
    requires forall j :: 0 <= j < i ==> a[j].0 != k
    ensures Find(a, k) == Some(i)
  {
  }

  /** `d.get(k)`: the value stored for `k`, or `None` when `k` is absent. */
  function Lookup<K(==, !new), V>(a: Assoc<K, V>, k: K): (r: Option<V>)
    ensures r.Some? <==> HasKey(a, k)
    ensures DistinctKeys(a) ==> forall i :: 0 <= i < |a| && a[i].0 == k ==> r == Some(a[i].1)
  {
    match Find(a, k)
    case Some(i) => Some(a[i].1)
    case None => None
  }

  /** A value `d.get(k)` finds is stored in an entry `(k, value)` of the dict. */
  lemma LookupEntry<K(!new), V>(a: Assoc<K, V>, k: K)
    requires Lookup(a, k).Some?
    ensures (k, Lookup(a, k).value) in a
  {
    var i := Find(a, k).value;
    assert a[i] == (k, Lookup(a, k).value);
  }

  /**
   * `d[k] = v`: afterwards `k` maps to `v` and every other key to what it mapped to before;
   * the key order is unchanged when `k` was present, and gains `k` at the end otherwise.
   */
  function Set<K(==, !new), V>(a: Assoc<K, V>, k: K, v: V): (r: Assoc<K, V>)
    ensures Keys(r) == if HasKey(a, k) then Keys(a) else Keys(a) + [k]
    ensures Lookup(r, k) == Some(v)
    ensures forall k' :: k' != k ==> Lookup(r, k') == Lookup(a, k')
    ensures DistinctKeys(a) ==> DistinctKeys(r)
  {
    match Find(a, k)
    case Some(i) =>
      var r := a[i := (k, v)];
      assert forall j :: 0 <= j < |a| ==> r[j].0 == a[j].0;
      FindFirst(r, k, i);
      forall k' | k' != k ensures Lookup(r, k') == Lookup(a, k') {
        SameKeysSameFind(a, r, k');
      }
      r
    case None =>
      var r := a + [(k, v)];
      FindFirst(r, k, |a|);
      forall k' | k' != k ensures Lookup(r, k') == Lookup(a, k') {
        SameKeysSameFind(a, r, k');
      }
      r
  }

  /** A key other than the ones `b` adds at its end is found at the same place in `a` and `b`. */
  lemma SameKeysSameFind<K(!new), V>(a: Assoc<K, V>, b: Assoc<K, V>, k: K)
    requires |a| <= |b|
    requires forall j :: 0 <= j < |a| ==> b[j].0 == a[j].0
    requires forall j :: |a| <= j < |b| ==> b[j].0 != k
    ensures Find(b, k) == Find(a, k)
  {
    match Find(a, k)
    case Some(i) => FindFirst(b, k, i);
    case None =>
  }

  /** Assigning twice to the same key keeps only the second value: a dict keeps no history. */
  lemma {:induction false} SetSet<K(!new), V>(a: Assoc<K, V>, k: K, v1: V, v2: V)
    ensures Set(Set(a, k, v1), k, v2) == Set(a, k, v2)
  {
    match Find(a, k)
    case Some(i) =>
      var b := a[i := (k, v1)];
      assert Set(a, k, v1) == b;
      FindFirst(b, k, i);
      assert Set(b, k, v2) == b[i := (k, v2)];
      assert b[i := (k, v2)] == a[i := (k, v2)];
    case None =>
      var b := a + [(k, v1)];
      assert Set(a, k, v1) == b;
      FindFirst(b, k, |a|);
      assert Set(b, k, v2) == b[|a| := (k, v2)];
      assert b[|a| := (k, v2)] == a + [(k, v2)];
  }
}
