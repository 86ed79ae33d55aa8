/**
  * Python's `dict`, whose iteration order is the order keys were first
  * inserted.  The protocol's outcomes depend on that order (the first
  * failing stage, the first limit reached), so a dictionary is a sequence
  * of key/value pairs rather than a Dafny `map`.
  */
module Dicts {
  import opened Wrappers

  type Dict<V> = seq<(string, V)>

  function Keys<V>(d: Dict<V>): (r: seq<string>)
    ensures |r| == |d|
    ensures forall i :: 0 <= i < |d| ==> r[i] == d[i].0
  {
    seq(|d|, i requires 0 <= i < |d| => d[i].0)
  }

  /** Python's `list(d.values())`. */
  function Values<V>(d: Dict<V>): (r: seq<V>)
    ensures |r| == |d|
    ensures forall i :: 0 <= i < |d| ==> r[i] == d[i].1
  {
    seq(|d|, i requires 0 <= i < |d| => d[i].1)
  }

  function KeySet<V>(d: Dict<V>): set<string> {
    set i | 0 <= i < |d| :: d[i].0
  }

  /** Python's `k in d`. */
  predicate HasKey<V>(d: Dict<V>, k: string) {
    k in Keys(d)
  }

  predicate DistinctKeys<V>(d: Dict<V>) {
    forall i, j :: 0 <= i < j < |d| ==> d[i].0 != d[j].0
  }

  /** Position of `k`, or `|d|` when `k` is not a key. */
  function Find<V>(d: Dict<V>, k: string): (i: nat)
    ensures i <= |d|
    ensures i < |d| ==> d[i].0 == k
    ensures forall j :: 0 <= j < i ==> d[j].0 != k
    ensures i < |d| <==> HasKey(d, k)
    decreases |d|
  {
    if d == [] then 0
    else if d[0].0 == k then 0
    else 1 + Find(d[1..], k)
  }

  /** Python's `d.get(k)`. */
  function Get<V>(d: Dict<V>, k: string): (r: Option<V>)
    ensures r.Some? <==> HasKey(d, k)
    ensures r.Some? ==> exists i :: 0 <= i < |d| && d[i] == (k, r.value)
  {
    var i := Find(d, k);
    if i < |d| then Some(d[i].1) else None
  }

  lemma FindSameKeys<V>(d: Dict<V>, e: Dict<V>, k: string)
    requires Keys(d) == Keys(e)
    ensures Find(d, k) == Find(e, k)
  {
  }

  /** Python's `d[k] = v`: a known key keeps its place, a new key goes last. */
  function Put<V>(d: Dict<V>, k: string, v: V): (r: Dict<V>)
    ensures Keys(r) == if HasKey(d, k) then Keys(d) else Keys(d) + [k]
    ensures Get(r, k) == Some(v)
    ensures forall k' :: k' != k ==> Get(r, k') == Get(d, k')
    ensures DistinctKeys(d) ==> DistinctKeys(r)
  {
    var i := Find(d, k);
    if i < |d| then
      var r := d[i := (k, v)];
      assert Keys(r) == Keys(d);
      forall k' | k' != k ensures Get(r, k') == Get(d, k') {
        FindSameKeys(r, d, k');
      }
      r
    else
      var r := d + [(k, v)];
      assert Keys(r) == Keys(d) + [k];
      forall k' | k' != k ensures Get(r, k') == Get(d, k') {
        var j := Find(d, k');
        if j < |d| {
          assert Find(r, k') == j by {
            assert r[j] == d[j];
            assert forall m :: 0 <= m < j ==> r[m] == d[m];
          }
        } else {
          assert forall m :: 0 <= m < |d| ==> r[m] == d[m];
          assert Find(r, k') == |r|;
        }
      }
      assert Find(r, k) == |d| by {
        assert forall m :: 0 <= m < |d| ==> r[m] == d[m];
      }
      r
  }
}
