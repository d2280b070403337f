/** Python dictionaries and JavaScript objects whose key order matters:
    a sequence of entries with distinct keys, in insertion order. */
module OrderedDicts {
  import opened Wrappers

  predicate DistinctKeys<K(==,!new), V(==)>(d: seq<(K, V)>) {
    forall i, j :: 0 <= i < j < |d| ==> d[i].0 != d[j].0
  }

  function KeySet<K(==,!new), V(==)>(d: seq<(K, V)>): (ks: set<K>)
    ensures forall k :: k in ks <==> exists i :: 0 <= i < |d| && d[i].0 == k
  {
    if |d| == 0 then {} else KeySet(d[..|d| - 1]) + {d[|d| - 1].0}
  }

  function KeysOf<K(==,!new), V(==)>(d: seq<(K, V)>): (ks: seq<K>)
    ensures |ks| == |d| && forall i :: 0 <= i < |d| ==> ks[i] == d[i].0
  {
    seq(|d|, i requires 0 <= i < |d| => d[i].0)
  }

  /** `d[k]`, or None for a missing key (a KeyError). */
  function Get<K(==,!new), V(==)>(d: seq<(K, V)>, k: K): (r: Option<V>)
    ensures r.None? <==> k !in KeySet(d)
    ensures r.Some? ==> exists i :: 0 <= i < |d| && d[i] == (k, r.value)
  {
    if |d| == 0 then None
    else if d[0].0 == k then Some(d[0].1)
    else Get(d[1..], k)
  }

  /** `d[k] = v`: an existing key keeps its place and gets the new value; a
      new key goes at the end. */
  function Put<K(==,!new), V(==)>(d: seq<(K, V)>, k: K, v: V): (r: seq<(K, V)>)
    ensures k in KeySet(d) ==> |r| == |d|
    ensures k !in KeySet(d) ==> r == d + [(k, v)]
    ensures forall i :: 0 <= i < |d| ==> r[i] == if d[i].0 == k then (k, v) else d[i]
    ensures KeySet(r) == KeySet(d) + {k}
  {
    if k in KeySet(d) then
      seq(|d|, i requires 0 <= i < |d| => if d[i].0 == k then (k, v) else d[i])
    else d + [(k, v)]
  }

  /** Writing a key keeps the keys distinct, and reading it back gives the
      value written while every other key reads as before. */
  lemma {:induction false} PutGet<K(!new), V>(d: seq<(K, V)>, k: K, v: V, j: K)
    requires DistinctKeys(d)
    ensures DistinctKeys(Put(d, k, v))
    ensures Get(Put(d, k, v), k) == Some(v)
    ensures j != k ==> Get(Put(d, k, v), j) == Get(d, j)
  {
    var r := Put(d, k, v);
    PutDistinct(d, k, v);
    GetUnique(r, k, v);
    if j != k {
      match Get(d, j)
      case None =>
        assert j !in KeySet(r);
      case Some(w) =>
        var i :| 0 <= i < |d| && d[i] == (j, w);
        assert r[i] == (j, w);
        GetUnique(r, j, w);
    }
  }

  /** Writing a key keeps the keys distinct. */
  lemma PutDistinct<K(!new), V>(d: seq<(K, V)>, k: K, v: V)
    requires DistinctKeys(d)
    ensures DistinctKeys(Put(d, k, v))
  {
    var r := Put(d, k, v);
    forall i, j | 0 <= i < j < |r| ensures r[i].0 != r[j].0 {
      if j < |d| {
        assert r[i].0 == d[i].0 && r[j].0 == d[j].0;
      } else {
        assert r[j].0 == k && r[i] == d[i];
      }
    }
  }

  /** With distinct keys an entry is the value Get finds. */
  lemma {:induction false} GetUnique<K(!new), V>(d: seq<(K, V)>, k: K, v: V)
    requires DistinctKeys(d)
    requires exists i :: 0 <= i < |d| && d[i] == (k, v)
    ensures Get(d, k) == Some(v)
  {
    if d[0].0 != k {
      var i :| 0 <= i < |d| && d[i] == (k, v);
      assert d[1..][i - 1] == (k, v);
      GetUnique(d[1..], k, v);
    }
  }

  /** The first key whose value is `v`: `list(d.keys())[list(d.values()).index(v)]`. */
  function FirstKeyWithValue<K(==,!new), V(==)>(d: seq<(K, V)>, v: V): (r: Option<K>)
    ensures r.None? <==> forall i :: 0 <= i < |d| ==> d[i].1 != v
    ensures r.Some? ==>
      exists i :: 0 <= i < |d| && d[i] == (r.value, v) && forall j :: 0 <= j < i ==> d[j].1 != v
  {
    if |d| == 0 then None
    else if d[0].1 == v then Some(d[0].0)
    else
      var r := FirstKeyWithValue(d[1..], v);
      if r.Some? then
        var i :| 0 <= i < |d[1..]| && d[1..][i] == (r.value, v) && forall j :: 0 <= j < i ==> d[1..][j].1 != v;
        assert d[i + 1] == (r.value, v);
        r
      else r
  }
}
