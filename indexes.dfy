/** Dictionaries filled by a loop that writes `d[key(x)] = val(x)` for
    each element in turn, as the scrapers do when they re-index a list by
    IP or by public key: a later element with the same key overwrites. */
module Indexes {

  /** `m` after writing every element of `s`, in order. */
  function IndexBy<T, K, V>(m: map<K, V>, s: seq<T>, key: T -> K, val: T -> V): map<K, V>
    decreases |s|
  {
    if |s| == 0 then m
    else IndexBy(m, s[..|s| - 1], key, val)[key(s[|s| - 1]) := val(s[|s| - 1])]
  }

  /** The keys are the old keys and the keys of the elements. */
  lemma {:induction false} IndexByKeys<T, K, V>(m: map<K, V>, s: seq<T>, key: T -> K, val: T -> V, k: K)
    ensures k in IndexBy(m, s, key, val) <==> k in m || exists i :: 0 <= i < |s| && key(s[i]) == k
    decreases |s|
  {
    if |s| > 0 {
      var init := s[..|s| - 1];
      IndexByKeys(m, init, key, val, k);
      assert forall i :: 0 <= i < |init| ==> init[i] == s[i];
    }
  }

  /** A key some element has holds the value of the last such element. */
  lemma {:induction false} IndexByLastWins<T, K, V>(m: map<K, V>, s: seq<T>, key: T -> K, val: T -> V, i: nat)
    requires i < |s|
    requires forall j :: i < j < |s| ==> key(s[j]) != key(s[i])
    ensures key(s[i]) in IndexBy(m, s, key, val)
    ensures IndexBy(m, s, key, val)[key(s[i])] == val(s[i])
    decreases |s|
  {
    if i < |s| - 1 {
      var init := s[..|s| - 1];
      assert init[i] == s[i];
      IndexByLastWins(m, init, key, val, i);
    }
  }

  /** A key no element has keeps its old value. */
  lemma {:induction false} IndexByUntouched<T, K, V>(m: map<K, V>, s: seq<T>, key: T -> K, val: T -> V, k: K)
    requires k in m
    requires forall j :: 0 <= j < |s| ==> key(s[j]) != k
    ensures k in IndexBy(m, s, key, val) && IndexBy(m, s, key, val)[k] == m[k]
    decreases |s|
  {
    if |s| > 0 {
      var init := s[..|s| - 1];
      assert forall j :: 0 <= j < |init| ==> init[j] == s[j];
      IndexByUntouched(m, init, key, val, k);
    }
  }

  /** Every value is the old value of its key or the value of an element
      with that key. */
  lemma {:induction false} IndexByFrom<T, K, V>(m: map<K, V>, s: seq<T>, key: T -> K, val: T -> V, k: K)
    requires k in IndexBy(m, s, key, val)
    ensures || (k in m && IndexBy(m, s, key, val)[k] == m[k])
            || exists i :: 0 <= i < |s| && key(s[i]) == k && IndexBy(m, s, key, val)[k] == val(s[i])
    decreases |s|
  {
    if |s| > 0 {
      var init := s[..|s| - 1];
      if key(s[|s| - 1]) != k {
        IndexByFrom(m, init, key, val, k);
        assert forall i :: 0 <= i < |init| ==> init[i] == s[i];
      }
    }
  }

  /** How far a loop that raises on its first bad element gets: the index
      of that element, or the length when every element is good. */
  function FirstFailing<T>(s: seq<T>, good: T -> bool): (n: nat)
    ensures n <= |s|
    ensures forall j :: 0 <= j < n ==> good(s[j])
    ensures n < |s| ==> !good(s[n])
    decreases |s|
  {
    if |s| == 0 || !good(s[0]) then 0
    else
      var n := FirstFailing(s[1..], good);
      assert forall j :: 1 <= j < n + 1 ==> s[j] == s[1..][j - 1];
      1 + n
  }

  /** The loop `for x in s: d[key(x)] = val(x)` where reading the key or
      value of an element that fails `good` raises: the elements before
      the first bad one are written, and `ok` says that there was none. */
  method IndexUntilBad<T, K, V>(m: map<K, V>, s: seq<T>, good: T -> bool, key: T -> K, val: T -> V)
    returns (r: map<K, V>, ok: bool)
    ensures ok <==> FirstFailing(s, good) == |s|
    ensures r == IndexBy(m, s[..FirstFailing(s, good)], key, val)
  {
    r := m;
    var i := 0;
    while i < |s|
      invariant i <= |s|
      invariant forall j :: 0 <= j < i ==> good(s[j])
      invariant r == IndexBy(m, s[..i], key, val)
    {
      if !good(s[i]) {
        return r, false;
      }
      assert s[..i + 1][..i] == s[..i];
      r := r[key(s[i]) := val(s[i])];
      i := i + 1;
    }
    assert s[..i] == s;
    ok := true;
  }

  /** `m` after writing each element of `s` in order, where an element
      whose key is already present is skipped: the first element wins. */
  function IndexFirst<T, K, V>(m: map<K, V>, s: seq<T>, key: T -> K, val: T -> V): map<K, V>
    decreases |s|
  {
    if |s| == 0 then m
    else
      var r := IndexFirst(m, s[..|s| - 1], key, val);
      if key(s[|s| - 1]) in r then r else r[key(s[|s| - 1]) := val(s[|s| - 1])]
  }

  /** The keys are the old keys and the keys of the elements. */
  lemma {:induction false} IndexFirstKeys<T, K, V>(m: map<K, V>, s: seq<T>, key: T -> K, val: T -> V, k: K)
    ensures k in IndexFirst(m, s, key, val) <==> k in m || exists i :: 0 <= i < |s| && key(s[i]) == k
    decreases |s|
  {
    if |s| > 0 {
      var init := s[..|s| - 1];
      IndexFirstKeys(m, init, key, val, k);
      assert forall i :: 0 <= i < |init| ==> init[i] == s[i];
    }
  }

  /** A key the map did not hold takes the value of the first element
      with that key. */
  lemma {:induction false} IndexFirstWins<T, K, V>(m: map<K, V>, s: seq<T>, key: T -> K, val: T -> V, i: nat)
    requires i < |s| && key(s[i]) !in m
    requires forall j :: 0 <= j < i ==> key(s[j]) != key(s[i])
    ensures key(s[i]) in IndexFirst(m, s, key, val)
    ensures IndexFirst(m, s, key, val)[key(s[i])] == val(s[i])
    decreases |s|
  {
    var init := s[..|s| - 1];
    if i < |s| - 1 {
      assert init[i] == s[i];
      assert forall j :: 0 <= j < i ==> init[j] == s[j];
      IndexFirstWins(m, init, key, val, i);
    } else {
      assert forall j :: 0 <= j < |init| ==> init[j] == s[j];
      IndexFirstKeys(m, init, key, val, key(s[i]));
    }
  }

  /** A key the map already held keeps its value. */
  lemma {:induction false} IndexFirstKeeps<T, K, V>(m: map<K, V>, s: seq<T>, key: T -> K, val: T -> V, k: K)
    requires k in m
    ensures k in IndexFirst(m, s, key, val) && IndexFirst(m, s, key, val)[k] == m[k]
    decreases |s|
  {
    if |s| > 0 {
      IndexFirstKeeps(m, s[..|s| - 1], key, val, k);
    }
  }
}
