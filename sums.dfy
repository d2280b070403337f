/** Sums of a counter over all buckets of a report dictionary. The report
    dictionaries are unordered here, so a sum picks keys in any order. */
module Sums {

  /** The sum of `f` over the entries of `m` whose keys are in `keys`. */
  ghost function SumOver<K, V>(keys: set<K>, m: map<K, V>, f: V -> nat): nat
    requires keys <= m.Keys
    decreases keys
  {
    if keys == {} then 0
    else
      var k :| k in keys;
      f(m[k]) + SumOver(keys - {k}, m, f)
  }

  /** The sum of `f` over every entry of `m`. */
  ghost function SumBy<K, V>(m: map<K, V>, f: V -> nat): nat {
    SumOver(m.Keys, m, f)
  }

  /** Any key can be taken out first: the sum is that entry plus the rest. */
  lemma {:induction false} SumOverRemove<K, V>(keys: set<K>, m: map<K, V>, f: V -> nat, k: K)
    requires keys <= m.Keys && k in keys
    ensures SumOver(keys, m, f) == f(m[k]) + SumOver(keys - {k}, m, f)
    decreases keys
  {
    var j :| j in keys && SumOver(keys, m, f) == f(m[j]) + SumOver(keys - {j}, m, f);
    if j != k {
      SumOverRemove(keys - {j}, m, f, k);
      SumOverRemove(keys - {k}, m, f, j);
      assert keys - {j} - {k} == keys - {k} - {j};
    }
  }

  /** The sum only depends on the values of `f` at the keys summed over. */
  lemma {:induction false} SumOverSame<K, V>(keys: set<K>, m1: map<K, V>, m2: map<K, V>, f: V -> nat)
    requires keys <= m1.Keys && keys <= m2.Keys
    requires forall k :: k in keys ==> f(m1[k]) == f(m2[k])
    ensures SumOver(keys, m1, f) == SumOver(keys, m2, f)
    decreases keys
  {
    if keys != {} {
      var k :| k in keys;
      SumOverRemove(keys, m1, f, k);
      SumOverRemove(keys, m2, f, k);
      SumOverSame(keys - {k}, m1, m2, f);
    }
  }

  /** Writing entry `k` changes the sum by the difference at `k`; a new
      key adds its value. */
  lemma SumByUpdate<K, V>(m: map<K, V>, f: V -> nat, k: K, v: V)
    ensures k in m ==> SumBy(m[k := v], f) + f(m[k]) == SumBy(m, f) + f(v)
    ensures k !in m ==> SumBy(m[k := v], f) == SumBy(m, f) + f(v)
  {
    var m' := m[k := v];
    SumOverRemove(m'.Keys, m', f, k);
    SumOverSame(m'.Keys - {k}, m', m, f);
    if k in m {
      SumOverRemove(m.Keys, m, f, k);
      assert m'.Keys - {k} == m.Keys - {k};
    } else {
      assert m'.Keys - {k} == m.Keys;
    }
  }

  /** A sum over entries that are all zero is zero. */
  lemma {:induction false} SumByZero<K, V>(m: map<K, V>, f: V -> nat)
    requires forall k :: k in m ==> f(m[k]) == 0
    ensures SumBy(m, f) == 0
  {
    SumOverZero(m.Keys, m, f);
  }

  lemma {:induction false} SumOverZero<K, V>(keys: set<K>, m: map<K, V>, f: V -> nat)
    requires keys <= m.Keys
    requires forall k :: k in keys ==> f(m[k]) == 0
    ensures SumOver(keys, m, f) == 0
    decreases keys
  {
    if keys != {} {
      var k :| k in keys;
      SumOverRemove(keys, m, f, k);
      SumOverZero(keys - {k}, m, f);
    }
  }

  /** Summing `f` over a sequence, from the front. */
  function SumSeq<T>(s: seq<T>, f: T -> nat): (r: nat)
    ensures |s| > 0 ==> r >= f(s[0])
  {
    if |s| == 0 then 0 else f(s[0]) + SumSeq(s[1..], f)
  }

  /** Appending one element adds its value to the sum. */
  lemma {:induction false} SumSeqAppend<T>(s: seq<T>, x: T, f: T -> nat)
    ensures SumSeq(s + [x], f) == SumSeq(s, f) + f(x)
  {
    if |s| > 0 {
      assert (s + [x])[1..] == s[1..] + [x];
      SumSeqAppend(s[1..], x, f);
    } else {
      assert (s + [x])[1..] == [];
    }
  }
}
