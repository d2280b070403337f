/** The string operations the scripts rely on: Python's `str.split` and
    `str.upper`, Go's `strings.Split`, JavaScript's `indexOf`/`substring`,
    and substring search. Strings are sequences of characters. */
module Strings {
  import opened Wrappers

  /** `sep` occurs in `s` starting at index `i`. */
  predicate OccursAt(s: string, sep: string, i: nat) {
    i + |sep| <= |s| && s[i..i + |sep|] == sep
  }

  /** `sep` is a substring of `s` (Python's `sep in s`). */
  predicate Contains(s: string, sep: string) {
    exists i: nat :: i <= |s| && OccursAt(s, sep, i)
  }

  /** The first index at or after `from` where `sep` occurs in `s`. */
  function IndexOfFrom(s: string, sep: string, from: nat): (r: Option<nat>)
    requires from <= |s|
    ensures r.Some? ==> from <= r.value && OccursAt(s, sep, r.value)
    ensures r.Some? ==> forall j: nat :: from <= j < r.value ==> !OccursAt(s, sep, j)
    ensures r.None? ==> forall j: nat :: from <= j ==> !OccursAt(s, sep, j)
    decreases |s| - from
  {
    if OccursAt(s, sep, from) then Some(from)
    else if from == |s| then None
    else IndexOfFrom(s, sep, from + 1)
  }

  /** The first index where `sep` occurs in `s` (JavaScript's `indexOf`,
      Python's `str.find`), or None. */
  function IndexOf(s: string, sep: string): (r: Option<nat>)
    ensures r.Some? ==> OccursAt(s, sep, r.value)
    ensures r.Some? ==> forall j: nat :: j < r.value ==> !OccursAt(s, sep, j)
  {
    IndexOfFrom(s, sep, 0)
  }

  /** The separator is missing exactly when it is not a substring. */
  lemma IndexOfNone(s: string, sep: string)
    ensures IndexOf(s, sep).None? <==> !Contains(s, sep)
  {
  }

  /** Splitting on a non-empty separator, left to right, without dropping
      empty parts: Python's `s.split(sep)` and Go's `strings.Split(s, sep)`. */
  function Split(s: string, sep: string): (parts: seq<string>)
    requires |sep| > 0
    ensures |parts| >= 1
    decreases |s|
  {
    match IndexOf(s, sep)
    case None => [s]
    case Some(i) => [s[..i]] + Split(s[i + |sep|..], sep)
  }

  /** The inverse of Split: the parts separated by `sep`. */
  function Join(parts: seq<string>, sep: string): string {
    if |parts| == 0 then ""
    else if |parts| == 1 then parts[0]
    else parts[0] + sep + Join(parts[1..], sep)
  }

  function Last<T>(s: seq<T>): T
    requires |s| > 0
  {
    s[|s| - 1]
  }

  /** Splitting and joining again gives back the original string. */
  lemma {:induction false} JoinSplit(s: string, sep: string)
    requires |sep| > 0
    ensures Join(Split(s, sep), sep) == s
    decreases |s|
  {
    match IndexOf(s, sep)
    case None =>
    case Some(i) =>
      var rest := s[i + |sep|..];
      var tail := Split(rest, sep);
      JoinSplit(rest, sep);
      var parts := [s[..i]] + tail;
      assert Split(s, sep) == parts;
      assert |parts| >= 2 && parts[0] == s[..i] && parts[1..] == tail;
      assert Join(parts, sep) == s[..i] + sep + Join(tail, sep);
      assert s == s[..i] + s[i..i + |sep|] + rest;
  }

  /** Joining parts that avoid a one-character separator and splitting
      again gives back the parts. */
  lemma {:induction false} SplitJoinChar(parts: seq<string>, c: char)
    requires |parts| >= 1
    requires forall k :: 0 <= k < |parts| ==> c !in parts[k]
    ensures Split(Join(parts, [c]), [c]) == parts
    decreases |parts|
  {
    var s := Join(parts, [c]);
    if |parts| == 1 {
      ContainsChar(s, c);
      SplitSingleton(s, [c]);
    } else {
      var p0 := parts[0];
      var rest := Join(parts[1..], [c]);
      assert s == p0 + [c] + rest;
      assert s[|p0|..|p0| + 1] == [c];
      assert OccursAt(s, [c], |p0|);
      forall j: nat | j < |p0|
        ensures !OccursAt(s, [c], j)
      {
        assert s[j..j + 1] == [p0[j]];
      }
      assert IndexOf(s, [c]) == Some(|p0|);
      assert s[..|p0|] == p0;
      assert s[|p0| + 1..] == rest;
      SplitJoinChar(parts[1..], c);
    }
  }

  /** A prefix of `s` that ends before the first occurrence of `sep` does
      not contain `sep`. */
  lemma PrefixBeforeFirstOccurrence(s: string, sep: string, i: nat)
    requires i <= |s|
    requires forall j: nat :: j < i ==> !OccursAt(s, sep, j)
    requires |sep| > 0
    ensures !Contains(s[..i], sep)
  {
    if Contains(s[..i], sep) {
      var j: nat :| j <= |s[..i]| && OccursAt(s[..i], sep, j);
      assert j + |sep| <= i;
      assert s[..i][j..j + |sep|] == s[j..j + |sep|];
      assert OccursAt(s, sep, j);
    }
  }

  /** No part produced by Split contains the separator. */
  lemma {:induction false} SplitPartsAvoidSep(s: string, sep: string)
    requires |sep| > 0
    ensures forall p :: p in Split(s, sep) ==> !Contains(p, sep)
    decreases |s|
  {
    match IndexOf(s, sep)
    case None =>
    case Some(i) =>
      PrefixBeforeFirstOccurrence(s, sep, i);
      SplitPartsAvoidSep(s[i + |sep|..], sep);
  }

  /** The first part of a split is a prefix of the input. */
  lemma {:induction false} SplitFirstIsPrefix(s: string, sep: string)
    requires |sep| > 0
    ensures Split(s, sep)[0] <= s
  {
  }

  /** The last part of a split is a suffix of the input. */
  lemma {:induction false} SplitLastIsSuffix(s: string, sep: string)
    requires |sep| > 0
    ensures |Last(Split(s, sep))| <= |s|
    ensures s[|s| - |Last(Split(s, sep))|..] == Last(Split(s, sep))
    decreases |s|
  {
    if IndexOf(s, sep).Some? {
      var i := IndexOf(s, sep).value;
      var rest := s[i + |sep|..];
      SplitAt(s, sep, i);
      assert Last(Split(s, sep)) == Last(Split(rest, sep));
      SplitLastIsSuffix(rest, sep);
      SuffixOfSuffix(s, i + |sep|, Last(Split(rest, sep)));
    }
  }

  /** Split at the first separator: the part before it, then the split of
      the rest. */
  lemma SplitAt(s: string, sep: string, i: nat)
    requires |sep| > 0 && IndexOf(s, sep) == Some(i)
    ensures i + |sep| <= |s| && Split(s, sep) == [s[..i]] + Split(s[i + |sep|..], sep)
  {
  }

  lemma SuffixOfSuffix(s: string, k: nat, l: string)
    requires k <= |s| && |l| <= |s| - k && s[k..][|s| - k - |l|..] == l
    ensures s[|s| - |l|..] == l
  {
    assert s[k..][|s| - k - |l|..] == s[|s| - |l|..];
  }

  /** A string without the separator splits into itself alone, and only
      such a string does. */
  lemma SplitSingleton(s: string, sep: string)
    requires |sep| > 0
    ensures |Split(s, sep)| == 1 <==> !Contains(s, sep)
    ensures !Contains(s, sep) ==> Split(s, sep) == [s]
  {
  }

  /** Substring containment for a single character is plain membership. */
  lemma ContainsChar(s: string, c: char)
    ensures Contains(s, [c]) <==> c in s
  {
    if c in s {
      var i :| 0 <= i < |s| && s[i] == c;
      assert OccursAt(s, [c], i);
    }
    if Contains(s, [c]) {
      var i: nat :| i <= |s| && OccursAt(s, [c], i);
      assert i < |s| && s[i..i + 1] == [c];
      assert s[i] == c;
    }
  }

  /** A substring (here: a prefix or a suffix) of a string without `sep`
      has no `sep` either. */
  lemma PrefixAvoids(s: string, n: nat, sep: string)
    requires n <= |s| && !Contains(s, sep)
    ensures !Contains(s[..n], sep)
  {
    if Contains(s[..n], sep) {
      var j: nat :| j <= |s[..n]| && OccursAt(s[..n], sep, j);
      assert j + |sep| <= n;
      assert s[..n][j..j + |sep|] == s[j..j + |sep|];
      assert OccursAt(s, sep, j);
    }
  }

  lemma SuffixAvoids(s: string, n: nat, sep: string)
    requires n <= |s| && !Contains(s, sep)
    ensures !Contains(s[n..], sep)
  {
    if Contains(s[n..], sep) {
      var j: nat :| j <= |s[n..]| && OccursAt(s[n..], sep, j);
      assert j + |sep| <= |s| - n;
      assert s[n..][j..j + |sep|] == s[n + j..n + j + |sep|];
      assert OccursAt(s, sep, n + j);
    }
  }

  /** The text before the first `c`, or the whole string when there is none
      (`s.split(c)[0]`). */
  function BeforeFirst(s: string, c: char): (r: string)
    ensures r <= s && c !in r
    ensures c in s ==> |r| < |s| && s[|r|] == c
    ensures c !in s ==> r == s
  {
    if |s| == 0 then ""
    else if s[0] == c then ""
    else [s[0]] + BeforeFirst(s[1..], c)
  }

  /** `s.split(c)[0]` for a one-character separator is BeforeFirst. */
  lemma {:induction false} SplitFirstIsBeforeFirst(s: string, c: char)
    ensures Split(s, [c])[0] == BeforeFirst(s, c)
  {
    match IndexOf(s, [c])
    case None =>
      ContainsChar(s, c);
    case Some(i) =>
      ContainsChar(s, c);
      assert s[i] == c;
      forall j | 0 <= j < i ensures s[j] != c {
        assert !OccursAt(s, [c], j);
        assert s[j..j + 1] == [s[j]];
      }
      BeforeFirstAt(s, c, i);
  }

  lemma {:induction false} BeforeFirstAt(s: string, c: char, i: nat)
    requires i < |s| && s[i] == c
    requires forall j :: 0 <= j < i ==> s[j] != c
    ensures BeforeFirst(s, c) == s[..i]
    decreases i
  {
    if i > 0 {
      BeforeFirstAt(s[1..], c, i - 1);
    }
  }

  /** ASCII upper-casing of one character. */
  function UpperChar(c: char): (r: char)
    ensures 'a' <= c <= 'z' ==> r as int == c as int - 32
    ensures !('a' <= c <= 'z') ==> r == c
  {
    if 'a' <= c <= 'z' then (c as int - 32) as char else c
  }

  /** Python's `str.upper()`, on ASCII letters. */
  function Upper(s: string): (r: string)
    ensures |r| == |s|
    ensures forall i :: 0 <= i < |s| ==> r[i] == UpperChar(s[i])
  {
    seq(|s|, i requires 0 <= i < |s| => UpperChar(s[i]))
  }

  /** Upper-casing twice is upper-casing once. */
  lemma UpperIdempotent(s: string)
    ensures Upper(Upper(s)) == Upper(s)
  {
  }
}
