/**
 * Insertion-ordered dictionaries: a JavaScript `Map`, a JavaScript object used
 * as a dictionary, or a Python `dict`. The entries are kept in insertion order
 * (what `Object.entries`, `Map.forEach` and `dict.items()` enumerate), keys are
 * distinct, and writing an existing key keeps its position.
 */
module Dicts {
  import opened Wrappers

  predicate DistinctKeys<V>(d: seq<(string, V)>) {
    forall i, j :: 0 <= i < j < |d| ==> d[i].0 != d[j].0
  }

  type Dict<V> = d: seq<(string, V)> | DistinctKeys(d) witness []

  function Keys<V>(d: seq<(string, V)>): (r: set<string>) {
    set i | 0 <= i < |d| :: d[i].0
  }

  function FindFrom<V>(d: seq<(string, V)>, k: string, i: nat): (r: Option<nat>)
    requires i <= |d|
    ensures r.Some? ==> i <= r.value < |d| && d[r.value].0 == k
    ensures r.None? ==> forall j :: i <= j < |d| ==> d[j].0 != k
    decreases |d| - i
  {
    if i == |d| then None
    else if d[i].0 == k then Some(i)
    else FindFrom(d, k, i + 1)
  }

  /** The value stored under `k` (`Map.prototype.get`, `dict.get`). */
  function Get<V>(d: Dict<V>, k: string): (r: Option<V>)
    ensures r.Some? <==> k in Keys(d)
    ensures forall i :: 0 <= i < |d| && d[i].0 == k ==> r == Some(d[i].1)
  {
    match FindFrom(d, k, 0)
    case None => None
    case Some(i) => Some(d[i].1)
  }

  /** `d.get(k, default)` in Python, `d[k] || default` in JavaScript for numbers. */
  function GetOr<V>(d: Dict<V>, k: string, default: V): (r: V)
    ensures k !in Keys(d) ==> r == default
    ensures forall i :: 0 <= i < |d| && d[i].0 == k ==> r == d[i].1
  {
    Get(d, k).GetOr(default)
  }

  /**
   * `d[k] = v` / `map.set(k, v)`: an existing key is rewritten in place,
   * a new key is appended at the end.
   */
  function Put<V>(d: Dict<V>, k: string, v: V): (r: Dict<V>)
    ensures Get(r, k) == Some(v)
    ensures forall k' :: k' != k ==> Get(r, k') == Get(d, k')
    ensures Keys(r) == Keys(d) + {k}
    ensures |r| == if k in Keys(d) then |d| else |d| + 1
    ensures k in Keys(d) ==> forall i :: 0 <= i < |d| ==> r[i].0 == d[i].0
    ensures k !in Keys(d) ==> r == d + [(k, v)]
  {
    match FindFrom(d, k, 0)
    case Some(i) =>
      var r := d[i := (k, v)];
      assert Keys(r) == Keys(d) by {
        assert forall j :: 0 <= j < |d| ==> r[j].0 == d[j].0;
      }
      r
    case None =>
      var r := d + [(k, v)];
      assert r[|d|].0 == k;
      assert Keys(r) == Keys(d) + {k} by {
        assert forall j :: 0 <= j < |d| ==> r[j].0 == d[j].0;
      }
      r
  }

  /** Two entry lists with the same key at every position have the same keys. */
  lemma SameKeys<V, W>(a: seq<(string, V)>, b: seq<(string, W)>)
    requires |a| == |b| && forall i :: 0 <= i < |a| ==> a[i].0 == b[i].0
    ensures Keys(a) == Keys(b)
  {
    forall k | k in Keys(a)
      ensures k in Keys(b)
    {
      var i :| 0 <= i < |a| && a[i].0 == k;
      assert b[i].0 == k;
    }
    forall k | k in Keys(b)
      ensures k in Keys(a)
    {
      var i :| 0 <= i < |b| && b[i].0 == k;
      assert a[i].0 == k;
    }
  }

  /** Writing an existing key replaces that entry where it stands. */
  lemma PutExisting<V>(d: Dict<V>, k: string, v: V, i: nat)
    requires i < |d| && d[i].0 == k
    ensures Put(d, k, v) == d[i := (k, v)]
  {
    var f := FindFrom(d, k, 0);
    assert f.Some? && f.value == i;
  }

  /** The values in entry order (`Object.values`). */
  function Values<V>(d: seq<(string, V)>): (r: seq<V>)
    ensures |r| == |d| && forall i :: 0 <= i < |d| ==> r[i] == d[i].1
  {
    seq(|d|, i requires 0 <= i < |d| => d[i].1)
  }

  /** The sum of a sequence of integers, folded from the left like `reduce((a, b) => a + b, 0)`. */
  function Sum(s: seq<int>): (r: int)
    decreases |s|
  {
    if s == [] then 0 else Sum(s[..|s| - 1]) + s[|s| - 1]
  }

  lemma {:induction false} SumUpdate(s: seq<int>, i: nat, x: int)
    requires i < |s|
    ensures Sum(s[i := x]) == Sum(s) - s[i] + x
    decreases |s|
  {
    var n := |s| - 1;
    if i < n {
      assert s[i := x][..n] == s[..n][i := x];
      SumUpdate(s[..n], i, x);
    } else {
      assert s[i := x][..n] == s[..n];
    }
  }

  lemma SumAppend(s: seq<int>, x: int)
    ensures Sum(s + [x]) == Sum(s) + x
  {
    assert (s + [x])[..|s|] == s;
  }

  /** Adding one to a counter (missing counts as zero) adds one to the total of the values. */
  lemma SumPutIncrement(d: Dict<int>, k: string)
    ensures Sum(Values(Put(d, k, GetOr(d, k, 0) + 1))) == Sum(Values(d)) + 1
  {
    match FindFrom(d, k, 0)
    case Some(i) =>
      PutExisting(d, k, d[i].1 + 1, i);
      SumReplace(d, i, d[i].1 + 1);
    case None =>
      assert k !in Keys(d);
      SumSnoc(d, k, 1);
  }

  lemma SumReplace(d: seq<(string, int)>, i: nat, v: int)
    requires i < |d|
    ensures Sum(Values(d[i := (d[i].0, v)])) == Sum(Values(d)) - d[i].1 + v
  {
    assert Values(d[i := (d[i].0, v)]) == Values(d)[i := v];
    SumUpdate(Values(d), i, v);
  }

  lemma SumSnoc(d: seq<(string, int)>, k: string, v: int)
    ensures Sum(Values(d + [(k, v)])) == Sum(Values(d)) + v
  {
    assert Values(d + [(k, v)]) == Values(d) + [v];
    SumAppend(Values(d), v);
  }

  /** `d[k] = (d[k] || 0) + 1`: one more occurrence of `k`. */
  function Bump(d: Dict<int>, k: string): (r: Dict<int>) {
    match FindFrom(d, k, 0)
    case Some(i) =>
      var r := d[i := (k, d[i].1 + 1)];
      assert forall j :: 0 <= j < |d| ==> r[j].0 == d[j].0;
      r
    case None =>
      d + [(k, 1)]
  }

  /** `Bump` is the write of the incremented count. */
  lemma BumpIsPut(d: Dict<int>, k: string)
    ensures Bump(d, k) == Put(d, k, GetOr(d, k, 0) + 1)
  {
    match FindFrom(d, k, 0)
    case Some(i) =>
      var v := GetOr(d, k, 0) + 1;
      assert v == d[i].1 + 1;
      PutExisting(d, k, v, i);
    case None =>
      assert k !in Keys(d);
      var v := GetOr(d, k, 0) + 1;
      assert v == 1;
      assert Put(d, k, v) == d + [(k, v)];
  }

  /** A tally of how often each string occurs, keys in order of first occurrence. */
  function Counts(s: seq<string>): (r: Dict<int>)
    decreases |s|
  {
    if s == [] then [] else Bump(Counts(s[..|s| - 1]), s[|s| - 1])
  }

  /** Each string is counted exactly as often as it occurs. */
  lemma {:induction false} CountsCount(s: seq<string>, k: string)
    ensures GetOr(Counts(s), k, 0) == multiset(s)[k]
    decreases |s|
  {
    if s != [] {
      var n := |s| - 1;
      CountsCount(s[..n], k);
      BumpIsPut(Counts(s[..n]), s[n]);
      assert s == s[..n] + [s[n]];
    }
  }

  /** The tally has a key for exactly the strings that occur. */
  lemma {:induction false} CountsKeys(s: seq<string>)
    ensures Keys(Counts(s)) == set x | x in s
    decreases |s|
  {
    if s != [] {
      var n := |s| - 1;
      CountsKeys(s[..n]);
      BumpIsPut(Counts(s[..n]), s[n]);
      assert s == s[..n] + [s[n]];
    }
  }

  /** The counts add up to the length of the sequence. */
  lemma {:induction false} CountsSum(s: seq<string>)
    ensures Sum(Values(Counts(s))) == |s|
    decreases |s|
  {
    if s != [] {
      var n := |s| - 1;
      CountsSum(s[..n]);
      BumpIsPut(Counts(s[..n]), s[n]);
      SumPutIncrement(Counts(s[..n]), s[n]);
    }
  }

  /** Every count in a tally is at least one. */
  lemma CountsPositive(s: seq<string>)
    ensures forall i :: 0 <= i < |Counts(s)| ==> Counts(s)[i].1 >= 1
  {
    var c := Counts(s);
    CountsKeys(s);
    forall i | 0 <= i < |c|
      ensures c[i].1 >= 1
    {
      CountsCount(s, c[i].0);
      assert c[i].0 in Keys(c);
    }
  }
}
