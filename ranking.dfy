/**
 * `Object.entries(d).sort((a, b) => b[1] - a[1])` as the views use it: the
 * entries of a dictionary by non-increasing value. `Array.prototype.sort` is
 * stable, so entries with equal values keep their entry order.
 */
module Ranking {

  type Entry = (string, int)

  /** Each entry's value is at least the next one's. */
  predicate Descending(s: seq<Entry>) {
    forall i :: 0 < i < |s| ==> s[i - 1].1 >= s[i].1
  }

  /** Puts `x` before the first entry that is not larger, so it precedes the equal ones. */
  function Insert(x: Entry, t: seq<Entry>): (r: seq<Entry>)
    ensures |r| == |t| + 1
    decreases |t|
  {
    if t == [] || t[0].1 <= x.1 then [x] + t else [t[0]] + Insert(x, t[1..])
  }

  /** The stable sort by non-increasing value. */
  function SortDesc(s: seq<Entry>): (r: seq<Entry>)
    ensures |r| == |s|
    decreases |s|
  {
    if s == [] then [] else Insert(s[0], SortDesc(s[1..]))
  }

  /** The entries of `s` whose value is `v`, in order. */
  function WithValue(s: seq<Entry>, v: int): (r: seq<Entry>)
    decreases |s|
  {
    if s == [] then [] else (if s[0].1 == v then [s[0]] else []) + WithValue(s[1..], v)
  }

  lemma {:induction false} InsertDescending(x: Entry, t: seq<Entry>)
    requires Descending(t)
    ensures Descending(Insert(x, t))
    ensures Insert(x, t)[0] == if t == [] || t[0].1 <= x.1 then x else t[0]
    decreases |t|
  {
    if t != [] && t[0].1 > x.1 {
      InsertDescending(x, t[1..]);
      var r := Insert(x, t);
      assert r == [t[0]] + Insert(x, t[1..]);
      forall i | 0 < i < |r|
        ensures r[i - 1].1 >= r[i].1
      {
        if i > 1 {
          assert r[i - 1] == Insert(x, t[1..])[i - 2] && r[i] == Insert(x, t[1..])[i - 1];
        }
      }
    }
  }

  lemma {:induction false} InsertMultiset(x: Entry, t: seq<Entry>)
    ensures multiset(Insert(x, t)) == multiset(t) + multiset{x}
    decreases |t|
  {
    if t != [] && t[0].1 > x.1 {
      InsertMultiset(x, t[1..]);
      assert t == [t[0]] + t[1..];
    }
  }

  lemma {:induction false} InsertWithValue(x: Entry, t: seq<Entry>, v: int)
    requires Descending(t)
    ensures WithValue(Insert(x, t), v) == (if x.1 == v then [x] else []) + WithValue(t, v)
    decreases |t|
  {
    if t == [] || t[0].1 <= x.1 {
      WithValueCons(x, t, v);
    } else {
      var u := t[1..];
      DescendingTail(t);
      InsertWithValue(x, u, v);
      assert Insert(x, t) == [t[0]] + Insert(x, u);
      WithValueCons(t[0], Insert(x, u), v);
      assert t == [t[0]] + u;
      WithValueCons(t[0], u, v);
      var xs: seq<Entry> := if x.1 == v then [x] else [];
      var ts: seq<Entry> := if t[0].1 == v then [t[0]] else [];
      assert ts == [] || xs == [];
    }
  }

  lemma WithValueCons(e: Entry, t: seq<Entry>, v: int)
    ensures WithValue([e] + t, v) == (if e.1 == v then [e] else []) + WithValue(t, v)
  {
    assert ([e] + t)[0] == e && ([e] + t)[1..] == t;
  }

  lemma DescendingTail(t: seq<Entry>)
    requires t != [] && Descending(t)
    ensures Descending(t[1..])
  {
    var u := t[1..];
    assert forall i :: 0 < i < |u| ==> u[i - 1] == t[i] && u[i] == t[i + 1];
  }

  /** The result is ordered by non-increasing value. */
  lemma {:induction false} SortDescSorted(s: seq<Entry>)
    ensures Descending(SortDesc(s))
    decreases |s|
  {
    if s != [] {
      SortDescSorted(s[1..]);
      InsertDescending(s[0], SortDesc(s[1..]));
    }
  }

  /** The result holds the same entries as the input. */
  lemma {:induction false} SortDescPermutation(s: seq<Entry>)
    ensures multiset(SortDesc(s)) == multiset(s)
    decreases |s|
  {
    if s != [] {
      SortDescPermutation(s[1..]);
      InsertMultiset(s[0], SortDesc(s[1..]));
      assert s == [s[0]] + s[1..];
    }
  }

  /** Entries with equal values keep their relative order. */
  lemma {:induction false} SortDescStable(s: seq<Entry>, v: int)
    ensures WithValue(SortDesc(s), v) == WithValue(s, v)
    decreases |s|
  {
    if s != [] {
      SortDescStable(s[1..], v);
      SortDescSorted(s[1..]);
      InsertWithValue(s[0], SortDesc(s[1..]), v);
    }
  }

  /** The position of the first entry with the largest value. */
  function FirstMax(s: seq<Entry>): (r: nat)
    requires s != []
    ensures r < |s|
    ensures forall i :: 0 <= i < |s| ==> s[i].1 <= s[r].1
    ensures forall i :: 0 <= i < r ==> s[i].1 < s[r].1
    decreases |s|
  {
    if |s| == 1 then 0
    else
      var j := FirstMax(s[1..]) + 1;
      assert s[j] == s[1..][j - 1];
      assert forall i :: 1 <= i < |s| ==> s[i] == s[1..][i - 1];
      if s[0].1 >= s[j].1 then 0 else j
  }

  /** The first sorted entry is the first entry with the largest value. */
  lemma {:induction false} SortDescHead(s: seq<Entry>)
    requires s != []
    ensures SortDesc(s)[0] == s[FirstMax(s)]
    decreases |s|
  {
    var t := SortDesc(s[1..]);
    SortDescSorted(s[1..]);
    InsertDescending(s[0], t);
    if |s| > 1 {
      SortDescHead(s[1..]);
      assert s[FirstMax(s[1..]) + 1] == s[1..][FirstMax(s[1..])];
    }
  }

  /** `.slice(0, n)` of the sorted entries. */
  function Top(s: seq<Entry>, n: nat): (r: seq<Entry>) {
    SortDesc(s)[..if n < |s| then n else |s|]
  }

  /** The top `n` entries come in non-increasing order, `min(n, |s|)` of them. */
  lemma TopDescending(s: seq<Entry>, n: nat)
    ensures |Top(s, n)| == if n < |s| then n else |s|
    ensures Descending(Top(s, n))
  {
    SortDescSorted(s);
  }

  /**
   * The top `n` entries: at most `n` of them (fewer only when there are
   * fewer), in non-increasing order, drawn from the input, and each at least
   * as large as every entry of the input left out.
   */
  lemma TopSpec(s: seq<Entry>, n: nat)
    ensures |Top(s, n)| == if n < |s| then n else |s|
    ensures Descending(Top(s, n))
    ensures multiset(Top(s, n)) <= multiset(s)
    ensures forall x :: x in multiset(s) - multiset(Top(s, n)) ==>
      forall i :: 0 <= i < |Top(s, n)| ==> Top(s, n)[i].1 >= x.1
  {
    var r := SortDesc(s);
    var m := if n < |s| then n else |s|;
    SortDescSorted(s);
    SortDescPermutation(s);
    DescendingAll(r);
    LeftOutBelow(s, r, m);
  }

  /** Cutting a descending permutation of `s` at `m` leaves out only entries no larger than those kept. */
  lemma LeftOutBelow(s: seq<Entry>, r: seq<Entry>, m: nat)
    requires multiset(r) == multiset(s) && m <= |r|
    requires forall i, j :: 0 <= i <= j < |r| ==> r[i].1 >= r[j].1
    ensures multiset(r[..m]) <= multiset(s)
    ensures forall x :: x in multiset(s) - multiset(r[..m]) ==> forall i :: 0 <= i < m ==> r[..m][i].1 >= x.1
  {
    assert r == r[..m] + r[m..];
    assert multiset(r) == multiset(r[..m]) + multiset(r[m..]);
    forall x | x in multiset(s) - multiset(r[..m])
      ensures forall i :: 0 <= i < m ==> r[..m][i].1 >= x.1
    {
      assert x in multiset(r[m..]);
      var j :| 0 <= j < |r[m..]| && r[m..][j] == x;
      assert x == r[m + j];
    }
  }

  /** In a descending sequence every earlier value is at least every later one. */
  lemma {:induction false} DescendingAll(s: seq<Entry>)
    requires Descending(s)
    ensures forall i, j :: 0 <= i <= j < |s| ==> s[i].1 >= s[j].1
    decreases |s|
  {
    if |s| > 1 {
      var u := s[1..];
      DescendingTail(s);
      DescendingAll(u);
      assert forall j :: 1 <= j < |s| ==> s[j] == u[j - 1];
      assert forall j :: 0 <= j < |u| ==> u[0].1 >= u[j].1;
    }
  }
}
