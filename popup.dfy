/**
 * The extension's popup (extension/popup.js): what it shows for the feed
 * analysis the content script stored. Only the derived values are modelled;
 * the HTML they are written into is not.
 */
module Popup {
  import opened Wrappers
  import opened Dicts
  import opened Analysis
  import opened Scores
  import opened Rounding
  import opened Ranking
  import opened Content

  /** The popup's colour for each band. */
  function BandColor(b: Band): (r: string) {
    match b
    case High => "#b91c1c"
    case Medium => "#b45309"
    case Low => "#15803d"
  }

  /** The popup's verdict line for each band. */
  function BandVerdict(b: Band): (r: string) {
    match b
    case High => "high manipulation detected"
    case Medium => "moderate signals present"
    case Low => "feed looks relatively clean"
  }

  /** `manipColor`. */
  function ManipColor(score: int): (r: string)
    ensures r == BandColor(BandOf(score))
  {
    if score > 66 then "#b91c1c"
    else if score > 33 then "#b45309"
    else "#15803d"
  }

  /** The verdict under the score bar. */
  function Verdict(score: int): (r: string)
    ensures r == BandVerdict(BandOf(score))
  {
    if score > 66 then "high manipulation detected"
    else if score > 33 then "moderate signals present"
    else "feed looks relatively clean"
  }

  /** The colour and the verdict always name the same band. */
  lemma VerdictMatchesColor(s: int, t: int)
    ensures ManipColor(s) == ManipColor(t) <==> Verdict(s) == Verdict(t)
    ensures ManipColor(s) == ManipColor(t) <==> BandOf(s) == BandOf(t)
  {
    assert "#b91c1c" != "#b45309" && "#b91c1c" != "#15803d" && "#b45309" != "#15803d" by {
      assert "#b91c1c"[2] != "#b45309"[2] && "#b91c1c"[1] != "#15803d"[1] && "#b45309"[1] != "#15803d"[1];
    }
    assert "high manipulation detected"[0] != "moderate signals present"[0];
    assert "high manipulation detected"[0] != "feed looks relatively clean"[0];
    assert "moderate signals present"[0] != "feed looks relatively clean"[0];
  }

  /** `topTopics`: the three largest topics. */
  function TopTopics(topics: Dict<int>): (r: seq<Entry>) {
    Top(topics, 3)
  }

  /** At most three topics, the largest first, each one of the feed's topics, none smaller than a topic left out. */
  lemma TopTopicsSpec(topics: Dict<int>)
    ensures |TopTopics(topics)| == if |topics| < 3 then |topics| else 3
    ensures Descending(TopTopics(topics))
    ensures forall x :: x in TopTopics(topics) ==> x in topics
    ensures forall x :: x in multiset(topics) - multiset(TopTopics(topics)) ==>
      forall i :: 0 <= i < |TopTopics(topics)| ==> TopTopics(topics)[i].1 >= x.1
  {
    TopSpec(topics, 3);
    var r := TopTopics(topics);
    forall x | x in r
      ensures x in topics
    {
      assert x in multiset(r);
    }
  }

  /** The entries with a positive value, in order (`.filter(([, pct]) => pct > 0)`). */
  function Positive(s: seq<Entry>): (r: seq<Entry>)
    decreases |s|
  {
    if s == [] then [] else (if s[0].1 > 0 then [s[0]] else []) + Positive(s[1..])
  }

  lemma {:induction false} PositiveMembers(s: seq<Entry>)
    ensures forall x :: x in Positive(s) <==> x in s && x.1 > 0
    decreases |s|
  {
    if s != [] {
      PositiveMembers(s[1..]);
      assert s == [s[0]] + s[1..];
    }
  }

  lemma {:induction false} PositiveDescending(s: seq<Entry>)
    requires Descending(s)
    ensures Descending(Positive(s))
    decreases |s|
  {
    if s != [] {
      var u := s[1..];
      DescendingTail(s);
      PositiveDescending(u);
      PositiveMembers(u);
      DescendingAll(s);
      var p := Positive(u);
      if s[0].1 > 0 && p != [] {
        assert p[0] in u;
        var r := [s[0]] + p;
        forall i | 0 < i < |r|
          ensures r[i - 1].1 >= r[i].1
        {
          if i == 1 {
            var k :| 0 <= k < |u| && u[k] == p[0];
            assert u[k] == s[k + 1];
          } else {
            assert r[i - 1] == p[i - 2] && r[i] == p[i - 1];
          }
        }
      }
    }
  }

  /** `politicalBreakdown`: the leans with a positive share, largest first. */
  function PoliticalBreakdown(breakdown: Dict<int>): (r: seq<Entry>) {
    Positive(SortDesc(breakdown))
  }

  /** Exactly the leans with a positive share, in non-increasing order. */
  lemma PoliticalBreakdownSpec(breakdown: Dict<int>)
    ensures Descending(PoliticalBreakdown(breakdown))
    ensures forall x :: x in PoliticalBreakdown(breakdown) <==> x in breakdown && x.1 > 0
  {
    var s := SortDesc(breakdown);
    SortDescSorted(breakdown);
    SortDescPermutation(breakdown);
    PositiveDescending(s);
    PositiveMembers(s);
    assert forall x :: x in s <==> x in multiset(breakdown);
  }

  /** What the popup shows. */
  datatype View = View(
    score: int,
    color: string,
    verdict: string,
    breakdown: seq<Entry>,
    topics: seq<Entry>,
    agoSeconds: int,
    tweetCount: nat)

  /**
   * The storage callback: nothing without a stored feed analysis; otherwise
   * the score (zero when missing) with its colour and verdict, the leans and
   * topics, the seconds since the last update and the cache size.
   */
  function Render(stored: Option<Snapshot>, now: int): (r: Option<View>)
    ensures r.None? <==> stored.None?
    ensures r.Some? ==>
      && r.value.color == BandColor(BandOf(r.value.score))
      && r.value.verdict == BandVerdict(BandOf(r.value.score))
      && r.value.score == stored.value.feedAnalysis.overall.GetOr(0)
  {
    match stored
    case None => None
    case Some(s) =>
      var data := s.feedAnalysis;
      var score := data.overall.GetOr(0);
      Some(View(score, ManipColor(score), Verdict(score),
        PoliticalBreakdown(data.breakdown.GetOr([])), TopTopics(data.topics),
        RoundHalfUp(now - s.lastUpdated, 1000), s.tweetCount))
  }
}
