/**
 * The values the dashboard (dashboard/src/App.jsx) derives from the
 * backend's `/results`: the band colour and label, the share of tweets with
 * a political lean, the top lean and topic, the topic chart and the age of
 * the analysis. Rendering is not modelled.
 */
module Dashboard {
  import opened Wrappers
  import opened Dicts
  import opened Analysis
  import opened Scores
  import opened Rounding
  import opened Ranking
  import opened Backend

  function BandColor(b: Band): (r: string) {
    match b
    case High => "#ff6b68"
    case Medium => "#cc7832"
    case Low => "#8aad6f"
  }

  function BandLabel(b: Band): (r: string) {
    match b
    case High => "HIGH RISK"
    case Medium => "MODERATE"
    case Low => "CLEAN"
  }

  /** `manipColor` (`THEME.red`, `THEME.orange`, `THEME.greenBright`). */
  function ManipColor(score: int): (r: string)
    ensures r == BandColor(BandOf(score))
  {
    if score > 66 then "#ff6b68"
    else if score > 33 then "#cc7832"
    else "#8aad6f"
  }

  /** `manipLabel`. */
  function ManipLabel(score: int): (r: string)
    ensures r == BandLabel(BandOf(score))
  {
    if score > 66 then "HIGH RISK"
    else if score > 33 then "MODERATE"
    else "CLEAN"
  }

  /** Colour and label always agree: two scores share one exactly when they share the other. */
  lemma ColorMatchesLabel(s: int, t: int)
    ensures ManipColor(s) == ManipColor(t) <==> ManipLabel(s) == ManipLabel(t)
    ensures ManipLabel(s) == ManipLabel(t) <==> BandOf(s) == BandOf(t)
  {
    assert "#ff6b68"[1] != "#cc7832"[1] && "#ff6b68"[1] != "#8aad6f"[1] && "#cc7832"[1] != "#8aad6f"[1];
    assert "HIGH RISK"[0] != "MODERATE"[0] && "HIGH RISK"[0] != "CLEAN"[0] && "MODERATE"[0] != "CLEAN"[0];
  }

  /** `t.political_lean && t.political_lean !== "unclear"`: a lean that is set, non-empty and not exactly `unclear`. */
  predicate IsPolitical(t: PerTweet) {
    t.lean.Some? && t.lean.value != "" && t.lean.value != "unclear"
  }

  function PoliticalCount(ps: seq<PerTweet>): (r: nat)
    ensures r <= |ps|
    decreases |ps|
  {
    if ps == [] then 0 else PoliticalCount(ps[..|ps| - 1]) + (if IsPolitical(ps[|ps| - 1]) then 1 else 0)
  }

  /** `politicalPct`: zero without tweets, otherwise the rounded percentage of political tweets. */
  function PoliticalPct(ps: seq<PerTweet>): (r: int)
    ensures ps == [] ==> r == 0
    ensures 0 <= r <= 100
  {
    if |ps| > 0 then
      RoundHalfUpWithin(100 * PoliticalCount(ps), |ps|, 0, 100);
      RoundHalfUp(100 * PoliticalCount(ps), |ps|)
    else 0
  }

  lemma {:induction false} PoliticalCountAll(ps: seq<PerTweet>)
    ensures PoliticalCount(ps) == |ps| <==> forall i :: 0 <= i < |ps| ==> IsPolitical(ps[i])
    ensures PoliticalCount(ps) == 0 <==> forall i :: 0 <= i < |ps| ==> !IsPolitical(ps[i])
    decreases |ps|
  {
    if ps != [] {
      var n := |ps| - 1;
      PoliticalCountAll(ps[..n]);
      assert forall i :: 0 <= i < n ==> ps[..n][i] == ps[i];
    }
  }

  /** The share is 100 when every tweet is political and 0 when none is. */
  lemma PoliticalPctExtremes(ps: seq<PerTweet>)
    ensures (forall i :: 0 <= i < |ps| ==> IsPolitical(ps[i])) && ps != [] ==> PoliticalPct(ps) == 100
    ensures (forall i :: 0 <= i < |ps| ==> !IsPolitical(ps[i])) ==> PoliticalPct(ps) == 0
  {
    PoliticalCountAll(ps);
    if ps != [] {
      RoundExact(100, |ps|);
      RoundExact(0, |ps|);
      assert 100 * |ps| == |ps| * 100;
    }
  }

  /** The entries whose key is not `k`. */
  function Without(s: seq<Entry>, k: string): (r: seq<Entry>)
    ensures forall x :: x in r <==> x in s && x.0 != k
    decreases |s|
  {
    if s == [] then []
    else
      assert s == [s[0]] + s[1..];
      (if s[0].0 != k then [s[0]] else []) + Without(s[1..], k)
  }

  /** `entries[0]?.[0] || null`: the key of the first sorted entry, unless there is none or it is the empty string. */
  function FirstKey(s: seq<Entry>): (r: Option<string>) {
    if s == [] || SortDesc(s)[0].0 == "" then None else Some(SortDesc(s)[0].0)
  }

  /** `topLean`: the first lean other than `unclear` with the largest share. */
  function TopLean(breakdown: Dict<int>): (r: Option<string>) {
    FirstKey(Without(breakdown, "unclear"))
  }

  /**
   * The top lean is the key of the first entry, in entry order, with the
   * largest share among the leans other than `unclear` (none when there is
   * no such lean or that key is empty).
   */
  lemma TopLeanSpec(breakdown: Dict<int>)
    ensures TopLean(breakdown).Some? ==>
      var f := Without(breakdown, "unclear");
      f != [] && Some(f[FirstMax(f)].0) == TopLean(breakdown)
    ensures TopLean(breakdown).Some? ==>
      && TopLean(breakdown).value != "unclear"
      && exists x :: x in breakdown && x.0 == TopLean(breakdown).value &&
           forall y :: y in breakdown && y.0 != "unclear" ==> y.1 <= x.1
    ensures TopLean(breakdown).None? <==>
      var f := Without(breakdown, "unclear");
      f == [] || f[FirstMax(f)].0 == ""
  {
    var f := Without(breakdown, "unclear");
    if f != [] {
      SortDescHead(f);
      var x := f[FirstMax(f)];
      assert x in f;
      forall y | y in breakdown && y.0 != "unclear"
        ensures y.1 <= x.1
      {
        assert y in f;
        var i :| 0 <= i < |f| && f[i] == y;
      }
    }
  }

  /** `topTopic`: the first topic with the largest value. */
  function TopTopic(topics: Dict<int>): (r: Option<string>) {
    FirstKey(topics)
  }

  lemma TopTopicSpec(topics: Dict<int>)
    ensures TopTopic(topics).None? <==> topics == [] || topics[FirstMax(topics)].0 == ""
    ensures TopTopic(topics).Some? ==> topics != [] && TopTopic(topics) == Some(topics[FirstMax(topics)].0)
  {
    if topics != [] {
      SortDescHead(topics);
    }
  }

  function SumValues(s: seq<Entry>): (r: int)
    decreases |s|
  {
    if s == [] then 0 else SumValues(s[..|s| - 1]) + s[|s| - 1].1
  }

  /** `topicData`: the six largest topics, each as its rounded share of their total when that is positive, else raw. */
  function TopicData(topics: Dict<int>): (r: seq<Entry>) {
    var raw := Top(topics, 6);
    var total := SumValues(raw);
    seq(|raw|, i requires 0 <= i < |raw| => (raw[i].0, if total > 0 then RoundHalfUp(100 * raw[i].1, total) else raw[i].1))
  }

  /** At most six topics, the top ones by raw value, largest first, whether shown as shares or raw. */
  lemma TopicDataSpec(topics: Dict<int>)
    ensures |TopicData(topics)| == if |topics| < 6 then |topics| else 6
    ensures forall i :: 0 <= i < |TopicData(topics)| ==> TopicData(topics)[i].0 == Top(topics, 6)[i].0
    ensures Descending(TopicData(topics))
  {
    var raw := Top(topics, 6);
    var total := SumValues(raw);
    var r := TopicData(topics);
    TopDescending(topics, 6);
    forall i | 0 < i < |r|
      ensures r[i - 1].1 >= r[i].1
    {
      assert raw[i - 1].1 >= raw[i].1;
      if total > 0 {
        assert 100 * raw[i].1 <= 100 * raw[i - 1].1;
        RoundHalfUpMonotone(100 * raw[i].1, 100 * raw[i - 1].1, total);
      }
    }
  }

  /** `ago`: whole seconds since the analysis; none without a timestamp (or with timestamp zero). Times are in milliseconds. */
  function Ago(timestamp: Option<int>, now: int): (r: Option<int>)
    ensures timestamp.None? ==> r.None?
    ensures timestamp.Some? && timestamp.value != 0 ==> r == Some(RoundHalfUp(now - timestamp.value, 1000))
  {
    match timestamp
    case None => None
    case Some(t) => if t == 0 then None else Some(RoundHalfUp(now - t, 1000))
  }

  datatype View = View(
    score: int,
    color: string,
    riskLabel: string,
    politicalPct: int,
    topLean: Option<string>,
    topTopic: Option<string>,
    topicData: seq<Entry>,
    ago: Option<int>)

  /** The derived values for one `/results` answer. `/results` carries no `political_breakdown`, so the breakdown is empty. */
  function Derive(a: Latest, now: int): (r: View) {
    View(a.overall, ManipColor(a.overall), ManipLabel(a.overall), PoliticalPct(a.perTweet),
      TopLean([]), TopTopic(a.topics), TopicData(a.topics), Ago(a.timestamp, now))
  }

  /** Since the backend's results hold no lean breakdown, the dashboard never has a top lean. */
  lemma NoTopLeanFromResults(a: Latest, now: int)
    ensures Derive(a, now).topLean.None?
    ensures Derive(a, now).color == BandColor(BandOf(a.overall)) && Derive(a, now).riskLabel == BandLabel(BandOf(a.overall))
  {
  }
}
