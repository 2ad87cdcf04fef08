/**
 * The backend's session state (backend/main.py): the `latest_analysis`
 * dictionary and the `session_tweets` list, which `/analyze` folds each
 * batch result into and `/reset` partly clears, and the `/results` and
 * `/audio` reads of them.
 *
 * Scores are integers; Python's `round` of the exact quotient is
 * `RoundHalfEven`. The model call is left out: `/analyze` takes the reply
 * text and the JSON parser.
 */
module Backend {
  import opened Wrappers
  import opened Dicts
  import opened Analysis
  import opened Rounding
  import opened Scores
  import opened Fence

  const TONE_KEYS: seq<string> := ["anger", "joy", "fear", "neutral"]
  const SIGNAL_KEYS: seq<string> := ["outrage_bait", "fear_mongering", "clickbait", "deceptive_framing"]

  /** `latest_analysis`, one field per key. */
  datatype Latest = Latest(
    overall: int,
    topics: Dict<int>,
    tone: Dict<int>,
    signals: Dict<int>,
    perTweet: seq<PerTweet>,
    feedSummary: string,
    safetySummary: string,
    batchCount: nat,
    timestamp: Option<int>)

  /** The keys of a dictionary in their order. */
  function KeyList<V>(d: seq<(string, V)>): (r: seq<string>)
    ensures |r| == |d| && forall i :: 0 <= i < |d| ==> r[i] == d[i].0
  {
    seq(|d|, i requires 0 <= i < |d| => d[i].0)
  }

  /** A dictionary with the given distinct keys, each mapped to zero. */
  function Zeroes(keys: seq<string>): (r: Dict<int>)
    requires forall i, j :: 0 <= i < j < |keys| ==> keys[i] != keys[j]
    ensures KeyList(r) == keys && forall i :: 0 <= i < |r| ==> r[i].1 == 0
  {
    seq(|keys|, i requires 0 <= i < |keys| => (keys[i], 0))
  }

  /** The state when the server starts. */
  function Start(): (r: Latest)
    ensures KeyList(r.tone) == TONE_KEYS && KeyList(r.signals) == SIGNAL_KEYS
    ensures r.batchCount == 0 && r.perTweet == [] && r.topics == [] && r.timestamp.None?
    ensures r.overall == 0 && r.feedSummary == [] && r.safetySummary == []
    ensures forall i :: 0 <= i < |r.tone| ==> r.tone[i].1 == 0
    ensures forall i :: 0 <= i < |r.signals| ==> r.signals[i].1 == 0
  {
    Latest(0, [], Zeroes(TONE_KEYS), Zeroes(SIGNAL_KEYS), [], "", "", 0, None)
  }

  /** The tone and signal dictionaries keep their four keys, in their order. */
  predicate FixedKeys(a: Latest) {
    KeyList(a.tone) == TONE_KEYS && KeyList(a.signals) == SIGNAL_KEYS
  }

  /** `tweet_data["full_text"] = tweets[i] if i < len(tweets) else ""` for each result. */
  function Stamped(ps: seq<PerTweet>, tweets: seq<string>): (r: seq<PerTweet>)
    ensures |r| == |ps|
    ensures forall i :: 0 <= i < |ps| ==>
      && r[i].lean == ps[i].lean && r[i].score == ps[i].score
      && r[i].fullText == Some(if i < |tweets| then tweets[i] else "")
  {
    seq(|ps|, i requires 0 <= i < |ps| => ps[i].(fullText := Some(if i < |tweets| then tweets[i] else "")))
  }

  /** The batch result as `/analyze` returns it: its results carry their texts. */
  function Stamp(data: BatchResult, tweets: seq<string>): (r: BatchResult) {
    match data.perTweet
    case None => data
    case Some(ps) => data.(perTweet := Some(Stamped(ps, tweets)))
  }

  method StampLoop(ps: seq<PerTweet>, tweets: seq<string>) returns (r: seq<PerTweet>)
    ensures r == Stamped(ps, tweets)
  {
    r := ps;
    for i := 0 to |ps|
      invariant |r| == |ps|
      invariant forall j :: 0 <= j < i ==> r[j] == Stamped(ps, tweets)[j]
      invariant forall j :: i <= j < |ps| ==> r[j] == ps[j]
    {
      r := r[i := r[i].(fullText := Some(if i < |tweets| then tweets[i] else ""))];
    }
  }

  /** `d[k] = d.get(k, 0) + v`. */
  function Add(d: Dict<int>, k: string, v: int): (r: Dict<int>) {
    match FindFrom(d, k, 0)
    case Some(i) =>
      var r := d[i := (k, d[i].1 + v)];
      assert forall j :: 0 <= j < |d| ==> r[j].0 == d[j].0;
      r
    case None =>
      d + [(k, v)]
  }

  /** `Add` is the write of the increased value. */
  lemma AddIsPut(d: Dict<int>, k: string, v: int)
    ensures Add(d, k, v) == Put(d, k, GetOr(d, k, 0) + v)
  {
    match FindFrom(d, k, 0)
    case Some(i) =>
      var w := GetOr(d, k, 0) + v;
      assert w == d[i].1 + v;
      PutExisting(d, k, w, i);
    case None =>
      assert k !in Keys(d);
      var w := GetOr(d, k, 0) + v;
      assert w == v;
      assert Put(d, k, w) == d + [(k, w)];
  }

  /** `for k, v in batch.items(): topics[k] = topics.get(k, 0) + v`. */
  function Merged(topics: Dict<int>, batch: Dict<int>): (r: Dict<int>)
    decreases |batch|
  {
    if batch == [] then topics
    else Add(Merged(topics, batch[..|batch| - 1]), batch[|batch| - 1].0, batch[|batch| - 1].1)
  }

  /** The last entry of a dictionary is a new key of the rest. */
  lemma LastEntry<V>(d: Dict<V>)
    requires d != []
    ensures d[|d| - 1].0 !in Keys(d[..|d| - 1])
    ensures d == Put(d[..|d| - 1], d[|d| - 1].0, d[|d| - 1].1)
  {
    var n := |d| - 1;
    assert d[..n] + [d[n]] == d;
  }

  /** Merging keeps the old topics, adds the batch's and nothing else. */
  lemma {:induction false} MergedKeys(topics: Dict<int>, batch: Dict<int>)
    ensures Keys(Merged(topics, batch)) == Keys(topics) + Keys(batch)
    decreases |batch|
  {
    if batch != [] {
      var n := |batch| - 1;
      MergedKeys(topics, batch[..n]);
      AddIsPut(Merged(topics, batch[..n]), batch[n].0, batch[n].1);
      LastEntry(batch);
    }
  }

  /** A topic of the batch gets its old value (zero if new) plus the batch's; any other topic keeps its value. */
  lemma {:induction false} MergedGet(topics: Dict<int>, batch: Dict<int>, k: string)
    ensures Get(Merged(topics, batch), k) ==
      if k in Keys(batch) then Some(GetOr(topics, k, 0) + GetOr(batch, k, 0)) else Get(topics, k)
    decreases |batch|
  {
    if batch != [] {
      var n := |batch| - 1;
      var b := batch[..n];
      var last := batch[n].0;
      var m := Merged(topics, b);
      AddIsPut(m, last, batch[n].1);
      LastEntry(batch);
      if k == last {
        MergedGet(topics, b, last);
        assert GetOr(m, last, 0) == GetOr(topics, last, 0);
        assert GetOr(batch, last, 0) == batch[n].1;
      } else {
        MergedGet(topics, b, k);
        assert Get(batch, k) == Get(b, k);
      }
    }
  }

  lemma MergedSnoc(topics: Dict<int>, batch: Dict<int>, i: nat)
    requires i < |batch|
    ensures Merged(topics, batch[..i + 1]) == Add(Merged(topics, batch[..i]), batch[i].0, batch[i].1)
  {
    assert batch[..i + 1][..i] == batch[..i] && batch[..i + 1][i] == batch[i];
  }

  method MergeLoop(topics: Dict<int>, batch: Dict<int>) returns (r: Dict<int>)
    ensures r == Merged(topics, batch)
  {
    r := topics;
    for i := 0 to |batch|
      invariant r == Merged(topics, batch[..i])
    {
      MergedSnoc(topics, batch, i);
      AddIsPut(r, batch[i].0, batch[i].1);
      r := Put(r, batch[i].0, GetOr(r, batch[i].0, 0) + batch[i].1);
    }
    assert batch[..|batch|] == batch;
  }

  /** Python's `round((prev * (n - 1) + curr) / n)`: the mean over `n` batches. */
  function Mean(prev: int, curr: int, n: int): (r: int)
    requires n >= 1
  {
    RoundHalfEven(prev * (n - 1) + curr, n)
  }

  /** The first batch sets the mean to its own value. */
  lemma MeanFirst(prev: int, curr: int)
    ensures Mean(prev, curr, 1) == curr
  {
    RoundExact(curr, 1);
  }

  /** Multiplying by a non-negative factor keeps the order. */
  lemma MulMonotone(a: int, b: int, m: int)
    requires a <= b && m >= 0
    ensures a * m <= b * m
  {
    assert b * m - a * m == (b - a) * m;
  }

  /** A mean of values between `lo` and `hi` lies between them. */
  lemma MeanWithin(prev: int, curr: int, n: int, lo: int, hi: int)
    requires n >= 1 && lo <= prev <= hi && lo <= curr <= hi
    ensures lo <= Mean(prev, curr, n) <= hi
  {
    var m := n - 1;
    MulMonotone(lo, prev, m);
    MulMonotone(prev, hi, m);
    assert n * lo == lo * m + lo;
    assert n * hi == hi * m + hi;
    RoundHalfEvenWithin(prev * m + curr, n, lo, hi);
  }

  /**
   * `for k in d: d[k] = round((d[k] * (n - 1) + batch.get(k, 0)) / n)`:
   * every existing key gets its running mean, in place.
   */
  function Means(d: Dict<int>, batch: Dict<int>, n: int): (r: Dict<int>)
    requires n >= 1
    ensures KeyList(r) == KeyList(d)
  {
    var r := seq(|d|, i requires 0 <= i < |d| => (d[i].0, Mean(d[i].1, GetOr(batch, d[i].0, 0), n)));
    assert forall i :: 0 <= i < |d| ==> r[i].0 == d[i].0;
    r
  }

  /** Only the dictionary's own keys change, each to its mean with the batch's value (zero when missing); extra batch keys are ignored. */
  lemma MeansGet(d: Dict<int>, batch: Dict<int>, n: int, k: string)
    requires n >= 1
    ensures Get(Means(d, batch, n), k) ==
      match Get(d, k)
      case None => None
      case Some(p) => Some(Mean(p, GetOr(batch, k, 0), n))
  {
    var r := Means(d, batch, n);
    SameKeys(r, d);
    match FindFrom(d, k, 0)
    case None =>
    case Some(i) =>
      assert r[i].0 == k;
  }

  method MeansLoop(d: Dict<int>, batch: Dict<int>, n: int) returns (r: Dict<int>)
    requires n >= 1
    ensures r == Means(d, batch, n)
  {
    r := d;
    for i := 0 to |d|
      invariant |r| == |d| && forall j :: 0 <= j < |d| ==> r[j].0 == d[j].0
      invariant forall j :: 0 <= j < i ==> r[j] == Means(d, batch, n)[j]
      invariant forall j :: i <= j < |d| ==> r[j] == d[j]
    {
      var k := r[i].0;
      var next := r[i := (k, Mean(r[i].1, GetOr(batch, k, 0), n))];
      assert forall j :: 0 <= j < |d| ==> next[j].0 == d[j].0;
      r := next;
    }
  }

  /** What one parsed batch result does to the state (backend/main.py lines 107-134). */
  function Fold(a: Latest, data: BatchResult, tweets: seq<string>, now: int): (r: Latest) {
    var n := a.batchCount + 1;
    Latest(
      Mean(a.overall, data.overall.GetOr(0), n),
      Merged(a.topics, data.topics),
      Means(a.tone, data.tone, n),
      Means(a.signals, data.signals, n),
      a.perTweet + Stamped(data.perTweet.GetOr([]), tweets),
      data.feedSummary.GetOr(""),
      data.safetySummary.GetOr(""),
      n,
      Some(now))
  }

  /** A batch counts once, its results are appended after the earlier ones, the summaries are replaced and the time is noted. */
  lemma FoldRecords(a: Latest, data: BatchResult, tweets: seq<string>, now: int)
    requires FixedKeys(a)
    ensures FixedKeys(Fold(a, data, tweets, now))
    ensures Fold(a, data, tweets, now).batchCount == a.batchCount + 1
    ensures Fold(a, data, tweets, now).perTweet[..|a.perTweet|] == a.perTweet
    ensures |Fold(a, data, tweets, now).perTweet| == |a.perTweet| + |data.perTweet.GetOr([])|
    ensures Fold(a, data, tweets, now).timestamp == Some(now)
  {
  }

  /** The first batch after a start or a reset sets the scores to its own. */
  lemma FoldFirst(a: Latest, data: BatchResult, tweets: seq<string>, now: int, k: string)
    requires a.batchCount == 0
    ensures Fold(a, data, tweets, now).overall == data.overall.GetOr(0)
    ensures k in Keys(a.tone) ==> Get(Fold(a, data, tweets, now).tone, k) == Some(GetOr(data.tone, k, 0))
    ensures k in Keys(a.signals) ==> Get(Fold(a, data, tweets, now).signals, k) == Some(GetOr(data.signals, k, 0))
  {
    MeanFirst(a.overall, data.overall.GetOr(0));
    MeansGet(a.tone, data.tone, 1, k);
    MeansGet(a.signals, data.signals, 1, k);
    MeanFirst(GetOr(a.tone, k, 0), GetOr(data.tone, k, 0));
    MeanFirst(GetOr(a.signals, k, 0), GetOr(data.signals, k, 0));
  }

  predicate Percent(x: int) {
    0 <= x <= 100
  }

  predicate Percents(d: seq<(string, int)>) {
    forall i :: 0 <= i < |d| ==> Percent(d[i].1)
  }

  /** Scores between 0 and 100 stay between 0 and 100 however many batches come in. */
  lemma FoldPercent(a: Latest, data: BatchResult, tweets: seq<string>, now: int)
    requires Percent(a.overall) && Percents(a.tone) && Percents(a.signals)
    requires Percent(data.overall.GetOr(0)) && Percents(data.tone) && Percents(data.signals)
    ensures Percent(Fold(a, data, tweets, now).overall)
    ensures Percents(Fold(a, data, tweets, now).tone) && Percents(Fold(a, data, tweets, now).signals)
  {
    var n := a.batchCount + 1;
    MeanWithin(a.overall, data.overall.GetOr(0), n, 0, 100);
    MeansPercent(a.tone, data.tone, n);
    MeansPercent(a.signals, data.signals, n);
  }

  lemma MeansPercent(d: Dict<int>, batch: Dict<int>, n: int)
    requires n >= 1 && Percents(d) && Percents(batch)
    ensures Percents(Means(d, batch, n))
  {
    var r := Means(d, batch, n);
    forall i | 0 <= i < |r|
      ensures Percent(r[i].1)
    {
      var k := d[i].0;
      GetOrPercent(batch, k);
      MeanWithin(d[i].1, GetOr(batch, k, 0), n, 0, 100);
    }
  }

  lemma GetOrPercent(d: Dict<int>, k: string)
    requires Percents(d)
    ensures Percent(GetOr(d, k, 0))
  {
    match FindFrom(d, k, 0)
    case None =>
    case Some(j) =>
      assert GetOr(d, k, 0) == d[j].1;
  }

  /** `/reset`: the session, the results, the count and the topics go; scores, summaries and time stay. */
  function Cleared(a: Latest): (r: Latest) {
    a.(perTweet := [], batchCount := 0, topics := [])
  }

  /** After a reset the next batch starts the running means afresh and the results list anew. */
  lemma ResetRestarts(a: Latest, data: BatchResult, tweets: seq<string>, now: int)
    requires FixedKeys(a)
    ensures Fold(Cleared(a), data, tweets, now).overall == data.overall.GetOr(0)
    ensures Fold(Cleared(a), data, tweets, now).topics == Merged([], data.topics)
    ensures Fold(Cleared(a), data, tweets, now).perTweet == Stamped(data.perTweet.GetOr([]), tweets)
    ensures Fold(Cleared(a), data, tweets, now).batchCount == 1
  {
    FoldFirst(Cleared(a), data, tweets, now, "");
  }

  /** The words for a score's band in the audio digest. */
  function RiskWords(b: Band): (r: string) {
    match b
    case High => "high manipulation risk"
    case Medium => "moderate manipulation signals"
    case Low => "relatively clean content"
  }

  /** The `if score > 66 … elif score > 33 …` chain of `/audio`. */
  function Risk(score: int): (r: string)
    ensures r == RiskWords(BandOf(score))
  {
    if score > 66 then "high manipulation risk"
    else if score > 33 then "moderate manipulation signals"
    else "relatively clean content"
  }

  /** The facts the spoken digest is made of. */
  datatype Digest = Digest(total: nat, score: int, risk: string, summary: string)

  /** `/audio`: 404 with neither a summary nor a tweet in the session, otherwise the digest of the state. */
  function AudioDigest(a: Latest, session: seq<string>): (r: Result<Digest, nat>)
    ensures r.Err? <==> a.feedSummary == [] && session == []
    ensures r.Err? ==> r.error == 404
    ensures r.Ok? ==> r.value == Digest(|a.perTweet|, a.overall, RiskWords(BandOf(a.overall)), a.feedSummary)
  {
    if a.feedSummary == [] && session == [] then Err(404)
    else Ok(Digest(|a.perTweet|, a.overall, Risk(a.overall), a.feedSummary))
  }

  /** The server process: the two module-level variables. */
  class Server {
    var analysis: Latest
    var session: seq<string>

    ghost predicate Valid()
      reads this
    {
      FixedKeys(analysis)
    }

    constructor()
      ensures Valid() && analysis == Start() && session == []
    {
      analysis := Start();
      session := [];
    }

    /**
     * `/analyze`: the request's tweets join the session first; the model's
     * reply is parsed (`None` when parsing raises, which changes nothing
     * else) and folded into the state. The result is the batch result with
     * its texts and the session index of the batch's first tweet.
     */
    method Analyze(tweets: seq<string>, reply: string, parse: string -> Option<BatchResult>, now: int)
      returns (r: Option<(BatchResult, nat)>)
      requires Valid()
      modifies this
      ensures Valid()
      ensures session == old(session) + tweets
      ensures ParseReply(reply, parse).None? ==> r.None? && analysis == old(analysis)
      ensures ParseReply(reply, parse).Some? ==>
        && r == Some((Stamp(ParseReply(reply, parse).value, tweets), |old(session)|))
        && analysis == Fold(old(analysis), ParseReply(reply, parse).value, tweets, now)
    {
      session := session + tweets;
      var parsed := ParseReply(reply, parse);
      if parsed.None? {
        return None;
      }
      var data := parsed.value;
      var stamped := StampLoop(data.perTweet.GetOr([]), tweets);
      var n := analysis.batchCount + 1;
      var topics := MergeLoop(analysis.topics, data.topics);
      var tone := MeansLoop(analysis.tone, data.tone, n);
      var signals := MeansLoop(analysis.signals, data.signals, n);
      FoldRecords(analysis, data, tweets, now);
      analysis := Latest(Mean(analysis.overall, data.overall.GetOr(0), n), topics, tone, signals,
        analysis.perTweet + stamped, data.feedSummary.GetOr(""), data.safetySummary.GetOr(""), n, Some(now));
      var startId := |session| - |tweets|;
      r := Some((if data.perTweet.Some? then data.(perTweet := Some(stamped)) else data, startId));
    }

    /** `/reset`. */
    method Reset()
      requires Valid()
      modifies this
      ensures Valid()
      ensures session == [] && analysis == Cleared(old(analysis))
    {
      session := [];
      analysis := Cleared(analysis);
    }

    /**
     * `/results`: the 404 answers an empty `latest_analysis` only, and that
     * dictionary always holds its nine keys (a `Latest` has every field), so
     * it always answers with the state.
     */
    method Results() returns (r: Result<Latest, int>)
      ensures r == Ok(analysis)
    {
      r := Ok(analysis);
    }
  }
}
