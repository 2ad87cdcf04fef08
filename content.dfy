/**
 * The in-page annotation pipeline of the extension (extension/content.js):
 * the text-keyed result cache, the single-flight flag, batch selection,
 * pending placeholders, the response handler and the per-lean breakdown that
 * is written to storage. The page's tweet text elements are a sequence of
 * element records; the pipeline's own state is a class.
 */
module Content {
  import opened Wrappers
  import opened Dicts
  import opened Text
  import opened Rounding
  import opened Scores
  import opened Analysis

  /** Texts of this length or shorter are never sent. */
  const MIN_TEXT_LENGTH: nat := 10
  /** At most this many tweets per request. */
  const BATCH_CAP: nat := 3

  const UNCLEAR: string := "unclear"
  /** The leans that have a style of their own; any other lean is shown as "unclear". */
  const STYLED_LEANS: set<string> :=
    {"left", "right", "liberal", "conservative", "authoritarian", "libertarian", "centrist", "unclear"}

  // ---------------------------------------------------------------- tags

  datatype Colors = Colors(bg: string, fg: string)

  /** The colours each band is drawn in. */
  function BandColors(b: Band): (r: Colors) {
    match b
    case High => Colors("#fee2e2", "#b91c1c")
    case Medium => Colors("#fef3c7", "#b45309")
    case Low => Colors("#dcfce7", "#15803d")
  }

  /** `manipColor`: the colour of a tag depends only on the score's band. */
  function ManipColor(score: int): (c: Colors)
    ensures c == BandColors(BandOf(score))
  {
    if score > 66 then Colors("#fee2e2", "#b91c1c")
    else if score > 33 then Colors("#fef3c7", "#b45309")
    else Colors("#dcfce7", "#15803d")
  }

  /** `(analysis.political_lean || "unclear").toLowerCase()`. */
  function LeanOf(a: PerTweet): (l: string)
    ensures a.lean.Some? && a.lean.value != [] ==> l == ToLower(a.lean.value)
    ensures a.lean.None? || a.lean.value == [] ==> l == UNCLEAR
  {
    ToLower(if a.lean.Some? && a.lean.value != [] then a.lean.value else UNCLEAR)
  }

  /** A tag: the lean label, the score it shows and the score's colours (the HTML is not modelled). */
  datatype Tag = Tag(leanLabel: string, score: int, colors: Colors)

  /**
   * `buildTag`: a lean without a style of its own is labelled "unclear"; a
   * missing score shows as 0.
   */
  function BuildTag(a: PerTweet): (t: Tag)
    ensures t.leanLabel in STYLED_LEANS
    ensures LeanOf(a) in STYLED_LEANS ==> t.leanLabel == LeanOf(a)
    ensures LeanOf(a) !in STYLED_LEANS ==> t.leanLabel == UNCLEAR
    ensures t.score == a.score.GetOr(0) && t.colors == BandColors(BandOf(t.score))
  {
    var political := LeanOf(a);
    var shown := if political in STYLED_LEANS then political else UNCLEAR;
    var score := a.score.GetOr(0);
    Tag(shown, score, ManipColor(score))
  }

  // ------------------------------------------------------------ elements

  /**
   * One `[data-testid="tweetText"]` element: its `innerText`, the permanent
   * tag prepended to it (if any) and whether it holds a pending placeholder.
   */
  datatype Elem = Elem(text: string, tag: Option<Tag>, pending: bool)

  /** `el.querySelector(".veracious-tag")`: the tag and the placeholder both carry that class. */
  predicate Marked(e: Elem) {
    e.tag.Some? || e.pending
  }

  /** The cache key of an element: its trimmed text. */
  function Key(e: Elem): (r: string) {
    Trim(e.text)
  }

  function Fresh(text: string): (r: Elem) {
    Elem(text, None, false)
  }

  /** What `injectCachedTags` does to one element. */
  function InjectOne(e: Elem, cache: Dict<PerTweet>): (r: Elem)
    ensures r.text == e.text && r.pending == e.pending
    ensures Marked(e) || Key(e) == [] || Key(e) !in Keys(cache) ==> r == e
    ensures !Marked(e) && Key(e) != [] && Key(e) in Keys(cache) ==>
      r.tag == Some(BuildTag(Get(cache, Key(e)).value))
  {
    var text := Key(e);
    if text == [] || Marked(e) then e
    else match Get(cache, text)
      case Some(a) => e.(tag := Some(BuildTag(a)))
      case None => e
  }

  function InjectAll(doc: seq<Elem>, cache: Dict<PerTweet>): (r: seq<Elem>)
    ensures |r| == |doc| && forall i :: 0 <= i < |doc| ==> r[i] == InjectOne(doc[i], cache)
  {
    seq(|doc|, i requires 0 <= i < |doc| => InjectOne(doc[i], cache))
  }

  /** Applying the cached tags a second time changes nothing: one tag per element. */
  lemma InjectIdempotent(doc: seq<Elem>, cache: Dict<PerTweet>)
    ensures InjectAll(InjectAll(doc, cache), cache) == InjectAll(doc, cache)
  {
    var once := InjectAll(doc, cache);
    forall i | 0 <= i < |doc|
      ensures InjectOne(once[i], cache) == once[i]
    {
      var e := doc[i];
      if !Marked(e) && Key(e) != [] && Key(e) in Keys(cache) {
        assert Marked(once[i]);
      }
    }
  }

  // ----------------------------------------------------------- selection

  /**
   * The filter of `analyzeFeed`: longer than the minimum in UTF-16 code units
   * (JavaScript's `length`), not cached, not tagged or pending.
   */
  predicate Eligible(e: Elem, cache: Dict<PerTweet>) {
    Utf16Length(Key(e)) > MIN_TEXT_LENGTH && Key(e) !in Keys(cache) && !Marked(e)
  }

  /** Six U+1F525 characters make twelve code units, so the filter keeps such a six-character text. */
  lemma AstralTextEligible()
    ensures var e := Fresh("\U{1F525}\U{1F525}\U{1F525}\U{1F525}\U{1F525}\U{1F525}");
      |Key(e)| == 6 && Eligible(e, [])
  {
    var t := "\U{1F525}\U{1F525}\U{1F525}\U{1F525}\U{1F525}\U{1F525}";
    assert TrimLeft(t) == t && TrimRight(t) == t;
    assert Utf16Length(t) == 12;
  }

  predicate Increasing(s: seq<nat>) {
    forall i, j :: 0 <= i < j < |s| ==> s[i] < s[j]
  }

  /** The indices the filter keeps, in document order. */
  function Candidates(doc: seq<Elem>, cache: Dict<PerTweet>): (r: seq<nat>)
    decreases |doc|
  {
    if doc == [] then []
    else
      var n := |doc| - 1;
      Candidates(doc[..n], cache) + (if Eligible(doc[n], cache) then [n] else [])
  }

  /** The candidates are exactly the eligible indices, each once, in increasing order. */
  lemma CandidatesExact(doc: seq<Elem>, cache: Dict<PerTweet>)
    ensures Increasing(Candidates(doc, cache))
    ensures forall j :: 0 <= j < |Candidates(doc, cache)| ==>
      Candidates(doc, cache)[j] < |doc| && Eligible(doc[Candidates(doc, cache)[j]], cache)
    ensures forall i :: 0 <= i < |doc| && Eligible(doc[i], cache) ==> i in Candidates(doc, cache)
  {
    CandidatesSound(doc, cache);
    CandidatesIncreasing(doc, cache);
    CandidatesComplete(doc, cache);
  }

  lemma {:induction false} CandidatesSound(doc: seq<Elem>, cache: Dict<PerTweet>)
    ensures forall j :: 0 <= j < |Candidates(doc, cache)| ==>
      Candidates(doc, cache)[j] < |doc| && Eligible(doc[Candidates(doc, cache)[j]], cache)
    decreases |doc|
  {
    if doc != [] {
      var n := |doc| - 1;
      CandidatesSound(doc[..n], cache);
      var c0 := Candidates(doc[..n], cache);
      assert forall j :: 0 <= j < |c0| ==> c0[j] < n && doc[c0[j]] == doc[..n][c0[j]];
    }
  }

  lemma {:induction false} CandidatesIncreasing(doc: seq<Elem>, cache: Dict<PerTweet>)
    ensures Increasing(Candidates(doc, cache))
    decreases |doc|
  {
    if doc != [] {
      var n := |doc| - 1;
      CandidatesIncreasing(doc[..n], cache);
      CandidatesSound(doc[..n], cache);
      var c0 := Candidates(doc[..n], cache);
      if Eligible(doc[n], cache) {
        var c := c0 + [n];
        assert forall i, j :: 0 <= i < j < |c| ==> c[i] < c[j] by {
          assert forall j :: 0 <= j < |c0| ==> c[j] == c0[j] && c0[j] < n;
        }
      }
    }
  }

  lemma {:induction false} CandidatesComplete(doc: seq<Elem>, cache: Dict<PerTweet>)
    ensures forall i :: 0 <= i < |doc| && Eligible(doc[i], cache) ==> i in Candidates(doc, cache)
    decreases |doc|
  {
    if doc != [] {
      var n := |doc| - 1;
      CandidatesComplete(doc[..n], cache);
      assert forall i :: 0 <= i < n ==> doc[i] == doc[..n][i];
    }
  }

  function Min(a: nat, b: nat): (r: nat) {
    if a < b then a else b
  }

  /** `.filter(...).slice(0, 3)`: the first three candidates. */
  function Selection(doc: seq<Elem>, cache: Dict<PerTweet>): (r: seq<nat>) {
    var c := Candidates(doc, cache);
    c[..Min(|c|, BATCH_CAP)]
  }

  /**
   * The batch is at most three eligible elements in document order, and an
   * eligible element is left out only when three earlier ones were taken.
   */
  lemma SelectionSpec(doc: seq<Elem>, cache: Dict<PerTweet>)
    ensures |Selection(doc, cache)| <= BATCH_CAP
    ensures Increasing(Selection(doc, cache))
    ensures forall j :: 0 <= j < |Selection(doc, cache)| ==>
      Selection(doc, cache)[j] < |doc| && Eligible(doc[Selection(doc, cache)[j]], cache)
    ensures forall i :: 0 <= i < |doc| && Eligible(doc[i], cache) && i !in Selection(doc, cache) ==>
      |Selection(doc, cache)| == BATCH_CAP && forall j :: 0 <= j < BATCH_CAP ==> Selection(doc, cache)[j] < i
  {
    CandidatesExact(doc, cache);
    var c := Candidates(doc, cache);
    var sel := Selection(doc, cache);
    forall i | 0 <= i < |doc| && Eligible(doc[i], cache) && i !in sel
      ensures |sel| == BATCH_CAP && forall j :: 0 <= j < |sel| ==> sel[j] < i
    {
      var p :| 0 <= p < |c| && c[p] == i;
      assert forall k :: 0 <= k < |sel| ==> sel[k] == c[k] && c[k] != i;
      assert p >= |sel|;
    }
  }

  /** An empty selection exactly when no element is eligible. */
  lemma SelectionEmpty(doc: seq<Elem>, cache: Dict<PerTweet>)
    ensures Selection(doc, cache) == [] <==> forall i :: 0 <= i < |doc| ==> !Eligible(doc[i], cache)
  {
    CandidatesExact(doc, cache);
    var c := Candidates(doc, cache);
    if c != [] {
      assert c[..Min(|c|, BATCH_CAP)][0] == c[0];
    }
  }

  /** `tweetElements.map(el => el.innerText.trim())`. */
  function Texts(doc: seq<Elem>, els: seq<nat>): (r: seq<string>)
    requires forall j :: 0 <= j < |els| ==> els[j] < |doc|
    ensures |r| == |els| && forall j :: 0 <= j < |els| ==> r[j] == Key(doc[els[j]])
  {
    seq(|els|, j requires 0 <= j < |els| => Key(doc[els[j]]))
  }

  function SetPending(doc: seq<Elem>, els: seq<nat>, pending: bool): (r: seq<Elem>)
    ensures |r| == |doc|
    ensures forall i :: 0 <= i < |doc| && i in els ==> r[i] == doc[i].(pending := pending)
    ensures forall i :: 0 <= i < |doc| && i !in els ==> r[i] == doc[i]
  {
    seq(|doc|, i requires 0 <= i < |doc| => if i in els then doc[i].(pending := pending) else doc[i])
  }

  lemma SetPendingStep(doc: seq<Elem>, els: seq<nat>, j: nat, pending: bool)
    requires j < |els| && els[j] < |doc|
    ensures SetPending(doc, els[..j + 1], pending)
      == SetPending(doc, els[..j], pending)[els[j] := SetPending(doc, els[..j], pending)[els[j]].(pending := pending)]
  {
    assert els[..j + 1] == els[..j] + [els[j]];
  }

  // ------------------------------------------------------------ response

  /** The `per_tweet` list of a reply; a reply without one contributes nothing. */
  function Results(data: BatchResult): (r: seq<PerTweet>) {
    data.perTweet.GetOr([])
  }

  /** The per-result tag write: only an element without `.veracious-tag` gets one. */
  function TagIfUnmarked(e: Elem, a: PerTweet): (r: Elem) {
    if Marked(e) then e else e.(tag := Some(BuildTag(a)))
  }

  /** The tag writes of the response loop, in order. */
  function TagResults(doc: seq<Elem>, els: seq<nat>, rs: seq<PerTweet>): (r: seq<Elem>)
    requires |els| == |rs| && forall j :: 0 <= j < |els| ==> els[j] < |doc|
    ensures |r| == |doc|
    decreases |els|
  {
    if els == [] then doc
    else
      var n := |els| - 1;
      var d := TagResults(doc, els[..n], rs[..n]);
      d[els[n] := TagIfUnmarked(d[els[n]], rs[n])]
  }

  /** An element outside the batch is left as it was. */
  lemma {:induction false} TagResultsOutside(doc: seq<Elem>, els: seq<nat>, rs: seq<PerTweet>, i: nat)
    requires |els| == |rs| && forall j :: 0 <= j < |els| ==> els[j] < |doc|
    requires i < |doc| && i !in els
    ensures TagResults(doc, els, rs)[i] == doc[i]
    decreases |els|
  {
    if els != [] {
      var n := |els| - 1;
      assert i !in els[..n];
      TagResultsOutside(doc, els[..n], rs[..n], i);
    }
  }

  /**
   * Each element of the batch with a result is tagged with that result unless
   * it already had a tag.
   */
  lemma {:induction false} TagResultsAt(doc: seq<Elem>, els: seq<nat>, rs: seq<PerTweet>)
    requires |els| == |rs| && Increasing(els) && forall j :: 0 <= j < |els| ==> els[j] < |doc|
    ensures forall j :: 0 <= j < |els| ==> TagResults(doc, els, rs)[els[j]] == TagIfUnmarked(doc[els[j]], rs[j])
    decreases |els|
  {
    if els != [] {
      var n := |els| - 1;
      var e0 := els[..n];
      TagResultsAt(doc, e0, rs[..n]);
      assert forall j :: 0 <= j < n ==> e0[j] == els[j] && rs[..n][j] == rs[j] && els[j] != els[n];
      TagResultsOutside(doc, e0, rs[..n], els[n]);
    }
  }

  /** The cache writes of the response loop, in order. */
  function PutAll(cache: Dict<PerTweet>, ts: seq<string>, rs: seq<PerTweet>): (r: Dict<PerTweet>)
    requires |ts| == |rs|
    decreases |ts|
  {
    if ts == [] then cache else Put(PutAll(cache, ts[..|ts| - 1], rs[..|ts| - 1]), ts[|ts| - 1], rs[|ts| - 1])
  }

  /** The cache afterwards holds the old keys and the texts of the batch, and no other key. */
  lemma {:induction false} PutAllKeys(cache: Dict<PerTweet>, ts: seq<string>, rs: seq<PerTweet>)
    requires |ts| == |rs|
    ensures Keys(PutAll(cache, ts, rs)) == Keys(cache) + set t | t in ts
    decreases |ts|
  {
    if ts != [] {
      var n := |ts| - 1;
      PutAllKeys(cache, ts[..n], rs[..n]);
      assert ts == ts[..n] + [ts[n]];
    }
  }

  /** A text outside the batch keeps its cached result (or its absence). */
  lemma {:induction false} PutAllOthers(cache: Dict<PerTweet>, ts: seq<string>, rs: seq<PerTweet>, t: string)
    requires |ts| == |rs| && t !in ts
    ensures Get(PutAll(cache, ts, rs), t) == Get(cache, t)
    decreases |ts|
  {
    if ts != [] {
      var n := |ts| - 1;
      assert t !in ts[..n];
      PutAllOthers(cache, ts[..n], rs[..n], t);
    }
  }

  /** Last write wins: a text gets the result at its last position in the batch. */
  lemma {:induction false} PutAllLast(cache: Dict<PerTweet>, ts: seq<string>, rs: seq<PerTweet>, i: nat)
    requires |ts| == |rs| && i < |ts|
    requires forall j :: i < j < |ts| ==> ts[j] != ts[i]
    ensures Get(PutAll(cache, ts, rs), ts[i]) == Some(rs[i])
    decreases |ts|
  {
    var n := |ts| - 1;
    var prev := PutAll(cache, ts[..n], rs[..n]);
    assert PutAll(cache, ts, rs) == Put(prev, ts[n], rs[n]);
    if i < n {
      assert ts[..n][i] == ts[i] && rs[..n][i] == rs[i];
      PutAllLast(cache, ts[..n], rs[..n], i);
      assert ts[n] != ts[i];
    }
  }

  // ----------------------------------------------------------- aggregate

  /** The lean of every cached result, in cache order. */
  function Leans(cache: seq<(string, PerTweet)>): (r: seq<string>)
    ensures |r| == |cache| && forall i :: 0 <= i < |cache| ==> r[i] == LeanOf(cache[i].1)
  {
    seq(|cache|, i requires 0 <= i < |cache| => LeanOf(cache[i].1))
  }

  /** `leanPct`: the `for ... of Object.entries(leanCounts)` writing one rounded percentage per key. */
  function Percentages(counts: Dict<int>, total: int): (r: Dict<int>)
    requires total > 0
    ensures |r| == |counts|
    ensures forall i :: 0 <= i < |counts| ==> r[i] == (counts[i].0, RoundHalfUp(100 * counts[i].1, total))
    decreases |counts|
  {
    if counts == [] then []
    else
      var n := |counts| - 1;
      var acc := Percentages(counts[..n], total);
      assert forall i :: 0 <= i < n ==> counts[..n][i] == counts[i];
      assert counts[n].0 !in Keys(acc);
      Put(acc, counts[n].0, RoundHalfUp(100 * counts[n].1, total))
  }

  /** The breakdown written to storage, recomputed from the whole cache. */
  function Breakdown(cache: Dict<PerTweet>): (r: Dict<int>) {
    var counts := Counts(Leans(cache));
    var total := Sum(Values(counts));
    if total > 0 then Percentages(counts, total) else []
  }

  /**
   * The stored breakdown has a key for exactly the (lower-cased, defaulted)
   * leans in the cache, and each value is the lean's share of the cache in
   * percent, rounded as `Math.round` does.
   */
  lemma BreakdownSpec(cache: Dict<PerTweet>)
    ensures Keys(Breakdown(cache)) == set l | l in Leans(cache)
    ensures forall i :: 0 <= i < |Breakdown(cache)| ==>
      Breakdown(cache)[i].1 == RoundHalfUp(100 * multiset(Leans(cache))[Breakdown(cache)[i].0], |cache|)
  {
    var leans := Leans(cache);
    CountsSum(leans);
    if cache == [] {
      assert leans == [];
    } else {
      SharesSpec(leans);
    }
  }

  /** The percentage table of a non-empty tally: one rounded share per distinct string. */
  lemma SharesSpec(s: seq<string>)
    requires s != []
    ensures Keys(Percentages(Counts(s), |s|)) == set x | x in s
    ensures forall i :: 0 <= i < |Percentages(Counts(s), |s|)| ==>
      Percentages(Counts(s), |s|)[i].1 == RoundHalfUp(100 * multiset(s)[Percentages(Counts(s), |s|)[i].0], |s|)
  {
    SharesKeys(s);
    var counts := Counts(s);
    var p := Percentages(counts, |s|);
    forall i | 0 <= i < |p|
      ensures p[i].1 == RoundHalfUp(100 * multiset(s)[p[i].0], |s|)
    {
      CountsCount(s, counts[i].0);
    }
  }

  lemma SharesKeys(s: seq<string>)
    requires s != []
    ensures Keys(Percentages(Counts(s), |s|)) == set x | x in s
  {
    var counts := Counts(s);
    var p := Percentages(counts, |s|);
    CountsKeys(s);
    SameKeys(p, counts);
  }

  /** Every key of the breakdown is lower case. */
  lemma BreakdownKeysLower(cache: Dict<PerTweet>)
    ensures forall k :: k in Keys(Breakdown(cache)) ==> ToLower(k) == k
  {
    BreakdownSpec(cache);
    forall k | k in Keys(Breakdown(cache))
      ensures ToLower(k) == k
    {
      var i :| 0 <= i < |cache| && Leans(cache)[i] == k;
      var a := cache[i].1;
      ToLowerIdempotent(if a.lean.Some? && a.lean.value != [] then a.lean.value else UNCLEAR);
    }
  }

  /** The `tweetCache.forEach` that fills `leanCounts`. */
  method CountLeans(cache: Dict<PerTweet>) returns (counts: Dict<int>)
    ensures counts == Counts(Leans(cache))
  {
    ghost var leans := Leans(cache);
    counts := [];
    for i := 0 to |cache|
      invariant counts == Counts(leans[..i])
    {
      CountsSnoc(leans, i);
      counts := Bump(counts, LeanOf(cache[i].1));
    }
    assert leans[..|cache|] == leans;
  }

  lemma CountsSnoc(s: seq<string>, i: nat)
    requires i < |s|
    ensures Counts(s[..i + 1]) == Bump(Counts(s[..i]), s[i])
  {
    assert s[..i + 1][..i] == s[..i];
  }

  /** The `for ... of Object.entries(leanCounts)` that fills `leanPct`. */
  method RoundShares(counts: Dict<int>, total: int) returns (pct: Dict<int>)
    requires total > 0
    ensures pct == Percentages(counts, total)
  {
    pct := [];
    for i := 0 to |counts|
      invariant pct == Percentages(counts[..i], total)
    {
      PercentagesSnoc(counts, total, i);
      pct := Put(pct, counts[i].0, RoundHalfUp(100 * counts[i].1, total));
    }
    assert counts[..|counts|] == counts;
  }

  lemma PercentagesSnoc(counts: Dict<int>, total: int, i: nat)
    requires total > 0 && i < |counts|
    ensures Percentages(counts[..i + 1], total)
      == Put(Percentages(counts[..i], total), counts[i].0, RoundHalfUp(100 * counts[i].1, total))
  {
    assert counts[..i + 1][..i] == counts[..i];
  }

  /** The loops of the response callback that build `leanCounts` and `leanPct`. */
  method ComputeBreakdown(cache: Dict<PerTweet>) returns (pct: Dict<int>)
    ensures pct == Breakdown(cache)
  {
    var counts := CountLeans(cache);
    var total := Sum(Values(counts));
    pct := [];
    if total > 0 {
      pct := RoundShares(counts, total);
    }
  }

  /** `chrome.storage.local` after a successful batch: the reply plus the breakdown, the cache size, the time. */
  datatype Snapshot = Snapshot(feedAnalysis: BatchResult, tweetCount: nat, lastUpdated: int)

  /** The record `{...data, political_breakdown}` with the cache size and the time. */
  function Stored(data: BatchResult, cache: Dict<PerTweet>, now: int): (r: Snapshot)
    ensures r.feedAnalysis.breakdown == Some(Breakdown(cache)) && r.tweetCount == |cache| && r.lastUpdated == now
    ensures r.feedAnalysis.(breakdown := data.breakdown) == data
  {
    Snapshot(data.(breakdown := Some(Breakdown(cache))), |cache|, now)
  }

  /** The relay's answer: `{success: true, data}` or `{success: false, error, rateLimited?}`. */
  datatype Outcome = Success(data: BatchResult) | Failure(error: string, rateLimited: bool)

  /** The elements and texts of the request in flight (the callback's closure). */
  datatype Batch = Batch(elements: seq<nat>, tweets: seq<string>)

  // ------------------------------------------------------- request batch

  /** The request `analyzeFeed` sends for a page state, or `None` when the filter keeps nothing. */
  function NextBatch(doc: seq<Elem>, cache: Dict<PerTweet>): (r: Option<Batch>) {
    var sel := Selection(doc, cache);
    if sel == [] then None
    else
      SelectionSpec(doc, cache);
      Some(Batch(sel, Texts(doc, sel)))
  }

  /**
   * A request is sent exactly when some element is eligible; it holds the
   * first (at most three) eligible elements and their trimmed texts, none of
   * which is cached or short.
   */
  lemma NextBatchSpec(doc: seq<Elem>, cache: Dict<PerTweet>)
    ensures NextBatch(doc, cache).None? <==> forall i :: 0 <= i < |doc| ==> !Eligible(doc[i], cache)
    ensures NextBatch(doc, cache).Some? ==> BatchOk(doc, cache, NextBatch(doc, cache).value)
  {
    SelectionEmpty(doc, cache);
    SelectionSpec(doc, cache);
  }

  // ----------------------------------------------------------- invariant

  /** Only texts longer than the minimum, in UTF-16 code units, are ever cached. */
  predicate CacheKeysLong(cache: Dict<PerTweet>) {
    forall t :: t in Keys(cache) ==> Utf16Length(t) > MIN_TEXT_LENGTH
  }

  /** An element never holds both a placeholder and a tag. */
  predicate PendingUntagged(doc: seq<Elem>) {
    forall i :: 0 <= i < |doc| && doc[i].pending ==> doc[i].tag.None?
  }

  /** Exactly the elements in `els` hold a placeholder. */
  predicate PendingExactly(doc: seq<Elem>, els: seq<nat>) {
    forall i :: 0 <= i < |doc| ==> (doc[i].pending <==> i in els)
  }

  /** The shape of a request: one to three elements in document order, one text each. */
  predicate Shaped(doc: seq<Elem>, b: Batch) {
    && 1 <= |b.elements| <= BATCH_CAP
    && |b.tweets| == |b.elements|
    && Increasing(b.elements)
    && forall j :: 0 <= j < |b.elements| ==> b.elements[j] < |doc|
  }

  /** A well-formed request: its texts are the long, uncached trimmed texts of its elements. */
  predicate BatchOk(doc: seq<Elem>, cache: Dict<PerTweet>, b: Batch) {
    && Shaped(doc, b)
    && forall j :: 0 <= j < |b.elements| ==>
         && b.tweets[j] == Key(doc[b.elements[j]])
         && Utf16Length(b.tweets[j]) > MIN_TEXT_LENGTH
         && b.tweets[j] !in Keys(cache)
  }

  /** The content script's state invariant, on values. */
  predicate StateOk(cache: Dict<PerTweet>, doc: seq<Elem>, inflight: Option<Batch>) {
    && CacheKeysLong(cache)
    && PendingUntagged(doc)
    && PendingExactly(doc, if inflight.Some? then inflight.value.elements else [])
    && (inflight.Some? ==> BatchOk(doc, cache, inflight.value))
  }

  /** New elements appearing on the page keep the invariant. */
  lemma AppendKeeps(cache: Dict<PerTweet>, doc: seq<Elem>, inflight: Option<Batch>, added: seq<string>)
    requires StateOk(cache, doc, inflight)
    ensures StateOk(cache, doc + seq(|added|, i requires 0 <= i < |added| => Fresh(added[i])), inflight)
  {
    var d := doc + seq(|added|, i requires 0 <= i < |added| => Fresh(added[i]));
    var els := if inflight.Some? then inflight.value.elements else [];
    assert forall i :: 0 <= i < |doc| ==> d[i] == doc[i];
    assert forall i :: |doc| <= i < |d| ==> !d[i].pending && d[i].tag.None?;
    assert forall j :: 0 <= j < |els| ==> els[j] < |doc|;
    assert PendingUntagged(d);
    assert PendingExactly(d, els);
  }

  /** Injecting cached tags keeps the invariant: marked elements are left alone. */
  lemma InjectKeeps(cache: Dict<PerTweet>, doc: seq<Elem>, inflight: Option<Batch>)
    requires StateOk(cache, doc, inflight)
    ensures StateOk(cache, InjectAll(doc, cache), inflight)
  {
  }

  /** Sending a request keeps the invariant once its elements hold placeholders. */
  lemma StartKeeps(cache: Dict<PerTweet>, doc: seq<Elem>)
    requires StateOk(cache, doc, None) && NextBatch(doc, cache).Some?
    ensures StateOk(cache, SetPending(doc, NextBatch(doc, cache).value.elements, true), NextBatch(doc, cache))
  {
    NextBatchSpec(doc, cache);
    var b := NextBatch(doc, cache).value;
    SelectionSpec(doc, cache);
    PendingKeepsBatch(doc, cache, b, true);
    MarkUnmarked(doc, b.elements);
  }

  /** Placeholders do not change texts, so a well-formed request stays well-formed. */
  lemma PendingKeepsBatch(doc: seq<Elem>, cache: Dict<PerTweet>, b: Batch, pending: bool)
    requires BatchOk(doc, cache, b)
    ensures BatchOk(SetPending(doc, b.elements, pending), cache, b)
  {
    var d := SetPending(doc, b.elements, pending);
    assert forall j :: 0 <= j < |b.elements| ==> b.elements[j] in b.elements && d[b.elements[j]].text == doc[b.elements[j]].text;
  }

  /** Placing placeholders on untagged elements of a page without any keeps them apart from tags. */
  lemma MarkUnmarked(doc: seq<Elem>, els: seq<nat>)
    requires PendingUntagged(doc) && PendingExactly(doc, [])
    requires forall j :: 0 <= j < |els| ==> els[j] < |doc| && !Marked(doc[els[j]])
    ensures PendingUntagged(SetPending(doc, els, true)) && PendingExactly(SetPending(doc, els, true), els)
  {
    var d := SetPending(doc, els, true);
    forall i | 0 <= i < |d| && d[i].pending
      ensures d[i].tag.None?
    {
      if i in els {
        var j :| 0 <= j < |els| && els[j] == i;
      }
    }
  }

  /** Removing the placeholders of the request in flight leaves no placeholder anywhere. */
  lemma ClearKeeps(cache: Dict<PerTweet>, doc: seq<Elem>, b: Batch)
    requires StateOk(cache, doc, Some(b))
    ensures StateOk(cache, SetPending(doc, b.elements, false), None)
    ensures forall j :: 0 <= j < |b.elements| ==> SetPending(doc, b.elements, false)[b.elements[j]].tag.None?
  {
  }

  /** After a failed request its elements are eligible again, so the next cycle retries them. */
  lemma FailureRetries(cache: Dict<PerTweet>, doc: seq<Elem>, b: Batch)
    requires StateOk(cache, doc, Some(b))
    ensures forall j :: 0 <= j < |b.elements| ==> Eligible(SetPending(doc, b.elements, false)[b.elements[j]], cache)
  {
    ClearKeeps(cache, doc, b);
  }

  // ------------------------------------------------------ after response

  /** How many results of a reply are used: one per sent text, at most. */
  function Answered(b: Batch, rs: seq<PerTweet>): (r: nat) {
    Min(|rs|, |b.tweets|)
  }

  /** The cache after a successful reply. */
  function CacheAfter(cache: Dict<PerTweet>, b: Batch, rs: seq<PerTweet>): (r: Dict<PerTweet>) {
    PutAll(cache, b.tweets[..Answered(b, rs)], rs[..Answered(b, rs)])
  }

  /** The page after a reply: placeholders removed, answered elements tagged. */
  function DocAfter(doc: seq<Elem>, b: Batch, rs: seq<PerTweet>): (r: seq<Elem>)
    requires |b.elements| == |b.tweets| && forall j :: 0 <= j < |b.elements| ==> b.elements[j] < |doc|
  {
    var m := Answered(b, rs);
    TagResults(SetPending(doc, b.elements, false), b.elements[..m], rs[..m])
  }

  /** The tag writes change only tags, and never remove one. */
  lemma {:induction false} TagResultsKeeps(doc: seq<Elem>, els: seq<nat>, rs: seq<PerTweet>)
    requires |els| == |rs| && forall j :: 0 <= j < |els| ==> els[j] < |doc|
    ensures forall i :: 0 <= i < |doc| ==>
      && TagResults(doc, els, rs)[i].text == doc[i].text
      && TagResults(doc, els, rs)[i].pending == doc[i].pending
      && (doc[i].tag.Some? ==> TagResults(doc, els, rs)[i] == doc[i])
    decreases |els|
  {
    if els != [] {
      var n := |els| - 1;
      TagResultsKeeps(doc, els[..n], rs[..n]);
    }
  }

  /** A successful reply keeps the invariant: the new cache keys are the long texts just sent. */
  lemma SuccessKeeps(cache: Dict<PerTweet>, doc: seq<Elem>, b: Batch, rs: seq<PerTweet>)
    requires StateOk(cache, doc, Some(b))
    ensures StateOk(CacheAfter(cache, b, rs), DocAfter(doc, b, rs), None)
  {
    var m := Answered(b, rs);
    PutAllKeysLong(cache, b.tweets[..m], rs[..m]);
    DocAfterKeeps(cache, doc, b, rs);
  }

  /** After a reply no element holds a placeholder, and tagging only touched unmarked elements. */
  lemma DocAfterKeeps(cache: Dict<PerTweet>, doc: seq<Elem>, b: Batch, rs: seq<PerTweet>)
    requires StateOk(cache, doc, Some(b))
    ensures PendingUntagged(DocAfter(doc, b, rs)) && PendingExactly(DocAfter(doc, b, rs), [])
  {
    var m := Answered(b, rs);
    var cleared := SetPending(doc, b.elements, false);
    ClearKeeps(cache, doc, b);
    TagResultsKeeps(cleared, b.elements[..m], rs[..m]);
  }

  lemma PutAllKeysLong(cache: Dict<PerTweet>, ts: seq<string>, rs: seq<PerTweet>)
    requires |ts| == |rs| && CacheKeysLong(cache) && forall j :: 0 <= j < |ts| ==> Utf16Length(ts[j]) > MIN_TEXT_LENGTH
    ensures CacheKeysLong(PutAll(cache, ts, rs))
  {
    PutAllKeys(cache, ts, rs);
  }

  /** After a successful reply every answered element shows the tag of its own result. */
  lemma SuccessTags(doc: seq<Elem>, b: Batch, rs: seq<PerTweet>)
    requires Shaped(doc, b) && PendingUntagged(doc) && PendingExactly(doc, b.elements)
    ensures forall j :: 0 <= j < Answered(b, rs) ==> DocAfter(doc, b, rs)[b.elements[j]].tag == Some(BuildTag(rs[j]))
  {
    var m := Answered(b, rs);
    var cleared := SetPending(doc, b.elements, false);
    var els := b.elements[..m];
    assert forall j :: 0 <= j < m ==> els[j] == b.elements[j] && rs[..m][j] == rs[j];
    assert forall j :: 0 <= j < m ==> els[j] < |doc| && !Marked(cleared[els[j]]) by {
      assert forall j :: 0 <= j < |b.elements| ==> b.elements[j] in b.elements && doc[b.elements[j]].pending;
    }
    TagUnmarked(cleared, els, rs[..m]);
  }

  lemma TagUnmarked(doc: seq<Elem>, els: seq<nat>, rs: seq<PerTweet>)
    requires |els| == |rs| && Increasing(els)
    requires forall j :: 0 <= j < |els| ==> els[j] < |doc| && !Marked(doc[els[j]])
    ensures forall j :: 0 <= j < |els| ==> TagResults(doc, els, rs)[els[j]].tag == Some(BuildTag(rs[j]))
  {
    TagResultsAt(doc, els, rs);
  }

  /** After a successful reply every answered text is cached. */
  lemma SuccessCaches(cache: Dict<PerTweet>, b: Batch, rs: seq<PerTweet>)
    ensures forall j :: 0 <= j < Answered(b, rs) ==> b.tweets[j] in Keys(CacheAfter(cache, b, rs))
  {
    var m := Answered(b, rs);
    var ts := b.tweets[..m];
    PutAllKeys(cache, ts, rs[..m]);
    assert forall j :: 0 <= j < m ==> ts[j] == b.tweets[j] && ts[j] in ts;
  }

  /** A text that occurs once more later in the batch is cached with the result of its last occurrence. */
  lemma SuccessLastWins(cache: Dict<PerTweet>, b: Batch, rs: seq<PerTweet>, j: nat)
    requires j < Answered(b, rs) && forall k :: j < k < Answered(b, rs) ==> b.tweets[k] != b.tweets[j]
    ensures Get(CacheAfter(cache, b, rs), b.tweets[j]) == Some(rs[j])
  {
    var m := Answered(b, rs);
    var ts := b.tweets[..m];
    assert ts[j] == b.tweets[j] && rs[..m][j] == rs[j];
    assert forall k :: j < k < m ==> ts[k] == b.tweets[k];
    PutAllLast(cache, ts, rs[..m], j);
  }

  /**
   * An element of the batch left without a result is eligible again after a
   * successful reply, unless an answered element had the same text.
   */
  lemma UnansweredRetries(cache: Dict<PerTweet>, doc: seq<Elem>, b: Batch, rs: seq<PerTweet>, j: nat)
    requires StateOk(cache, doc, Some(b))
    requires Answered(b, rs) <= j < |b.elements| && b.tweets[j] !in b.tweets[..Answered(b, rs)]
    ensures Eligible(DocAfter(doc, b, rs)[b.elements[j]], CacheAfter(cache, b, rs))
  {
    var m := Answered(b, rs);
    var cleared := SetPending(doc, b.elements, false);
    var i := b.elements[j];
    ClearKeeps(cache, doc, b);
    assert i in b.elements;
    assert cleared[i] == doc[i].(pending := false);
    assert forall k :: 0 <= k < m ==> b.elements[..m][k] == b.elements[k] && b.elements[k] < i;
    assert i !in b.elements[..m];
    TagResultsOutside(cleared, b.elements[..m], rs[..m], i);
    PutAllKeys(cache, b.tweets[..m], rs[..m]);
  }

  /** A reply leaves the elements outside its batch as they were. */
  lemma ResponseOthers(doc: seq<Elem>, b: Batch, rs: seq<PerTweet>)
    requires |b.elements| == |b.tweets| && forall j :: 0 <= j < |b.elements| ==> b.elements[j] < |doc|
    ensures forall i :: 0 <= i < |doc| && i !in b.elements ==> DocAfter(doc, b, rs)[i] == doc[i]
  {
    var m := Answered(b, rs);
    var els := b.elements[..m];
    forall i | 0 <= i < |doc| && i !in b.elements
      ensures DocAfter(doc, b, rs)[i] == doc[i]
    {
      assert i !in els;
      TagResultsOutside(SetPending(doc, b.elements, false), els, rs[..m], i);
    }
  }


  // -------------------------------------------------------------- loops

  /** The `for ... of` loop of `injectCachedTags`, on the page's elements. */
  method InjectLoop(doc: seq<Elem>, cache: Dict<PerTweet>) returns (d: seq<Elem>)
    ensures d == InjectAll(doc, cache)
  {
    d := doc;
    var i := 0;
    while i < |d|
      invariant 0 <= i <= |d| == |doc|
      invariant forall k :: 0 <= k < i ==> d[k] == InjectOne(doc[k], cache)
      invariant forall k :: i <= k < |d| ==> d[k] == doc[k]
    {
      var e := d[i];
      var text := Trim(e.text);
      if text != [] && !Marked(e) {
        var found := Get(cache, text);
        if found.Some? {
          d := d[i := e.(tag := Some(BuildTag(found.value)))];
        }
      }
      assert d[i] == InjectOne(doc[i], cache);
      i := i + 1;
    }
  }

  /** The `.filter(...)` of `analyzeFeed`: the eligible indices in document order. */
  method FilterLoop(doc: seq<Elem>, cache: Dict<PerTweet>) returns (candidates: seq<nat>)
    ensures candidates == Candidates(doc, cache)
  {
    candidates := [];
    for i := 0 to |doc|
      invariant candidates == Candidates(doc[..i], cache)
    {
      assert doc[..i + 1][..i] == doc[..i];
      var e := doc[i];
      var text := Trim(e.text);
      if Utf16Length(text) > MIN_TEXT_LENGTH && Get(cache, text).None? && !Marked(e) {
        candidates := candidates + [i];
      }
    }
    assert doc[..|doc|] == doc;
  }

  /** Adding (or removing) the placeholder of each element of `els`. */
  method PendingLoop(doc: seq<Elem>, els: seq<nat>, pending: bool) returns (d: seq<Elem>)
    requires forall j :: 0 <= j < |els| ==> els[j] < |doc|
    ensures d == SetPending(doc, els, pending)
  {
    d := doc;
    for j := 0 to |els|
      invariant d == SetPending(doc, els[..j], pending)
    {
      SetPendingStep(doc, els, j, pending);
      d := d[els[j] := d[els[j]].(pending := pending)];
    }
    assert els[..|els|] == els;
  }

  lemma PutAllSnoc(cache: Dict<PerTweet>, ts: seq<string>, rs: seq<PerTweet>, i: nat)
    requires i < |ts| && i < |rs|
    ensures PutAll(cache, ts[..i + 1], rs[..i + 1]) == Put(PutAll(cache, ts[..i], rs[..i]), ts[i], rs[i])
  {
    assert ts[..i + 1][..i] == ts[..i] && rs[..i + 1][..i] == rs[..i];
  }

  lemma TagResultsSnoc(doc: seq<Elem>, els: seq<nat>, rs: seq<PerTweet>, i: nat)
    requires i < |els| && i < |rs| && forall j :: 0 <= j < |els| ==> els[j] < |doc|
    ensures TagResults(doc, els[..i + 1], rs[..i + 1])
      == TagResults(doc, els[..i], rs[..i])[els[i] := TagIfUnmarked(TagResults(doc, els[..i], rs[..i])[els[i]], rs[i])]
  {
    assert els[..i + 1][..i] == els[..i] && rs[..i + 1][..i] == rs[..i];
  }

  /**
   * The `per_tweet.forEach` of the response callback: result `i` goes to the
   * cache under the `i`-th sent text and tags the `i`-th element unless it is
   * marked; results without a sent text are skipped.
   */
  method ResultsLoop(doc: seq<Elem>, cache: Dict<PerTweet>, b: Batch, rs: seq<PerTweet>)
    returns (c: Dict<PerTweet>, d: seq<Elem>)
    requires |b.elements| == |b.tweets| && forall j :: 0 <= j < |b.elements| ==> b.elements[j] < |doc|
    requires forall j :: 0 <= j < |b.tweets| ==> b.tweets[j] != []
    ensures c == PutAll(cache, b.tweets[..Answered(b, rs)], rs[..Answered(b, rs)])
    ensures d == TagResults(doc, b.elements[..Answered(b, rs)], rs[..Answered(b, rs)])
  {
    c := cache;
    d := doc;
    for i := 0 to |rs|
      invariant Replayed(doc, cache, b, rs, Min(i, |b.tweets|), c, d)
    {
      if i < |b.tweets| && b.tweets[i] != [] && i < |b.elements| {
        ReplayedStep(doc, cache, b, rs, i, c, d);
        c, d := ApplyResult(c, d, b.tweets[i], b.elements[i], rs[i]);
      }
    }
  }

  /** The first `k` results have been written to the cache and the page. */
  predicate Replayed(doc: seq<Elem>, cache: Dict<PerTweet>, b: Batch, rs: seq<PerTweet>, k: nat, c: Dict<PerTweet>, d: seq<Elem>)
    requires |b.elements| == |b.tweets| && forall j :: 0 <= j < |b.elements| ==> b.elements[j] < |doc|
  {
    && k <= |b.tweets| && k <= |rs|
    && c == PutAll(cache, b.tweets[..k], rs[..k])
    && d == TagResults(doc, b.elements[..k], rs[..k])
  }

  lemma ReplayedStep(doc: seq<Elem>, cache: Dict<PerTweet>, b: Batch, rs: seq<PerTweet>, i: nat, c: Dict<PerTweet>, d: seq<Elem>)
    requires |b.elements| == |b.tweets| && forall j :: 0 <= j < |b.elements| ==> b.elements[j] < |doc|
    requires i < |b.tweets| && i < |rs| && Replayed(doc, cache, b, rs, i, c, d)
    ensures b.elements[i] < |d|
    ensures Replayed(doc, cache, b, rs, i + 1, Put(c, b.tweets[i], rs[i]), d[b.elements[i] := TagIfUnmarked(d[b.elements[i]], rs[i])])
  {
    PutAllSnoc(cache, b.tweets, rs, i);
    TagResultsSnoc(doc, b.elements, rs, i);
  }

  /** The body of the `forEach` callback for one result that has a text and an element. */
  method ApplyResult(cache: Dict<PerTweet>, doc: seq<Elem>, text: string, el: nat, a: PerTweet)
    returns (c: Dict<PerTweet>, d: seq<Elem>)
    requires el < |doc|
    ensures c == Put(cache, text, a)
    ensures d == doc[el := TagIfUnmarked(doc[el], a)]
  {
    c := Put(cache, text, a);
    d := doc;
    if !Marked(d[el]) {
      d := d[el := d[el].(tag := Some(BuildTag(a)))];
    }
  }

  /** The part of the script's state the response callback rewrites. */
  datatype Written = Written(cache: Dict<PerTweet>, doc: seq<Elem>, stored: Option<Snapshot>)

  /**
   * The response callback on values: placeholders removed in every case; on
   * failure nothing else changes; on success the answered tweets are cached
   * and tagged and the record with the breakdown of the new cache is stored.
   */
  function Reply(cache: Dict<PerTweet>, doc: seq<Elem>, b: Batch, outcome: Outcome, now: int, stored: Option<Snapshot>): (r: Written)
    requires |b.elements| == |b.tweets| && forall j :: 0 <= j < |b.elements| ==> b.elements[j] < |doc|
  {
    match outcome
    case Failure(_, _) => Written(cache, SetPending(doc, b.elements, false), stored)
    case Success(data) =>
      var c := CacheAfter(cache, b, Results(data));
      Written(c, DocAfter(doc, b, Results(data)), Some(Stored(data, c, now)))
  }

  /** The callback keeps the invariant, with no request outstanding afterwards. */
  lemma ReplyKeeps(cache: Dict<PerTweet>, doc: seq<Elem>, b: Batch, outcome: Outcome, now: int, stored: Option<Snapshot>)
    requires StateOk(cache, doc, Some(b))
    ensures StateOk(Reply(cache, doc, b, outcome, now, stored).cache, Reply(cache, doc, b, outcome, now, stored).doc, None)
  {
    match outcome
    case Failure(_, _) => ClearKeeps(cache, doc, b);
    case Success(data) => SuccessKeeps(cache, doc, b, Results(data));
  }

  /** The loops of the response callback, proved against `Reply`. */
  method Respond(cache: Dict<PerTweet>, doc: seq<Elem>, b: Batch, outcome: Outcome, now: int, stored: Option<Snapshot>)
    returns (w: Written)
    requires |b.elements| == |b.tweets| && forall j :: 0 <= j < |b.elements| ==> b.elements[j] < |doc|
    requires forall j :: 0 <= j < |b.tweets| ==> b.tweets[j] != []
    ensures w == Reply(cache, doc, b, outcome, now, stored)
  {
    var cleared := PendingLoop(doc, b.elements, false);
    match outcome
    case Failure(_, _) =>
      w := Written(cache, cleared, stored);
    case Success(data) =>
      var rs := Results(data);
      var c, d := ResultsLoop(cleared, cache, b, rs);
      var pct := ComputeBreakdown(c);
      var snapshot := Snapshot(data.(breakdown := Some(pct)), |c|, now);
      assert snapshot == Stored(data, c, now);
      w := Written(c, d, Some(snapshot));
  }

  // ------------------------------------------------------------ analyzeFeed

  /** The page and the request as `analyzeFeed` leaves them, with the texts it sent. */
  datatype Started = Started(doc: seq<Elem>, inflight: Option<Batch>, sent: Option<seq<string>>)

  /**
   * One call of `analyzeFeed` on values: nothing while a request is
   * outstanding; otherwise the cached tags are injected and, when some element
   * is eligible, the next batch gets its placeholders and its texts are sent.
   */
  function Analyze(doc: seq<Elem>, cache: Dict<PerTweet>, inflight: Option<Batch>): (r: Started)
    ensures StateOk(cache, doc, inflight) ==> StateOk(cache, r.doc, r.inflight)
    ensures r.sent.Some? <==> inflight.None? && r.inflight.Some?
    ensures r.sent.Some? ==> r.sent.value == r.inflight.value.tweets
    ensures |r.doc| == |doc|
  {
    if inflight.Some? then Started(doc, inflight, None)
    else
      var d := InjectAll(doc, cache);
      match NextBatch(d, cache)
      case None => Started(d, None, None)
      case Some(b) =>
        assert StateOk(cache, doc, inflight) ==> StateOk(cache, SetPending(d, b.elements, true), Some(b)) by {
          if StateOk(cache, doc, inflight) {
            InjectKeeps(cache, doc, inflight);
            StartKeeps(cache, d);
          }
        }
        Started(SetPending(d, b.elements, true), Some(b), Some(b.tweets))
  }

  /**
   * A second call right after a first changes nothing and sends nothing: the
   * request of the first is outstanding, or the first found nothing to send
   * and its tags are already in place.
   */
  lemma AnalyzeTwice(doc: seq<Elem>, cache: Dict<PerTweet>, inflight: Option<Batch>)
    ensures Analyze(Analyze(doc, cache, inflight).doc, cache, Analyze(doc, cache, inflight).inflight)
      == Analyze(doc, cache, inflight).(sent := None)
  {
    if inflight.None? {
      InjectIdempotent(doc, cache);
    }
  }

  // ------------------------------------------------------------- script

  /**
   * The content script's state: `tweetCache`, `isAnalyzing`, the page's tweet
   * text elements, the request whose callback is outstanding, and the last
   * record it wrote to `chrome.storage.local`.
   */
  class Pipeline {
    var cache: Dict<PerTweet>
    var analyzing: bool
    var doc: seq<Elem>
    var inflight: Option<Batch>
    var stored: Option<Snapshot>

    ghost predicate Valid()
      reads this
    {
      (analyzing <==> inflight.Some?) && StateOk(cache, doc, inflight)
    }

    /** The script loads on a page showing `texts`: empty cache, no request, nothing stored. */
    constructor(texts: seq<string>)
      ensures Valid()
      ensures cache == [] && !analyzing && inflight.None? && stored.None?
      ensures doc == seq(|texts|, i requires 0 <= i < |texts| => Fresh(texts[i]))
    {
      cache := [];
      analyzing := false;
      doc := seq(|texts|, i requires 0 <= i < |texts| => Fresh(texts[i]));
      inflight := None;
      stored := None;
    }

    /** The page (not the script) renders more tweets; they start untagged. */
    method AddElements(added: seq<string>)
      requires Valid()
      modifies this
      ensures Valid()
      ensures doc == old(doc) + seq(|added|, i requires 0 <= i < |added| => Fresh(added[i]))
      ensures cache == old(cache) && analyzing == old(analyzing) && inflight == old(inflight) && stored == old(stored)
    {
      AppendKeeps(cache, doc, inflight, added);
      doc := doc + seq(|added|, i requires 0 <= i < |added| => Fresh(added[i]));
    }

    /** `injectCachedTags`: every untagged element whose text is cached gets its tag. */
    method InjectCachedTags()
      requires Valid()
      modifies this
      ensures Valid()
      ensures doc == InjectAll(old(doc), cache)
      ensures cache == old(cache) && analyzing == old(analyzing) && inflight == old(inflight) && stored == old(stored)
    {
      InjectKeeps(cache, doc, inflight);
      doc := InjectLoop(doc, cache);
    }

    /**
     * `analyzeFeed`: unless a request is outstanding, inject the cached tags,
     * pick the batch, mark it pending and send its texts.
     */
    method AnalyzeFeed() returns (sent: Option<seq<string>>)
      requires Valid()
      modifies this
      ensures Valid()
      ensures old(analyzing) ==> sent.None? && doc == old(doc) && inflight == old(inflight) && analyzing
      ensures !old(analyzing) ==>
        && inflight == NextBatch(InjectAll(old(doc), old(cache)), old(cache))
        && analyzing == inflight.Some?
        && (inflight.None? ==> sent.None? && doc == InjectAll(old(doc), old(cache)))
        && (inflight.Some? ==>
              sent == Some(inflight.value.tweets) &&
              doc == SetPending(InjectAll(old(doc), old(cache)), inflight.value.elements, true))
      ensures Started(doc, inflight, sent) == Analyze(old(doc), old(cache), old(inflight))
      ensures cache == old(cache) && stored == old(stored)
    {
      if analyzing {
        return None;
      }
      InjectCachedTags();
      var candidates := FilterLoop(doc, cache);
      var elements := candidates[..Min(|candidates|, BATCH_CAP)];
      if |elements| == 0 {
        return None;
      }
      NextBatchSpec(doc, cache);
      StartKeeps(cache, doc);
      var tweets := Texts(doc, elements);
      var d := PendingLoop(doc, elements, true);
      Dispatch(d, Batch(elements, tweets));
      sent := Some(tweets);
    }

    /** `isAnalyzing = true` with the placeholders in place and the request outstanding. */
    method Dispatch(d: seq<Elem>, b: Batch)
      requires StateOk(cache, d, Some(b))
      modifies this
      ensures Valid() && analyzing && doc == d && inflight == Some(b)
      ensures cache == old(cache) && stored == old(stored)
    {
      analyzing, doc, inflight := true, d, Some(b);
    }

    /**
     * The response callback: clear the flag and the placeholders; on success
     * cache and tag the answered tweets, then store the reply with the
     * breakdown of the whole cache, the cache size and the time.
     */
    method OnResponse(outcome: Outcome, now: int)
      requires Valid() && analyzing
      modifies this
      ensures Valid() && !analyzing
      ensures Written(cache, doc, stored) == Reply(old(cache), old(doc), old(inflight).value, outcome, now, old(stored))
    {
      var b := inflight.value;
      var w := Respond(cache, doc, b, outcome, now, stored);
      ReplyKeeps(cache, doc, b, outcome, now, stored);
      Commit(w);
    }

    /** `isAnalyzing = false` together with the callback's writes. */
    method Commit(w: Written)
      requires StateOk(w.cache, w.doc, None)
      modifies this
      ensures Valid() && !analyzing && inflight.None?
      ensures cache == w.cache && doc == w.doc && stored == w.stored
    {
      analyzing, inflight, cache, doc, stored := false, None, w.cache, w.doc, w.stored;
    }
  }
}
