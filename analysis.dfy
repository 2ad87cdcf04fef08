/**
 * The classification data exchanged between the backend and the extension:
 * the JSON the language model is asked for (one result per tweet plus feed
 * level scores), after the backend has parsed it.
 */
module Analysis {
  import opened Wrappers
  import opened Dicts

  /**
   * One element of `per_tweet`. A field the reply leaves out (or sets to a
   * false value) is `None`. `fullText` is the `full_text` the backend stamps
   * on. The text preview and the compass coordinates are floats or display
   * text and are not part of this model.
   */
  datatype PerTweet = PerTweet(lean: Option<string>, score: Option<int>, fullText: Option<string>)

  /**
   * A batch result: the parsed reply, as the backend returns it from
   * `/analyze` and as the extension receives it. A dictionary the reply lacks
   * is empty, a missing summary is `None`. `breakdown` is a
   * `political_breakdown` field, which the extension adds before storing.
   */
  datatype BatchResult = BatchResult(
    overall: Option<int>,
    topics: Dict<int>,
    tone: Dict<int>,
    signals: Dict<int>,
    feedSummary: Option<string>,
    safetySummary: Option<string>,
    perTweet: Option<seq<PerTweet>>,
    breakdown: Option<Dict<int>>)
}
