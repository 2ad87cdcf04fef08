/**
 * Reading the language model's reply in the backend (backend/main.py): the
 * reply is parsed as JSON; when that fails, a surrounding Markdown code fence
 * is stripped and the rest is parsed again. The JSON parser itself is a
 * parameter `parse` that yields `None` where `json.loads` raises.
 */
module Fence {
  import opened Wrappers
  import opened Text

  const FENCE: string := "```"

  /**
   * `cleaned = text.strip()` and, when it starts with three backticks,
   * `cleaned.split("\n", 1)[1].rsplit("```", 1)[0].strip()`: the text after
   * the first line break up to the last fence, trimmed. `None` is the
   * `IndexError` of a fenced reply without a line break.
   */
  function StripFence(text: string): (r: Option<string>)
    ensures r.Some? ==> Trim(r.value) == r.value
    ensures !StartsWith(Trim(text), FENCE) ==> r == Some(Trim(text))
    ensures r.None? <==> StartsWith(Trim(text), FENCE) && forall k :: 0 <= k < |Trim(text)| ==> Trim(text)[k] != '\n'
  {
    var c := Trim(text);
    TrimIdempotent(text);
    if StartsWith(c, FENCE) then
      match IndexOf(c, '\n')
      case None => None
      case Some(i) =>
        var rest := c[i + 1..];
        var body := match LastIndexOf(rest, FENCE) case None => rest case Some(j) => rest[..j];
        TrimIdempotent(body);
        Some(Trim(body))
    else Some(c)
  }

  /**
   * `json.loads(text)`, and on failure `json.loads` of the stripped text;
   * `None` when the request fails with an exception.
   */
  function ParseReply<T>(text: string, parse: string -> Option<T>): (r: Option<T>) {
    match parse(text)
    case Some(d) => Some(d)
    case None =>
      match StripFence(text)
      case None => None
      case Some(c) => parse(c)
  }

  /** A reply without a leading fence is only trimmed. */
  lemma UnfencedIsTrimmed(text: string)
    requires !StartsWith(Trim(text), FENCE)
    ensures StripFence(text) == Some(Trim(text))
  {
  }

  /** A fenced reply on a single line makes the request fail. */
  lemma FenceWithoutNewline(text: string)
    requires StartsWith(Trim(text), FENCE)
    requires forall k :: 0 <= k < |Trim(text)| ==> Trim(text)[k] != '\n'
    ensures StripFence(text) == None
  {
  }

  /**
   * Fencing a body, with any language tag on the opening line, and
   * stripping the fence gives back the trimmed body, whatever the body holds
   * (fences inside it included).
   */
  lemma FenceRoundTrip(lang: string, body: string)
    requires forall k :: 0 <= k < |lang| ==> lang[k] != '\n'
    ensures StripFence(FENCE + lang + "\n" + body + FENCE) == Some(Trim(body))
  {
    FencedUnpadded(lang, body);
    FencedNewline(lang, body);
    ClosingFence(body);
  }

  lemma FencedUnpadded(lang: string, body: string)
    ensures Trim(FENCE + lang + "\n" + body + FENCE) == FENCE + lang + "\n" + body + FENCE
    ensures StartsWith(FENCE + lang + "\n" + body + FENCE, FENCE)
  {
    var t := FENCE + lang + "\n" + body + FENCE;
    assert t[0] == '`' && t[|t| - 1] == '`';
    TrimUnpadded(t);
    assert t[..3] == FENCE;
  }

  /** The first line break is the one after the language tag. */
  lemma FencedNewline(lang: string, body: string)
    requires forall k :: 0 <= k < |lang| ==> lang[k] != '\n'
    ensures IndexOf(FENCE + lang + "\n" + body + FENCE, '\n') == Some(|FENCE + lang|)
    ensures (FENCE + lang + "\n" + body + FENCE)[|FENCE + lang| + 1..] == body + FENCE
  {
    var t := FENCE + lang + "\n" + body + FENCE;
    var i := |FENCE + lang|;
    assert t[i] == '\n';
    assert forall k :: 0 <= k < i ==> t[k] == (FENCE + lang)[k];
  }

  /** The closing fence is the last fence after the body. */
  lemma ClosingFence(body: string)
    ensures LastIndexOf(body + FENCE, FENCE) == Some(|body|)
    ensures (body + FENCE)[..|body|] == body
  {
    var rest := body + FENCE;
    assert OccursAt(rest, FENCE, |body|);
  }

  /**
   * A reply that parses as it stands is taken as it is; a fenced reply that
   * does not is read from the trimmed body inside the fence.
   */
  lemma ParsesFencedReply<T>(lang: string, body: string, parse: string -> Option<T>)
    requires forall k :: 0 <= k < |lang| ==> lang[k] != '\n'
    ensures parse(FENCE + lang + "\n" + body + FENCE).Some? ==>
      ParseReply(FENCE + lang + "\n" + body + FENCE, parse) == parse(FENCE + lang + "\n" + body + FENCE)
    ensures parse(FENCE + lang + "\n" + body + FENCE).None? ==>
      ParseReply(FENCE + lang + "\n" + body + FENCE, parse) == parse(Trim(body))
  {
    FenceRoundTrip(lang, body);
  }
}
