# Veracious, modelled in Dafny

Veracious annotates a social feed. A browser content script watches the page
for tweet text elements. It keeps a cache of classification results keyed by
the trimmed text. It sends at most three new, uncached, untagged texts at a
time, with only one request in flight. When the reply comes, it tags each
answered tweet with its political lean and manipulation score, caches the
results, and writes the reply to the extension's storage together with the
lean breakdown of the whole cache. A popup reads that storage. A backend folds
each batch reply into a running session aggregate. A dashboard reads the
aggregate.

This project models that pipeline and proves what it promises:

- `Content` covers the cache, tags, batch selection, placeholders, the
  response callback and the breakdown. The class `Content.Pipeline` holds the
  script's mutable state (`tweetCache`, `isAnalyzing`, the page's elements,
  the request in flight, the last stored record).
- `Debounce` covers the 2000 ms debounce timer and the 500 ms initial timer.
  They are modelled as an integer millisecond clock with traces of events.
  `Debounce.Page` composes the timers with a `Pipeline`.
- `Fence` and `Backend` cover the backend's reply parsing, the
  `latest_analysis` fold, the `/reset`, `/results` and `/audio` endpoints,
  and the class `Backend.Server`.
- `Popup` covers what the popup derives from storage. `Dashboard` covers what
  the dashboard derives from `/results`.
- `Ranking` is the stable descending sort of dictionary entries that both
  views use.
- The helper modules are:
  - `Dicts`: insertion-ordered dictionaries, the shape of a JS `Map`, a JS
    object or a Python `dict`;
  - `Text`: trim, lower case, search and JavaScript's UTF-16 `length`;
  - `Rounding`: JS `Math.round` and Python `round` on exact ratios;
  - `Scores`: the three manipulation bands, with boundaries at 33 and 66;
  - `Analysis`: the shape of a batch result;
  - `Wrappers`: `Option` and `Result`.

## Model

| member | source | states |
|---|---|---|
| Scores.BandOf | extension/content.js:15-19 | a score is high exactly above 66, medium exactly in 34..66, low exactly at or below 33 |
| Scores.BandMonotone | extension/content.js:15-19 | a higher score never falls into a lower band |
| Content.ManipColor | extension/content.js:15-19 | the tag colours are a function of the score's band only |
| Content.LeanOf | extension/content.js:22 | a missing or empty lean reads as "unclear"; otherwise the lean is lower-cased |
| Content.BuildTag | extension/content.js:21-25 | the label is always a styled lean: the lean itself when it has a style, else "unclear"; the score is `manipulation_score ?? 0`, coloured by its band |
| Content.InjectOne | extension/content.js:77-83 | an element that is marked, has an empty text or has an uncached text is untouched; any other element gets the tag of its cached result; text and placeholder never change |
| Content.InjectAll | extension/content.js:76-84 | every element of the page is treated by the one-element rule, position by position |
| Content.InjectIdempotent | extension/content.js:76-84 | injecting cached tags twice gives the same page as once, so no element gets a second tag |
| Content.InjectLoop | extension/content.js:77-83 | the `for ... of` loop produces exactly the page `InjectAll` describes |
| Content.CandidatesExact | extension/content.js:91-99 | the filter keeps exactly the eligible elements (trimmed text longer than 10 UTF-16 code units, not cached, not marked), each once, in document order |
| Content.AstralTextEligible | extension/content.js:95 | a trimmed text of six characters above U+FFFF counts twelve code units, so the filter keeps it |
| Content.CandidatesSound | extension/content.js:92-99 | every index the filter keeps is an eligible element of the page |
| Content.CandidatesIncreasing | extension/content.js:91-99 | the kept indices are strictly increasing: document order, no repeats |
| Content.CandidatesComplete | extension/content.js:92-99 | every eligible element is kept |
| Content.FilterLoop | extension/content.js:91-99 | the filter loop yields exactly the eligible indices in document order |
| Content.SelectionSpec | extension/content.js:91-100 | at most three eligible elements in document order; an eligible element is left out only when three earlier ones were taken |
| Content.SelectionEmpty | extension/content.js:100-102 | the batch is empty exactly when no element is eligible |
| Content.NextBatchSpec | extension/content.js:86-113 | a request is sent exactly when some element is eligible; it is well formed: 1 to 3 increasing indices whose texts are their long, uncached trimmed texts |
| Content.Texts | extension/content.js:113 | one text per chosen element: its trimmed inner text |
| Content.SetPending | extension/content.js:106-111 | exactly the listed elements get (or lose) their placeholder; all others are unchanged |
| Content.PendingLoop | extension/content.js:106-111 | the `forEach` adding (or removing) placeholders gives exactly `SetPending` |
| Content.AppendKeeps | extension/content.js:168-169 | new, untagged elements appearing on the page keep the script's invariant |
| Content.InjectKeeps | extension/content.js:76-84 | injecting cached tags keeps the invariant |
| Content.StartKeeps | extension/content.js:102-111 | starting a request keeps the invariant: exactly the batch holds placeholders, and it is well formed |
| Content.PendingKeepsBatch | extension/content.js:106-113 | placeholders leave texts alone, so a well-formed request stays well formed |
| Content.MarkUnmarked | extension/content.js:106-111 | placeholders put on unmarked elements never share an element with a tag |
| Content.ClearKeeps | extension/content.js:121-124 | removing the batch's placeholders leaves none on the page, and the batch's elements untagged |
| Content.FailureRetries | extension/content.js:119-129 | after a failed request every element of the batch is eligible again, so a later cycle retries it |
| Content.TagResultsOutside | extension/content.js:134-144 | the tag writes of a reply leave every element outside the batch as it was |
| Content.TagResultsAt | extension/content.js:134-144 | each answered element gets the tag of its own result unless it already carries a mark |
| Content.TagResultsKeeps | extension/content.js:141-143 | tag writes change only tags and never replace an existing tag |
| Content.PutAllKeys | extension/content.js:139 | after the cache writes, the keys are the old keys plus the batch's texts, and no others |
| Content.PutAllOthers | extension/content.js:139 | a text outside the batch keeps its cached result, or stays uncached |
| Content.PutAllLast | extension/content.js:134-139 | a text that occurs again later in the batch holds the result of its last occurrence |
| Content.PutAllKeysLong | extension/content.js:95-139 | only texts longer than 10 UTF-16 code units are ever cached |
| Content.SuccessKeeps | extension/content.js:131-145 | a successful reply keeps the invariant, with no placeholder left |
| Content.DocAfterKeeps | extension/content.js:121-144 | after a reply no element holds a placeholder, and no element holds both a placeholder and a tag |
| Content.SuccessTags | extension/content.js:131-144 | after a success every answered element shows the tag built from its own result |
| Content.TagUnmarked | extension/content.js:141-143 | unmarked answered elements receive exactly their result's tag |
| Content.SuccessCaches | extension/content.js:134-139 | after a success every answered text is cached |
| Content.SuccessLastWins | extension/content.js:134-139 | the result stored for an answered text is the last one given for it in the reply |
| Content.UnansweredRetries | extension/content.js:133-144 | after a success, a batch element without a result is untagged and uncached, so eligible again, unless an answered element had the same text |
| Content.ResponseOthers | extension/content.js:118-145 | a reply leaves every element outside its batch unchanged |
| Content.ResultsLoop | extension/content.js:133-145 | the `per_tweet.forEach` writes results to the cache and the page in order; a result without a sent text is skipped |
| Content.ApplyResult | extension/content.js:135-143 | one result: the cache holds it under the text, and the element is tagged only if unmarked |
| Content.Leans | extension/content.js:148-149 | the lean of every cached result, in cache order, lower-cased and defaulted |
| Content.Percentages | extension/content.js:153-156 | one rounded percentage per counted key, in the counts' order |
| Content.BreakdownSpec | extension/content.js:147-156 | the breakdown's keys are exactly the leans in the cache; each value is `Math.round` of that lean's share of the cache in percent |
| Content.SharesSpec | extension/content.js:152-156 | for a non-empty tally the percentage table has one rounded share per distinct lean |
| Content.BreakdownKeysLower | extension/content.js:149 | every breakdown key is lower case |
| Content.CountLeans | extension/content.js:147-151 | the `tweetCache.forEach` tally equals the occurrence count of every lean |
| Content.RoundShares | extension/content.js:153-156 | the `for ... of Object.entries` loop gives exactly the percentage table |
| Content.ComputeBreakdown | extension/content.js:147-156 | the callback's two loops compute the breakdown of the whole cache |
| Content.Stored | extension/content.js:158-162 | the stored record is the reply with its `political_breakdown` replaced by the breakdown, plus the cache size and the time |
| Content.ReplyKeeps | extension/content.js:118-163 | the response callback keeps the invariant, whatever the outcome, with no request outstanding afterwards |
| Content.Respond | extension/content.js:118-163 | the callback's loops compute exactly the callback's effect on cache, page and storage |
| Content.Pipeline.constructor | extension/content.js:1-2 | the script loads with an empty cache, no request and fresh elements |
| Content.Pipeline.AddElements | extension/content.js:168 | the page appends untagged elements; nothing else changes |
| Content.Pipeline.InjectCachedTags | extension/content.js:76-84 | the page becomes `InjectAll` of the old page under the cache; nothing else changes |
| Content.Analyze | extension/content.js:86-117 | one `analyzeFeed` call on values keeps the invariant; it sends texts exactly when no request was outstanding and it starts one, and they are that request's texts |
| Content.AnalyzeTwice | extension/content.js:86-117 | a second `analyzeFeed` call right after a first changes nothing and sends nothing |
| Content.Pipeline.AnalyzeFeed | extension/content.js:86-117 | while a request is outstanding nothing happens; otherwise the cached tags are injected and the next batch, if any, is marked pending and sent, with its texts as the result; the new page, request and sent texts are `Analyze` of the old state |
| Content.Pipeline.Dispatch | extension/content.js:104-117 | the flag is set together with the request in flight |
| Content.Pipeline.OnResponse | extension/content.js:118-163 | the flag is cleared; cache, page and storage become exactly what `Reply` gives for the outcome |
| Content.Pipeline.Commit | extension/content.js:119-162 | the flag is cleared together with the callback's writes |
| Debounce.Loaded | extension/content.js:178 | on load no debounce timer is pending and the initial timer is due 500 ms later |
| Debounce.Fired | extension/content.js:171-178 | when the clock reaches `t`, every due timer runs exactly once and no other runs, earliest first |
| Debounce.Advance | extension/content.js:171-178 | advancing the clock removes every due timer and keeps every timer not yet due, so only future ones are left |
| Debounce.Mutate | extension/content.js:170-173 | a mutation replaces any pending debounce timer by one due 2000 ms from now |
| Debounce.Replay | extension/content.js:167-178 | a time-ordered trace ends with the clock at its last event's time |
| Debounce.ReplayTracks | extension/content.js:167-178 | after any trace the debounce timer is due 2000 ms after the last mutation, and the initial timer has run at most once, exactly when due |
| Debounce.SettledAfterQuiet | extension/content.js:170-173 | a debounced analysis runs 2000 ms after the last mutation, with no mutation in between |
| Debounce.SettledWhenQuiet | extension/content.js:170-173 | when the clock passes 2000 ms after the last mutation, the debounced analysis runs |
| Debounce.LastMutationLatest | extension/content.js:170-171 | the last mutation of a time-ordered trace exists exactly when there is one, and none is later |
| Debounce.InitialOnce | extension/content.js:178 | the initial analysis runs once, at load + 500 ms, if the trace reaches that time, and never otherwise |
| Debounce.InitialRunsAppend | extension/content.js:178 | the initial runs of two parts of a trace add up |
| Debounce.Page.constructor | extension/content.js:176-178 | the page loads with the pipeline's initial state and the initial timer set |
| Debounce.Page.Tick | extension/content.js:171-178 | the timers advance; each due timer runs `analyzeFeed` once; the page, request and first sent texts are those of one `Analyze` call, later runs send nothing, and the cache and storage do not change |
| Debounce.Page.OnMutation | extension/content.js:168-174 | due timers run (one `Analyze` call if any is due), then the new elements are appended, the cached tags are injected over the whole page and the debounce timer restarts |
| Text.Trim | extension/content.js:78 | trimming never lengthens a string |
| Text.Utf16Length | extension/content.js:95 | JavaScript's `length`: between one and two units per character, exactly one per character when none lies above U+FFFF and exactly two when all do |
| Text.TrimSpec | extension/content.js:78 | the trim is the input without its longest whitespace prefix and suffix |
| Text.TrimIdempotent | backend/main.py:101-103 | trimming twice is trimming once |
| Text.ToLower | extension/content.js:22 | lower-casing maps each character, and only A-Z change |
| Text.ToLowerIdempotent | extension/content.js:149 | a lower-cased string has no upper-case letter left |
| Text.IndexOf | backend/main.py:103 | the first line break of the text, or none at all |
| Text.LastIndexOf | backend/main.py:103 | the last occurrence of the fence, or none at all |
| Dicts.Get | extension/content.js:80-81 | a key is found exactly when present, with the value stored under it |
| Dicts.Put | extension/content.js:139 | a write sets the key's value, keeps every other key, keeps an existing key's position and appends a new key |
| Dicts.PutExisting | extension/content.js:139 | writing an existing key replaces its entry in place |
| Dicts.CountsCount | extension/content.js:148-151 | the tally counts each lean exactly as often as it occurs |
| Dicts.CountsKeys | extension/content.js:148-151 | the tally has a key for exactly the leans that occur |
| Dicts.CountsSum | extension/content.js:152 | the counts add up to the number of cached results |
| Dicts.CountsPositive | extension/content.js:150 | every count is at least one |
| Dicts.SumPutIncrement | extension/content.js:150-152 | counting one more occurrence adds one to the total |
| Rounding.RoundHalfUp | extension/content.js:155 | `Math.round(p / q)` is the nearest integer, a half going up |
| Rounding.RoundHalfEven | backend/main.py:115-117 | Python `round(p / q)` is the nearest integer, a half going to the even neighbour |
| Rounding.RoundHalfUpWithin | extension/content.js:155 | a ratio between two integers rounds to a value between them |
| Rounding.RoundHalfEvenWithin | backend/main.py:125 | the same for Python's rounding |
| Rounding.RoundHalfUpMonotone | dashboard/src/App.jsx:433-436 | a larger ratio never rounds lower |
| Rounding.RoundExact | backend/main.py:115-117 | an exact ratio rounds to itself under either rule |
| Rounding.RulesDifferOnHalves | backend/main.py:115-117 | 2.5 becomes 3 in JavaScript and 2 in Python |
| Fence.StripFence | backend/main.py:101-103 | the stripped reply is trimmed; an unfenced reply is only trimmed; there is no result exactly when the reply is fenced and has no line break |
| Fence.UnfencedIsTrimmed | backend/main.py:101-102 | a reply without a leading fence is only trimmed |
| Fence.FenceWithoutNewline | backend/main.py:103 | a fenced reply on one line makes the request fail |
| Fence.FenceRoundTrip | backend/main.py:98-104 | fencing a body, with any language tag, and stripping the fence gives back the trimmed body |
| Fence.FencedNewline | backend/main.py:103 | in a fenced reply whose language tag has no line break, the first line break ends the tag, and the body and closing fence follow it |
| Fence.ClosingFence | backend/main.py:103 | the last fence after a body is the one closing it |
| Fence.ParsesFencedReply | backend/main.py:191-197 | a reply that parses is used as it is; a fenced reply that does not parse is read from the body inside the fence |
| Backend.Start | backend/main.py:16-27 | the state starts with an overall score of zero, the four tone keys and the four signal keys all at zero, empty summaries, no topics, no results, no batches and no time |
| Backend.Stamped | backend/main.py:107-108 | the i-th result carries the i-th sent text, or "" beyond the sent texts; nothing else changes |
| Backend.StampLoop | backend/main.py:107-108 | the loop gives exactly the stamped results |
| Backend.AddIsPut | backend/main.py:120 | `d[k] = d.get(k, 0) + v` writes the increased value |
| Backend.MergedKeys | backend/main.py:119-120 | the merged topics are the old topics plus the batch's topics |
| Backend.MergedGet | backend/main.py:119-120 | a batch topic gets its old weight (zero if new) plus the batch's weight; any other topic keeps its weight |
| Backend.MergeLoop | backend/main.py:119-120 | the merge loop gives exactly the merged topics |
| Backend.MeanFirst | backend/main.py:115-117 | the first batch sets the mean to its own value |
| Backend.MeanWithin | backend/main.py:115-125 | the running mean of values in a range stays in that range |
| Backend.Means | backend/main.py:122-130 | the tone and signal dictionaries keep their keys in their order |
| Backend.MeansGet | backend/main.py:122-130 | only the state's own keys change, each to its mean with the batch value (zero when missing); extra batch keys are ignored |
| Backend.MeansLoop | backend/main.py:122-130 | the loop gives exactly the means |
| Backend.FoldRecords | backend/main.py:107-134 | a batch counts once, its results are appended after the earlier ones, the fixed keys stay and the time is noted |
| Backend.FoldFirst | backend/main.py:111-130 | after a start or reset the first batch sets the overall score, tone and signals to its own |
| Backend.FoldPercent | backend/main.py:115-130 | scores between 0 and 100 stay between 0 and 100 however many batches arrive |
| Backend.MeansPercent | backend/main.py:122-130 | the means of percentages are percentages |
| Backend.GetOrPercent | backend/main.py:124 | a missing percentage defaults to 0, itself a percentage |
| Backend.ResetRestarts | backend/main.py:199-204 | after a reset the next batch restarts the count, the mean, the topics and the results list |
| Backend.Risk | backend/main.py:220-225 | the risk words are a function of the score's band only |
| Backend.AudioDigest | backend/main.py:211-225 | a 404 exactly when there is neither a summary nor a session tweet; otherwise the digest of the count, the score, its band's words and the summary |
| Backend.Server.constructor | backend/main.py:16-27 | the server starts in the initial state with an empty session |
| Backend.Server.Analyze | backend/main.py:72-139 | the tweets join the session first; an unparsable reply changes nothing else; otherwise the state is the fold of the reply, and the result is the stamped reply with the batch's first session index |
| Backend.Server.Reset | backend/main.py:199-204 | the session, the results, the count and the topics are cleared; the rest stays |
| Backend.Server.Results | backend/main.py:141-145 | `/results` always answers with the state: the dictionary always holds its keys, so the 404 for an empty one never occurs |
| Ranking.SortDescSorted | extension/popup.js:29-30 | the sorted entries are in non-increasing order |
| Ranking.SortDescPermutation | extension/popup.js:29-30 | the sorted entries are the same entries |
| Ranking.SortDescStable | extension/popup.js:29-30 | entries with equal values keep their entry order |
| Ranking.InsertDescending | extension/popup.js:29-30 | inserting into descending entries keeps them descending |
| Ranking.InsertMultiset | extension/popup.js:29-30 | inserting adds exactly the one entry |
| Ranking.InsertWithValue | extension/popup.js:29-30 | an inserted entry comes before the equal entries already there |
| Ranking.FirstMax | dashboard/src/App.jsx:425-427 | the position of the first entry with the largest value |
| Ranking.SortDescHead | dashboard/src/App.jsx:425-427 | the first sorted entry is the first entry with the largest value |
| Ranking.TopSpec | dashboard/src/App.jsx:431 | the top n are min(n, size) entries, drawn from the input, descending, and each at least as large as every input entry left out |
| Ranking.TopDescending | dashboard/src/App.jsx:431 | the top n are min(n, size) entries in non-increasing order |
| Ranking.LeftOutBelow | dashboard/src/App.jsx:431 | a prefix of a descending permutation is drawn from the input and is no smaller than what it leaves out |
| Ranking.DescendingAll | extension/popup.js:29-35 | in descending entries every earlier value is at least every later one |
| Popup.ManipColor | extension/popup.js:5-9 | the score colour is a function of the band only |
| Popup.Verdict | extension/popup.js:47-51 | the verdict is a function of the band only |
| Popup.VerdictMatchesColor | extension/popup.js:5-9 | two scores share a colour exactly when they share a verdict, exactly when they share a band |
| Popup.TopTopicsSpec | extension/popup.js:29-31 | at most three topics, the largest first, each a feed topic, and each at least as large as every topic left out |
| Popup.PositiveMembers | extension/popup.js:35 | the filter keeps exactly the entries with a positive share |
| Popup.PositiveDescending | extension/popup.js:33-35 | filtering descending entries keeps them descending |
| Popup.PoliticalBreakdownSpec | extension/popup.js:33-35 | exactly the leans with a positive share, in non-increasing order |
| Popup.Render | extension/popup.js:21-27 | nothing is shown without a stored analysis; otherwise the score is `overall ?? 0`, and its colour and verdict are its band's |
| Dashboard.ManipColor | dashboard/src/App.jsx:39-43 | the colour is `THEME.red`, `THEME.orange` or `THEME.greenBright` by band only |
| Dashboard.ManipLabel | dashboard/src/App.jsx:44-48 | the label is a function of the band only |
| Dashboard.ColorMatchesLabel | dashboard/src/App.jsx:39-48 | two scores share a colour exactly when they share a label, exactly when they share a band |
| Dashboard.PoliticalCount | dashboard/src/App.jsx:423 | no more political tweets than tweets |
| Dashboard.PoliticalPct | dashboard/src/App.jsx:422-424 | 0 without tweets; otherwise a percentage between 0 and 100 |
| Dashboard.PoliticalCountAll | dashboard/src/App.jsx:423 | the count is full exactly when every tweet is political, and zero exactly when none is |
| Dashboard.PoliticalPctExtremes | dashboard/src/App.jsx:422-424 | 100 when every tweet is political, 0 when none is |
| Dashboard.Without | dashboard/src/App.jsx:426 | the filter keeps exactly the entries whose key is not "unclear" |
| Dashboard.TopLeanSpec | dashboard/src/App.jsx:425-426 | the top lean is the first lean other than "unclear" with the largest share, and none when no such lean exists or its key is empty |
| Dashboard.TopTopicSpec | dashboard/src/App.jsx:427 | the top topic is the first topic with the largest weight, and none when there are no topics or that key is empty |
| Dashboard.TopicDataSpec | dashboard/src/App.jsx:431-436 | at most six topics, the top ones by weight, and their shown values still non-increasing |
| Dashboard.Ago | dashboard/src/App.jsx:421 | no age without a timestamp (or with timestamp 0); otherwise the rounded seconds since it |
| Dashboard.NoTopLeanFromResults | dashboard/src/App.jsx:418-427 | from `/results`, which has no `political_breakdown`, the dashboard never shows a top lean; colour and label follow the band |

## Behaviour of the code

- Two elements with the same text can be in one batch, since `tweetCache.set` runs for every answered text; the later result wins (`Content.PutAllLast`, `Content.SuccessLastWins`).
- The content script tests only `response?.success`, so rate limits and other failures take the same path. On that path the cache is unchanged and the batch is eligible again (`Content.Reply`, `Content.FailureRetries`).
- A reply with fewer results than texts leaves the rest untagged and uncached, so they are eligible again (`Content.UnansweredRetries`).
- The filter's `text.length > 10` counts UTF-16 code units, so a short text of characters above U+FFFF can pass it (`Content.AstralTextEligible`).

## Left out

- Text.Trim: only the ASCII whitespace characters (space, tab, line feed, vertical tab, form feed, carriage return) are trimmed. JavaScript `trim` and Python `strip` also remove the Unicode spaces and line separators (U+00A0, U+1680, U+2000-U+200A, U+2028, U+2029, U+202F, U+205F, U+3000, and U+FEFF for `trim`). Python `strip` also removes U+001C-U+001F and U+0085, which JavaScript `trim` keeps.
- Text.ToLower: lower-cases ASCII letters only.
- Rounding.RoundHalfUp: the sources round floating-point quotients (`v / total * 100`). The model rounds the exact ratio, so it differs only at floating-point ties.
- Backend.Mean: the same applies to Python's `round`. Reply values are integers; non-integer scores from the model are not modelled.
- DOM, HTML, CSS and console output: a tag is its label, score and colours. `POLITICAL_STYLES` appears only as the set of leans that have a style.
- Content.Pipeline.AnalyzeFeed: the request is the texts returned. The relay in `extension/background.js` is not part of this model. Its answer is the `Outcome` datatype.
- Content.Reply: a success reply is assumed to carry `data`. The script would throw on a success without it.
- Content.Respond: a `per_tweet` result lacking a text or an element ends its own `forEach` step only, and the model skips it the same way. A sent text is never empty, so that check only bounds the index.
- Content.Pipeline: `chrome.storage.local` is modelled as the last record written. Reads by other pages see that record.
- Content.Pipeline.AddElements: elements are only ever appended. Removal and re-rendering of elements by the page are not modelled.
- Debounce.Page.OnMutation: only mutations given as events count. The script's own tag and placeholder writes also trigger the observer; those are not modelled.
- JavaScript object key ordering and lookup for integer-like keys and prototype keys are not modelled. Every key keeps insertion order, and a key is found only when it was written. In the script, a lean such as "constructor" finds an inherited `POLITICAL_STYLES` entry without colours or label, where the model shows the "unclear" style. The same lean makes `leanCounts[lean] || 0` start from a function, so `+ 1` concatenates strings, where the model counts from 0.
- The language model, embedding, ElevenLabs and `httpx` calls are represented by their parsed reply or left out (`store_tweet_embeddings`, the vector store, text-to-speech). `backend/vector_service.py` is not part of this model.
- `/full-report`: only its reply parsing is modelled (the shared fence lemmas). The prompt and the report content are not.
- Backend.AudioDigest: yields the facts of the digest, not its sentence text or audio stream.
- Backend.Server.Analyze: `time.time()` is a parameter in integer milliseconds, and `json.loads` is a parameter. A parse of non-dictionary JSON and the `/analyze` failure status are not modelled.
- `/health` and `/debug` return constants or the state as is, and are not modelled.
- Dashboard: `emotionData`, `manipData`, polling, React state and the charts are not modelled.
