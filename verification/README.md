# Sentiment front end: list logic of the four views

This project models, in Dafny, the pure list logic inside the four views of a
customer-sentiment monitoring front end, and proves properties about it:

- **Message browser** (`MessageViewer`): a message is shown when it passes a
  case-insensitive text search, an emotion-tag filter and a channel filter
  (`"all"` switches a filter off). The results are cut into pages of ten, and
  a Previous/Next pager moves between pages within bounds. The score badge
  has four colour bands. The browser state (query and page) is a small state
  machine.
- **Alert-rule editor** (`AlertConfig`): append a default rule, edit one
  field of one rule, remove one rule, and rename fields between the backend
  shape (`emotion_type`, `time_window`) and the page shape (`emotion`,
  `timeWindow`).
- **Dashboard** (`Dashboard`): a per-channel message histogram built by a
  left fold, chart entries with a colour table and a gray fallback, the
  positive/negative/zero buckets of one day, and the five most recent
  messages.
- **Root-cause analysis** (`RootCauseAnalysis`): the negative-score messages,
  their contents as posted to the backend, the first three as examples, the
  guard on the Start Analysis button, and the fixed lists of the result.

Shared pieces: `Seqs` (JavaScript `filter` and `slice` semantics, counting,
and "picked as an ordered subsequence"), `Text` (ASCII `toLowerCase` and
`includes`, with a reference definition of substring occurrence), and
`Messages` (the message record, score-sign predicates and the emotion
badge palette). An option type in `RootCauseAnalysis` stands for the `null`
the page posts.

Everything is immutable datatypes over `seq` and pure functions. The network
and the clock are not modelled. The backend's answers (the summary text, the
emotion distribution) and the random day filler are parameters.

The alert-firing engine and the statistics aggregation live in the backend;
the page only fetches their results, so they are not part of this model. The
analysis examples are the first three negative messages in the order the
list arrives, with no re-sorting. An analysis with no negative messages is
not an error path: the button is disabled instead.

## Model

| member | source | states |
|---|---|---|
| Seqs.FilterIsOrderedSubsequence | src/components/MessageViewer.jsx:19-25 | `filter` keeps an order-preserving subsequence: the kept positions strictly increase, and position j is kept exactly when its element passes the predicate |
| Seqs.Slice | src/components/MessageViewer.jsx:30 | `slice(start, end)` is the run of elements from the placed start to the placed end (a negative argument counts from the end, both are clamped to the list), empty when they cross; for non-negative start and end its length is `max(0, min(end, n) - start)` |
| Seqs.Filter | src/components/MessageViewer.jsx:19 | every kept element passes the predicate and comes from the input, and every input element that passes is kept |
| Text.Lower | src/components/MessageViewer.jsx:20 | lower-casing keeps the length, turns each letter A-Z into the matching a-z and keeps every other character |
| Text.LowerIdentifiesCase | src/components/MessageViewer.jsx:20 | two strings lower-case to the same string exactly when they agree character by character up to ASCII case |
| Text.IncludesIsOccurrence | src/components/MessageViewer.jsx:20 | the `includes` scan is true exactly when the needle occurs at some offset of the haystack |
| MessageViewer.SearchMatches | src/components/MessageViewer.jsx:20 | the search matches exactly when the lower-cased term occurs in the lower-cased content; the empty term matches everything |
| MessageViewer.SearchIgnoresCase | src/components/MessageViewer.jsx:20 | lower-casing the content or the term beforehand never changes the search outcome |
| MessageViewer.SearchUpToCase | src/components/MessageViewer.jsx:20 | a content and a term that differ from others only in ASCII case give the same search outcome |
| MessageViewer.Matches | src/components/MessageViewer.jsx:20-24 | a message matches exactly when the lower-cased term occurs in its lower-cased content, it carries the picked tag or the emotion is "all", and its channel is the picked one or the channel is "all" |
| MessageViewer.FilteredMessages | src/components/MessageViewer.jsx:19-25 | every shown message matches all three filters and comes from the input; every matching input message is shown |
| MessageViewer.FilteredIsOrderedSubsequence | src/components/MessageViewer.jsx:19-25 | the filtered list is an order-preserving subsequence of the messages; position j is kept iff message j matches search, emotion and channel together |
| MessageViewer.FilterSelectsSemantics | src/components/MessageViewer.jsx:21-22 | with "all" the emotion or channel test is vacuous; a message with several tags passes the emotion filter for each of its tags |
| MessageViewer.DefaultQueryShowsEverything | src/components/MessageViewer.jsx:12-25 | the initial query (empty search, all emotions, all channels) shows every message in order |
| MessageViewer.TotalPages | src/components/MessageViewer.jsx:28 | the page count is the ceiling of n/10: the pages hold all n messages and one page fewer would not |
| MessageViewer.PageOf | src/components/MessageViewer.jsx:29-30 | a page has at most ten messages, is the contiguous run starting at (page-1)*10, and is non-empty for every page from 1 to the page count |
| MessageViewer.PagesReassemble | src/components/MessageViewer.jsx:28-30 | concatenating pages 1 to the page count gives back the filtered list exactly |
| MessageViewer.EveryMessageHasAPage | src/components/MessageViewer.jsx:28-30 | message i of the filtered list is entry i mod 10 of page i/10+1, which is a real page |
| MessageViewer.PreviousPage | src/components/MessageViewer.jsx:152 | Previous never goes below page 1 and otherwise goes back exactly one page |
| MessageViewer.NextPage | src/components/MessageViewer.jsx:161 | Next never goes past the last page and otherwise goes forward exactly one page |
| MessageViewer.PagerStaysInRange | src/components/MessageViewer.jsx:143-162 | while the pager is shown and the page is in range, both buttons keep it in range, and each is disabled exactly at the bound where it could not move |
| MessageViewer.ScoreColor | src/components/MessageViewer.jsx:47-52 | four disjoint bands covering every integer: green above 5, blue 1..5, yellow -4..0, red -5 and below |
| MessageViewer.Click | src/components/MessageViewer.jsx:143-166 | with the pager shown, an enabled Previous moves one page back and an enabled Next one page on; a hidden pager or a disabled button changes nothing; the query is never changed, and an in-range page stays in range |
| MessageViewer.StepAsWritten | src/components/MessageViewer.jsx:67-101 | as written, typing or picking puts the new value into the query and keeps the page number unchanged; the pager events are the clicks |
| MessageViewer.StalePageHidesTheOnlyMatch | src/components/MessageViewer.jsx:143 | as written, page 2 of eleven messages followed by picking "email" leaves one match, an empty page, a hidden pager and buttons that change nothing |
| MessageViewer.Step | src/components/MessageViewer.jsx:67-101 | typing or picking puts the new value into the query and, corrected, resets the page to 1; the pager events are the clicks; each event keeps the page between 1 and the page count |
| MessageViewer.StepsKeepPageInRange | src/components/MessageViewer.jsx:12-30 | after any sequence of events the page is in range, and whenever something matches something is on screen |
| MessageViewer.SessionsKeepPageInRange | src/components/MessageViewer.jsx:12-30 | from the opening state (empty search, all, all, page 1), every sequence of events keeps the page in range and shows something whenever something matches |
| MessageViewer.InRangePageShowsMatches | src/components/MessageViewer.jsx:106 | with the page in range and at least one match, between one and ten messages are on screen |
| Messages.EmotionColor | src/components/AlertConfig.jsx:129-142 | happy, angry, frustrated and confused each get their own class and no other tag gets it; every other tag, neutral included, gets gray (the browser's copy at MessageViewer.jsx:32-45 is the same map) |
| AlertConfig.FromWire | src/components/AlertConfig.jsx:45-50 | a backend config becomes a page rule with emotion_type as emotion and time_window as timeWindow, threshold and enabled copied |
| AlertConfig.ToRequestBody | src/components/AlertConfig.jsx:112-117 | the posted body, read back as a page rule, is the rule that was saved |
| AlertConfig.WireRoundTrip | src/components/AlertConfig.jsx:45-50 | reading a backend config and posting it back reproduces the config unchanged |
| AlertConfig.LoadConfigs | src/components/AlertConfig.jsx:45-50 | the fetched list becomes one rule per config in order, each posting back as its source config |
| AlertConfig.AddAlert | src/components/AlertConfig.jsx:81-89 | exactly one rule {neutral, 5, 15, enabled} is appended at the end and every earlier rule is unchanged |
| AlertConfig.Apply | src/components/AlertConfig.jsx:93 | the edited field takes the new value and every other field of the rule is kept |
| AlertConfig.UpdateAlert | src/components/AlertConfig.jsx:91-94 | the length is kept, only the edited field of the rule at the index changes, every other rule is unchanged |
| AlertConfig.SavedConfig | src/components/AlertConfig.jsx:96-97 | the config saved after an edit is the updated rule, carrying the new value |
| AlertConfig.UpdateSameFieldTwice | src/components/AlertConfig.jsx:91-94 | two edits of the same field of the same rule: the later one wins |
| AlertConfig.UpdatesCommute | src/components/AlertConfig.jsx:91-94 | edits of different fields or different rules give the same list in either order |
| AlertConfig.RemoveAlert | src/components/AlertConfig.jsx:100-102 | a valid index removes exactly that rule, keeps the rest in order and shortens the list by one; any other index leaves the list unchanged |
| AlertConfig.RemoveUndoesAdd | src/components/AlertConfig.jsx:81-102 | removing the rule just added restores the previous list |
| AlertConfig.RuleBadge | src/components/AlertConfig.jsx:224 | a rule card's badge is green exactly for happy, red exactly for angry, orange exactly for frustrated, yellow exactly for confused, and gray exactly when its emotion has no colour of its own, so the default neutral rule is gray |
| Dashboard.Bump | src/components/Dashboard.jsx:62 | one reduce step raises the count of exactly the message's channel by one and the total by one |
| Dashboard.BumpKeys | src/components/Dashboard.jsx:62 | one reduce step adds the channel to the keys and nothing else, and never duplicates a key |
| Dashboard.ChannelDataKeys | src/components/Dashboard.jsx:61-64 | the histogram's keys are exactly the channels that occur, none recorded twice |
| Dashboard.BumpKeyOrder | src/components/Dashboard.jsx:62 | one reduce step leaves the listed keys in place and appends the channel at the end when it is new |
| Dashboard.ChannelDataKeyOrder | src/components/Dashboard.jsx:61-66 | the histogram lists channels in the order they first occur: one more message keeps the list and appends its channel only if it has not occurred before |
| Dashboard.ChannelDataLookup | src/components/Dashboard.jsx:61-64 | the count under a channel is the number of messages on that channel, and 0 for a channel that does not occur |
| Dashboard.ChannelData | src/components/Dashboard.jsx:61-64 | the histogram folded over the messages has counts adding up to the number of messages |
| Dashboard.ChannelDataCounts | src/components/Dashboard.jsx:61-64 | the histogram has one key per channel that occurs and no other; each count is the number of messages on that channel; the counts sum to the number of messages |
| Dashboard.PaletteColor | src/components/Dashboard.jsx:57 | a key in the colour table gets its table colour unless that colour is empty; any other key, or an empty colour, gets #6b7280 |
| Dashboard.ChartData | src/components/Dashboard.jsx:54-58 | one chart entry per histogram key, in order, with the key and count copied unchanged and the colour from the table or the fallback (also the channel chart at lines 66-70) |
| Dashboard.ChartDataKeepsTotal | src/components/Dashboard.jsx:66-70 | the chart entries' counts add up to the histogram's total |
| Dashboard.EmotionData | src/components/Dashboard.jsx:54-58 | one entry per emotion of the distribution, in order, with its count, coloured from the emotion table or #6b7280 for an emotion outside it; the counts add up to the distribution's total |
| Dashboard.ChannelChartData | src/components/Dashboard.jsx:61-70 | one bar per channel that occurs, no channel twice, each named by an occurring channel and counting the messages on it, coloured from the channel table or the fallback; the bars add up to the number of messages |
| Dashboard.ChannelBarsCount | src/components/Dashboard.jsx:61-64 | each histogram entry is an occurring channel with the number of messages on it |
| Dashboard.ChartColorFallback | src/components/Dashboard.jsx:5-17 | emotions and channels outside the tables are drawn #6b7280; neutral's own table colour equals the fallback |
| Dashboard.BarOf | src/components/Dashboard.jsx:47-49 | a bucket shows its exact count when that count is non-zero and falls back to the estimate exactly when it is zero |
| Dashboard.DayBuckets | src/components/Dashboard.jsx:32-49 | a day with messages counts them; each bucket is exact exactly when its sign occurs, and then holds the number of messages of that sign; otherwise it is the estimate from the day's count with 4 tenths (positive) or 3 tenths (negative, zero); an empty day uses the filler count and estimates only |
| Dashboard.SignCountsPartition | src/components/Dashboard.jsx:47-49 | the positive, negative and zero-score counts of a day add up to its number of messages |
| Dashboard.DayBarsAccountForEveryMessage | src/components/Dashboard.jsx:33-49 | for a day with messages, the exact buckets add up to the day's count and at least one bucket is exact |
| Dashboard.RecentMessages | src/components/Dashboard.jsx:184 | the recent list is the prefix of the messages of length min(5, n) |
| Dashboard.RecentScoreColor | src/components/Dashboard.jsx:196-202 | a recent message's badge is green exactly above 0, red exactly below 0, gray exactly at 0 |
| RootCauseAnalysis.NegativeMessages | src/components/RootCauseAnalysis.jsx:71 | every selected message has score below 0 and comes from the input; every input message with score below 0 is selected |
| RootCauseAnalysis.NegativeIsOrderedSubsequence | src/components/RootCauseAnalysis.jsx:27 | the negative messages are the order-preserving subsequence of exactly the positions with score below 0, as many as such positions |
| Seqs.FilterLength | src/components/RootCauseAnalysis.jsx:91 | the filtered list is exactly as long as the number of elements passing the predicate, so the announced count of negative messages is the number of negative scores |
| RootCauseAnalysis.MessageContents | src/components/RootCauseAnalysis.jsx:28 | the contents list has the same length and order as the negative messages; element i is the content of negative message i |
| RootCauseAnalysis.Request | src/components/RootCauseAnalysis.jsx:27-38 | the posted body holds one content per negative message, as many as there are negative scores, in order, and a null emotion filter |
| RootCauseAnalysis.RequestCarriesNegativeContents | src/components/RootCauseAnalysis.jsx:27-38 | the posted request has one content per negative message, each the content of an input message with score below 0, and no emotion filter |
| RootCauseAnalysis.ExampleMessages | src/components/RootCauseAnalysis.jsx:61 | the examples are the prefix of the negative list of length min(3, n) |
| RootCauseAnalysis.ExamplesAreFirstNegatives | src/components/RootCauseAnalysis.jsx:61 | there are min(3, number of negative messages) examples, they are the first negative messages in order, each with score below 0 and from the input |
| RootCauseAnalysis.Analyze | src/components/RootCauseAnalysis.jsx:46-62 | the result carries the backend summary, the fixed issue, channel and action lists, and as examples the first min(3, number of negative messages) negative messages in order |
| RootCauseAnalysis.AnalyzeDisabled | src/components/RootCauseAnalysis.jsx:99 | the button is disabled exactly while an analysis runs or when no message has a score below 0 |
| RootCauseAnalysis.ClickAnalyze | src/components/RootCauseAnalysis.jsx:97-100 | an analysis is produced exactly when none is running and some message is negative; it is then the analysis of the messages with the backend's summary, with one to three examples |
| RootCauseAnalysis.FixedListsIgnoreInput | src/components/RootCauseAnalysis.jsx:48-60 | the issue, channel and action lists are the same whatever the messages and the summary |

## Left out

- The alert-firing engine (trailing-window counts, thresholds, cooldown) and the statistics aggregation (average score, dominant emotion, emotion distribution). No code for them exists in these sources: the page fetches their results from a backend. The emotion distribution is an input to `Dashboard.EmotionData`.
- Every `fetch` call, HTTP status check, error banner, and the `loading`, `saving` and `isAnalyzing` flags' asynchronous updates. This is network I/O against a backend that is not part of this model; `isAnalyzing` is a parameter of the button guard.
- The Dashboard timeline dates (`Date`, locale strings), the one-decimal average and the `Math.random` filler for empty days. These need a clock, floating point and randomness. The filler count is a parameter of `Dashboard.DayBuckets`.
- Dashboard.BarOf: the fallback `Math.floor(count * 0.4)` or `* 0.3` is kept symbolic as `Estimate(base, tenths)` and not evaluated, because it is floating-point arithmetic.
- Text.Lower: only ASCII A-Z are lower-cased, because `toLowerCase`'s full Unicode case mapping is not modelled.
- Dashboard.ChannelData: the histogram is a plain object in the source. The model keeps keys in insertion order and counts every key alike. JavaScript lists integer-like keys (such as "2" before "10") ahead of the others, finds inherited names such as `constructor` on an empty object, and never stores `__proto__` as a key. The documented channels chat, email and ticket (src/types/index.js:11) hit none of these, so for them the model is exact; other channel strings are not covered.
- Messages.Message: `score` is an integer here, while the message shape (src/types/index.js:10) says number. Fractional scores are not modelled; for example a score of 0.5 falls in the browser's blue band and counts as positive.
- Dashboard.PaletteColor: JavaScript object lookup also finds keys inherited from `Object.prototype` (such as `constructor`), which are not modelled; the tables are plain maps.
- AlertConfig.UpdateAlert: requires an index inside the list, because the only callers pass the index of a rendered rule card. In JavaScript, an integer index at or past the end would extend the array with a partial rule holding only the edited field, with empty slots before it when the index is past the end. A negative or non-integer index would become an ordinary property: the array's length and the rendered rules stay as they were, and a partial config is posted. Neither partial rule has a place in a typed model.
- AlertConfig.AlertRule: thresholds and windows are integers. The `NaN` that `parseInt` gives for an empty input is not modelled, and neither is its serialisation to `null`.
- The `min`/`max` attributes of the threshold and window inputs. They are browser hints, not enforced validation.
- The email-settings form (recipients, enable switch) and the recent-alerts list in the alert editor. They are form state and display of fetched data.
- The application shell, DOM mounting, the message-entry form and the styling wrappers. Their only logic is a prepend of the new message and a blank-content guard.

## Findings

| source | as written | input that shows it | evidently intended | confidence | as-written member | corrected member |
|---|---|---|---|---|---|---|
| src/components/MessageViewer.jsx:15 | changing the search text or a select keeps `currentPage`, so the page can exceed the new page count; with one page left the pager is hidden and cannot bring the user back | eleven messages (one on channel email first, ten on chat); click Next to page 2; pick channel "email": one match, page 2 shows nothing, no pager | reset the page to 1 whenever the query changes, so a page between 1 and the page count is always shown | medium, not executed | MessageViewer.StalePageHidesTheOnlyMatch | MessageViewer.StepsKeepPageInRange |
