# StatusTracker: a verified model of the per-feed status tracker

StatusTracker polls RSS/Atom status feeds and reports new entries, oldest first, and it never reports an id it has already recorded.
Entries without an id or link, and entries without a timestamp, are never reported.
Two entries that share a new id in one batch are both reported.
One entry with a new id and an out-of-range timestamp abandons its whole batch; because its id is never recorded, the same feed content is abandoned again on every later poll.
This project models the part of it that decides what gets reported:

- `strip_html` (module `Html`) removes the tags from an entry summary.
- `extract_entry_time` (module `Feed`) picks an entry's timestamp.
- `StatusFeedTracker` (module `Tracker`) is a class with the two cache validators
  (`etag`, `lastModified`) and the seen-id set as mutable fields. Its methods are:
  - the conditional fetch of `fetch_feed`;
  - `process_entries` (`ProcessEntries`), whose two loops are the methods `CollectNewEntries` and `Report`, with the sort between them;
  - the "process only a non-empty body" gate of `run`.
- Module `Processing` holds the functions that specify `process_entries`:
  - which entries become candidates (`Screen`, `Collect`);
  - how they are ordered (`StableSort`);
  - what is emitted (`Emitted`).
  It also proves the properties the tracker promises: dedup, re-processing emits nothing,
  chronological and stable order, and which ids are recorded.
- Module `Scenarios` works through concrete examples on the model:
  - tag stripping;
  - chronological order;
  - two entries with the same id in one batch;
  - the two-cycle end-to-end run.

Design choices:

- **Regular expression.** `re.sub(r"<.*?>", "", s)` is modelled as a left-to-right scan.
  - A `<` that has a `>` later on the same line opens a match. The match ends at the first such `>` and is deleted.
  - Every other character is kept.
  - `.` does not match a line feed, so a tag split across lines survives.
- **Whitespace.** `str.strip()` removes exactly the characters for which Python's `str.isspace()` holds:
  - U+0009–U+000D, U+001C–U+001F, space;
  - U+0085, U+00A0, U+1680;
  - U+2000–U+200A, U+2028, U+2029, U+202F, U+205F, U+3000.
- **Datetime construction.** `datetime(*time_struct[:6])` raises `ValueError` for a field outside its range. Those range checks are modelled: year 1..9999, month, day of month with leap years, hour, minute, second.
  - Such an exception is caught by the handler around the whole of `process_entries`.
  - So an entry with a new id whose selected time struct (`updated_parsed`, else `published_parsed`) is out of range abandons the batch: nothing is emitted and the seen set is unchanged. An entry without id or link, an entry whose id was already seen, and an out-of-range `published_parsed` behind a valid `updated_parsed` do not.
  - `Screen` returns `Raise` for such an entry, and `Collect` then returns `None`.
- **Sorting.** `list.sort` is a library routine. It is modelled as the insertion sort `StableSort`. `StableSortUnique` proves that any two sorted sequences with the same incidents, taken in the same order within each timestamp, are equal. So every stable sort, Python's included, gives the same result as `StableSort`.
- **Proof cost of the examples.** In `TagStrippingExample` the example's three words are parameters fixed by its precondition rather than parts of one string literal. Evaluating the functions on the whole literal exceeds the solver's resource budget, so the example is proved through the general lemma `TagStrippingShape`. The statement is the same.
- **HTTP.** The HTTP client, and so the network, is the parameter `server`: a function from the request headers to a `Response`.
  - The response is either `RequestFailed` or a status with the `ETag` and `Last-Modified` headers and the body.
  - `raise_for_status` raises for every status outside 200–299.
  - The feed parser is the parameter `parse`, a function from the body to the list of entries.
- **Missing keys.** In an `Entry`, `None` stands for a key the entry lacks. `summary` defaults to `""` and `title` defaults to "Unknown Service", in both cases only when the key is missing.

## Model

| member | source | states |
|---|---|---|
| Html.LeadingSpaces | StatusTracker.py:53 | the count is the length of the maximal whitespace prefix: all of it is whitespace and the next character is not |
| Html.TrailingSpaces | StatusTracker.py:53 | the count is the length of the maximal whitespace suffix |
| Html.Strip | StatusTracker.py:53 | the result starts and ends with non-whitespace, and the input is whitespace, then the result, then whitespace |
| Html.StripOfTrimmed | StatusTracker.py:53 | text with no whitespace at either end is returned unchanged by strip |
| Html.StripIdempotent | StatusTracker.py:53 | stripping twice is stripping once |
| Html.FindClose | StatusTracker.py:52 | a found end of match is a '>' inside the text |
| Html.FindCloseSpec | StatusTracker.py:52 | the '>' found is the first one, with no line feed before it; when none is found, every '>' comes after a line feed, so `.*?>` cannot match |
| Html.StripTags | StatusTracker.py:52 | the substitution never makes the text longer |
| Html.AfterClose | StatusTracker.py:52 | after a match the scan resumes on a strictly shorter remainder |
| Html.AfterCloseSpec | StatusTracker.py:52 | that remainder is exactly the text after the '>' that ends the match, so nothing is skipped or kept twice |
| Html.StripHtml | StatusTracker.py:42-53 | the result has no leading or trailing whitespace; None and "" both give "" |
| Html.StripHtmlTagFree | StatusTracker.py:42-53 | `<.*?>` matches nowhere in what strip_html returns |
| Html.StripKeepsTagFree | StatusTracker.py:53 | trimming whitespace cannot create a match of `<.*?>` |
| Html.StripTagsTagFree | StatusTracker.py:52 | after the substitution, no '<' is followed by a '>' on the same line |
| Html.StripTagsOfTagFree | StatusTracker.py:52 | text in which the pattern matches nowhere is left unchanged by the substitution |
| Html.StripTagsIdempotent | StatusTracker.py:52 | removing tags twice is removing them once |
| Html.DeletesSingleLineTag | StatusTracker.py:52 | a '<', a run with no '>' and no line feed, and a '>' are deleted together, leftmost and shortest first |
| Html.KeepsMultiLineTag | StatusTracker.py:52 | a '<' whose '>' only comes after a line feed is kept |
| Html.KeepsPlainText | StatusTracker.py:52 | text without '<' passes through the substitution unchanged |
| Html.PlainTextIsOnlyStripped | StatusTracker.py:42-53 | on input without '<', strip_html only trims |
| Feed.ToDateTime | StatusTracker.py:75 | the constructor succeeds exactly when the first six fields are in range, and then holds those six fields |
| Feed.ExtractEntryTime | StatusTracker.py:56-75 | the updated time when present, else the published time, else no time; a time that is found is a valid datetime |
| Feed.PublishedIgnoredWhenUpdated | StatusTracker.py:67-70 | while the updated time is present, changing the published time does not change the result |
| Feed.NotAfterTotalOrder | StatusTracker.py:181 | the datetime comparison used as the sort key is a total order |
| Processing.ResolveId | StatusTracker.py:163-166 | an id exists exactly when the id or the link is non-empty; the id takes priority over the link |
| Processing.TitleOf | StatusTracker.py:175 | the entry's title whenever the key is present, even if empty; "Unknown Service" only when it is missing |
| Processing.Screen | StatusTracker.py:162-178 | an entry is skipped exactly when it has no id, an id already seen, or no time; the whole call is abandoned exactly when a new id has an out-of-range time; a kept entry yields its id, time, title and stripped summary |
| Processing.Collect | StatusTracker.py:160-178 | there are never more candidates than entries |
| Processing.CollectAppend | StatusTracker.py:162-178 | the candidates of a concatenation are those of its parts, in order, unless either part raises |
| Processing.CollectRaises | StatusTracker.py:171-196 | one entry whose datetime construction raises abandons the whole batch |
| Processing.CollectCompletes | StatusTracker.py:162-178 | without such an entry the first loop runs to the end |
| Processing.CollectSource | StatusTracker.py:162-178 | every candidate comes from an entry of the batch that passes all three checks |
| Processing.CollectComplete | StatusTracker.py:162-178 | when the batch does not raise, every entry that passes all three checks becomes a candidate |
| Processing.CollectSkip | StatusTracker.py:165-173 | an entry the first loop skips (`continue`) adds no candidate |
| Processing.CollectKeep | StatusTracker.py:175-178 | an entry that passes the checks appends its record to the candidates collected so far |
| Processing.CollectSnoc | StatusTracker.py:162-178 | appending such an entry to a batch appends its record to the batch's candidates |
| Processing.CollectBoth | StatusTracker.py:162-178 | when the batch does not raise, two entries of one batch that pass the checks both become candidates, counted with multiplicity |
| Processing.Insert | StatusTracker.py:181 | inserting adds exactly the one incident |
| Processing.InsertSorted | StatusTracker.py:181 | inserting into a sorted sequence keeps it sorted |
| Processing.InsertWithTime | StatusTracker.py:181 | the inserted incident joins the back of its timestamp group and no other group changes |
| Processing.StableSort | StatusTracker.py:181 | the result is sorted by time, is a permutation of the input, and keeps the input order within each timestamp |
| Processing.StableSortUnique | StatusTracker.py:181 | two sorted sequences with the same timestamp groups are equal, so every stable sort agrees with StableSort |
| Processing.WithTimeCount | StatusTracker.py:181 | a timestamp group holds each incident of that time as often as the whole sequence does, and nothing else |
| Processing.DistinctTimesOrder | StatusTracker.py:181 | when no two candidates share a timestamp, the output is the one ascending arrangement of the candidates |
| Processing.WithTimeOfDistinct | StatusTracker.py:181 | without shared timestamps, each timestamp group holds at most one incident |
| Processing.GroupsPermuted | StatusTracker.py:181 | rearranging a sequence rearranges each of its timestamp groups |
| Processing.ShortPermutation | StatusTracker.py:181 | two sequences of at most one element that hold the same elements are equal |
| Processing.SameGroups | StatusTracker.py:181 | rearranging incidents with distinct timestamps leaves every timestamp group unchanged |
| Processing.Emitted | StatusTracker.py:160-193 | the emitted records are in non-decreasing time order; they are a permutation of the candidates with feed order kept among equal times; nothing is emitted when the batch raises |
| Processing.EmittedSource | StatusTracker.py:162-178 | every emitted record comes from an entry with an id or link, an id not seen before the call, and a time; an entry with neither id nor link is never emitted |
| Processing.BothEmitted | StatusTracker.py:168-193 | when the batch does not raise, two entries of one batch that pass the checks are both emitted, even with the same id, because the seen set is only updated after the checks |
| Processing.IdsOfSnoc | StatusTracker.py:193 | emitting one more record adds exactly its id to the recorded ids |
| Processing.ScreenMonotone | StatusTracker.py:168-169 | against a larger seen set, an entry can only drop out |
| Processing.EmittedShrinks | StatusTracker.py:168-169 | when the batch does not raise against the smaller seen set, a record emitted against a larger seen set is also emitted against the smaller one |
| Processing.ReprocessingEmitsNothing | StatusTracker.py:168-193 | processing the same entries again, after their ids were recorded, emits nothing |
| Processing.UndatedIdNotRecorded | StatusTracker.py:171-193 | an id that only undated entries carry is never added to the seen set |
| Tracker.StatusFeedTracker.constructor | StatusTracker.py:95-104 | a new tracker has no validators and an empty seen set |
| Tracker.StatusFeedTracker.ConditionalHeaders | StatusTracker.py:117-123 | If-None-Match is sent exactly when the etag is non-empty, If-Modified-Since exactly when last_modified is, each with the validator's value, and nothing else is sent |
| Tracker.StatusFeedTracker.FetchFeed | StatusTracker.py:109-145 | the request headers as above; a 2xx reply returns its body and overwrites both validators, possibly with None; a 304, another non-2xx status or a request error returns no body and leaves both validators unchanged |
| Tracker.StatusFeedTracker.CollectNewEntries | StatusTracker.py:160-178 | the first loop computes exactly the candidates Collect(entries, seen), or None when the datetime constructor raises |
| Tracker.StatusFeedTracker.Report | StatusTracker.py:183-193 | the second loop emits the records in the given order, and the new seen set is the old one plus exactly their ids |
| Tracker.StatusFeedTracker.ProcessEntries | StatusTracker.py:147-196 | the records emitted are Emitted(entries, seen before the call), and the new seen set is the old one plus exactly the emitted ids |
| Tracker.StatusFeedTracker.PollOnce | StatusTracker.py:208-211 | one polling pass: the fetch as above, then processing only when a body arrived and is non-empty; otherwise nothing is emitted and the seen set is unchanged |
| Scenarios.TagThenWord | StatusTracker.py:52 | a one-line tag followed by a word without '<' loses the tag and keeps the word |
| Scenarios.LoneTag | StatusTracker.py:52 | a lone one-line tag is deleted entirely |
| Scenarios.TagStrippingShape | StatusTracker.py:52 | for any three '<'-free words inside four one-line tags shaped like `<p>w1<b>w2</b>w3</p>`, the tags go and the words remain, concatenated |
| Scenarios.ExampleTags | StatusTracker.py:52 | the substitution turns "<p>Service <b>X</b> degraded</p>" into its three words |
| Scenarios.ExampleWords | StatusTracker.py:53 | "Service X degraded" has nothing to strip |
| Scenarios.TagStrippingExample | StatusTracker.py:42-53 | strip_html("<p>Service <b>X</b> degraded</p>") is "Service X degraded" |
| Scenarios.ScreenDated | StatusTracker.py:162-178 | a dated entry with a new non-empty id is kept with its record |
| Scenarios.TwoCandidates | StatusTracker.py:162-178 | two dated entries with new non-empty ids yield their two records in feed order |
| Scenarios.ThreeCandidates | StatusTracker.py:162-178 | three dated entries with new non-empty ids yield their three records in feed order |
| Scenarios.ChronologicalSort | StatusTracker.py:181 | the records stamped 12:00, 10:00, 11:00 sort to 10:00, 11:00, 12:00 |
| Scenarios.ChronologicalExample | StatusTracker.py:181-183 | entries stamped T3, T1, T2 in feed order are emitted as T1, T2, T3 |
| Scenarios.SameIdTwiceExample | StatusTracker.py:168-193 | two new entries with the same id in one batch are both emitted |
| Scenarios.FirstCycleSort | StatusTracker.py:181 | the records a at 10:00 and b at 09:00 sort to b, a |
| Scenarios.IdsOfPair | StatusTracker.py:193 | emitting two records records their two ids |
| Scenarios.FirstCycle | StatusTracker.py:160-193 | entries a at 10:00 and b at 09:00 are emitted as b, then a |
| Scenarios.EndToEnd | StatusTracker.py:95-196 | a new tracker emits b then a on the first cycle and records {a, b}; the same entries on the second cycle emit nothing |

## Left out

- The HTTP client's transport, timeout and exception classes are left out, because they are foreign I/O. Every failure of the request itself becomes `RequestFailed`, with no body and no state change. That includes what the catch-all handler of `fetch_feed` catches.
- `feedparser.parse` is left out, because its internals are not visible. It is the parameter `parse`, and an exception raised inside it is not modelled.
- The asyncio machinery is left out: the `run` loop's repetition, `asyncio.sleep`, cancellation, closing the client, and `main` with its `gather`. This is scheduling and concurrency. `PollOnce` models one pass of the loop body.
- Log records and their `strftime` formatting are left out, because they are output plumbing. An emission is the record (time, title, summary, id) appended to the returned sequence, in order.
- The catch-all handler of `process_entries` is modelled only for the one exception the modelled logic can raise, the `ValueError` of the datetime constructor. No other exception is modelled.
- `MAX_TRACKED_IDS` is left out, because the code never uses it. The seen set grows without bound, so no size bound is stated. This follows the code, not the stated goal of bounded memory.
- `feedUrl` and `interval` are kept only as fields. They are used by the request and by the sleep, and both of those are outside the model.
- Strings are sequences of Unicode code points. A Dafny `char` cannot hold a lone surrogate, which a Python `str` can; such strings are not modelled.
