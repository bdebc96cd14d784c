# n8n workflow popularity: the reconciliation core in Dafny

This project models the reconciliation core of the n8n workflow popularity
system. Three collectors each observe n8n workflows on one platform:

- the Discourse forum;
- YouTube;
- Google Trends.

Each collector maps what it sees to one row of the `workflows` table. A row is
identified by its platform, its normalised title and its country. The HTTP API
lists those rows by popularity.

The model covers these parts:

- **Title normalisation** (`utils.py`): lower-case, replace everything outside
  `[a-z0-9\s]` with a space, collapse whitespace, strip. This is the join key of
  the table.
- **The `workflows` row** (`api/models.py`): its platform enum, its evidence
  JSON, its nullable counters, and its column sizes and widths.
- **The upsert every collector performs.** Find the row by key. If there is one,
  raise the platform's counters to the maximum of stored and incoming, and
  replace the name, the evidence and (except on Google) the source URL.
  Otherwise insert a new row. Then commit or roll back. The table is a class
  (`Store.WorkflowStore`) whose `Upsert` method either commits the whole change
  or leaves the table as it was.
- **The forum GET with bounded retries** (`_get_with_retries`):
  - a 4xx other than 429 stops at once;
  - any other failure sleeps the doubling back-off plus jitter, and after a 429
    at least 20 to 30 seconds;
  - the two fetchers built on it;
  - the mapping of a topic to counters (replies, contributors, the likes summed
    over three per-post shapes) and to its source URL.
- **The YouTube search id extraction, the batch statistics fetch and the video
  mapping.**
- **The Google Trends fetch loop and its window statistics.** The recent mean is
  over the last 30 points and the previous mean is over the head. An empty frame
  ends the loop without a retry, and a success is followed by a polite pause.
  Also covered: the trend mapping, which stores views as the truncated recent
  mean.
- **`GET /workflows`:**
  - the optional platform and country filters;
  - `ORDER BY views DESC` (NULL last, ties in table order);
  - offset and limit;
  - the projection to metrics with the like and comment ratios.

The network, the clock and random numbers are parameters:

- A server is a function from request and attempt number to an outcome.
- Jitter draws are a function of the attempt number.
- The retry loops return the sleeps they would take instead of sleeping.
- A database commit is a boolean parameter (the server accepts or fails the
  commit). MySQL strict mode's refusal of over-long strings and out-of-range
  integers is modelled by `Models.Fits`.

Each retry loop and each accumulation loop of the source is a `method` with a
`while` or `for` loop. It is proved equal to a recursive function, and the
properties are proved about that function as lemmas.

Points of the upsert worth knowing:

- **Counters merged on update.** Only the platform's own counters are merged
  on update:
  - a forum update leaves `comments` as stored;
  - a YouTube update leaves `replies` and `contributors` as stored;
  - a Google update changes `views` only.
- **Google rows keep their source URL.** A Google update leaves `source_url`
  untouched. The forum and YouTube updates overwrite it, with null when the
  forum topic has no slug, id or url.
- **Forum contributors.** They are `len(posters)`, the length of the list the
  forum returns.
- **Null forum and YouTube titles.** A title present but null is normalised as
  the empty string and then refused by the NOT NULL `workflow_name` column, so
  the upsert rolls back.
- **Null search-result ids.** A YouTube search result whose `id` is null makes
  the whole search raise, wherever it stands among the results.

## Model

| member | source | states |
|---|---|---|
| Normalize.NormalizeTitle | utils.py:5-9 | a missing or empty title normalises to the empty string, and the result is never longer than the title |
| Normalize.Normalize | utils.py:5-9 | the normaliser on a present title: never longer than the title; its output form, idempotence and kept characters are stated by NormalizeIsNormal, NormalizeIdempotent and NormalizeKeepsWordChars |
| Normalize.NormalizeIsNormal | utils.py:7-9 | the result holds only `[a-z0-9]` and single spaces, with no leading or trailing space |
| Normalize.NormalizeFixesNormal | utils.py:5-9 | a title already in normal form is left unchanged |
| Normalize.NormalizeIdempotent | utils.py:5-9 | normalising twice gives the same result as normalising once |
| Normalize.NormalizeKeepsWordChars | utils.py:6-8 | with spaces removed, the result is the lower-cased title filtered to letters and digits: none is lost, added or reordered |
| Normalize.SeparatorRunsNormalizeAlike | utils.py:7-8 | titles differing only in a non-empty run of punctuation or whitespace between two parts normalise alike |
| Normalize.CaseDoesNotMatter | utils.py:6 | titles equal up to letter case normalise alike |
| Normalize.NormalizeExample | utils.py:5-9 | "N8N Gmail!!" and "n8n   gmail" both normalise to "n8n gmail" |
| Models.ParsePlatform | api/models.py:10 | a label maps back to the platform it names, and any label outside the enum names none |
| Models.PlatformLabels | api/models.py:10 | each platform has exactly one of the three enum labels, and distinct platforms have distinct labels |
| Models.ColumnDefault | api/models.py:13-17 | a counter left out of an insert is stored as 0, and a supplied one is stored as given |
| Models.Fits | api/models.py:8-18 | a row fits when its strings are within 512, 512, 8 and 1024 characters and its counters within signed 64 bits (32 for contributors); the upsert commits only such rows, as WorkflowStore.Upsert states |
| Store.FindRow | collectors/discourse_collector.py:83 | the row found has the key and no earlier row has it; no row is found only when no row has the key |
| Store.Merge | collectors/discourse_collector.py:84-91 | the update of a found row; CountOfMerge gives its counters, MergeKeepsIdentity its key and id, MergeIdempotent its idempotence |
| Store.NewRow | collectors/discourse_collector.py:92-106 | the inserted row; CountOfNewRow gives its counters, and its key is the observation's |
| Store.Upserted | collectors/discourse_collector.py:83-106 | the table after a committed upsert; UpsertShape, UpsertTouchesOnlyItsKey, UpsertKeepsKeysUnique and FindRowAfterUpsert state its shape |
| Store.CountOfMerge | collectors/discourse_collector.py:85-88 | a merged counter becomes max(stored or 0, incoming), and any other counter stays as stored |
| Store.MergeKeepsIdentity | collectors/discourse_collector.py:84-91 | an update changes neither the row's key nor its id |
| Store.CountOfNewRow | collectors/youtube_collector.py:59-69 | a new row stores each supplied counter and 0 for the others |
| Store.UpsertShape | collectors/discourse_collector.py:83-106 | an upsert updates in place when the key has a row, otherwise adds exactly one row; afterwards the key has a row |
| Store.UpsertTouchesOnlyItsKey | collectors/discourse_collector.py:83-106 | rows of other keys are unchanged, and a new row goes only at the end |
| Store.UpsertKeepsKeysUnique | collectors/discourse_collector.py:83-106 | sequential upserts never create a second row for a key |
| Store.UpsertKeepsIds | api/models.py:7 | auto-increment ids stay increasing along the table and below the next id |
| Store.UpsertNeverLowersCounters | collectors/discourse_collector.py:85-88 | no stored counter (null read as 0) goes down |
| Store.FindRowAfterUpsert | collectors/youtube_collector.py:49-70 | after an upsert the key's row is the one that was found, or the appended one |
| Store.MergeIdempotent | collectors/youtube_collector.py:52-57 | merging the same observation twice gives the same row as once |
| Store.UpsertIdempotent | collectors/youtube_collector.py:49-71 | upserting the same observation twice gives the same table as once |
| Store.DistinctPlatformsOrCountriesNeverMerge | collectors/trends_collector.py:76 | an observation of another platform or country never touches a row |
| Store.MaxSeen | collectors/discourse_collector.py:85-88 | the running maximum bounds every value seen and is one of them |
| Store.UpsertAllKeepsKeysUnique | collectors/discourse_collector.py:83-107 | any run of upserts keeps at most one row per key |
| Store.RunOnExistingRow | collectors/discourse_collector.py:83-91 | a run of upserts for a key that has a row keeps that row in place and merges each observation into it in turn |
| Store.MergeAllCounts | collectors/discourse_collector.py:85-88 | after a run of merges, a merged counter is max(stored, every value seen), and any other counter stays as stored |
| Store.RunningMaxOnExistingRow | collectors/discourse_collector.py:83-91 | after a run of upserts for a key that has a row, that row's merged counters are the maximum of stored and all values seen |
| Store.RunningMaxOnNewRow | collectors/discourse_collector.py:92-106 | a run of upserts for a new key appends one row, whose merged counters are the maximum of all values seen |
| Store.WorkflowStore.constructor | api/models.py:5-20 | the table starts empty, with the first id 1 |
| Store.WorkflowStore.Upsert | collectors/discourse_collector.py:83-112 | commits exactly when the server accepts and the row fits its columns, and the table becomes the upserted table; on failure the table is unchanged; `RowRejected` exactly when the row does not fit; the invariants (unique keys, increasing ids, rows fit) are kept |
| Http.ErrorCode | collectors/discourse_collector.py:25-27 | the status code is known exactly when a response arrived with a 4xx or 5xx status |
| Decimal.DigitsRoundTrip | collectors/discourse_collector.py:80 | the digits of a natural number read back as that number |
| Decimal.DigitsNoLeadingZero | collectors/discourse_collector.py:80 | a digit string starts with 0 only for 0 itself |
| Decimal.DecimalStringRoundTrip | collectors/discourse_collector.py:80 | `int(str(n)) == n`, sign included |
| Decimal.DecimalStringInjective | collectors/discourse_collector.py:80 | different ids print differently |
| Retry.BackoffIsPow2 | collectors/discourse_collector.py:17-38 | a back-off starting at 1 and doubled i times is 2^i |
| Retry.JitteredBounds | collectors/discourse_collector.py:34 | a back-off plus a jitter drawn from [0, 1) times the back-off lies in [b, 2b) |
| Discourse.GetWithRetries | collectors/discourse_collector.py:15-39 | the loop returns the requests, the result and the sleeps of the recursive retry definition from attempt 0 with back-off 1 |
| Discourse.SleepFor | collectors/discourse_collector.py:33-36 | the sleep after a retriable failure; SleepBounds bounds it |
| Discourse.RetryRun | collectors/discourse_collector.py:15-39 | the retry loop as a recursive definition; RetryReturnsFirstSuccess, RetryStopsOnFatal, RetryExhausts, RetryBounded and RetrySleeps state its outcomes |
| Discourse.RetryReturnsFirstSuccess | collectors/discourse_collector.py:18-23 | after only retriable failures, the first response that does not raise is returned, after k + 1 requests and k sleeps |
| Discourse.RetryStopsOnFatal | collectors/discourse_collector.py:29-32 | a 4xx other than 429 ends the loop with nothing, with no sleep after it and no further request |
| Discourse.RetryExhausts | collectors/discourse_collector.py:18-39 | when every attempt fails retriably, the loop gives up after exactly max_retries requests and sleeps after each |
| Discourse.RetryBounded | collectors/discourse_collector.py:15-39 | at most max_retries requests go out (none when it is not positive), and a body comes only from the last response, which did not raise |
| Discourse.RetrySleeps | collectors/discourse_collector.py:33-38 | the i-th sleep follows the i-th failure, which was retriable, with the back-off doubled i times |
| Discourse.RetrySleepsFromStart | collectors/discourse_collector.py:33-38 | from the start, the i-th sleep uses a back-off of 2^i seconds |
| Discourse.SleepBounds | collectors/discourse_collector.py:34-36 | a sleep lies in [b, 2b), and after a 429 in [20, max(2b, 30)) |
| Discourse.GetLatestTopics | collectors/discourse_collector.py:41-50 | fails exactly when the retries give up; an unparseable body or a missing topic list gives no topics, otherwise the topic list |
| Discourse.GetTopicDetails | collectors/discourse_collector.py:52-57 | fails when the retries give up or the body does not parse, otherwise returns the topic |
| Discourse.CountLikes | collectors/discourse_collector.py:68-77 | the nested accumulation loop computes the sum over posts of each post's likes, from its first shape |
| Discourse.SummaryLikes | collectors/discourse_collector.py:74-77 | the likes an actions summary records; SummaryLikesNonNegative bounds them |
| Discourse.PostLikes | collectors/discourse_collector.py:70-77 | the likes of one post from its first present shape; FirstShapeDecides states the order |
| Discourse.TotalLikes | collectors/discourse_collector.py:68-77 | the likes of a topic summed over its posts; CountLikes and TotalLikesAppend state it |
| Discourse.TotalLikesAppend | collectors/discourse_collector.py:69 | the likes of a thread are the likes of its first part plus those of the rest |
| Discourse.SummaryLikesNonNegative | collectors/discourse_collector.py:74-77 | an actions summary with non-negative counts records non-negative likes |
| Discourse.FirstShapeDecides | collectors/discourse_collector.py:70-77 | a post is counted by its first present shape only, and the later shapes are ignored |
| Discourse.Replies | collectors/discourse_collector.py:65-66 | replies are never negative and are posts_count - 1, floored at 0 |
| Discourse.TopicTitle | collectors/discourse_collector.py:62 | the title, "unknown" when the key is absent and None when it is null; UpsertTopic rolls back on None |
| Discourse.TopicSourceUrl | collectors/discourse_collector.py:78-80 | the source URL; TopicUrlNamesTopic states both branches |
| Discourse.TopicEvidence | collectors/discourse_collector.py:81 | the evidence object; TopicEvidenceMatchesCounters ties it to the counters written |
| Discourse.TopicUrlNamesTopic | collectors/discourse_collector.py:78-80 | with a slug and a non-zero id the URL is `{base}/t/{slug}/` followed by a segment that reads back as the id; otherwise it is the topic's own url |
| Discourse.TopicEvidenceMatchesCounters | collectors/discourse_collector.py:81 | the evidence records exactly the counts the row receives, with the topic id |
| Discourse.TopicUpsertFields | collectors/discourse_collector.py:84-105 | an update maxes views, likes, replies and contributors, replaces evidence, URL and name, and keeps comments, key and id; a new row has comments 0 |
| Discourse.TopicObservation | collectors/discourse_collector.py:62-81 | what a forum upsert writes; TopicUpsertFields and TopicEvidenceMatchesCounters state its fields |
| Discourse.UpsertTopic | collectors/discourse_collector.py:59-114 | a null title is rolled back; otherwise commits exactly when the store's upsert does, to the upserted table; a failure changes nothing |
| YouTubeCollector.ItemsOf | collectors/youtube_collector.py:21-22 | the items are returned exactly for a successful JSON response, a missing list being empty |
| YouTubeCollector.ExtractVideoIds | collectors/youtube_collector.py:23 | at most one id per item, none of them empty |
| YouTubeCollector.ExtractVideoIdsMembers | collectors/youtube_collector.py:23 | an id is listed exactly when it is non-empty and some item carries it |
| YouTubeCollector.ExtractVideoIdsAppend | collectors/youtube_collector.py:23 | ids keep the order of the items |
| YouTubeCollector.SearchVideos | collectors/youtube_collector.py:11-23 | a failed or non-JSON response is an error, and so is a result whose `id` is null; otherwise the extracted ids |
| YouTubeCollector.JoinCommaRoundTrip | collectors/youtube_collector.py:30 | splitting the joined ids at commas gives them back when none contains a comma |
| YouTubeCollector.FetchVideoStats | collectors/youtube_collector.py:25-35 | no ids means no request and no items; otherwise one request with all ids joined by commas |
| YouTubeCollector.VideoUrl | collectors/youtube_collector.py:47 | the URL is the watch prefix followed by the id, or by "None" when the id is missing |
| YouTubeCollector.VideoTitle | collectors/youtube_collector.py:45 | the title, "Untitled" when absent and None when null; VideoDefaults and UpsertVideo state both cases |
| YouTubeCollector.VideoDefaults | collectors/youtube_collector.py:41-45 | missing statistics count as 0 and a missing title as "Untitled" |
| YouTubeCollector.VideoObservation | collectors/youtube_collector.py:40-69 | what a YouTube upsert writes; VideoDefaults, VideoMergeFields and VideoLeavesForumCounters state its fields |
| YouTubeCollector.VideoMergeFields | collectors/youtube_collector.py:51-57 | an update maxes views, likes and comments, replaces evidence, URL and name, and keeps replies, contributors, key and id |
| YouTubeCollector.VideoLeavesForumCounters | collectors/youtube_collector.py:51-69 | a video upsert leaves replies and contributors as stored, or 0 on a new row |
| YouTubeCollector.SameTitleSameRow | collectors/youtube_collector.py:46-49 | two videos whose titles normalise alike share one row |
| YouTubeCollector.UpsertVideo | collectors/youtube_collector.py:37-78 | a null title is rolled back; otherwise commits exactly when the store's upsert does, to the upserted table; a failure changes nothing |
| Trends.RecentWindow | collectors/trends_collector.py:38 | the last min(n, 30) points of the series |
| Trends.PreviousWindow | collectors/trends_collector.py:39-44 | a previous window exists exactly when the series is longer than 30 points, and it is a non-empty head of the series |
| Trends.Recent | collectors/trends_collector.py:38 | the mean of the recent window; RecentInRange and FlatSeriesHasNoChange bound it |
| Trends.Previous | collectors/trends_collector.py:39-44 | the mean of the previous window, or the recent mean when there is none; ShortSeriesHasNoChange and FlatSeriesHasNoChange state it |
| Trends.ChangePct | collectors/trends_collector.py:45 | the change in percent; ChangeSign states its sign and ShortSeriesHasNoChange its zero case |
| Trends.TrendOf | collectors/trends_collector.py:48-55 | the payload of a non-empty series; TrendReturnsFirstSeries states when it is returned |
| Trends.WindowsDisjoint | collectors/trends_collector.py:38-44 | the two windows do not overlap: below 60 points they split the series exactly, from 60 on both have 30 points |
| Trends.ShortSeriesHasNoChange | collectors/trends_collector.py:43-45 | a series of at most 30 points reports a 0 change |
| Trends.MeanBounds | collectors/trends_collector.py:38 | a mean lies between the bounds of its values |
| Trends.RecentInRange | collectors/trends_collector.py:38 | an interest series in 0..100 has a recent mean in 0..100 |
| Trends.FlatSeriesHasNoChange | collectors/trends_collector.py:38-45 | a constant series reports that constant as its recent mean and a 0 change |
| Trends.ChangeSign | collectors/trends_collector.py:45 | with a positive previous mean, the change is positive exactly when interest rose, and negative exactly when it fell |
| Trends.GetTrend | collectors/trends_collector.py:22-63 | the loop returns the attempts, the result and the sleeps of the recursive fetch definition from attempt 0 with back-off 1 |
| Trends.TrendRun | collectors/trends_collector.py:27-63 | the fetch loop as a recursive definition; TrendReturnsFirstSeries, TrendStopsOnEmptyFrame, TrendExhausts and TrendSleeps state its outcomes |
| Trends.TrendReturnsFirstSeries | collectors/trends_collector.py:29-55 | after only raised attempts, the first non-empty series is summarised after k + 1 attempts, with one back-off sleep per earlier attempt and a final pause |
| Trends.TrendStopsOnEmptyFrame | collectors/trends_collector.py:35-36 | an empty frame ends the loop with nothing and is not retried |
| Trends.TrendExhausts | collectors/trends_collector.py:56-63 | when every attempt raises, the loop gives up after max_retries attempts and sleeps after each |
| Trends.TrendSleeps | collectors/trends_collector.py:47-61 | the i-th sleep after a raised attempt is the back-off doubled i times plus jitter; the pause after a series is the last sleep |
| Trends.PolitePauseBounds | collectors/trends_collector.py:47 | the pause after a success lies in [0.5, 1.3) seconds |
| Trends.Trunc | collectors/trends_collector.py:78 | `int()` on a float truncates toward zero |
| Trends.TrendUpdatesViewsOnly | collectors/trends_collector.py:77-80 | an update raises views to max(stored or 0, truncated recent mean), replaces evidence and name, and keeps every other counter and the URL |
| Trends.TrendViewsInRange | collectors/trends_collector.py:78-88 | for an interest series in 0..100 the views written lie in 0..100 |
| Trends.TrendObservation | collectors/trends_collector.py:72-93 | what a trend upsert writes; TrendUpdatesViewsOnly and TrendViewsInRange state its fields |
| Trends.UpsertTrend | collectors/trends_collector.py:65-103 | commits exactly when the store's upsert does, to the upserted table; a failure changes nothing |
| Listing.Filter | api/main.py:17-20 | every listed row is a table row matching the given filters |
| Listing.Matches | api/main.py:17-20 | a row matches when each given, non-empty filter equals its platform label or country; Filter, Rejected and FilterPartitions state its use |
| Listing.Rejected | api/main.py:17-20 | every dropped row fails the filters |
| Listing.FilterPartitions | api/main.py:17-20 | listed and dropped rows together are exactly the table's rows, each once |
| Listing.FilterNothing | api/main.py:17-20 | without filters every row is listed, in table order |
| Listing.SortByViewsCorrect | api/main.py:21 | the order is by views descending with NULL last, and it is a permutation of its input |
| Listing.SortByViews | api/main.py:21 | the views-descending order; SortByViewsCorrect states it is sorted and a permutation |
| Listing.InsertSorted | api/main.py:21 | inserting into a sorted list keeps it sorted |
| Listing.InsertPermutes | api/main.py:21 | inserting adds exactly the one row |
| Listing.Page | api/main.py:21 | the page holds min(limit, rows after offset) rows, the k-th being row offset + k |
| Listing.PageSorted | api/main.py:21 | a page of a sorted list is sorted |
| Listing.PagesAdjoin | api/main.py:21 | consecutive pages follow each other without gap or overlap |
| Listing.Ratio | api/main.py:33-34 | the ratio is 0 when views are 0 or null, otherwise ratio times views equals the count |
| Listing.RatioBounds | api/main.py:33 | the like ratio lies in [0, 1] when likes do not exceed views |
| Listing.Project | api/main.py:24-37 | one listed entry; ProjectMetrics states its fields |
| Listing.ProjectMetrics | api/main.py:24-37 | each entry echoes name, platform label, country and URL, reports null counters as 0, and has per-view ratios |
| Listing.ProjectAll | api/main.py:22-38 | the loop builds one entry per selected row, the k-th being the projection of the k-th row |
| Listing.ListWorkflows | api/main.py:14-40 | a negative limit or offset is an error; otherwise count equals the number of entries, and the k-th entry is the projection of the k-th selected row |
| Listing.Selected | api/main.py:16-21 | the page of matching rows; SelectedProperties and FirstPageListsAll state what it holds |
| Listing.SelectedProperties | api/main.py:16-21 | a page has at most limit rows, each matching the filters, highest views first |
| Listing.FirstPageListsAll | api/main.py:16-21 | a first page as large as the matching rows lists each of them exactly once |

## Left out

- Network I/O, time-outs, HTTP headers, the session and its user agents, the YouTube API key and the query parameters other than the page and the ids: a server is a parameter of the model.
- `time.sleep` and `random.random()`: sleeps are returned as values and random draws are parameters. The lemmas on sleep bounds assume draws in [0, 1).
- Floating point: means, ratios and percentages are exact reals, so rounding is not modelled.
- Python's `int()` on strings and the errors it raises on malformed counts: counts arrive as integers or as missing.
- JSON null where the code then raises: a null `post_stream`, `statistics`, `snippet` or `action_counts` value, or a null count passed to `int()`. Missing or null lists are treated as empty.
- Discourse.GetLatestTopics: a `topics` key that is present but null is returned by the source as None; the model returns the empty list.
- The print statements and the re-raise after a rollback: a failed upsert returns its error to the caller instead of raising.
- The auto-increment value consumed by a rolled-back insert: the model's next id only moves on commit.
- `created_at` and `updated_at`: they are server-side timestamps.
- MySQL's case-insensitive collation in the collectors' `filter_by` lookup: keys compare exactly.
- Listing.Matches: compares the platform label and the country exactly, whereas the listing's `.filter` comparisons (api/main.py:17-20) run under MySQL's case-insensitive collation, so a query for country "us" also lists rows stored as "US"; collation rules are not modelled.
- Any order among equal views other than table order: ties keep table order.
- Concurrent collectors: two sessions inserting the same new key at once could both insert, since the schema has no unique key. Upserts are modelled one at a time.
- Normalize.Lower: maps only ASCII letters; Python's `str.lower` also maps a few non-ASCII characters (U+0130, U+212A) to ASCII letters.
- `is_similar` (utils.py:11-15): it is never called by the reconciliation path.
- `build_pytrends_session` and pytrends itself: each attempt's outcome (an exception, an empty frame or a series) is a parameter.
- The `/health` endpoint and the FastAPI framing of `list_workflows` (query parsing, JSON response object). The integer 0 the source returns for a ratio when there are no views is modelled as the real 0.
- The collector scripts that drive the fetch-and-upsert runs: they are not part of this model. They call `upsert_trend` only with a trend present, so `UpsertTrend` takes a payload rather than an optional one.
