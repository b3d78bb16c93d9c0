# spineless-api, modelled in Dafny

spineless-api lets a signed-in user describe a mock REST endpoint by a name,
a description, a path, an HTTP method and a JSON schema. A language model then
fills the schema with realistic data. This project models the logic of the
web application that decides something, and proves what that logic promises:

- **`POST /api/mockapicall`** (`MockApiCall`) is the preview-generation route.
  Its steps are:
  - the authentication gate;
  - a daily quota kept per (user, day) row in `usage_quotas`, which defaults to
    0 used out of 10;
  - the prompt;
  - the greedy `\{[\s\S]*\}` cut of the model's reply;
  - parsing the cut text as JSON and printing it again with a two-space indent;
  - the mapping of every outcome to 200, 400, 401, 429 or 500.

  The table is the `rows` field of the class `QuotaTable`.
- **The dashboard** (`Dashboard`) covers:
  - the status badge;
  - the quota defaults and the remaining quota;
  - the page range;
  - the sort-column allow-list;
  - the endpoint-id list;
  - the id→path map built by a loop;
  - the "Unknown Path" merge;
  - the rounded average response time;
  - `fetchData` and the table handlers, as the class `DashboardPage`.
- **The request-volume chart** (`RequestVolume`): sorting a copy of the logs by
  time, the `YYYY-MM-DD` day labels, and the count-per-label loop.
- **The creation form** (`CreateApi`) covers:
  - path normalisation;
  - the endpoint row and the schema row inserted after it;
  - `validateSchema` and JavaScript's truthiness test on the parsed schema;
  - the re-entrancy guard of the test-response generator;
  - the two button guards.

  The form state is the class `CreateForm`, whose `inserts` field records the
  database writes in order.
- **The list of endpoints** (`ApisPage`) covers the public URL, the card
  fallbacks, `fetchApis`, and the ordered deletes with the filter on the local
  list. The page state is the class `ApisPage`, whose `deletes` field records
  the deletes in order.
- **The header title** (`SiteHeader`) and **the user's initials and display
  name** (`NavUser`).

The supporting modules are:

- `Text`: ASCII case mapping, `split`, `join`, `trim` and decimal text.
- `Json`: integer JSON values, and a printer with the layout of
  `JSON.stringify(v, null, 2)`.
- `JsonParse`: a parser with JavaScript's rule for duplicate keys.
- `JsonRoundTrip`: the proof that parsing the printed text of a well-formed
  value gives the value back.
- `Wrappers`: `Option`.

Supabase, the model provider, the clock and the browser become parameters:

- The database answers are functions passed to the methods.
- The language model is a function from the system and user messages to a
  completion or a provider error.
- The message of a JSON `SyntaxError` is a function `describe` of the text.
- "Today" and the 24-hour cutoff are arguments.
- The local calendar of the chart is a function from an instant to a
  (year, month, day).

Because the answers are parameters, every lemma holds for every answer they
could give.

Three behaviours of the code are worth stating on their own:

- A failing model call is rethrown and caught by the route's outer handler,
  which answers 500 (app/api/mockapicall/route.ts:130-137).
- The route records a quota unit before it calls the model
  (app/api/mockapicall/route.ts:51-61), and nothing gives it back when
  generation fails.
- A schema text that parses to a falsy JSON value (`0`, `false`, `""`, `null`)
  stops the submission and the test generation without an error message
  (app/dashboard/create/page.tsx:124-128). This is because `validateSchema`
  clears the message before the `!schema` test.

## Model

| member | source | states |
|---|---|---|
| MockApiCall.Effective | app/api/mockapicall/route.ts:43-44 | With no row for (user, day), the quota in force is 0 used out of the plan limit 10. Otherwise it is the stored row. |
| MockApiCall.Consumed | app/api/mockapicall/route.ts:51-61 | An admitted request adds one to the used count and keeps the limit. With no row, the new row is (1, 10). The result never exceeds its limit. |
| MockApiCall.DailyAllowance | app/api/mockapicall/route.ts:35-61 | A fresh user is admitted exactly 10 times a day. After n ≤ 10 admissions the row is (n, 10), and it is exhausted only when n = 10. |
| MockApiCall.ExhaustedStays | app/api/mockapicall/route.ts:45-50 | Once a row is exhausted, any number of further requests leaves it as it is. |
| MockApiCall.PromptCarriesSchema | app/api/mockapicall/route.ts:81-93 | The user message holds the schema's two-space printing verbatim at a known offset, and that slice parses back to the schema. |
| MockApiCall.IndexOf | app/api/mockapicall/route.ts:114 | The result is the first position holding the character, with none before it; `None` exactly when the character is absent. |
| MockApiCall.LastIndexOf | app/api/mockapicall/route.ts:114 | The result is the last position holding the character, with none after it; `None` exactly when the character is absent. |
| MockApiCall.CandidateIsGreedyMatch | app/api/mockapicall/route.ts:114-115 | When some `{` precedes some `}`, the cut text is the greedy match: from the first `{` through the last `}`, enclosing both. |
| MockApiCall.CandidateWithoutMatch | app/api/mockapicall/route.ts:115 | When no `{` is followed by a `}`, the whole reply is the candidate. |
| MockApiCall.CandidateShape | app/api/mockapicall/route.ts:114-115 | The candidate is either the whole reply or a greedy match. A cut candidate starts with `{` and ends with `}`. |
| MockApiCall.CandidateIdempotent | app/api/mockapicall/route.ts:114-115 | Cutting a candidate again changes nothing. |
| MockApiCall.GenerateStatuses | app/api/mockapicall/route.ts:66-137 | After the quota step the status is 200, 400 or 500. Every non-200 answer has result "" and an error. |
| MockApiCall.GenerateSuccess | app/api/mockapicall/route.ts:108-119 | 200 exactly when the body is read, the model completes and the candidate parses. The result is then the two-space printing of the parsed value, and parsing the result gives that value back. |
| MockApiCall.GenerateParseFailure | app/api/mockapicall/route.ts:120-129 | 400 exactly when the model completes but the candidate is not JSON. The error is "Failed to parse response as JSON: " followed by the parser's message. |
| MockApiCall.GenerateServerError | app/api/mockapicall/route.ts:130-137 | 500 exactly when the body cannot be read or the model call fails. A model failure is reported as "OpenAI API error: " followed by its message. |
| MockApiCall.QuotaTable.constructor | app/api/mockapicall/route.ts:37-42 | The table starts with the given rows. |
| MockApiCall.QuotaTable.Post | app/api/mockapicall/route.ts:26-137 | Without a user: 401, and the table is untouched. Over quota: 429, with the table unchanged. Otherwise only the (user, today) row gains one request, before generation and whatever generation answers. No row ever goes over its limit or below zero. The answer is always `Route` of the table as it was before the call. |
| MockApiCall.RouteStatuses | app/api/mockapicall/route.ts:29-137 | The route answers only 200, 400, 401, 429 or 500. 401 exactly when there is no user; 429 exactly when there is a user whose quota in force is exhausted. |
| Dashboard.StatusVariant | app/dashboard/page.tsx:93-103 | The badge is "default" exactly for 2xx, "destructive" exactly for 400 and above, and "secondary" for everything else. |
| Dashboard.RemainingAgreesWithRoute | app/dashboard/page.tsx:171-177 | The remaining quota shown (limit − used, line 382) is positive exactly when the route would admit a request. It is 10 when there is no row, and one request lowers it by one. |
| Dashboard.PagesTile | app/dashboard/page.tsx:191-192 | Each page spans exactly `pageSize` rows, and the next page starts right after it. Row r lies on page r / pageSize and on no other. |
| Dashboard.OrderByAllowList | app/dashboard/page.tsx:194-211 | The column is always one of the three allowed ones. An allowed requested column is kept, and any other becomes `request_time`. No rule means `request_time` descending. Ascending is the negation of `desc`. |
| Dashboard.EndpointIdsSpec | app/dashboard/page.tsx:231-234 | The id list has no duplicates. An id is listed exactly when some log carries it as a non-empty id. |
| Dashboard.PathMapDomain | app/dashboard/page.tsx:249-252 | The map has a key exactly for the ids of the fetched rows. |
| Dashboard.PathMapLast | app/dashboard/page.tsx:249-252 | For an id held by several rows, the last such row's path wins. |
| Dashboard.BuildPathMap | app/dashboard/page.tsx:249-252 | The accumulating loop builds exactly the id→path map. |
| Dashboard.MergePaths | app/dashboard/page.tsx:257-270 | The merge has one entry per log, in the same order, each merged on its own. |
| Dashboard.MergeSpec | app/dashboard/page.tsx:257-270 | Each log is kept as it was. A log gets no path exactly when it has no endpoint id, and gets "Unknown Path" when no fetched row has its id. |
| Dashboard.MergeFound | app/dashboard/page.tsx:264-268 | A log whose id a fetched row carries gets that row's path. |
| Dashboard.AverageResponseTime | app/dashboard/page.tsx:276-284 | 0 for no logs. Otherwise the shown average lies within half a unit of total/count, with halves rounded up as `Math.round` does. |
| Dashboard.AverageOfUniform | app/dashboard/page.tsx:276-284 | When every log took the same time, that time is the average shown. |
| Dashboard.RequestsSince | app/dashboard/page.tsx:286-293 | The "requests today" count never exceeds the number of logs on the page. |
| Dashboard.RequestsSinceSpec | app/dashboard/page.tsx:286-293 | Every log is counted exactly when all have a valid time at or after the cutoff, and none exactly when none has. A later cutoff never counts more. |
| Dashboard.LoadPaths | app/dashboard/page.tsx:230-273 | The endpoint lookup followed by the merge gives the merged page. No lookup is made without ids, and there are no paths when the lookup fails. |
| Dashboard.ShowAnswerSpec | app/dashboard/page.tsx:214-284 | An error is shown exactly when the logs query fails, and the logs and aggregates then stay as they were. Otherwise every fetched log is shown, in order, with both aggregates; an empty page shows zeros. |
| Dashboard.ShowLogs | app/dashboard/page.tsx:214-284 | The early exits and the merge produce what the page shows for the answer. |
| Dashboard.DashboardPage.constructor | app/dashboard/page.tsx:131-142 | The page starts loading, with 0 used of 10, the first page of 10 rows, and newest first. |
| Dashboard.DashboardPage.FetchData | app/dashboard/page.tsx:147-303 | Without a user, the page only redirects to sign-in. Otherwise the quota shown is the row or the default, the count defaults to 0, and the logs query runs for the current range and allowed order. Loading always ends, and the table state never changes. |
| Dashboard.DashboardPage.OnPageSizeChange | app/dashboard/page.tsx:441-444 | A new page size goes back to the first page. The order, the shown logs, the quota, the counts, the loading flag and the sign-in redirect stay as they were. |
| Dashboard.DashboardPage.OnPageChange | app/dashboard/page.tsx:440 | The page index becomes the new one. The page size, the order, the shown logs, the quota, the counts, the loading flag and the sign-in redirect stay as they were. |
| Dashboard.DashboardPage.OnSortingChange | app/dashboard/page.tsx:439 | The sort rules become the new ones. The page index and size, the shown logs, the quota, the counts, the loading flag and the sign-in redirect stay as they were. |
| RequestVolume.LabelLayout | components/ui/request-volume-chart.tsx:21-26 | A label is the year, `-`, two digits reading the 1-based month, `-`, and two digits reading the day. |
| RequestVolume.LabelLength | components/ui/request-volume-chart.tsx:21-26 | A four-digit year gives a 10-character `YYYY-MM-DD` label. |
| RequestVolume.LabelInjective | components/ui/request-volume-chart.tsx:21-27 | Two different calendar days never share a label, so each bucket is one day. |
| RequestVolume.Insert | components/ui/request-volume-chart.tsx:12-14 | Inserting one log adds exactly that log to the multiset. |
| RequestVolume.SortByTime | components/ui/request-volume-chart.tsx:12-14 | The sorted copy is a permutation of the logs. |
| RequestVolume.InsertSorted | components/ui/request-volume-chart.tsx:12-14 | Inserting into a time-sorted sequence keeps it sorted. |
| RequestVolume.SortSorted | components/ui/request-volume-chart.tsx:12-14 | The copy is sorted by time, with logs lacking a valid time last. |
| RequestVolume.CountByDay | components/ui/request-volume-chart.tsx:16-30 | The `forEach` loop over the sorted logs builds exactly the day buckets, skipping logs without a valid time. |
| RequestVolume.VolumeSeries | components/ui/request-volume-chart.tsx:10-30 | The memoised computation returns the series of the logs. The input sequence is a value, so it is not reordered. |
| RequestVolume.BumpDates | components/ui/request-volume-chart.tsx:27 | Counting a log adds its label at the end only when the label is new; otherwise the labels stay as they were. |
| RequestVolume.BumpCounts | components/ui/request-volume-chart.tsx:27 | Counting a log adds one to its own label's count and to the total, and to nothing else. |
| RequestVolume.BucketsSpec | components/ui/request-volume-chart.tsx:16-30 | The labels are distinct. The total is the number of logs with a valid time. Each label's count is the number of valid logs on that day, and a label appears exactly when that count is positive. |
| RequestVolume.SeriesCounts | components/ui/request-volume-chart.tsx:16-30 | Each entry's count is the number of valid logs whose day has that entry's label. |
| RequestVolume.LabelIn | components/ui/request-volume-chart.tsx:21-26 | A day is among the days exactly when its label is among their labels. |
| RequestVolume.BucketsFollowDays | components/ui/request-volume-chart.tsx:16-30 | The entries' labels are the labels of the logs' days in order of first appearance. |
| RequestVolume.DaysFromLogs | components/ui/request-volume-chart.tsx:17-19 | Every day in the series is the day of some log with a valid time. |
| RequestVolume.DaysIncrease | components/ui/request-volume-chart.tsx:12-28 | For time-sorted logs and a calendar that never runs backwards, the days strictly increase. |
| RequestVolume.BucketsChronological | components/ui/request-volume-chart.tsx:12-30 | The buckets of sorted logs come out in strictly increasing day order. |
| RequestVolume.SeriesChronological | components/ui/request-volume-chart.tsx:10-30 | When every log has a readable time, the series' labels are the days of the sorted copy, in strictly increasing order. |
| RequestVolume.SortKeepsTimed | components/ui/request-volume-chart.tsx:12-14 | Sorting keeps the number of logs with a valid time. |
| RequestVolume.SeriesTotal | components/ui/request-volume-chart.tsx:10-30 | The counts add up to the number of logs with a valid time. The series is empty exactly when there is no such log, and empty for no logs. |
| CreateApi.FormatPathShape | app/dashboard/create/page.tsx:131-133 | The stored path starts with `/`, has no upper case, and ends with the typed path lower-cased. It is one longer exactly when the typed path did not start with `/`. |
| CreateApi.FormatPathIdempotent | app/dashboard/create/page.tsx:131-133 | Formatting a formatted path changes nothing: no second `/` is added. |
| CreateApi.AcceptedSchema | app/dashboard/create/page.tsx:124-128 | A schema is accepted exactly when the text parses to a truthy JSON value, and the accepted value is that parse, with distinct keys. |
| CreateApi.BlankSchemaRejected | app/dashboard/create/page.tsx:62-71 | Text made only of white space never parses and never yields a schema. |
| CreateApi.NewEndpoint | app/dashboard/create/page.tsx:136-149 | The inserted row belongs to the user. Its path is the typed path formatted (`/`-led, lower case), its method the typed method upper-cased, and its name, description, status code and delay are the draft's. Its type is "JSON", its body the schema, and `is_active` is set. |
| CreateApi.SubmissionKeepsOrder | app/dashboard/create/page.tsx:156-165 | An endpoint insert, followed by a schema insert only for the id it returned, keeps every schema insert right behind the endpoint insert it references, with that endpoint's schema. |
| CreateApi.ServiceReplyParses | services/ai-service.ts:26-34 | The form receives a test response exactly when the route answered 200, and that text always parses as JSON. |
| CreateApi.CreateForm.constructor | app/dashboard/create/page.tsx:45-48 | A fresh form has sent nothing and has nothing in flight. |
| CreateApi.CreateForm.OnSchemaChange | app/dashboard/create/page.tsx:327-330 | Editing the schema replaces its text, clears the error, and changes nothing else. |
| CreateApi.CreateForm.ValidateSchema | app/dashboard/create/page.tsx:62-71 | Returns the parse of the schema text. It clears the error on success and sets "Invalid JSON format. Please check for syntax errors." otherwise. |
| CreateApi.CreateForm.HandleSubmit | app/dashboard/create/page.tsx:110-185 | Without a user nothing changes. Without an accepted schema nothing is inserted and submitting ends. Otherwise the endpoint row is inserted, and the schema row for the returned id follows only when data came back. Success leaves the form submitting with the redirect pending; a failure ends submitting. Every schema insert stays right behind its endpoint insert. |
| CreateApi.CreateForm.StartGeneration | app/dashboard/create/page.tsx:74-89 | A call while generating returns at once and changes nothing. Otherwise the request carries the name, the description and the accepted schema; without one, generating ends. |
| CreateApi.CreateForm.FinishGeneration | app/dashboard/create/page.tsx:91-106 | A reply replaces the test response, and a failure keeps the old one. Generating always ends. |
| CreateApi.SubmitEnabled | app/dashboard/create/page.tsx:425-432 | An enabled submit button means a signed-in user, no submission in flight, and a non-empty name, description, schema text and path. The path is stored with at most one added `/`. |
| CreateApi.GenerateEnabled | app/dashboard/create/page.tsx:399-401 | An enabled generate button means no generation in flight, a non-empty name and description, and a schema text with a character other than white space. |
| ApisPage.StripSlash | app/dashboard/apis/page.tsx:116 | Exactly one leading `/` is dropped when there is one; any other path is kept. |
| ApisPage.EndpointUrlLayout | app/dashboard/apis/page.tsx:116-117 | The URL is the origin, "/api/spineless/", the id, `/`, and then the stored path minus at most one leading `/`. |
| ApisPage.UrlOfCreatedPath | app/dashboard/apis/page.tsx:174 | For a path stored by the creation form, the URL ends with the typed path lower-cased and without its own leading `/`; the `/` the form adds never shows. |
| ApisPage.OrElse | app/dashboard/apis/page.tsx:172-173 | A missing or empty text gives way to the fallback; any other text is kept. |
| ApisPage.CardTextsNonEmpty | app/dashboard/apis/page.tsx:172-173 | A card never shows an empty description, nor an empty title for a form-stored path. The title is the path exactly when the name is missing, empty or equal to it. |
| ApisPage.WithoutMembers | app/dashboard/apis/page.tsx:93 | The filter keeps exactly the entries with another id and never grows the list. A list without the id is unchanged. |
| ApisPage.WithoutConcat | app/dashboard/apis/page.tsx:93 | Filtering a concatenation filters each part in place, so the kept entries keep their order. |
| ApisPage.WithoutIdempotent | app/dashboard/apis/page.tsx:93 | Filtering the same id twice removes nothing more. |
| ApisPage.ApisPage.constructor | app/dashboard/apis/page.tsx:31-35 | The page mounts with an empty list, loading, with nothing selected and nothing sent. |
| ApisPage.ApisPage.FetchApis | app/dashboard/apis/page.tsx:43-68 | Loading always ends. Without a user the list is untouched. Otherwise the rows (or `[]` for null) replace the list, and an error keeps it. |
| ApisPage.ApisPage.OnDelete | app/dashboard/apis/page.tsx:176-179 | The card's endpoint is selected and the dialog opens; nothing else changes. |
| ApisPage.ApisPage.DeleteApi | app/dashboard/apis/page.tsx:71-112 | With no selection nothing changes. Otherwise the schema rows are deleted first, and a schema error stops before the endpoint delete. On any error the list and the dialog are unchanged. On success the list is the old one without that id, and the dialog closes. The selection is always cleared and deleting always ends. Every endpoint delete stays behind its successful schema delete. |
| ApisPage.DeletesKeepOrder | app/dashboard/apis/page.tsx:76-90 | Sending the endpoint delete only after a successful schema delete keeps every endpoint delete behind its schema delete. |
| SiteHeader.NonEmptySpec | components/site-header.tsx:9 | `filter(Boolean)` keeps exactly the non-empty strings. |
| SiteHeader.SegmentsAround | components/site-header.tsx:9 | A `/` splits the path into its two sides' segments, so repeated, leading and trailing `/` add none. |
| SiteHeader.SegmentsShape | components/site-header.tsx:9 | Every segment is a non-empty run of characters other than `/`. |
| SiteHeader.NoSegments | components/site-header.tsx:9 | A path has no segment exactly when it consists only of `/`. |
| SiteHeader.SingleSegment | components/site-header.tsx:9 | A non-empty run without `/` is one segment. |
| SiteHeader.DefaultTitleWhenNoSegments | components/site-header.tsx:10 | A path of `/` only, the empty path included, is titled "Dashboard". |
| SiteHeader.DefaultTitleWords | components/site-header.tsx:10-14 | The word formatting leaves "Dashboard" as it is. |
| SiteHeader.OnlyLastSegmentCounts | components/site-header.tsx:10 | Whatever precedes the last segment, other segments included, does not change the title. |
| SiteHeader.TrailingSlashIgnored | components/site-header.tsx:9-10 | A trailing `/` does not change the title. |
| SiteHeader.TitleOfLastSegment | components/site-header.tsx:10-14 | The title of a path ending in segment w is the formatting of w alone. |
| SiteHeader.WordsAreTitleChars | components/site-header.tsx:11-14 | Split, capitalise and join agree with a character-by-character reading of the segment. |
| SiteHeader.WordsChars | components/site-header.tsx:11-14 | The title has the segment's length. Each `-` or `_` becomes a space. The first character, and each character after a separator, is upper-cased; every other character is kept. |
| SiteHeader.SingleWord | components/site-header.tsx:11-14 | A segment without separators only has its first character upper-cased. |
| SiteHeader.WordCount | components/site-header.tsx:11-14 | For a segment without spaces, the title has one more word than the segment has separators, the same number `split(/[-_]/)` gave. |
| NavUser.Pieces | components/nav-user.tsx:77 | Splitting the local part always gives at least one piece. |
| NavUser.UndefinedInInitials | components/nav-user.tsx:78-79 | As written, "_bob@x.com" gives "UNDEFINEDB". The corrected reading gives "B". |
| NavUser.InitialsThrow | components/nav-user.tsx:78-79 | As written, the initials throw (NaN has no `toUpperCase`) exactly when there is an email whose first two pieces are both empty. |
| NavUser.ThrowingExample | components/nav-user.tsx:77-79 | "_-@x" splits into three empty pieces, and its initials throw. |
| NavUser.InitialsShape | components/nav-user.tsx:76-80 | The corrected initials are at most two characters, none of them lower case. |
| NavUser.InitialsOfPieces | components/nav-user.tsx:77-80 | With two or more non-empty leading pieces, the initials are the upper-cased first characters of pieces 0 and 1. With one piece, they are its first two characters (or fewer) upper-cased. |
| NavUser.AsWrittenAgrees | components/nav-user.tsx:78-80 | Wherever the pieces it reads are not empty, the code as written does not throw and gives the corrected initials. |
| NavUser.BeforeFirst | components/nav-user.tsx:77 | `split("@")[0]` is the text before the first `@`. |
| NavUser.InitialsUseLocalPart | components/nav-user.tsx:77 | Only the part of the email before its first `@` affects the initials. |
| NavUser.DisplayNameFallback | components/nav-user.tsx:101 | Without a name, the display name is the email's local part, and the initials are read from that same text. |
| NavUser.DisplayNameNoAt | components/nav-user.tsx:101 | The display name contains an `@` only when it is the user's own name. |
| JsonParse.Parse | app/api/mockapicall/route.ts:118 | Whatever parses is a well-formed value: every object's keys are distinct. |
| JsonParse.SurrogatePairEscape | app/api/mockapicall/route.ts:118 | A `\uD83D\uDE00` escape pair in a string reads as the one character U+1F600. |
| JsonRoundTrip.PrintParse | app/api/mockapicall/route.ts:118-119 | Parsing the two-space printing of a well-formed value gives back that value. |
| Json.DedupeMembers | app/api/mockapicall/route.ts:118 | Resolving repeated keys as property assignment does leaves distinct keys and the same key set, and every member kept comes from the input. |
| Json.DedupeDistinct | app/api/mockapicall/route.ts:118 | An object without repeated keys is kept as it is. |
| Json.AssignMembers | app/api/mockapicall/route.ts:118 | Assigning a key keeps the other members, sets that key to the new value, and appends a new key at the end. |
| Json.AssignKeys | app/api/mockapicall/route.ts:118 | Assigning a key adds exactly that key to the key set. |
| Text.UpperString | app/dashboard/create/page.tsx:143 | `toUpperCase` keeps the length and upper-cases each character. |
| Text.LowerString | app/dashboard/create/page.tsx:132 | `toLowerCase` keeps the length and lower-cases each character. |
| Text.LowerStringIdempotent | app/dashboard/create/page.tsx:132 | Lower-casing twice is lower-casing once. |
| Text.Split | components/site-header.tsx:9 | `split` gives one more piece than the text has separators. |
| Text.SplitPiecesHaveNoSeparator | components/site-header.tsx:9 | No piece contains a separator. |
| Text.JoinSplit | components/site-header.tsx:11-14 | Joining the pieces of a one-character split with that character gives the text back. |
| Text.Before | components/nav-user.tsx:77 | `split(c)[0]` is a prefix without `c`, followed by `c` whenever it is shorter than the text. |
| Text.TrimEmpty | app/dashboard/create/page.tsx:400 | `trim()` is empty exactly when every character is white space. |
| Text.NatTextValue | components/ui/request-volume-chart.tsx:21 | The decimal digits of a number read back as that number. |
| Text.IntTextInjective | components/ui/request-volume-chart.tsx:21 | Different years print differently. |
| Text.Pad2Value | components/ui/request-volume-chart.tsx:21-26 | `padStart(2, "0")` of a number below 100 gives two digits reading that number. |

## Left out

- JsonParse.Parse: numbers are exact integers, and fractions and exponents are not parsed, because floating point is out of scope. So JavaScript's rounding of integers above 2^53, its exponent form for integers of 10^21 and above, and its `Infinity` (printed as `null`) for literals of 309 or more digits are not modelled. A lone surrogate escape such as `"\uD800"` is rejected, because a Dafny character cannot hold it; JavaScript accepts it. An escaped high and low surrogate pair is combined into one character, as JavaScript does. The reordering of integer-like keys that JavaScript objects apply is not modelled.
- Strings are sequences of Unicode code points, not of UTF-16 units. For a character beyond U+FFFF, `substring(0, 2)` (components/nav-user.tsx:80) and `[0]` (line 79) read half of it in JavaScript, and the model reads the whole character.
- The wording of V8's `SyntaxError` messages: the model takes it as the parameter `describe`.
- Database faults, network errors and the read-then-write race on the quota counter between concurrent requests. Every method sees the answers it is given, in sequence. A failing quota read is treated like a missing row.
- Time sources: `toISOString()` day keys, `Date.now()`, and the local-time getters. They are arguments (`today`, `cutoff`, the `calendar` function). Dashboard.RequestsSince counts logs at or after a given cutoff rather than computing it.
- RequestVolume.SortByTime: the chart's comparator returns `NaN` for a log with an unreadable time, which leaves the order to the engine. The model puts those logs last. The counts and the total do not depend on this choice, but the order of the days does: for logs [day 3, unreadable, day 1], V8 can leave all three in place, and the chart then lists day 3 before day 1. RequestVolume.SeriesChronological is therefore stated only for logs that all have a readable time.
- The live serving route under `/api/spineless/{id}/…`, which the public URL points to: app/api/spineless/[apiId]/[endpoint]/route.ts is not part of this model.
- `parseInt` of the status and delay inputs, which can give `NaN`: the draft holds integers.
- The other plain form setters (name, description, method, path, status, delay). They only store a value, and `CreateForm` takes the draft as a whole.
- Toasts, router pushes, spinners, the clipboard write and console logging. The 800 ms redirect timer of `handleSubmit` is the `redirecting` flag; the timer's later `setIsSubmitting(false)` and the navigation are left out.
- `fetchApis`' `order("created_at", descending)`: the ordering is done by the database, and the model keeps the rows in the order the query returns them.
- React's asynchronous state: the model applies each handler's updates at once, so stale closures and interleaved renders are not captured.
- CreateApi.CreateForm.StartGeneration: `generateAIResponse` throwing is the `None` reply of FinishGeneration. Its error text is not shown by the form and is not modelled.
- NavUser.InitialsShape: proved for the corrected `Initials`, not for the code as written, whose output for one empty leading piece contains "UNDEFINED" and which throws a `TypeError` for two (see Findings).
- Case mapping covers ASCII letters only. Non-ASCII case rules of `toUpperCase`/`toLowerCase` are not modelled.

## Findings

| source | as written | input that shows it | evidently intended | confidence | as-written member | corrected member |
|---|---|---|---|---|---|---|
| components/nav-user.tsx:79 | `(parts[0][0] + parts[1][0]).toUpperCase()` indexes an empty piece, giving `undefined`, which `+` spells out | `"_bob@x.com"` gives "UNDEFINEDB" (and `"a_@x"` gives "AUNDEFINED", `"_-@x"` throws a `TypeError`, because `undefined + undefined` is `NaN`, which has no `toUpperCase`) | an empty piece contributes no letter, as `charAt(0)` does: "B" | not executed; high | NavUser.UndefinedInInitials | NavUser.InitialsShape |
