# youtube-apify-transcript, modelled in Dafny

`scripts/fetch_transcript.py` fetches the transcript of a YouTube video through
the Apify actor `karamelo~youtube-transcripts`. It does three things:

1. It turns the link or bare ID the user gives into a video ID
   (`extract_video_id`).
2. It starts a run of the actor with the canonical watch link. It then polls
   the run's status every two seconds, for at most 120 seconds, and fetches the
   first item of the run's dataset (`run_apify_actor`).
3. It renders that item as plain text (`format_transcript_text`) or as a JSON
   document (`format_transcript_json`).

This project models those three parts and proves, for each, the properties
listed under "## Model".

| file | module | what it holds |
|---|---|---|
| `wrappers.dfy` | `Wrappers` | `Option` (Python's `None` or a value) and `Result` |
| `text.dfy` | `Text` | the string operations the script calls (`strip`, `lstrip`, `split`, `join`, `in`, `lower`), the leading and trailing trims `strip` is made of, and the character searches urlsplit relies on, with their laws |
| `url.dfy` | `Url` | `urllib.parse.urlparse` and `parse_qs` (CPython 3.12 behaviour) as far as `extract_video_id` reads them |
| `video_id.dfy` | `VideoId` | `extract_video_id` and its five rules, and the finding below about watch links carrying `feature=youtu.be` |
| `transcript.dfy` | `Transcript` | the transcript record, both formatters as methods with loops, and their specification functions |
| `job_driver.dfy` | `JobDriver` | `run_apify_actor` as a method with its polling loop, proved against the function `ActorRun` |

The network, the clock and `time.sleep` are parameters of the job driver:

- `submit` is the reply to the start request.
- `poll(k)` is the reply to the `k`-th status request.
- `fetch` is the reply to the dataset request.
- `elapsed(k)` is `time.time() - start_time` at the `k`-th test of the `while`
  loop.

A reply is either no response (a `RequestException` raised before any
status, such as a connection error or a read timeout) or a status code with a body.
The body is absent when `response.json()` fails. The driver returns the
outcome together with the list of HTTP requests it sent.

The outcomes are these:

- the first dataset item;
- `AuthError` (401) and `QuotaError` (402);
- `TransportError`, tagged with the step that failed;
- `RemoteFailure`, tagged with the lower-cased status;
- `LocalTimeout` and `EmptyResult`;
- `MissingField`, for a reply that parses but lacks a key the script indexes
  (the script would raise an uncaught `KeyError`).

Where the script's docstrings and comments describe more than its code does,
the model follows the code:

- **The `youtu.be` rule** (lines 51-53) checks neither length nor alphabet. It
  returns the whole path without its leading slashes, the empty string
  included (`VideoId.ShortLinkYieldsPath`).
- **The embed and shorts patterns** (lines 63-70) are searched, not anchored at
  the end. A longer path segment gives its first eleven characters
  (`VideoId.EmbedSearch`, `VideoId.ShortsSearchTail`).
- **The `v` value** (line 59) is returned unchecked (`VideoId.ResultShape`).
- **The bare-ID pattern** (line 73) ends in `$`, which also matches before one
  final newline. An ID followed by `"\n"` is returned with the newline
  (`VideoId.BareIdKeepsNewline`).
- **The local timeout** (line 133) fires as soon as the elapsed time reaches
  120 seconds, not only once it exceeds it. No status request goes out at or
  after that time.
- **Failed status checks.** Only 4xx and 5xx statuses make `raise_for_status`
  fail. A reply with another status and a JSON body is read like a success.
- **The dataset** is fetched only after a `SUCCEEDED` status, so `EmptyResult`
  happens only then.

## Model

| member | source | states |
|---|---|---|
| Text.StripEnds | scripts/fetch_transcript.py:187 | `str.strip()` never lengthens a string and leaves no whitespace at either end |
| Text.StripSlice | scripts/fetch_transcript.py:187 | the stripped text is the contiguous slice left after removing the leading and the trailing whitespace runs, and all removed characters are whitespace |
| Text.StripIdempotent | scripts/fetch_transcript.py:187 | stripping twice is stripping once |
| Text.StripEmptyIffBlank | scripts/fetch_transcript.py:187-188 | a caption's stripped text is empty (the `if text:` test fails) exactly when the text is all whitespace |
| Text.StripUnchanged | scripts/fetch_transcript.py:207 | a text with no whitespace at either end is kept as it is |
| Text.StripDropFirst | scripts/fetch_transcript.py:207 | a leading whitespace character does not affect the stripped text |
| Text.StripDropLast | scripts/fetch_transcript.py:207 | a trailing whitespace character does not affect the stripped text |
| Text.TrimStartShape | scripts/fetch_transcript.py:53 | `lstrip("/")` removes a prefix made only of slashes and keeps the rest, which does not start with a slash |
| Text.TrimEndShape | scripts/fetch_transcript.py:187 | the trailing half of `strip()` removes a suffix of whitespace and keeps the prefix before it |
| Text.TrimStartSnoc | scripts/fetch_transcript.py:53 | how `lstrip` treats a string extended by one character |
| Text.JoinSplit | scripts/fetch_transcript.py:53 | joining the pieces of `s.split(c)` with `c` gives back `s` |
| Text.SplitJoin | scripts/fetch_transcript.py:191 | splitting a join of `c`-free pieces at `c` gives back the pieces |
| Text.JoinEmpty | scripts/fetch_transcript.py:191 | a join of non-empty pieces is empty exactly when there are no pieces |
| Text.JoinSnoc | scripts/fetch_transcript.py:189-191 | appending a line adds the separator and that line to the join |
| Text.RemoveAllAppend | scripts/fetch_transcript.py:56 | deleting the characters urlsplit drops distributes over concatenation |
| Url.UrlParse | scripts/fetch_transcript.py:56 | the parsed path holds no `?` or `#`, and the query holds no `#` |
| Url.FirstValue | scripts/fetch_transcript.py:59-60 | the lookup finds nothing exactly when no pair has that name; otherwise it gives the value of the first pair with that name |
| Url.ParseQsl | scripts/fetch_transcript.py:59 | `parse_qs` keeps no blank value |
| Url.ParseHttpsUrl | scripts/fetch_transcript.py:56 | an `https://host/path?query` link parses into exactly that host, path and query |
| Url.ParsePlain | scripts/fetch_transcript.py:56 | text without a scheme or delimiters parses as a path alone |
| Url.CleanUrlUnchanged | scripts/fetch_transcript.py:56 | a link that starts with a visible character and has no tab, CR or LF is not altered by urlsplit's cleaning |
| VideoId.SearchToken | scripts/fetch_transcript.py:63-70 | `re.search`: nothing is found exactly when no marker plus eleven ID characters occurs; otherwise the eleven characters after the leftmost occurrence are returned |
| VideoId.ShortLinkResult | scripts/fetch_transcript.py:51-53 | any input containing `youtu.be` yields the parsed path with its leading slashes removed (only slashes), whatever that path is |
| VideoId.VValueFirst | scripts/fetch_transcript.py:58-60 | without `youtu.be`, the first `v` value of the query is the result, whatever the path |
| VideoId.ShortLinkRule | scripts/fetch_transcript.py:51-53 | the first rule returns the path without its leading slashes; the `?` cut removes nothing |
| VideoId.LongLinkShape | scripts/fetch_transcript.py:58-74 | the other rules return the first `v` value, eleven ID characters, or the input itself when it is a bare ID; with no `v` value, only the last two |
| VideoId.ResultShape | scripts/fetch_transcript.py:48-76 | a result for a link without `youtu.be` is the unchecked `v` value, an eleven-character ID, or the bare-ID input |
| VideoId.LongLinkNone | scripts/fetch_transcript.py:58-76 | the other rules give `None` exactly when none of them applies: no `v` value, no embed, legacy or shorts match, not a bare ID |
| VideoId.NoneMeansNoRule | scripts/fetch_transcript.py:48-76 | the result is `None` exactly when there is no `youtu.be`, no `v` field, no embed, legacy or shorts pattern, and the input is not a bare ID |
| VideoId.WatchLinkYieldsId | scripts/fetch_transcript.py:59-60 | the watch link built from an ID gives that ID back |
| VideoId.ShortLinkYieldsPath | scripts/fetch_transcript.py:51-53 | `https://youtu.be/<s>` gives `<s>` for any `s` without delimiters, of any length, the empty string included |
| VideoId.SlashPath | scripts/fetch_transcript.py:52-53 | the first rule on `/<s>` gives `<s>` |
| VideoId.EmbedSearch | scripts/fetch_transcript.py:63-65 | `/embed/` or `/v/`, then an ID, then anything: the ID is returned, however the path goes on |
| VideoId.ShortsSearchTail | scripts/fetch_transcript.py:68-70 | `/shorts/`, then an ID, then anything: the shorts search returns that ID, however the path goes on |
| VideoId.ShortsSearch | scripts/fetch_transcript.py:63-70 | a shorts path matches no embed pattern, and its shorts match is the ID |
| VideoId.EmbedBeforeShorts | scripts/fetch_transcript.py:62-70 | without `youtu.be` or a `v` value, an embed or legacy match is the result, whatever the shorts search would find |
| VideoId.ShortsAfterEmbed | scripts/fetch_transcript.py:62-74 | a shorts match decides only when the embed and legacy search finds nothing, and it comes before the bare-ID rule |
| VideoId.PathRules | scripts/fetch_transcript.py:62-70 | a path of a marker and an ID is decided by the path rules and gives the ID |
| VideoId.PathLinkYieldsId | scripts/fetch_transcript.py:62-70 | embed, legacy and shorts links on `www.youtube.com` give their ID back |
| VideoId.BareIdRules | scripts/fetch_transcript.py:72-74 | for a bare ID, the bare-ID rule is the one that fires |
| VideoId.BareIdYieldsItself | scripts/fetch_transcript.py:72-74 | a bare eleven-character ID is its own result |
| VideoId.BareIdKeepsNewline | scripts/fetch_transcript.py:73-74 | an ID followed by a newline is returned with the newline |
| VideoId.TaggedLinkMisread | scripts/fetch_transcript.py:51-53 | a watch link with a query field naming `youtu.be` yields `watch`, whatever its ID |
| VideoId.ShareLinkMisread | scripts/fetch_transcript.py:51-53 | as written, `…watch?v=<id>&feature=youtu.be` yields `watch` for every ID |
| VideoId.TaggedLinkYieldsId | scripts/fetch_transcript.py:51-60 | with the short-link test on the host, a tagged watch link yields its ID |
| VideoId.ShareLinkYieldsId | scripts/fetch_transcript.py:51-60 | with the short-link test on the host, `…watch?v=<id>&feature=youtu.be` yields `<id>` |
| VideoId.ByHostShortLink | scripts/fetch_transcript.py:51-53 | with the short-link test on the host, `youtu.be` links behave as before |
| VideoId.ByHostWatchLink | scripts/fetch_transcript.py:59-60 | with the short-link test on the host, plain watch links behave as before |
| Transcript.FormatTranscriptText | scripts/fetch_transcript.py:176-191 | the loop's output is `TextOutput(r)`: the fallback when there are no captions, else the non-blank stripped texts joined by newlines |
| Transcript.FormatTranscriptJson | scripts/fetch_transcript.py:194-218 | the loop's output is `JsonOutput(r, id)`: the ID, the title or `Unknown`, one entry per kept caption, and the full text |
| Transcript.KeptTexts | scripts/fetch_transcript.py:185-189 | the kept lines are never more than the captions, and none of them is empty |
| Transcript.KeptSelection | scripts/fetch_transcript.py:205-214 | the entries are exactly the captions with non-blank text, in caption order, each with its start, duration and stripped text |
| Transcript.IndicesIncreasing | scripts/fetch_transcript.py:206 | the kept captions keep their order |
| Transcript.IndicesMembership | scripts/fetch_transcript.py:206-209 | a caption is kept exactly when its stripped text is not empty |
| Transcript.EntriesAtIndices | scripts/fetch_transcript.py:210-214 | the `j`-th entry is the entry of the `j`-th kept caption |
| Transcript.KeptTextsOfEntries | scripts/fetch_transcript.py:205-214 | `texts` is the list of the entries' texts |
| Transcript.EntriesTrimmed | scripts/fetch_transcript.py:207-213 | no entry text is empty or has whitespace at either end, and there are no more entries than captions |
| Transcript.FullTextJoinsTranscript | scripts/fetch_transcript.py:216 | `full_text` is the entries' texts joined by spaces |
| Transcript.TextMatchesJson | scripts/fetch_transcript.py:176-216 | with captions present, the text output has the same lines as the JSON transcript |
| Transcript.TextEmptyIffAllBlank | scripts/fetch_transcript.py:185-191 | with captions present, the text output is empty exactly when every caption is blank |
| Transcript.NoCaptionsFallback | scripts/fetch_transcript.py:178-183 | with no captions, the text is `text` or the fixed message, and the JSON has no entries and an empty full text |
| Transcript.JsonHeader | scripts/fetch_transcript.py:198-203 | the JSON carries the given video ID and the title, or `Unknown` without one |
| Transcript.TextLinesRecoverable | scripts/fetch_transcript.py:191 | when no kept line holds a newline, splitting the text at newlines gives back the lines |
| Transcript.PaddedCaption | scripts/fetch_transcript.py:187 | a caption text `" b "` is read as `b` |
| Transcript.KeptOfThree | scripts/fetch_transcript.py:186-189 | captions reading `a`, `b` and blank keep the lines `a` and `b` |
| Transcript.TextExampleLines | scripts/fetch_transcript.py:186-189 | captions `"a"`, `" b "` and `""` keep the lines `a` and `b` |
| Transcript.TextExample | scripts/fetch_transcript.py:176-191 | those three captions render as `a\nb` |
| Transcript.JsonExample | scripts/fetch_transcript.py:194-218 | a caption `hi` and a blank caption give one entry with the start and duration kept, title `Unknown`, full text `hi` |
| JobDriver.RunApifyActor | scripts/fetch_transcript.py:79-173 | the method's outcome and its requests are those of `ActorRun`: start, the `while` loop with its `break` and `else`, then the fetch |
| JobDriver.PollFrom | scripts/fetch_transcript.py:133-153 | the loop ends after at most 60 polls, in a settled state (never still pending) |
| JobDriver.PollsWithinBudget | scripts/fetch_transcript.py:130-133 | every status request is sent while the elapsed time is under 120 seconds, and a timeout means the budget was reached |
| JobDriver.TimeoutAfterPending | scripts/fetch_transcript.py:133-153 | a timeout follows only replies that were all still pending |
| JobDriver.LastReplySettles | scripts/fetch_transcript.py:133-150 | otherwise the last reply decides the outcome and all earlier replies were pending |
| JobDriver.PollReplies | scripts/fetch_transcript.py:133-153 | the two cases together: how the replies determine how polling ends |
| JobDriver.FailureTags | scripts/fetch_transcript.py:142-144 | a remote failure is tagged with the lower-cased status: `failed`, `aborted` or `timed-out`, each exactly for `FAILED`, `ABORTED` or `TIMED-OUT` |
| JobDriver.HaltedOutcomes | scripts/fetch_transcript.py:133-153 | the only outcomes polling can halt with are a timeout, a `TransportError` at the status step, a missing `data` or `status`, or a remote failure tagged `failed`, `aborted` or `timed-out` |
| JobDriver.ClassifyReplies | scripts/fetch_transcript.py:135-150 | one status reply read forward: a failed request is a `TransportError`; a missing `data` or `status` is a `MissingField`; `SUCCEEDED` leaves the loop with the run's dataset ID; `FAILED`, `ABORTED` and `TIMED-OUT` halt with `failed`, `aborted` and `timed-out`; any other status keeps polling |
| JobDriver.PollSettlesAt | scripts/fetch_transcript.py:133-150 | after `m` pending replies within the budget, the `m`-th reply decides: polling stops after `m + 1` requests with what that reply says, or it goes on |
| JobDriver.UnknownStatusKeepsPolling | scripts/fetch_transcript.py:140-146 | a delivered status other than `SUCCEEDED` and the three failures does not end polling |
| JobDriver.FailureAtPoll | scripts/fetch_transcript.py:133-144 | a failure status at any poll within the budget ends the run with the lower-cased status, after exactly that many status requests |
| JobDriver.CheckFailsAtPoll | scripts/fetch_transcript.py:133-150 | a status request that fails at any poll within the budget ends the run with `TransportError` at the status step, after exactly that many requests |
| JobDriver.SucceededAtPoll | scripts/fetch_transcript.py:133-160 | `SUCCEEDED` at any poll within the budget is followed by exactly one request, for that run's dataset, whose reply decides the outcome |
| JobDriver.RemoteFailureTagged | scripts/fetch_transcript.py:142-144 | any `RemoteFailure` outcome of a run carries one of the three tags |
| JobDriver.OkIsFirstItem | scripts/fetch_transcript.py:140-169 | a success returns the first dataset item, after a `SUCCEEDED` status, and the last request fetched that run's dataset |
| JobDriver.NoPollAfterRefusal | scripts/fetch_transcript.py:111-118 | `AuthError` or `QuotaError` happen exactly on a 401 or 402 start reply, and then nothing is sent after the start request |
| JobDriver.Input | scripts/fetch_transcript.py:85-91 | the actor input holds the one video URL and caption output; a language is sent exactly when one is given and it is not empty, and then unchanged |
| JobDriver.StartTransportError | scripts/fetch_transcript.py:103-126 | the start step's `TransportError` happens exactly when the start reply is neither 401 nor 402 and is not delivered; anything sent after the start request implies a delivered reply whose `data.id` is the run ID |
| JobDriver.StartMissingField | scripts/fetch_transcript.py:121-123 | `MissingField("id")` happens exactly on a delivered start reply with `data` but no `id`; a delivered start reply without `data` ends the call with only the start request sent |
| JobDriver.DatasetIdMissing | scripts/fetch_transcript.py:156-157 | `MissingField("defaultDatasetId")` happens exactly when the run started and polling saw `SUCCEEDED` without a dataset ID |
| JobDriver.FetchTransportError | scripts/fetch_transcript.py:159-173 | the fetch step's `TransportError` happens exactly when the run started, polling saw `SUCCEEDED` with a dataset ID, and the dataset reply was not delivered |
| JobDriver.StartRefused | scripts/fetch_transcript.py:111-118 | a 401 start reply gives `AuthError` and a 402 gives `QuotaError`, with only the start request sent |
| JobDriver.PollBound | scripts/fetch_transcript.py:103-160 | a run sends the start request first, then at most 61 GET requests, all with the token |
| JobDriver.EmptyDataset | scripts/fetch_transcript.py:164-167 | `EmptyResult` happens exactly when the run started and succeeded with a dataset ID, and the dataset came back as an empty list |
| JobDriver.StaysRunning | scripts/fetch_transcript.py:133-153 | a run that stays pending ends in `LocalTimeout` after at most 60 status requests, each the same GET |
| JobDriver.RunningIsPending | scripts/fetch_transcript.py:140-146 | a `RUNNING` status keeps the loop polling |
| JobDriver.RunningThenSucceeded | scripts/fetch_transcript.py:79-169 | running, running, succeeded, then a non-empty dataset: the first item, after exactly five requests |
| JobDriver.FailedAtOnce | scripts/fetch_transcript.py:142-144 | a first status of `FAILED` gives `RemoteFailure("failed")` after two requests |

## Findings

| source | as written | input that shows it | evidently intended | confidence | as-written member | corrected member |
|---|---|---|---|---|---|---|
| scripts/fetch_transcript.py:51-53 | the short-link rule tests the whole input for `youtu.be` | `https://www.youtube.com/watch?v=dQw4w9WgXcQ&feature=youtu.be`, a watch link carrying `feature=youtu.be`, yields `watch` | the rule is for links to the `youtu.be` host, as its comment says, so that link should yield `dQw4w9WgXcQ` | high; not executed | VideoId.ShareLinkMisread | VideoId.ShareLinkYieldsId |

`VideoId.ExtractVideoIdByHost` is the corrected definition: it applies the
short-link test to the parsed network location. `VideoId.TaggedLinkYieldsId`
proves that it yields the ID for every watch link with a trailing `&`-field,
and `VideoId.ByHostShortLink` and `VideoId.ByHostWatchLink` prove that it
still handles the two main link forms. `ExtractVideoId` stays the model of the
script as written, because every other lemma about it states the script's
actual behaviour.

## Left out

- `main`, `get_api_token`, the `requests` import guard, argument parsing, printing, writing the output file and `sys.exit` are not modelled. They are I/O around the core.
- HTTP, JSON decoding, `time.time` and `time.sleep` are parameters, not models. `elapsed` is read at each loop test and is assumed to start at zero or more and to grow by at least the two-second sleep per poll (`ClockAdvances`). A clock that goes backwards is not modelled.
- `params={"token": …}` and the `Content-Type` header are not modelled. Each request records its URL, its token and its timeout.
- Exceptions are assumed to follow `requests` 2.27 or later, where a `response.json()` failure is a `RequestException`. On older versions that error would escape uncaught.
- Replies whose JSON has the wrong types are not modelled. Examples: `captions`, `text`, `status` or `defaultDatasetId` being `null` or a number, a top-level JSON value that is not an object, a dataset that is not a list. Only a key being present or absent is modelled.
- `start` and `duration` are copied through unchanged, as `Number` values. The floating-point arithmetic of JSON numbers is not modelled.
- `JobDriver.MissingField` stands for an uncaught `KeyError`, which in the script ends the process with a traceback.
- `urlparse` raising `ValueError` for a malformed IPv6 host or for an NFKC-normalised host is not modelled. Neither is percent-decoding in `parse_qs`, nor its `max_num_fields` and separator options.
- `Text.AsciiLower` models `str.lower` on ASCII only. The script applies it only to the three fixed status names.
- VideoId.ExtractVideoId: its contract is given by the lemmas about it rather than by an `ensures` of its own.
- VideoId.ExtractVideoIdByHost: its contract is given by the lemmas about it (the Findings section).
- Transcript.TextOutput and Transcript.JsonOutput: these are the specification functions of the two formatting methods; their properties are the lemmas above.
- JobDriver.ActorRun: has no contract of its own; it is the specification function of `RunApifyActor`, and each way a call ends (refusal, a failed or incomplete start, each polling outcome, a missing dataset ID, a failed, empty or successful fetch) is stated by a `JobDriver` lemma in the table.
