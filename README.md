# Transcript service core, modelled in Dafny

This project models the sequential core of a small transcript service. The
service fetches the time-coded transcript of a YouTube video, caches it on disk
under the video identifier, and serves it over HTTP. Three parts are modelled:

- **Identifier extraction** (`extract_youtube_id`, utils.py). A bare
  11-character identifier, or a watch, embed, shorts or short-link URL, becomes
  an identifier or `None`. The model includes the parts of Python's
  `urllib.parse` that the function relies on: `urlparse` with its `hostname`
  property, and `parse_qs(...).get("v", [None])[0]`. They are modules `Urls`
  and `VideoIds`, with the string helpers in `Text`.
- **The fetcher** (`YouTubeTranscriptFetcher`, transcript_fetcher.py).
  - The fetcher is a class with the Python object's fields.
  - The cache directory is a `Disk` object holding a map from path to file.
  - The transcript library is a `Network` object. It answers each call from an
    oracle and records every call it receives. The length of that record is the
    fetch count the tests read off their mock, for a fetcher without credentials.
  - Each state-changing method is tied to a pure function of the old state
    (`Fetch`, `Download`, `GetTranscriptSpec`). The lemmas prove the promises
    about those functions: the cache is read unless `force` is set, a cache hit
    makes no call, the proxy is used exactly when both credentials are set, the
    concurrent path falls back to one single request, and so on.
  - The cache path, the legacy-shape normalisation on load and the text that
    `generate_flattened` builds are pure functions in module `Transcripts`.
- **The `/transcript/<video_id>` route** (app.py, module `Service`). It covers
  the length check, the `force` flag, the cache check before any fetch, the
  watch URL handed to the fetcher, and the mapping of exceptions to 400, 404
  and 500. `Serve` is the route as a function. `App.GetTranscript` is the
  handler over the shared disk and network, and it builds a forcing fetcher
  per request as the source does.

Python's `None` is `Json.JNull` wherever it stands for a JSON value, and
`Option.None` elsewhere. Exceptions are the `Err` side of a `Result`.

The intended design of the service differs from its code in several places,
and the model follows the code:

- The intended design lets a proxied attempt fall back to a direct connection
  once. The code never does: with credentials, both the concurrent path and
  the fallback single request go through the proxy.
- The intended design leaves open whether a cache file that is not valid JSON
  counts as a miss. In the code, `json.load` raises `JSONDecodeError`, a
  `ValueError`. It escapes `get_transcript`, and the route answers 404.
- The intended design has every extracted identifier be 11 characters of
  `[A-Za-z0-9_-]`. The code returns URL-derived values unchecked:
  `https://www.youtube.com/watch?v=abc` gives `"abc"`, and `https://youtu.be/` gives `""`.
- The intended design has extraction never raise, returning `None` for any
  unusable input. In the code, `urlparse` (utils.py:15) raises `ValueError`
  for a netloc with `[` and no `]`, and the error escapes `extract_youtube_id`
  (`VideoIds.UnbalancedBracketRaises`).
- The intended design bounds every network attempt by a timeout wrapper. The
  code has none: test_timeout.py calls `API_TIMEOUT` and `_fetch_with_timeout`,
  which transcript_fetcher.py does not define.
- test_transcript_fetcher.py:409 expects `<cache_dir>/<id>/transcript.json`.
  `_get_cache_path` gives `<cache_dir>/<id>.json`, and the model follows it.
- transcript_fetcher.py (and the test file) import `debug_print` from utils.py,
  but utils.py does not define it. As written, that import raises
  `ImportError`, so neither app.py nor the tests can load. The model describes
  the program as evidently intended, with `debug_print` a logging call that
  has no effect.

## Model

| member | source | states |
|---|---|---|
| `VideoIds.ExtractYouTubeId` | utils.py:7-27 | `extract_youtube_id` as a whole; its contract is stated by `NothingGivesNone`, `IdentifierPassesThrough`, `StrippedIdentifierWins`, `ExtractParses`, `NoNetlocGivesNone` and `UnbalancedBracketRaises` |
| `VideoIds.IsVideoId` | utils.py:12 | `re.fullmatch(r"[A-Za-z0-9_-]{11}", ...)`: exactly 11 characters from that class; stated by `IdentifierPassesThrough`, `IdentifierIsQuerySafe` and `InvalidUrlIsAnIdentifier` |
| `VideoIds.IdentifierIsQuerySafe` | utils.py:12-19 | an identifier holds none of the characters `parse_qs` treats specially, so it survives as a `v` value |
| `VideoIds.ExtractParses` | utils.py:8-15 | a value that, once stripped, is not an identifier (padded or not, such as `" https://youtu.be/abc\n"`) gives what the parsed stripped text gives |
| `VideoIds.FromUrl` | utils.py:17-27 | the branches on the parsed URL; stated by `WatchPathReadsQuery`, `OtherPathReadsSegment`, `CanonicalOtherPathGivesNone`, `ShortLinkReadsPath` and `OtherHostGivesNone`, which between them cover every hostname and path |
| `VideoIds.NothingGivesNone` | utils.py:8-9 | `None` and the empty string both give `None` |
| `VideoIds.IdentifierPassesThrough` | utils.py:10-13 | every string of 11 characters from `[A-Za-z0-9_-]` is returned unchanged |
| `VideoIds.StrippedIdentifierWins` | utils.py:10-13 | the 11-character test runs on the stripped value, before any URL parsing, and returns the stripped value |
| `VideoIds.IdentifierUnpadded` | utils.py:10 | stripping leaves an identifier unchanged |
| `VideoIds.WatchUrlGivesV` | utils.py:15-19 | `https://<host>/watch?v=<x>` on either canonical host gives `<x>`, of any length, for every `x` that `parse_qs` leaves intact |
| `VideoIds.WatchUrlOfIdentifier` | utils.py:17-19 | the watch URL of every identifier, on either canonical host, gives that identifier back |
| `VideoIds.WatchPathReadsQuery` | utils.py:17-19 | on a canonical host the `/watch` path gives the first `v` query value |
| `VideoIds.WatchWithoutVGivesNone` | utils.py:17-19 | on a canonical host a `/watch` URL without a non-blank `v` field gives `None` |
| `VideoIds.OtherPathReadsSegment` | utils.py:20-22 | on a canonical host any other path gives the embed/shorts segment when that pattern matches |
| `VideoIds.CanonicalOtherPathGivesNone` | utils.py:20-27 | on a canonical host a path that is neither `/watch` nor an embed/shorts match gives `None` |
| `VideoIds.EmbedId` | utils.py:20-22 | the embed/shorts segment is non-empty and holds none of `/ ? # &` |
| `VideoIds.EmbedIdIsMaximal` | utils.py:20-22 | the segment taken is the longest run after `/embed/` or `/shorts/`: it ends at a stop character or at the end of the path |
| `VideoIds.SegmentUrlGivesId` | utils.py:15-22 | `https://<host>/embed/<x>` and `https://<host>/shorts/<x>` on either canonical host give `<x>` |
| `VideoIds.ShortLinkReadsPath` | utils.py:24-25 | on `youtu.be` the result is the path with its leading slashes removed |
| `VideoIds.TrimSlashes` | utils.py:25 | `lstrip("/")` removes exactly the leading slashes and keeps the rest of the path |
| `VideoIds.ShortLinkGivesPath` | utils.py:15-25 | a short link gives its whole path without leading slashes; later slashes stay |
| `VideoIds.ShortLinkGivesId` | utils.py:24-25 | `https://youtu.be/<x>` gives `<x>` |
| `VideoIds.BareShortLinkGivesEmpty` | utils.py:24-25 | `https://youtu.be/` gives the empty string, not `None` |
| `VideoIds.OtherHostGivesNone` | utils.py:17-27 | any other hostname, or none at all, gives `None` |
| `VideoIds.NoNetlocGivesNone` | utils.py:15-27 | a string whose text after the scheme (if any) does not start with `//` has no hostname, and gives `None` unless, once stripped, it is an identifier |
| `VideoIds.SchemelessGivesNone` | utils.py:15-27 | a string with no `:` and no leading `/`, such as `www.youtube.com/watch?v=...`, gives `None` unless it is itself an identifier |
| `VideoIds.UnbalancedBracketRaises` | utils.py:15 | a netloc with `[` but no `]` makes `urlparse` raise, and the error escapes `extract_youtube_id` |
| `Urls.UrlParse` | utils.py:15 | `urlparse`; stated by `VideoIds.ParseHttps` (a simple `https://host/path` URL splits into scheme, host and path) and `VideoIds.UnbalancedBracketRaises` (an unbalanced bracket raises) |
| `VideoIds.ParseHttps` | utils.py:15 | a simple `https://host/path` URL parses to scheme `https`, netloc `host` and that path |
| `VideoIds.InvalidUrlIsAnIdentifier` | test_transcript_fetcher.py:298-305 | `"invalid_url"` matches the 11-character rule and is returned verbatim |
| `VideoIds.WatchFormOfSample` | test_transcript_fetcher.py:19 | the watch URL of `dQw4w9WgXcQ` gives `dQw4w9WgXcQ` |
| `VideoIds.ShortLinkFormOfSample` | test_transcript_fetcher.py:20 | the short link of `dQw4w9WgXcQ` gives `dQw4w9WgXcQ` |
| `VideoIds.ShortsFormOfSample` | test_transcript_fetcher.py:21 | the shorts URL of `dQw4w9WgXcQ` gives `dQw4w9WgXcQ` |
| `VideoIds.BareFormOfSample` | test_transcript_fetcher.py:22 | the bare `dQw4w9WgXcQ` gives itself |
| `Urls.Hostname` | utils.py:17 | the hostname is never empty and is `None` when the netloc is empty |
| `Urls.HostnameDropsUserinfoAndPort` | utils.py:17 | the hostname drops the userinfo up to the last `@` and the port, and is lower-cased |
| `Urls.ParseQsl` | utils.py:19 | `parse_qs`'s field list, read field by field; stated by `Urls.LeadingFieldRule`, `Urls.QueryValueOfSingleField` and `Urls.BlankFieldSkipped` |
| `Urls.QueryPair` | utils.py:19 | one field as `parse_qsl` keeps it: a kept pair never has a blank value; `Urls.SingleFieldPair` gives `name=value` its pair, and `Urls.BlankFieldSkipped` drops `name=` |
| `Urls.SingleFieldPair` | utils.py:19 | a field `name=value` with no `+` and no `=` in the name gives the pair `(name, value)` |
| `Urls.LeadingFieldRule` | utils.py:19 | a leading field whose pair has the name gives its value; any other leading field (dropped, or of another name) is skipped and the lookup continues on the rest |
| `Urls.OtherFieldPassedOver` | utils.py:19 | a field of another name before the wanted one is passed over, as in `feature=share&v=abc` |
| `Urls.FirstNonBlankWins` | utils.py:19 | of several fields of one name, the first non-blank one wins, as in `v=&v=x&v=y` giving `x` |
| `Urls.QueryValue` | utils.py:19 | `parse_qs(q).get(name, [None])[0]`: the first non-blank value of that name, stated by `Urls.FirstValue` and `Urls.LeadingFieldRule` |
| `Urls.FirstValue` | utils.py:19 | the value found is that of the first pair with that name (no earlier pair has the name), and `None` means no pair has the name |
| `Urls.QueryValueOfSingleField` | utils.py:19 | the query `name=value` gives `value` for `name`, when neither holds a character `parse_qs` decodes or splits on (`&`, `+`, `%`) |
| `Urls.BlankFieldSkipped` | utils.py:19 | a blank `v=` field is skipped and the next `v` is taken |
| `Text.StripEmptyIffBlank` | transcript_fetcher.py:277 | `text.strip()` is empty exactly when the text is whitespace only |
| `Text.Strip` | utils.py:10 | `str.strip()` on ASCII whitespace (also transcript_fetcher.py:277); stated by `Text.StripEmptyIffBlank` and `Text.StripUnchanged` |
| `Text.StripUnchanged` | utils.py:10 | a string that neither starts nor ends with whitespace is its own strip |
| `Text.AsciiLower` | app.py:56 | `.lower()` on ASCII: the same length, each letter lower-cased and every other character kept |
| `Text.JoinSplit` | transcript_fetcher.py:280 | joining the pieces of a split gives back the string |
| `Text.SplitJoin` | transcript_fetcher.py:280 | splitting a newline join gives back the lines when none holds a newline |
| `Text.Join` | transcript_fetcher.py:280 | `'\n'.join`: undone by `Split`, stated by `Text.JoinSplit` and `Text.SplitJoin` |
| `Transcripts.SegmentsRoundTrip` | transcript_fetcher.py:86 | normalisation keeps every segment in order, with its text, start and duration |
| `Transcripts.SegmentsJson` | transcript_fetcher.py:86 | the comprehension keeps one dict per entry; with `SegmentsRoundTrip`, each reads back to its entry, in order |
| `Transcripts.JoinPath` | transcript_fetcher.py:238 | `os.path.join`: an absolute name replaces the directory, otherwise the path starts with the directory and ends with the name |
| `Transcripts.CachePath` | transcript_fetcher.py:236-238 | `_get_cache_path`; stated by `CachePathShape` and `CachePathInjective` |
| `Transcripts.CachePathShape` | transcript_fetcher.py:236-238 | the cache path is the directory, a separator, the identifier and `.json` |
| `Transcripts.CachePathInjective` | transcript_fetcher.py:236-238 | two relative identifiers never share a cache path |
| `Transcripts.FlattenedPathIsNotACachePath` | transcript_fetcher.py:268 | the flattened text file never overwrites a cache file |
| `Transcripts.Unwrap` | transcript_fetcher.py:252-258 | the legacy-shape normalisation; stated by `UnwrapLegacy` and `UnwrapKeepsOthers` |
| `Transcripts.Load` | transcript_fetcher.py:246-259 | a missing file loads as `None`, a file that does not parse raises, and a stored value loads normalised |
| `Transcripts.UnwrapLegacy` | transcript_fetcher.py:252-256 | a legacy `{"transcript_data": x}` dict loads as `x`, and a list loads as itself |
| `Transcripts.UnwrapKeepsOthers` | transcript_fetcher.py:255-258 | any value other than a dict holding `transcript_data` loads unchanged |
| `Transcripts.LoadAfterSave` | transcript_fetcher.py:240-259 | after saving a normalised transcript, loading it gives the same list |
| `Transcripts.LoadOtherPath` | transcript_fetcher.py:240-244 | saving one path leaves every other path's load as it was |
| `Transcripts.StoredNullIsMiss` | transcript_fetcher.py:246-259 | a stored `null`, bare or in a legacy dict, loads like a missing file |
| `Transcripts.StripDialogue` | transcript_fetcher.py:275 | removing the dialogue prefix shortens the text and leaves no leading whitespace |
| `Transcripts.DialogueShape` | transcript_fetcher.py:267-276 | whitespace, `>>`, whitespace, body is a dialogue line whose cleaned text is the body |
| `Transcripts.IsDialogue` | transcript_fetcher.py:273 | `regex_pattern.match(text)` for `^\s*>>\s*`; stated by `DialogueShape` and `KeptTextRule` |
| `Transcripts.KeptText` | transcript_fetcher.py:273-278 | the line one entry contributes, or none; stated by `KeptTextRule` |
| `Transcripts.KeptTextRule` | transcript_fetcher.py:273-278 | a dialogue line is always kept, cleaned; any other text is kept unchanged exactly when it is not whitespace only |
| `Transcripts.LineOf` | transcript_fetcher.py:271-278 | one step of the loop; `LineOfSegment` states that an entry's dict contributes what its text keeps |
| `Transcripts.LineOfSegment` | transcript_fetcher.py:271-278 | an entry's dict contributes exactly `KeptText` of its text |
| `Transcripts.KeptLines` | transcript_fetcher.py:270-278 | the loop over the items; stated by `KeptLinesOfSegments`, `Fetcher.KeptLinesStops` and the loop `Fetcher.FlattenLines` |
| `Transcripts.PlainTextKept` | transcript_fetcher.py:277-278 | a text starting with neither whitespace nor `>` is kept unchanged |
| `Transcripts.DialogueTextKept` | transcript_fetcher.py:273-276 | `>> body` contributes the body |
| `Transcripts.KeptTextsAppend` | transcript_fetcher.py:270-278 | the line filter distributes over concatenation |
| `Transcripts.KeptLinesOfSegments` | transcript_fetcher.py:270-278 | on a normalised transcript the loop never fails and keeps exactly the filtered lines, in input order |
| `Transcripts.KeptTextsFromEntries` | transcript_fetcher.py:270-278 | there are no more lines than segments, and each line is a cleaned dialogue line or a text that is not blank |
| `Transcripts.Flatten` | transcript_fetcher.py:261-285 | `generate_flattened`'s text; stated by `FlattenNull`, `FlattenSegments`, `FlattenAlternating` and `FlattenTestData` |
| `Transcripts.FlattenNull` | transcript_fetcher.py:264-265 | `None` flattens to the empty text |
| `Transcripts.FlattenSegments` | transcript_fetcher.py:264-280 | flattening a normalised transcript gives the newline join of its kept lines |
| `Transcripts.FlattenAlternating` | transcript_fetcher.py:264-280 | two dialogue lines and two plain lines, alternating, flatten to the four bodies on four lines |
| `Transcripts.FlattenTestData` | test_transcript_fetcher.py:330-356 | the data of the flattening test flattens to its four lines without the `>>` prefixes |
| `Fetcher.ConnectionForProxies` | transcript_fetcher.py:120-128 | the proxy is used exactly when both credentials are truthy, with those credentials; otherwise the connection is direct |
| `Fetcher.ConnectionFor` | transcript_fetcher.py:120-128 | the proxy-or-direct choice (also the test at line 62); stated by `ConnectionForProxies` |
| `Fetcher.Download` | transcript_fetcher.py:60-84 | the download step; stated by `DownloadAnswer`, `DownloadWithoutCredentials` and `DownloadWithCredentials` |
| `Fetcher.DownloadAnswer` | transcript_fetcher.py:63-84 | a download makes one or two calls, ends with its last call's answer, and fails exactly when every call failed |
| `Fetcher.DownloadWithoutCredentials` | transcript_fetcher.py:77-84 | without both credentials the download is one direct call |
| `Fetcher.DownloadWithCredentials` | transcript_fetcher.py:63-76 | with credentials the concurrent path runs first, one proxied single request follows only when it failed, and nothing goes out directly |
| `Fetcher.GetTranscriptSpec` | transcript_fetcher.py:46-89 | `get_transcript`; stated by `NoIdentifierNoWork`, `ParseErrorNoWork`, `EmptyUrlRejected` and `ExtractedIdIsFetched`, the last handing over to `Fetch` |
| `Fetcher.Fetch` | transcript_fetcher.py:53-89 | `get_transcript` once the identifier is known; stated by `CacheHitServed`, `CorruptCacheRaises`, `MissDownloads`, `SuccessIsCached`, `SecondCallCached`, `ForceIgnoresCache`, `StoredNullActsAsMiss` and `ForceFetchesOnce` |
| `Fetcher.NoIdentifierNoWork` | transcript_fetcher.py:48-51 | a URL that yields `None` or `""` raises a `ValueError` with no cache read, no write and no call |
| `Fetcher.ParseErrorNoWork` | transcript_fetcher.py:48 | a `urlparse` error escapes before any work |
| `Fetcher.EmptyUrlRejected` | test_transcript_fetcher.py:307-313 | the empty URL raises "Could not extract video ID" |
| `Fetcher.ExtractedIdIsFetched` | transcript_fetcher.py:48-53 | a URL that yields an identifier is served for that identifier |
| `Fetcher.CacheHitServed` | transcript_fetcher.py:53-58 | without `force`, a cached value other than `None` is returned with no call and no write |
| `Fetcher.CorruptCacheRaises` | transcript_fetcher.py:53-58 | without `force`, a cache file that does not parse raises a `ValueError`, with no call and no write |
| `Fetcher.MissDownloads` | transcript_fetcher.py:60-89 | on a miss, the call fails exactly when every network call failed; otherwise the normalised list is written and returned, unless the write raises |
| `Fetcher.SuccessIsCached` | transcript_fetcher.py:86-89 | a success leaves the cache holding what was returned, which reads back to the fetched segments in order; other paths are untouched |
| `Fetcher.SecondCallCached` | test_transcript_fetcher.py:204-215 | without `force`, a second call after a success returns an equal value from the cache, with no call and no write |
| `Fetcher.ForceIgnoresCache` | transcript_fetcher.py:53 | with `force`, the result and the calls do not depend on what the cache holds |
| `Fetcher.StoredNullActsAsMiss` | transcript_fetcher.py:56 | a stored `null` behaves like a missing file |
| `Fetcher.ForceFetchesOnce` | transcript_fetcher.py:53-84 | with `force` and no credentials, every call makes exactly one direct request |
| `Fetcher.ThreeForcedFetches` | test_transcript_fetcher.py:228-253 | three forced calls make three requests |
| `Fetcher.Disk.Write` | transcript_fetcher.py:243-244 | the file holds the data afterwards, unless the open raises and nothing changes |
| `Fetcher.Network.Request` | transcript_fetcher.py:129 | the answer is the oracle's for this call after the earlier ones, and the call is recorded |
| `Fetcher.TranscriptFetcher.constructor` | transcript_fetcher.py:16-31 | the fields take the arguments, with the source's defaults |
| `Fetcher.TranscriptFetcher.SetCacheDir` | transcript_fetcher.py:38-40 | later cache paths are under the new directory |
| `Fetcher.TranscriptFetcher.CachePath` | transcript_fetcher.py:236-238 | the object's `_get_cache_path`: `Transcripts.CachePath` of its current directory, stated by `Transcripts.CachePathShape` and `Transcripts.CachePathInjective` |
| `Fetcher.TranscriptFetcher.LoadFromCache` | transcript_fetcher.py:246-259 | the object's `_load_from_cache`: `Transcripts.Load` at its cache path, whose own contract gives the missing, corrupt and stored cases |
| `Fetcher.TranscriptFetcher.SaveToCache` | transcript_fetcher.py:240-244 | the cache path of the identifier holds the data afterwards, unless the open raises |
| `Fetcher.TranscriptFetcher.GetTranscriptSingle` | transcript_fetcher.py:91-129 | one request, proxied exactly when both credentials are set |
| `Fetcher.TranscriptFetcher.GetTranscriptConcurrent` | transcript_fetcher.py:131-185 | one race call when there is at least one worker; with none, no call and a failure |
| `Fetcher.TranscriptFetcher.DownloadTranscript` | transcript_fetcher.py:61-84 | the calls made and the answer are those of `Download` |
| `Fetcher.TranscriptFetcher.Get` | transcript_fetcher.py:53-89 | the result, the new cache and the calls made are those of `Fetch` on the old state |
| `Fetcher.TranscriptFetcher.GetTranscript` | transcript_fetcher.py:46-89 | the result, the new cache and the calls made are those of `GetTranscriptSpec` on the old state |
| `Fetcher.TranscriptFetcher.GenerateFlattened` | transcript_fetcher.py:261-285 | the text returned, or the error raised, is `Flatten` of the data |
| `Fetcher.FlattenLines` | transcript_fetcher.py:270-278 | the loop keeps the lines `KeptLines` names and stops at the first item that raises |
| `Fetcher.KeptLinesStops` | transcript_fetcher.py:271-273 | once an item raises, the rest of the list does not matter |
| `Service.Failure` | app.py:95-105 | a `ValueError` is 404, and every other exception is 500 |
| `Service.ForceFlag` | app.py:56 | the `force` parameter; stated by `ForceFlagExactly`, `ForceFlagValues` and `NoForceByDefault` |
| `Service.ForceFlagExactly` | app.py:56 | the refresh is on exactly when the parameter is given and is `1`, or `true` with each letter in either case |
| `Service.ForceFlagValues` | app.py:56 | the spellings `1`, `true`, `TRUE` and `True` turn the refresh on; `0`, empty and `yes` do not |
| `Service.NoForceByDefault` | app.py:56 | a request without the parameter does not force |
| `Service.Serve` | app.py:33-105 | the route; stated by `WrongLengthRefused`, `LengthIsTheOnlyCheck`, `StatusIsOneOfFour`, `CachedReply`, `CorruptCacheIs404`, `MissIsFetched`, `ReplyIsCached` and `SecondRequestCached` |
| `Service.WrongLengthRefused` | app.py:49-53 | an identifier not 11 characters long gets 400, with no cache read and no call |
| `Service.LengthIsTheOnlyCheck` | app.py:49-53 | every 11-character identifier gets past the 400, whatever its characters |
| `Service.StatusIsOneOfFour` | app.py:44-105 | every reply is 200, 400, 404 or 500, and 200 exactly when it carries a transcript for the requested identifier |
| `Service.CachedReply` | app.py:59-68 | without `force`, a cached value is the reply, marked as cached, with no call |
| `Service.CorruptCacheIs404` | app.py:59-99 | without `force`, a cache file that does not parse gives 404 with no call |
| `Service.MissIsFetched` | app.py:70-105 | for an identifier of `[A-Za-z0-9_-]`, on a miss the fetcher gets the watch URL, which maps back to the same identifier; its success is replied uncached, a `ValueError` is 404 and a failed write is 500 |
| `Service.ReplyIsCached` | app.py:59-93 | for an identifier of `[A-Za-z0-9_-]`, after a transcript reply, the cache holds that transcript under the identifier |
| `Service.SecondRequestCached` | app.py:59-93 | for an identifier of `[A-Za-z0-9_-]`, after a transcript reply, a request without `force` gets the same transcript from the cache, with no call |
| `Service.App.constructor` | app.py:24-31 | the app's fetcher uses the environment's settings, without `force`, over the shared disk and network |
| `Service.App.GetTranscript` | app.py:33-105 | the reply, the new cache and the calls made are those of `Serve` on the old state |

## Left out

- Fetcher.TranscriptFetcher.GetTranscriptConcurrent: the worker threads, the result queue, `stop_event` and the 60-second wait are concurrency. The race is one oracle call that succeeds with one transcript or fails. Which worker won, and how many library calls the workers made, is not modelled.
- The worker body `_single_transcript_attempt` (transcript_fetcher.py:188-234) runs only inside the race. Its backoff `2 ** attempt_id + random.uniform(0, 1)`, its `time.sleep` and its 200-character error truncation are timing, randomness and logging.
- The random user-agent choice and the header dicts (transcript_fetcher.py:96-118, 208-217) are randomness, and the headers are never passed to the library.
- `YouTubeTranscriptApi` and `WebshareProxyConfig` are a foreign network library. They are the `Network` oracle, which sees the identifier and the connection. The `languages=['en']` argument is not modelled.
- The fetch count is the non-ghost call log of `Network`, not a ghost counter. The oracle's answer may depend on the earlier calls, so the log must be real state.
- `_ensure_cache_dir` and `os.makedirs` (transcript_fetcher.py:42-44) create directories. The cache is a map from path to file, so there is no directory to create.
- JSON encoding and the files themselves: the `indent=2` layout, `ensure_ascii=False` and UTF-8. A file is a parsed JSON value, or a file `json.load` rejects. Any `OSError` from `open(path, 'w')` is given by the disk's `unwritable` set. A read error other than bad JSON is not modelled.
- Fetcher.TranscriptFetcher.GenerateFlattened: the write of the text to `<cache_dir>/<id>_flattened.txt` is file I/O. The method returns only the text; `FlattenedPath` gives the file name.
- Segment `start` and `duration` are floats that are only carried through. They are `real` values with no arithmetic on them.
- `parse_qs` percent-decoding is not modelled; `+` read as a space is.
- Whitespace is the ASCII set that `str.isspace` and `\s` accept, not full Unicode.
- `str.lower()` is modelled on ASCII letters only, in `Urls.Hostname` and in `Service.ForceFlag`. Unicode case mapping (for example of a non-ASCII host name or `force` value) is not modelled.
- Service.MissIsFetched, Service.ReplyIsCached and Service.SecondRequestCached: these hold for identifiers of `[A-Za-z0-9_-]`. An 11-character route identifier with other characters need not come back from the watch URL: `"abcdefghij "` is fetched and cached under `abcdefghij`, because extraction strips the trailing space, so a second request misses the cache.
- `urlsplit`'s validation of bracketed IPv6 hosts and its NFKC check on the netloc are not modelled; the unbalanced-bracket `ValueError` is.
- `format_duration`, `format_video_duration` and `Timer` (utils.py:43-96) use floats and the wall clock. `read_file_content` and `write_file_content` (utils.py:30-40) are file I/O.
- In app.py, Flask, `jsonify`, `load_dotenv`, the environment reads, `os.path.expandvars` and the `time.time()` duration measurement are left out. The environment is a value `Env` given to the app, and a reply carries the status, the identifier, the transcript and the `cached` flag.
- An exception raised by `int(os.getenv('MAX_CONCURRENT_REQUESTS', '2'))` happens at start-up or when a forcing fetcher is built. The model takes the setting as an already parsed integer.
- run_gunicorn.py and gunicorn.conf.py launch and configure the server process.
