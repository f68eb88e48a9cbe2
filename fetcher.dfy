/**
 * `YouTubeTranscriptFetcher` of transcript_fetcher.py. The cache directory is a
 * `Disk` object holding a map from path to file, the transcript library is a
 * `Network` object that answers from an oracle and records every call, and the
 * fetcher's own fields are those of the Python object. Every method that changes
 * something is tied to a pure function of the old state (`Fetch`, `Download`,
 * `GetTranscriptSpec`), and the lemmas state what the source promises about those.
 */
module Fetcher {
  import opened Wrappers
  import opened Text
  import opened Urls
  import opened VideoIds
  import opened Transcripts

  /** How the transcript library is reached: straight, or through the Webshare proxy
      with a user name and a password. */
  datatype Connection = Direct | Proxied(username: string, password: string)

  /** One call into the transcript library: one `api.fetch` on a connection, or the race
      of `_get_transcript_concurrent`, which starts `attempts` proxied workers and takes
      the first transcript any of them gets. */
  datatype Call = Single(videoId: string, via: Connection) | Race(videoId: string, attempts: int)

  /** What a call gives: a transcript, or nothing (an exception, or a race where no worker
      succeeded within the timeout). */
  datatype Answer = Fetched(entries: seq<Snippet>) | Failed

  /** The transcript service's behaviour: the answer to a call, given every call before it. */
  type Oracle = (seq<Call>, Call) -> Answer

  /** The fields of a fetcher other than the two services it uses. */
  datatype Settings = Settings(cacheDir: string, force: bool, username: Option<string>,
                               password: Option<string>, attempts: int)

  /** Python's truth value of an optional string: set and not empty. */
  predicate Truthy(s: Option<string>) { s.Some? && s.value != "" }

  /** The proxy is used exactly when both credentials are truthy (`_get_transcript_single`). */
  function ConnectionFor(username: Option<string>, password: Option<string>): Connection {
    if Truthy(username) && Truthy(password) then Proxied(username.value, password.value) else Direct
  }

  lemma ConnectionForProxies(username: Option<string>, password: Option<string>)
    ensures ConnectionFor(username, password).Proxied? <==> Truthy(username) && Truthy(password)
    ensures ConnectionFor(username, password).Proxied? ==>
      ConnectionFor(username, password) == Proxied(username.value, password.value)
    ensures username == None || password == None || username == Some("") || password == Some("") ==>
      ConnectionFor(username, password) == Direct
  {
  }

  /** The calls one download makes and the answer it ends with. */
  datatype Exchange = Exchange(calls: seq<Call>, answer: Answer)

  /** The download step of `get_transcript` (lines 60-83): without credentials one direct
      call; with them the race first (no call at all when it has no workers) and, if the
      race fails, one proxied single call. */
  function Download(oracle: Oracle, history: seq<Call>, s: Settings, videoId: string): Exchange {
    var via := ConnectionFor(s.username, s.password);
    var single := Single(videoId, via);
    if via.Direct? then Exchange([single], oracle(history, single))
    else
      var race := Race(videoId, s.attempts);
      var raced := if s.attempts > 0 then [race] else [];
      var first := if s.attempts > 0 then oracle(history, race) else Failed;
      if first.Fetched? then Exchange(raced, first)
      else Exchange(raced + [single], oracle(history + raced, single))
  }

  /** The answer the `k`-th call of an exchange got. */
  function AnswerAt(oracle: Oracle, history: seq<Call>, calls: seq<Call>, k: nat): Answer
    requires k < |calls|
  {
    oracle(history + calls[..k], calls[k])
  }

  /** A download makes one or two calls, and the transcript it ends with is the answer of
      its last call; it fails exactly when every call it made failed. */
  lemma DownloadAnswer(oracle: Oracle, history: seq<Call>, s: Settings, videoId: string)
    ensures var x := Download(oracle, history, s, videoId);
      1 <= |x.calls| <= 2
      && x.answer == AnswerAt(oracle, history, x.calls, |x.calls| - 1)
      && (x.answer.Failed? <==> forall k :: 0 <= k < |x.calls| ==> AnswerAt(oracle, history, x.calls, k).Failed?)
  {
    var x := Download(oracle, history, s, videoId);
    assert x.calls[..0] == [];
    assert history + [] == history;
    if |x.calls| == 2 {
      assert x.calls[..1] == [x.calls[0]];
    }
  }

  /** Without both credentials the download is one direct call. */
  lemma DownloadWithoutCredentials(oracle: Oracle, history: seq<Call>, s: Settings, videoId: string)
    requires !(Truthy(s.username) && Truthy(s.password))
    ensures Download(oracle, history, s, videoId).calls == [Single(videoId, Direct)]
  {
  }

  /** With both credentials nothing goes out directly: the race comes first when it has
      workers, a single call follows only when it failed, and that call is proxied. */
  lemma DownloadWithCredentials(oracle: Oracle, history: seq<Call>, s: Settings, videoId: string)
    requires Truthy(s.username) && Truthy(s.password)
    ensures var x := Download(oracle, history, s, videoId);
      var single := Single(videoId, Proxied(s.username.value, s.password.value));
      (forall k :: 0 <= k < |x.calls| ==> !(x.calls[k].Single? && x.calls[k].via.Direct?))
      && (s.attempts > 0 ==> x.calls[0] == Race(videoId, s.attempts))
      && (s.attempts > 0 && oracle(history, Race(videoId, s.attempts)).Fetched? ==> |x.calls| == 1)
      && (s.attempts > 0 && oracle(history, Race(videoId, s.attempts)).Failed? ==>
            x.calls == [Race(videoId, s.attempts), single])
      && (s.attempts <= 0 ==> x.calls == [single])
  {
  }

  /** What one `get_transcript` call gives and does: its result, the cache afterwards, and
      the calls it made. */
  datatype Outcome = Outcome(result: Result<Json, Error>, files: map<string, CacheFile>, calls: seq<Call>)

  /** `get_transcript` after the identifier is known (lines 55-89): the cache unless `force`,
      then the download, the normalised list, and the save, whose failure escapes. */
  function Fetch(oracle: Oracle, unwritable: set<string>, s: Settings,
                 files: map<string, CacheFile>, history: seq<Call>, videoId: string): Outcome
  {
    var path := CachePath(s.cacheDir, videoId);
    var cached := if s.force then Ok(JNull) else Load(files, path);
    if cached.Err? then Outcome(Err(cached.error), files, [])
    else if cached.value != JNull then Outcome(Ok(cached.value), files, [])
    else
      var x := Download(oracle, history, s, videoId);
      if x.answer.Failed? then Outcome(Err(DownloadFailed), files, x.calls)
      else
        var data := SegmentsJson(x.answer.entries);
        if path in unwritable then Outcome(Err(CacheNotWritable(path)), files, x.calls)
        else Outcome(Ok(data), files[path := Stored(data)], x.calls)
  }

  /** `get_transcript(url)` (lines 46-89). */
  function GetTranscriptSpec(oracle: Oracle, unwritable: set<string>, s: Settings,
                             files: map<string, CacheFile>, history: seq<Call>, url: string): Outcome
  {
    match ExtractYouTubeId(Some(url))
    case Raised(e) => Outcome(Err(BadUrl(e)), files, [])
    case Extracted(id) =>
      if id.None? || id.value == "" then Outcome(Err(NoVideoId(url)), files, [])
      else Fetch(oracle, unwritable, s, files, history, id.value)
  }

  /** A URL without an identifier fails with a `ValueError` before the cache or the
      network is touched. */
  lemma NoIdentifierNoWork(oracle: Oracle, unwritable: set<string>, s: Settings,
                           files: map<string, CacheFile>, history: seq<Call>, url: string)
    requires ExtractYouTubeId(Some(url)) in {Extracted(None), Extracted(Some(""))}
    ensures GetTranscriptSpec(oracle, unwritable, s, files, history, url) == Outcome(Err(NoVideoId(url)), files, [])
    ensures IsValueError(NoVideoId(url))
  {
  }

  /** An exception of `urlparse` escapes as it is, again before any work. */
  lemma ParseErrorNoWork(oracle: Oracle, unwritable: set<string>, s: Settings,
                         files: map<string, CacheFile>, history: seq<Call>, url: string, e: UrlError)
    requires ExtractYouTubeId(Some(url)) == Raised(e)
    ensures GetTranscriptSpec(oracle, unwritable, s, files, history, url) == Outcome(Err(BadUrl(e)), files, [])
    ensures IsValueError(BadUrl(e))
  {
  }

  /** The empty URL is rejected: "Could not extract video ID" (test_transcript_fetcher.py:307-313). */
  lemma EmptyUrlRejected(oracle: Oracle, unwritable: set<string>, s: Settings,
                         files: map<string, CacheFile>, history: seq<Call>)
    ensures GetTranscriptSpec(oracle, unwritable, s, files, history, "") == Outcome(Err(NoVideoId("")), files, [])
  {
    NothingGivesNone();
  }

  /** A URL that yields an identifier is served by `Fetch` for that identifier. */
  lemma ExtractedIdIsFetched(oracle: Oracle, unwritable: set<string>, s: Settings,
                             files: map<string, CacheFile>, history: seq<Call>, url: string, videoId: string)
    requires ExtractYouTubeId(Some(url)) == Extracted(Some(videoId)) && videoId != ""
    ensures GetTranscriptSpec(oracle, unwritable, s, files, history, url)
         == Fetch(oracle, unwritable, s, files, history, videoId)
  {
  }

  /** Without `force`, a cached value other than `None` is returned as it is, with no call
      and no write. */
  lemma CacheHitServed(oracle: Oracle, unwritable: set<string>, s: Settings,
                       files: map<string, CacheFile>, history: seq<Call>, videoId: string, data: Json)
    requires !s.force && Load(files, CachePath(s.cacheDir, videoId)) == Ok(data) && data != JNull
    ensures Fetch(oracle, unwritable, s, files, history, videoId) == Outcome(Ok(data), files, [])
  {
  }

  /** Without `force`, a cache file `json.load` rejects makes `get_transcript` raise a
      `ValueError`, with no call and no write. */
  lemma CorruptCacheRaises(oracle: Oracle, unwritable: set<string>, s: Settings,
                           files: map<string, CacheFile>, history: seq<Call>, videoId: string)
    requires !s.force
    requires var path := CachePath(s.cacheDir, videoId); path in files && files[path] == Unparsable
    ensures var path := CachePath(s.cacheDir, videoId);
      Fetch(oracle, unwritable, s, files, history, videoId) == Outcome(Err(CorruptCache(path)), files, [])
      && IsValueError(CorruptCache(path))
  {
  }

  /** A fetch that finds nothing usable in the cache runs the download: it fails with a
      `ValueError` exactly when every call failed; otherwise the normalised list is written
      to the cache and returned, unless the write fails. */
  lemma MissDownloads(oracle: Oracle, unwritable: set<string>, s: Settings,
                      files: map<string, CacheFile>, history: seq<Call>, videoId: string)
    requires s.force || Load(files, CachePath(s.cacheDir, videoId)) == Ok(JNull)
    ensures var o := Fetch(oracle, unwritable, s, files, history, videoId);
      var x := Download(oracle, history, s, videoId);
      var path := CachePath(s.cacheDir, videoId);
      o.calls == x.calls
      && (o.result == Err(DownloadFailed) <==>
            forall k :: 0 <= k < |x.calls| ==> AnswerAt(oracle, history, x.calls, k).Failed?)
      && (x.answer.Fetched? && path !in unwritable ==>
            o.result == Ok(SegmentsJson(x.answer.entries)) && o.files == files[path := Stored(SegmentsJson(x.answer.entries))])
      && (x.answer.Fetched? && path in unwritable ==>
            o.result == Err(CacheNotWritable(path)) && o.files == files)
      && (x.answer.Failed? ==> o.files == files)
  {
    DownloadAnswer(oracle, history, s, videoId);
  }

  /** A successful fetch leaves the cache holding exactly what it returned, as a list of
      entries that reads back to the transcript in order; every other path is untouched. */
  lemma SuccessIsCached(oracle: Oracle, unwritable: set<string>, s: Settings,
                        files: map<string, CacheFile>, history: seq<Call>, videoId: string)
    requires Fetch(oracle, unwritable, s, files, history, videoId).result.Ok?
    ensures var o := Fetch(oracle, unwritable, s, files, history, videoId);
      var path := CachePath(s.cacheDir, videoId);
      Load(o.files, path) == o.result
      && o.result.value != JNull
      && (o.calls != [] ==> SnippetsOf(o.result.value.items) == Some(Download(oracle, history, s, videoId).answer.entries))
      && (forall p :: p != path ==> (p in o.files <==> p in files))
      && (forall p :: p != path && p in files ==> o.files[p] == files[p])
  {
    var o := Fetch(oracle, unwritable, s, files, history, videoId);
    var path := CachePath(s.cacheDir, videoId);
    var x := Download(oracle, history, s, videoId);
    if o.calls != [] {
      SegmentsRoundTrip(x.answer.entries);
      UnwrapLegacy(o.result.value);
    }
  }

  /** Without `force`, asking again after a success gives the same value from the cache,
      with no call and no write (test_transcript_fetcher.py:204-215). */
  lemma SecondCallCached(oracle: Oracle, unwritable: set<string>, s: Settings,
                         files: map<string, CacheFile>, history: seq<Call>, videoId: string)
    requires !s.force
    requires Fetch(oracle, unwritable, s, files, history, videoId).result.Ok?
    ensures var o := Fetch(oracle, unwritable, s, files, history, videoId);
      Fetch(oracle, unwritable, s, o.files, history + o.calls, videoId) == Outcome(o.result, o.files, [])
  {
    var o := Fetch(oracle, unwritable, s, files, history, videoId);
    SuccessIsCached(oracle, unwritable, s, files, history, videoId);
    CacheHitServed(oracle, unwritable, s, o.files, history + o.calls, videoId, o.result.value);
  }

  /** With `force` the cache is never read: what a fetch returns and which calls it makes
      do not depend on the files. */
  lemma ForceIgnoresCache(oracle: Oracle, unwritable: set<string>, s: Settings,
                          files1: map<string, CacheFile>, files2: map<string, CacheFile>,
                          history: seq<Call>, videoId: string)
    requires s.force
    ensures Fetch(oracle, unwritable, s, files1, history, videoId).result
         == Fetch(oracle, unwritable, s, files2, history, videoId).result
    ensures Fetch(oracle, unwritable, s, files1, history, videoId).calls
         == Fetch(oracle, unwritable, s, files2, history, videoId).calls
  {
  }

  /** A stored `null` acts as a miss: the fetch behaves as if the file were absent. */
  lemma StoredNullActsAsMiss(oracle: Oracle, unwritable: set<string>, s: Settings,
                             files: map<string, CacheFile>, history: seq<Call>, videoId: string)
    requires CachePath(s.cacheDir, videoId) !in files
    ensures var with := files[CachePath(s.cacheDir, videoId) := Stored(JNull)];
      Fetch(oracle, unwritable, s, with, history, videoId).result == Fetch(oracle, unwritable, s, files, history, videoId).result
      && Fetch(oracle, unwritable, s, with, history, videoId).calls == Fetch(oracle, unwritable, s, files, history, videoId).calls
  {
  }

  /** With `force` and no credentials every fetch makes exactly one direct call. */
  lemma ForceFetchesOnce(oracle: Oracle, unwritable: set<string>, s: Settings,
                         files: map<string, CacheFile>, history: seq<Call>, videoId: string)
    requires s.force && !(Truthy(s.username) && Truthy(s.password))
    ensures Fetch(oracle, unwritable, s, files, history, videoId).calls == [Single(videoId, Direct)]
  {
  }

  /** Three forced fetches in a row make three calls (test_transcript_fetcher.py:228-253). */
  lemma ThreeForcedFetches(oracle: Oracle, unwritable: set<string>, s: Settings,
                           files: map<string, CacheFile>, history: seq<Call>, videoId: string)
    requires s.force && !(Truthy(s.username) && Truthy(s.password))
    ensures var o1 := Fetch(oracle, unwritable, s, files, history, videoId);
      var o2 := Fetch(oracle, unwritable, s, o1.files, history + o1.calls, videoId);
      var o3 := Fetch(oracle, unwritable, s, o2.files, history + o1.calls + o2.calls, videoId);
      o1.calls + o2.calls + o3.calls == [Single(videoId, Direct), Single(videoId, Direct), Single(videoId, Direct)]
  {
    var o1 := Fetch(oracle, unwritable, s, files, history, videoId);
    ForceFetchesOnce(oracle, unwritable, s, files, history, videoId);
    var o2 := Fetch(oracle, unwritable, s, o1.files, history + o1.calls, videoId);
    ForceFetchesOnce(oracle, unwritable, s, o1.files, history + o1.calls, videoId);
    ForceFetchesOnce(oracle, unwritable, s, o2.files, history + o1.calls + o2.calls, videoId);
  }

  // ---------------------------------------------------------------------------------
  // The objects

  /** The cache directory: a map from path to file. `open(path, 'w')` raises an `OSError`
      for the paths in `unwritable`. */
  class Disk {
    var files: map<string, CacheFile>
    const unwritable: set<string>

    constructor(files: map<string, CacheFile>, unwritable: set<string>)
      ensures this.files == files && this.unwritable == unwritable
    {
      this.files := files;
      this.unwritable := unwritable;
    }

    /** `open(path, 'w')` then `json.dump(data, f)`: the file holds `data` afterwards,
        unless the open fails and nothing changes. */
    method Write(path: string, data: Json) returns (ok: bool)
      modifies this
      ensures ok == (path !in unwritable)
      ensures files == if ok then old(files)[path := Stored(data)] else old(files)
    {
      ok := path !in unwritable;
      if ok {
        files := files[path := Stored(data)];
      }
    }
  }

  /** The transcript library seen from the fetcher: every call is recorded in `calls`
      (the call count the tests read off their mock), and answered by `oracle`. */
  class Network {
    const oracle: Oracle
    var calls: seq<Call>

    constructor(oracle: Oracle)
      ensures this.oracle == oracle && calls == []
    {
      this.oracle := oracle;
      calls := [];
    }

    method Request(c: Call) returns (a: Answer)
      modifies this
      ensures a == oracle(old(calls), c)
      ensures calls == old(calls) + [c]
    {
      a := oracle(calls, c);
      calls := calls + [c];
    }
  }

  /** `YouTubeTranscriptFetcher`. */
  class TranscriptFetcher {
    var cacheDir: string
    const force: bool
    const username: Option<string>
    const password: Option<string>
    const maxConcurrentRequests: int
    const disk: Disk
    const net: Network

    /** `__init__`, with the same defaults; the cache is `disk` and the network `net`. */
    constructor(disk: Disk, net: Network, cacheDir: string := "cache", force: bool := false,
                username: Option<string> := None, password: Option<string> := None,
                maxConcurrentRequests: int := 2)
      ensures this.cacheDir == cacheDir && this.force == force
      ensures this.username == username && this.password == password
      ensures this.maxConcurrentRequests == maxConcurrentRequests
      ensures this.disk == disk && this.net == net
    {
      this.cacheDir := cacheDir;
      this.force := force;
      this.username := username;
      this.password := password;
      this.maxConcurrentRequests := maxConcurrentRequests;
      this.disk := disk;
      this.net := net;
    }

    /** The fields `get_transcript` reads. */
    function Config(): Settings
      reads this
    {
      Settings(cacheDir, force, username, password, maxConcurrentRequests)
    }

    /** `set_cache_dir`: later cache paths are under `dir`. */
    method SetCacheDir(dir: string)
      modifies this
      ensures cacheDir == dir
    {
      cacheDir := dir;
    }

    /** `_get_cache_path`. */
    function CachePath(videoId: string): string
      reads this
    {
      Transcripts.CachePath(cacheDir, videoId)
    }

    /** `_load_from_cache`. */
    function LoadFromCache(videoId: string): Result<Json, Error>
      reads this, disk
    {
      Load(disk.files, CachePath(videoId))
    }

    /** `_save_to_cache`; `false` when the open raises. */
    method SaveToCache(videoId: string, data: Json) returns (ok: bool)
      modifies disk
      ensures ok == (CachePath(videoId) !in disk.unwritable)
      ensures disk.files == if ok then old(disk.files)[CachePath(videoId) := Stored(data)] else old(disk.files)
    {
      ok := disk.Write(CachePath(videoId), data);
    }

    /** `_get_transcript_single`: one `fetch`, proxied exactly when both credentials are set. */
    method GetTranscriptSingle(videoId: string) returns (a: Answer)
      modifies net
      ensures var c := Single(videoId, ConnectionFor(username, password));
        a == net.oracle(old(net.calls), c) && net.calls == old(net.calls) + [c]
    {
      a := net.Request(Single(videoId, ConnectionFor(username, password)));
    }

    /** `_get_transcript_concurrent`: with no worker nothing is called and the wait times out. */
    method GetTranscriptConcurrent(videoId: string) returns (a: Answer)
      modifies net
      ensures var c := Race(videoId, maxConcurrentRequests);
        if maxConcurrentRequests > 0 then a == net.oracle(old(net.calls), c) && net.calls == old(net.calls) + [c]
        else a == Failed && net.calls == old(net.calls)
    {
      if maxConcurrentRequests > 0 {
        a := net.Request(Race(videoId, maxConcurrentRequests));
      } else {
        a := Failed;
      }
    }

    /** `get_transcript(url)`: its result, the cache afterwards and the calls it makes are
        those `GetTranscriptSpec` gives for the state before the call. */
    method GetTranscript(url: string) returns (r: Result<Json, Error>)
      modifies disk, net
      ensures |old(net.calls)| <= |net.calls| && net.calls[..|old(net.calls)|] == old(net.calls)
      ensures Outcome(r, disk.files, net.calls[|old(net.calls)|..])
           == GetTranscriptSpec(net.oracle, disk.unwritable, Config(), old(disk.files), old(net.calls), url)
    {
      var extracted := ExtractYouTubeId(Some(url));
      assert net.calls[|net.calls|..] == [];
      if extracted.Raised? {
        return Err(BadUrl(extracted.error));
      }
      if extracted.id.None? || extracted.id.value == "" {
        return Err(NoVideoId(url));
      }
      var videoId := extracted.id.value;
      r := Get(videoId);
    }

    /** Lines 55-89 of `get_transcript`, once the identifier is known. */
    method Get(videoId: string) returns (r: Result<Json, Error>)
      modifies disk, net
      ensures |old(net.calls)| <= |net.calls| && net.calls[..|old(net.calls)|] == old(net.calls)
      ensures Outcome(r, disk.files, net.calls[|old(net.calls)|..])
           == Fetch(net.oracle, disk.unwritable, Config(), old(disk.files), old(net.calls), videoId)
    {
      ghost var history := net.calls;
      assert net.calls[|history|..] == [];
      if !force {
        var cached := LoadFromCache(videoId);
        if cached.Err? {
          return Err(cached.error);
        }
        if cached.value != JNull {
          return cached;
        }
      }
      var answer := DownloadTranscript(videoId);
      ghost var x := Download(net.oracle, history, Config(), videoId);
      assert net.calls[|history|..] == x.calls;
      if answer.Failed? {
        return Err(DownloadFailed);
      }
      var data := SegmentsJson(answer.entries);
      var ok := SaveToCache(videoId, data);
      if !ok {
        return Err(CacheNotWritable(CachePath(videoId)));
      }
      return Ok(data);
    }

    /** Lines 60-83: the race and its fallback with credentials, one plain call without. */
    method DownloadTranscript(videoId: string) returns (a: Answer)
      modifies net
      ensures var x := Download(net.oracle, old(net.calls), Config(), videoId);
        a == x.answer && net.calls == old(net.calls) + x.calls
    {
      ghost var history := net.calls;
      if Truthy(username) && Truthy(password) {
        a := GetTranscriptConcurrent(videoId);
        ghost var raced := net.calls[|history|..];
        assert net.calls == history + raced;
        if a.Failed? {
          a := GetTranscriptSingle(videoId);
          assert net.calls == history + (raced + [Single(videoId, ConnectionFor(username, password))]);
        }
      } else {
        a := GetTranscriptSingle(videoId);
      }
    }

    /** `generate_flattened(transcript_data, video_id)`, without writing the text to
        `FlattenedPath(cacheDir, video_id)`. */
    method GenerateFlattened(data: Json, videoId: string) returns (r: Result<string, FlattenError>)
      ensures r == Flatten(data)
    {
      match data {
        case JNull => return Ok("");
        case JArray(items) =>
          var lines := FlattenLines(items);
          return if lines.Err? then Err(lines.error) else Ok(Join(lines.value, '\n'));
        case JObject(fields) => return if fields == map[] then Ok("") else Err(ItemNotADict);
        case JString(s) => return if s == "" then Ok("") else Err(ItemNotADict);
        case JBool(_) => return Err(NotIterable);
        case JNumber(_) => return Err(NotIterable);
      }
    }
  }

  /** The loop of `generate_flattened`: the lines kept from `items`, stopping at the first
      item that makes Python raise. */
  method FlattenLines(items: seq<Json>) returns (r: Result<seq<string>, FlattenError>)
    ensures r == KeptLines(items)
  {
    var lines: seq<string> := [];
    var i := 0;
    while i < |items|
      invariant 0 <= i <= |items|
      invariant KeptLines(items[..i]) == Ok(lines)
    {
      PrefixGrows(items, i);
      var line := LineOf(items[i]);
      KeptLinesStep(items[..i], items[i]);
      if line.Err? {
        KeptLinesStops(items, i + 1);
        return Err(line.error);
      }
      lines := lines + Emit(line.value);
      i := i + 1;
    }
    assert items[..i] == items;
    return Ok(lines);
  }

  lemma PrefixGrows<T>(s: seq<T>, i: nat)
    requires i < |s|
    ensures s[..i + 1] == s[..i] + [s[i]]
  {
  }

  /** One more item: its line is appended, or its failure ends the loop. */
  lemma KeptLinesStep(prefix: seq<Json>, item: Json)
    ensures KeptLines(prefix + [item]) ==
      match KeptLines(prefix)
      case Err(e) => Err(e)
      case Ok(lines) =>
        match LineOf(item)
        case Err(e) => Err(e)
        case Ok(line) => Ok(lines + Emit(line))
  {
    var s := prefix + [item];
    assert s[..|s| - 1] == prefix && s[|s| - 1] == item;
  }

  /** Once the loop has failed on a prefix, it has failed on the whole list. */
  lemma {:induction false} KeptLinesStops(items: seq<Json>, n: nat)
    requires 0 < n <= |items| && KeptLines(items[..n]).Err?
    ensures KeptLines(items) == KeptLines(items[..n])
    decreases |items| - n
  {
    if n == |items| {
      assert items[..n] == items;
    } else {
      assert items[..n + 1][..n] == items[..n];
      KeptLinesStops(items, n + 1);
    }
  }
}
