/**
 * The `/transcript/<video_id>` route of app.py: the identifier length check, the
 * `force` query flag, the cache check before any fetch, the watch URL handed to the
 * fetcher, and the mapping of exceptions to status codes.
 */
module Service {
  import opened Wrappers
  import opened Text
  import opened VideoIds
  import opened Transcripts
  import opened Fetcher

  /** The environment the app reads its fetcher settings from. */
  datatype Env = Env(cacheDir: string, username: Option<string>, password: Option<string>,
                     maxConcurrentRequests: int)

  /** The JSON reply of the route, by status: 200 with the transcript and whether it came
      from the cache, 400 for an identifier of the wrong length, 404 for a `ValueError`,
      500 for any other exception. */
  datatype Response =
    | Transcript(videoId: string, transcript: Json, cached: bool)
    | InvalidId
    | NotAvailable(cause: Error)
    | InternalError(cause: Error)

  function Status(r: Response): int {
    match r
    case Transcript(_, _, _) => 200
    case InvalidId => 400
    case NotAvailable(_) => 404
    case InternalError(_) => 500
  }

  /** The `except` clauses: a `ValueError` is 404, anything else 500. */
  function Failure(e: Error): (r: Response)
    ensures Status(r) == (if IsValueError(e) then 404 else 500)
    ensures r.NotAvailable? || r.InternalError?
  {
    if IsValueError(e) then NotAvailable(e) else InternalError(e)
  }

  /** The values of `force` that turn the refresh on, after lower-casing. */
  const ForceValues: set<string> := {"1", "true"}

  /** `request.args.get('force', '0').lower() in ['1', 'true']`. */
  function ForceFlag(arg: Option<string>): bool {
    AsciiLower(if arg.Some? then arg.value else "0") in ForceValues
  }

  /** `1` and `true` in any case turn the refresh on; other values do not. */
  lemma ForceFlagValues()
    ensures ForceFlag(Some("1")) && ForceFlag(Some("true"))
    ensures ForceFlag(Some("TRUE")) && ForceFlag(Some("True"))
    ensures !ForceFlag(Some("0")) && !ForceFlag(Some("")) && !ForceFlag(Some("yes"))
  {
    assert AsciiLower("0") == "0";
    assert AsciiLower("1") == "1";
    assert AsciiLower("true") == "true";
    assert AsciiLower("TRUE") == "true";
    assert AsciiLower("True") == "true";
    assert AsciiLower("") == "";
    assert |AsciiLower("yes")| == 3;
  }

  /** `s` reads `true` once lower-cased, whatever the case of each letter. */
  predicate TrueInAnyCase(s: string) {
    |s| == 4 && LowerChar(s[0]) == 't' && LowerChar(s[1]) == 'r' && LowerChar(s[2]) == 'u'
      && LowerChar(s[3]) == 'e'
  }

  /** The refresh is on exactly when the parameter is given and is `1`, or `true` in any case. */
  lemma ForceFlagExactly(arg: Option<string>)
    ensures ForceFlag(arg) <==> arg.Some? && (arg.value == "1" || TrueInAnyCase(arg.value))
  {
    var s := if arg.Some? then arg.value else "0";
    var l := AsciiLower(s);
    assert AsciiLower("0") == "0";
    if l == "1" {
      assert LowerChar(s[0]) == '1';
      assert s == "1";
    }
    if l == "true" {
      assert TrueInAnyCase(s);
    }
    if arg.Some? && TrueInAnyCase(arg.value) {
      assert l == "true";
    }
  }

  /** The fetcher settings of a request: the app's fetcher, or the forcing one it builds. */
  function RequestSettings(env: Env, force: bool): Settings {
    Settings(env.cacheDir, force, env.username, env.password, env.maxConcurrentRequests)
  }

  /** What one request gives and does. */
  datatype Served = Served(response: Response, files: map<string, CacheFile>, calls: seq<Call>)

  /** The route (app.py:33-105) as a function of the request, the cache and the calls made before. */
  function Serve(env: Env, oracle: Oracle, unwritable: set<string>, files: map<string, CacheFile>,
                 history: seq<Call>, videoId: string, forceArg: Option<string>): Served
  {
    if |videoId| != 11 then Served(InvalidId, files, [])
    else
      var force := ForceFlag(forceArg);
      var cached := if force then Ok(JNull) else Load(files, CachePath(env.cacheDir, videoId));
      if cached.Err? then Served(Failure(cached.error), files, [])
      else if cached.value != JNull then Served(Transcript(videoId, cached.value, true), files, [])
      else
        var o := GetTranscriptSpec(oracle, unwritable, RequestSettings(env, force), files, history,
                                   WatchUrl(CanonicalHost, videoId));
        var response := if o.result.Ok? then Transcript(videoId, o.result.value, false) else Failure(o.result.error);
        Served(response, o.files, o.calls)
  }

  /** An identifier that is not 11 characters long is refused with 400 before anything else. */
  lemma WrongLengthRefused(env: Env, oracle: Oracle, unwritable: set<string>, files: map<string, CacheFile>,
                           history: seq<Call>, videoId: string, forceArg: Option<string>)
    requires |videoId| != 11
    ensures Serve(env, oracle, unwritable, files, history, videoId, forceArg) == Served(InvalidId, files, [])
    ensures Status(InvalidId) == 400
  {
  }

  /** Only the length is checked: every 11-character identifier gets past the 400. */
  lemma LengthIsTheOnlyCheck(env: Env, oracle: Oracle, unwritable: set<string>, files: map<string, CacheFile>,
                             history: seq<Call>, videoId: string, forceArg: Option<string>)
    requires |videoId| == 11
    ensures Status(Serve(env, oracle, unwritable, files, history, videoId, forceArg).response) != 400
  {
  }

  /** Every reply has one of the four statuses, and 200 exactly when it carries a transcript
      for the requested identifier. */
  lemma StatusIsOneOfFour(env: Env, oracle: Oracle, unwritable: set<string>, files: map<string, CacheFile>,
                          history: seq<Call>, videoId: string, forceArg: Option<string>)
    ensures var r := Serve(env, oracle, unwritable, files, history, videoId, forceArg).response;
      Status(r) in {200, 400, 404, 500}
      && (Status(r) == 200 <==> r.Transcript?)
      && (r.Transcript? ==> r.videoId == videoId)
  {
  }

  /** Without `force`, a cached value is the reply, marked as cached, and nothing is fetched. */
  lemma CachedReply(env: Env, oracle: Oracle, unwritable: set<string>, files: map<string, CacheFile>,
                    history: seq<Call>, videoId: string, forceArg: Option<string>, data: Json)
    requires |videoId| == 11 && !ForceFlag(forceArg)
    requires Load(files, CachePath(env.cacheDir, videoId)) == Ok(data) && data != JNull
    ensures Serve(env, oracle, unwritable, files, history, videoId, forceArg)
         == Served(Transcript(videoId, data, true), files, [])
  {
  }

  /** A cache file that does not parse is a `ValueError`: 404, nothing fetched. */
  lemma CorruptCacheIs404(env: Env, oracle: Oracle, unwritable: set<string>, files: map<string, CacheFile>,
                          history: seq<Call>, videoId: string, forceArg: Option<string>)
    requires |videoId| == 11 && !ForceFlag(forceArg)
    requires var path := CachePath(env.cacheDir, videoId); path in files && files[path] == Unparsable
    ensures var r := Serve(env, oracle, unwritable, files, history, videoId, forceArg);
      Status(r.response) == 404 && r.files == files && r.calls == []
  {
  }

  /** When the cache has nothing and the identifier is a real one, the fetcher is asked for
      that same identifier, with `force` as the request says; its `ValueError`s are 404
      and a failed cache write is 500. */
  lemma MissIsFetched(env: Env, oracle: Oracle, unwritable: set<string>, files: map<string, CacheFile>,
                      history: seq<Call>, videoId: string, forceArg: Option<string>)
    requires IsVideoId(videoId)
    requires ForceFlag(forceArg) || Load(files, CachePath(env.cacheDir, videoId)) == Ok(JNull)
    ensures var r := Serve(env, oracle, unwritable, files, history, videoId, forceArg);
      var o := Fetch(oracle, unwritable, RequestSettings(env, ForceFlag(forceArg)), files, history, videoId);
      r.files == o.files && r.calls == o.calls
      && (o.result.Ok? ==> r.response == Transcript(videoId, o.result.value, false))
      && (o.result.Err? ==> r.response == Failure(o.result.error))
  {
    WatchUrlOfIdentifier(CanonicalHost, videoId);
    ExtractedIdIsFetched(oracle, unwritable, RequestSettings(env, ForceFlag(forceArg)), files, history,
                         WatchUrl(CanonicalHost, videoId), videoId);
  }

  /** A transcript reply leaves that transcript in the cache under the identifier's path. */
  lemma ReplyIsCached(env: Env, oracle: Oracle, unwritable: set<string>, files: map<string, CacheFile>,
                      history: seq<Call>, videoId: string, forceArg: Option<string>)
    requires IsVideoId(videoId)
    requires Serve(env, oracle, unwritable, files, history, videoId, forceArg).response.Transcript?
    ensures var r := Serve(env, oracle, unwritable, files, history, videoId, forceArg);
      Load(r.files, CachePath(env.cacheDir, videoId)) == Ok(r.response.transcript)
      && r.response.transcript != JNull
  {
    var r := Serve(env, oracle, unwritable, files, history, videoId, forceArg);
    if !r.response.cached {
      MissIsFetched(env, oracle, unwritable, files, history, videoId, forceArg);
      SuccessIsCached(oracle, unwritable, RequestSettings(env, ForceFlag(forceArg)), files, history, videoId);
    }
  }

  /** Without the query parameter there is no refresh. */
  lemma NoForceByDefault()
    ensures !ForceFlag(None)
  {
    assert AsciiLower("0") == "0";
  }

  /** After a reply with a transcript, asking again without `force` gives the same
      transcript, now from the cache, with no call. */
  lemma SecondRequestCached(env: Env, oracle: Oracle, unwritable: set<string>, files: map<string, CacheFile>,
                            history: seq<Call>, videoId: string, forceArg: Option<string>)
    requires IsVideoId(videoId)
    requires Serve(env, oracle, unwritable, files, history, videoId, forceArg).response.Transcript?
    ensures var r1 := Serve(env, oracle, unwritable, files, history, videoId, forceArg);
      Serve(env, oracle, unwritable, r1.files, history + r1.calls, videoId, None)
        == Served(Transcript(videoId, r1.response.transcript, true), r1.files, [])
  {
    var r1 := Serve(env, oracle, unwritable, files, history, videoId, forceArg);
    ReplyIsCached(env, oracle, unwritable, files, history, videoId, forceArg);
    NoForceByDefault();
    CachedReply(env, oracle, unwritable, r1.files, history + r1.calls, videoId, None, r1.response.transcript);
  }

  /** The app: its fetcher, built once from the environment, and the cache and the network
      it shares with the forcing fetchers it builds per request. */
  class App {
    const env: Env
    const disk: Disk
    const net: Network
    const fetcher: TranscriptFetcher

    /** The app's fetcher uses the environment's settings, without `force`, over `disk` and `net`. */
    predicate Valid()
      reads this, fetcher
    {
      fetcher.disk == disk && fetcher.net == net && fetcher.cacheDir == env.cacheDir && !fetcher.force
      && fetcher.username == env.username && fetcher.password == env.password
      && fetcher.maxConcurrentRequests == env.maxConcurrentRequests
    }

    constructor(env: Env, disk: Disk, net: Network)
      ensures Valid() && this.env == env && this.disk == disk && this.net == net
    {
      this.env := env;
      this.disk := disk;
      this.net := net;
      fetcher := new TranscriptFetcher(disk, net, env.cacheDir, false, env.username, env.password,
                                       env.maxConcurrentRequests);
    }

    /** `get_transcript(video_id)` with the `force` query parameter `forceArg`. */
    method GetTranscript(videoId: string, forceArg: Option<string>) returns (r: Response)
      requires Valid()
      modifies disk, net
      ensures Valid()
      ensures |old(net.calls)| <= |net.calls| && net.calls[..|old(net.calls)|] == old(net.calls)
      ensures Served(r, disk.files, net.calls[|old(net.calls)|..])
           == Serve(env, net.oracle, disk.unwritable, old(disk.files), old(net.calls), videoId, forceArg)
    {
      assert net.calls[|net.calls|..] == [];
      if |videoId| != 11 {
        return InvalidId;
      }
      var force := ForceFlag(forceArg);
      if !force {
        var cached := fetcher.LoadFromCache(videoId);
        if cached.Err? {
          return Failure(cached.error);
        }
        if cached.value != JNull {
          return Transcript(videoId, cached.value, true);
        }
      }
      var url := WatchUrl(CanonicalHost, videoId);
      var result;
      if force {
        var requestFetcher := new TranscriptFetcher(disk, net, env.cacheDir, true, env.username,
                                                    env.password, env.maxConcurrentRequests);
        result := requestFetcher.GetTranscript(url);
      } else {
        result := fetcher.GetTranscript(url);
      }
      r := if result.Ok? then Transcript(videoId, result.value, false) else Failure(result.error);
    }
  }
}
