/**
 * `extract_youtube_id` (utils.py): a bare identifier or one of several URL
 * shapes becomes a video identifier, `None`, or (for a netloc with unbalanced
 * square brackets) the ValueError that `urlparse` raises.
 */
module VideoIds {
  import opened Wrappers
  import opened Text
  import opened Urls

  predicate IsIdChar(c: char) { IsAsciiLetter(c) || IsAsciiDigit(c) || c == '_' || c == '-' }

  /** `re.fullmatch(r"[A-Za-z0-9_-]{11}", s)`. */
  predicate IsVideoId(s: string) {
    |s| == 11 && forall i :: 0 <= i < |s| ==> IsIdChar(s[i])
  }

  /** The outcome of `extract_youtube_id`: a returned value (a string, possibly empty, or `None`),
      or the exception that escapes it. */
  datatype Extraction = Extracted(id: Option<string>) | Raised(error: UrlError)

  /** The canonical site. */
  const CanonicalHost: string := "www.youtube.com"

  /** The canonical site and its bare-domain alias. */
  const WatchHosts: set<string> := {CanonicalHost, "youtube.com"}

  /** The short-link alias. */
  const ShortLinkHost: string := "youtu.be"

  /** The characters that end the identifier in `[^/?#&]+`. */
  const IdStops: set<char> := {'/', '?', '#', '&'}

  /** Group 2 of `re.match(r"^/(embed|shorts)/([^/?#&]+)", path)`, or `None` when it does not match. */
  function EmbedId(path: string): (r: Option<string>)
    ensures r.Some? ==> r.value != "" && NoneOf(r.value, IdStops)
  {
    var rest :=
      if |path| >= 7 && path[..7] == "/embed/" then Some(path[7..])
      else if |path| >= 8 && path[..8] == "/shorts/" then Some(path[8..])
      else None;
    match rest
    case None => None
    case Some(tail) =>
      var run := tail[..Find(tail, IdStops)];
      if run == "" then None else Some(run)
  }

  /** The run `EmbedId` takes is the longest one: it ends at a stop character or at the end of the path. */
  lemma EmbedIdIsMaximal(prefix: string, tail: string)
    requires prefix == "/embed/" || prefix == "/shorts/"
    requires EmbedId(prefix + tail).Some?
    ensures var id := EmbedId(prefix + tail).value;
      |id| <= |tail| && tail[..|id|] == id && (|id| == |tail| || tail[|id|] in IdStops)
  {
    var path := prefix + tail;
    assert path[..|prefix|] == prefix;
    assert path[|prefix|..] == tail;
    if prefix == "/shorts/" {
      assert path[..7] != "/embed/" by {
        assert path[1] == 's';
      }
    }
  }

  /** `path.lstrip("/")`. */
  function TrimSlashes(path: string): (r: string)
    ensures |r| <= |path| && r == path[|path| - |r|..]
    ensures r == [] || r[0] != '/'
    ensures forall i :: 0 <= i < |path| - |r| ==> path[i] == '/'
  {
    if |path| > 0 && path[0] == '/' then TrimSlashes(path[1..]) else path
  }

  /** The branches of `extract_youtube_id` that read a parsed URL. */
  function FromUrl(url: ParsedUrl): Option<string> {
    var host := Hostname(url.netloc);
    if host.Some? && host.value in WatchHosts && url.path == "/watch" then
      QueryValue(url.query, "v")
    else if host.Some? && host.value in WatchHosts && EmbedId(url.path).Some? then
      EmbedId(url.path)
    else if host == Some(ShortLinkHost) then
      Some(TrimSlashes(url.path))
    else
      None
  }

  /** On the canonical hosts the `/watch` path reads the `v` parameter of the query. */
  lemma WatchPathReadsQuery(url: ParsedUrl)
    requires Hostname(url.netloc).Some? && Hostname(url.netloc).value in WatchHosts && url.path == "/watch"
    ensures FromUrl(url) == QueryValue(url.query, "v")
  {
  }

  /** On the canonical hosts any other path is matched against the embed and shorts forms. */
  lemma OtherPathReadsSegment(url: ParsedUrl)
    requires Hostname(url.netloc).Some? && Hostname(url.netloc).value in WatchHosts && url.path != "/watch"
    requires EmbedId(url.path).Some?
    ensures FromUrl(url) == EmbedId(url.path)
  {
  }

  /** On the short-link host the path is the identifier. */
  lemma ShortLinkReadsPath(url: ParsedUrl)
    requires Hostname(url.netloc) == Some(ShortLinkHost)
    ensures FromUrl(url) == Some(TrimSlashes(url.path))
  {
    ShortLinkHostApart();
  }

  /** On the canonical hosts a path that is neither `/watch` nor a matching `/embed/` or
      `/shorts/` path gives `None`. */
  lemma CanonicalOtherPathGivesNone(url: ParsedUrl)
    requires Hostname(url.netloc).Some? && Hostname(url.netloc).value in WatchHosts
    requires url.path != "/watch" && EmbedId(url.path).None?
    ensures FromUrl(url) == None
  {
    ShortLinkHostApart();
  }

  /** Any other hostname, and a missing one, gives `None` whatever the path and query. */
  lemma OtherHostGivesNone(url: ParsedUrl)
    requires Hostname(url.netloc).None? || (Hostname(url.netloc).value !in WatchHosts
                                            && Hostname(url.netloc).value != ShortLinkHost)
    ensures FromUrl(url) == None
  {
  }

  /** On the canonical hosts a `/watch` URL without a non-blank `v` field gives `None`. */
  lemma WatchWithoutVGivesNone(url: ParsedUrl)
    requires Hostname(url.netloc).Some? && Hostname(url.netloc).value in WatchHosts && url.path == "/watch"
    requires forall k :: 0 <= k < |ParseQsl(url.query)| ==> ParseQsl(url.query)[k].0 != "v"
    ensures FromUrl(url) == None
  {
    WatchPathReadsQuery(url);
    assert QueryValue(url.query, "v") == FirstValue(ParseQsl(url.query), "v");
    NoPairNoValue(ParseQsl(url.query), "v");
  }

  /** `FirstValue` finds nothing when no pair carries the name. */
  lemma {:induction false} NoPairNoValue(pairs: seq<(string, string)>, name: string)
    requires forall k :: 0 <= k < |pairs| ==> pairs[k].0 != name
    ensures FirstValue(pairs, name) == None
  {
    if pairs != [] {
      assert forall k :: 0 <= k < |pairs[1..]| ==> pairs[1..][k] == pairs[k + 1];
      NoPairNoValue(pairs[1..], name);
    }
  }

  /** The short-link host is neither of the watch hosts. */
  lemma ShortLinkHostApart()
    ensures ShortLinkHost !in WatchHosts
  {
    assert |ShortLinkHost| == 8 && |CanonicalHost| == 15 && |"youtube.com"| == 11;
  }

  /** `extract_youtube_id(value)`; `value == None` is Python's `None`. */
  function ExtractYouTubeId(value: Option<string>): Extraction {
    if value == None || value == Some("") then Extracted(None)
    else ExtractStripped(Strip(value.value))
  }

  /** The part of `extract_youtube_id` after `strip`: the identifier test, then the URL. */
  function ExtractStripped(v: string): Extraction {
    if IsVideoId(v) then Extracted(Some(v))
    else
      match UrlParse(v)
      case Err(e) => Raised(e)
      case Ok(url) => Extracted(FromUrl(url))
  }

  /** `s` neither starts nor ends with whitespace, so `strip` leaves it alone. */
  predicate Unpadded(s: string) {
    s != "" && !IsSpace(s[0]) && !IsSpace(s[|s| - 1])
  }

  /** A value that, once stripped, is not an identifier goes through `urlparse` of the
      stripped text, padded or not. */
  lemma ExtractParses(value: string, url: ParsedUrl)
    requires value != "" && !IsVideoId(Strip(value)) && UrlParse(Strip(value)) == Ok(url)
    ensures ExtractYouTubeId(Some(value)) == Extracted(FromUrl(url))
  {
  }

  /** `None` and the empty string give `None`. */
  lemma NothingGivesNone()
    ensures ExtractYouTubeId(None) == Extracted(None)
    ensures ExtractYouTubeId(Some("")) == Extracted(None)
  {
  }

  /** Every identifier is returned unchanged: `extract(id) == id`. */
  lemma IdentifierPassesThrough(id: string)
    requires IsVideoId(id)
    ensures ExtractYouTubeId(Some(id)) == Extracted(Some(id))
  {
    calc {
      ExtractYouTubeId(Some(id));
      { assert id != ""; }
      ExtractStripped(Strip(id));
      { IdentifierUnpadded(id); }
      ExtractStripped(id);
      { IdentifierWins(id); }
      Extracted(Some(id));
    }
  }

  /** After `strip`, an identifier needs no URL parsing. */
  lemma IdentifierWins(v: string)
    requires IsVideoId(v)
    ensures ExtractStripped(v) == Extracted(Some(v))
  {
  }

  /** An identifier has no whitespace to strip. */
  lemma IdentifierUnpadded(id: string)
    requires IsVideoId(id)
    ensures Strip(id) == id
  {
    assert IsIdChar(id[0]) && IsIdChar(id[10]);
    StripUnchanged(id);
  }

  /** The 11-character test runs on the stripped value and before any URL parsing. */
  lemma StrippedIdentifierWins(value: string)
    requires value != "" && IsVideoId(Strip(value))
    ensures ExtractYouTubeId(Some(value)) == Extracted(Some(Strip(value)))
  {
  }

  /** A string whose text after the scheme (when there is one) does not start with `//` has no
      netloc and so no hostname: once stripped, it gives `None` unless it is an identifier. */
  lemma NoNetlocGivesNone(value: string)
    requires value != "" && !IsVideoId(Strip(value))
    requires var rest := SplitScheme(Sanitize(Strip(value))).1; !(|rest| >= 2 && rest[..2] == "//")
    ensures ExtractYouTubeId(Some(value)) == Extracted(None)
  {
    var u := Sanitize(Strip(value));
    var (scheme, rest) := SplitScheme(u);
    assert UrlParse(Strip(value)) == Ok(SplitTail(scheme, "", rest));
    NoNetlocNoId(SplitTail(scheme, "", rest));
  }

  /** A string without a `:` and without a leading `/`, such as `www.youtube.com/watch?v=...`
      without a scheme, gives `None` unless it is itself an identifier. */
  lemma SchemelessGivesNone(value: string)
    requires Unpadded(value) && value[0] > ' ' && value[0] != '/' && ':' !in value && !IsVideoId(value)
    ensures ExtractYouTubeId(Some(value)) == Extracted(None)
  {
    var u := Without(value, UnsafeChars);
    NoSchemeParse(value);
    NoNetlocNoId(SplitTail("", "", u));
    StripUnchanged(value);
    ExtractParses(value, SplitTail("", "", u));
  }

  lemma NoSchemeParse(value: string)
    requires value != "" && value[0] > ' ' && value[0] != '/' && ':' !in value
    ensures UrlParse(value) == Ok(SplitTail("", "", Without(value, UnsafeChars)))
  {
    var u := Without(value, UnsafeChars);
    NoSchemeNoNetloc(value);
    assert !(|u| >= 2 && u[..2] == "//") by {
      assert |u| >= 2 ==> u[..2][0] == u[0];
    }
  }

  /** Without a netloc there is no hostname, so no branch applies. */
  lemma NoNetlocNoId(url: ParsedUrl)
    requires url.netloc == ""
    ensures FromUrl(url) == None
  {
  }

  lemma NoSchemeNoNetloc(value: string)
    requires value != "" && value[0] > ' ' && value[0] != '/' && ':' !in value
    ensures var u := Without(value, UnsafeChars);
      SplitScheme(u) == ("", u) && (u == [] || u[0] != '/') && Sanitize(value) == u
  {
    var u := Without(value, UnsafeChars);
    SanitizeClean(value);
    WithoutKeeps(value, UnsafeChars, ':');
    WithoutFirst(value, UnsafeChars);
    NoColonNoScheme(u);
  }

  /** Without a leading control character only the tabs and line breaks go. */
  lemma SanitizeClean(value: string)
    requires value != "" && value[0] > ' '
    ensures Sanitize(value) == Without(value, UnsafeChars)
  {
    assert TrimStartControl(value) == value;
  }

  /** Without a `:` there is no scheme. */
  lemma NoColonNoScheme(u: string)
    requires ':' !in u
    ensures SplitScheme(u) == ("", u)
  {
    FindIs(u, {':'}, |u|);
  }

  /** A first character outside `cs` survives `Without`. */
  lemma WithoutFirst(s: string, cs: set<char>)
    requires s != [] && s[0] !in cs
    ensures Without(s, cs) != [] && Without(s, cs)[0] == s[0]
  {
  }

  /** Removing characters never brings in a character that was not there. */
  lemma {:induction false} WithoutKeeps(s: string, cs: set<char>, c: char)
    requires c !in s
    ensures c !in Without(s, cs)
  {
    if |s| > 0 {
      WithoutKeeps(s[1..], cs, c);
    }
  }

  /** A host name `urlsplit` reads through to the first `/`: no brackets, no path, query or fragment. */
  predicate SimpleHost(host: string) {
    PlainHost(host) && NoUpper(host) && NoneOf(host, {'/', '?', '#', '\t', '\r', '\n'})
  }

  lemma NoneOfConcat(a: string, b: string, cs: set<char>)
    requires NoneOf(a, cs) && NoneOf(b, cs)
    ensures NoneOf(a + b, cs)
  {
    forall i | |a| <= i < |a| + |b| ensures (a + b)[i] !in cs {
      assert (a + b)[i] == b[i - |a|];
    }
  }

  /** A URL with no leading control character and no tab or line break is left as it is. */
  lemma CleanUrl(url: string)
    requires url != "" && url[0] > ' ' && NoneOf(url, UnsafeChars)
    ensures Sanitize(url) == url
  {
  }

  /** The scheme of `https:...` is `https`. */
  lemma HttpsScheme(rest: string)
    ensures SplitScheme("https:" + rest) == ("https", rest)
  {
    var url := "https:" + rest;
    FindIs(url, {':'}, 5);
    assert url[..5] == "https";
    AsciiLowerUnchanged(url[..5]);
  }

  /** The netloc of `//host/...` is `host`, and the rest is left to `SplitTail`. */
  lemma NetlocIsHost(host: string, tail: string)
    requires NoneOf(host, {'/', '?', '#'})
    requires tail == "" || tail[0] == '/'
    ensures var rest := "//" + host + tail;
      var end := 2 + Find(rest[2..], {'/', '?', '#'});
      end <= |rest| && rest[2..end] == host && rest[end..] == tail
  {
    var rest := "//" + host + tail;
    var stops := {'/', '?', '#'};
    assert rest[2..] == host + tail;
    FindAfter(host, tail, stops);
    FindIs(tail, stops, 0);
    assert rest[2..2 + |host|] == host;
    assert rest[2 + |host|..] == tail;
  }

  /** The netloc split of `//netloc` followed by a path. */
  lemma ParseNetloc(scheme: string, netloc: string, tail: string)
    requires NoneOf(netloc, {'/', '?', '#'}) && (tail == "" || tail[0] == '/')
    ensures SplitNetloc(scheme, "//" + netloc + tail) ==
      if ('[' in netloc) != (']' in netloc) then Err(InvalidIPv6Url) else Ok(SplitTail(scheme, netloc, tail))
  {
    var rest := "//" + netloc + tail;
    assert rest[..2] == "//";
    NetlocIsHost(netloc, tail);
  }

  /** `urlparse` reads `https://host/...` with `host` as the netloc. */
  lemma ParseHttpsShape(host: string, tail: string)
    requires NoneOf(host, {'/', '?', '#', '\t', '\r', '\n'})
    requires (tail == "" || tail[0] == '/') && NoneOf(tail, UnsafeChars)
    ensures UrlParse("https://" + host + tail) ==
      if ('[' in host) != (']' in host) then Err(InvalidIPv6Url) else Ok(SplitTail("https", host, tail))
  {
    assert NoneOf(host, UnsafeChars) by {
      forall i | 0 <= i < |host| ensures host[i] !in UnsafeChars {
        assert host[i] !in {'/', '?', '#', '\t', '\r', '\n'};
      }
    }
    HttpsParse(host, tail);
    ParseNetloc("https", host, tail);
  }

  /** A clean `https://` URL goes straight to the netloc split. */
  lemma HttpsParse(host: string, tail: string)
    requires NoneOf(host, UnsafeChars) && NoneOf(tail, UnsafeChars)
    ensures UrlParse("https://" + host + tail) == SplitNetloc("https", "//" + host + tail)
  {
    CleanHttps(host, tail);
    HttpsNetloc("//" + host + tail);
  }

  /** A clean `https:` URL goes straight to the netloc split. */
  lemma HttpsNetloc(rest: string)
    requires Sanitize("https:" + rest) == "https:" + rest
    ensures UrlParse("https:" + rest) == SplitNetloc("https", rest)
  {
    HttpsScheme(rest);
  }

  lemma CleanHttps(host: string, tail: string)
    requires NoneOf(host, UnsafeChars) && NoneOf(tail, UnsafeChars)
    ensures var url := "https:" + ("//" + host + tail);
      url == "https://" + host + tail && Sanitize(url) == url
  {
    var url := "https:" + ("//" + host + tail);
    assert url == "https://" + host + tail;
    NoneOfConcat("https://", host, UnsafeChars);
    NoneOfConcat("https://" + host, tail, UnsafeChars);
    CleanUrl(url);
  }

  /** `urlparse("https://" + host + tail)` when `tail` is a path beginning with `/`. */
  lemma ParseHttps(host: string, tail: string)
    requires SimpleHost(host)
    requires tail != "" && tail[0] == '/' && NoneOf(tail, UnsafeChars)
    ensures UrlParse("https://" + host + tail) == Ok(SplitTail("https", host, tail))
  {
    assert '[' !in host && ']' !in host;
    ParseHttpsShape(host, tail);
  }

  lemma HostnameOfSimpleHost(host: string)
    requires SimpleHost(host)
    ensures Hostname(host) == Some(host)
  {
    assert forall i :: 0 <= i < |host| ==> host[i] != '@';
    RFindNone(host, '@');
    var hi := host[RFind(host, '@') + 1..];
    assert hi == host;
    FindIs(host, {'['}, |host|);
    FindIs(host, {':'}, |host|);
    FindIs(host, {'%'}, |host|);
    assert hi[..Find(hi, {':'})] == host;
    assert host[..|host|] == host && host[|host|..] == "";
    AsciiLowerUnchanged(host);
    assert AsciiLower(host[..|host|]) + host[|host|..] == host;
  }

  lemma RFindNone(s: string, c: char)
    requires forall i :: 0 <= i < |s| ==> s[i] != c
    ensures RFind(s, c) == -1
  {
  }

  /** Identifier text that survives the query string of a watch URL: nothing `parse_qs` or `strip`
      would change (no `&`, `#`, `+`, `%`, no removed control character, no trailing whitespace). */
  predicate QuerySafe(id: string) {
    id != "" && NoneOf(id, {'&', '#', '+', '%', '\t', '\r', '\n'}) && !IsSpace(id[|id| - 1])
  }

  /** Identifier text that survives as one path segment. */
  predicate SegmentSafe(id: string) {
    id != "" && NoneOf(id, {'/', '?', '#', '&', ';', '\t', '\r', '\n'}) && !IsSpace(id[|id| - 1])
  }

  /** A short-link path: it starts with `/` and holds no query, fragment or params. */
  predicate ShortLinkPath(path: string) {
    path != "" && path[0] == '/' && NoneOf(path, {'?', '#', ';', '\t', '\r', '\n'}) && !IsSpace(path[|path| - 1])
  }

  /** The last step shared by the URL lemmas below. */
  lemma ExtractGives(url: string, parsed: ParsedUrl, r: string)
    requires Unpadded(url) && !IsVideoId(url) && UrlParse(url) == Ok(parsed) && FromUrl(parsed) == Some(r)
    ensures ExtractYouTubeId(Some(url)) == Extracted(Some(r))
  {
    StripUnchanged(url);
    ExtractParses(url, parsed);
  }

  /** `urlparse` of an `https` URL on a simple host, with the facts `ExtractParses` needs. */
  lemma ParseHttpsUrl(host: string, tail: string)
    requires SimpleHost(host) && |host| + |tail| > 3
    requires tail != "" && tail[0] == '/' && NoneOf(tail, UnsafeChars) && !IsSpace(tail[|tail| - 1])
    ensures var url := "https://" + host + tail;
      Unpadded(url) && !IsVideoId(url) && UrlParse(url) == Ok(SplitTail("https", host, tail))
  {
    var url := "https://" + host + tail;
    ParseHttps(host, tail);
    assert url[|url| - 1] == tail[|tail| - 1];
  }

  /** Both canonical hosts are simple host names. */
  lemma WatchHostSimple(host: string)
    requires host in WatchHosts
    ensures SimpleHost(host) && |host| > 3
  {
    if host == CanonicalHost {
      CanonicalHostSimple();
    } else {
      assert host == "youtube.com";
    }
  }

  lemma CanonicalHostSimple()
    ensures SimpleHost(CanonicalHost) && |CanonicalHost| > 3
  {
  }

  /** The URL of the watch page of `id` on `host`. */
  function WatchUrl(host: string, id: string): string {
    "https://" + host + ("/watch?v=" + id)
  }

  /** A watch URL's tail. */
  lemma WatchTail(id: string)
    requires QuerySafe(id)
    ensures var tail := "/watch?v=" + id;
      tail[0] == '/' && NoneOf(tail, UnsafeChars) && !IsSpace(tail[|tail| - 1])
  {
    var tail := "/watch?v=" + id;
    forall i | 0 <= i < |tail| ensures tail[i] !in UnsafeChars {
      if i >= 9 {
        assert tail[i] == id[i - 9];
      }
    }
    assert tail[|tail| - 1] == id[|id| - 1];
  }

  /** `urlparse` of a watch URL. */
  lemma ParseWatchUrl(host: string, id: string)
    requires host in WatchHosts && QuerySafe(id)
    ensures var url := WatchUrl(host, id);
      Unpadded(url) && !IsVideoId(url) && UrlParse(url) == Ok(SplitTail("https", host, "/watch?v=" + id))
  {
    WatchTail(id);
    WatchHostSimple(host);
    ParseHttpsUrl(host, "/watch?v=" + id);
  }

  /** The path and query of a watch URL. */
  lemma WatchUrlParts(host: string, id: string)
    requires QuerySafe(id)
    ensures var parsed := SplitTail("https", host, "/watch?v=" + id);
      parsed.path == "/watch" && parsed.query == "v=" + id
  {
    NoFragmentInWatchTail(id);
    WatchQuerySplit(id);
    assert ';' !in "/watch";
  }

  lemma NoFragmentInWatchTail(id: string)
    requires QuerySafe(id)
    ensures '#' !in "/watch?v=" + id
  {
    var tail := "/watch?v=" + id;
    forall i | 0 <= i < |tail| ensures tail[i] != '#' {
      if i >= 9 {
        assert tail[i] == id[i - 9];
      }
    }
  }

  lemma WatchQuerySplit(id: string)
    ensures SplitOnce("/watch?v=" + id, '?') == ("/watch", "v=" + id)
  {
    var tail := "/watch?v=" + id;
    FindIs("/watch?v=", {'?'}, 6);
    FindWithin("/watch?v=", id, {'?'});
    assert tail[..6] == "/watch" && tail[7..] == "v=" + id;
  }

  lemma WatchFromUrl(id: string, parsed: ParsedUrl)
    requires QuerySafe(id)
    requires parsed.netloc in WatchHosts && parsed.path == "/watch" && parsed.query == "v=" + id
    ensures FromUrl(parsed) == Some(id)
  {
    WatchHostSimple(parsed.netloc);
    HostnameOfSimpleHost(parsed.netloc);
    WatchPathReadsQuery(parsed);
    VOfQuery(id);
  }

  lemma VOfQuery(id: string)
    requires QuerySafe(id)
    ensures QueryValue("v=" + id, "v") == Some(id)
  {
    QueryValueOfSingleField("v", id);
    assert "v" + "=" + id == "v=" + id;
  }

  /** A watch URL on either canonical host gives back its `v` value, with no length check on it. */
  lemma WatchUrlGivesV(host: string, id: string)
    requires host in WatchHosts && QuerySafe(id)
    ensures ExtractYouTubeId(Some(WatchUrl(host, id))) == Extracted(Some(id))
  {
    var parsed := SplitTail("https", host, "/watch?v=" + id);
    ParseWatchUrl(host, id);
    WatchUrlParts(host, id);
    WatchFromUrl(id, parsed);
    ExtractGives(WatchUrl(host, id), parsed, id);
  }

  /** The tail of an `/embed/` or `/shorts/` URL. */
  lemma SegmentTail(prefix: string, id: string)
    requires prefix == "/embed/" || prefix == "/shorts/"
    requires SegmentSafe(id)
    ensures var tail := prefix + id;
      tail[0] == '/' && NoneOf(tail, UnsafeChars + {'#', '?', ';'}) && !IsSpace(tail[|tail| - 1])
  {
    NoneOfConcat(prefix, id, UnsafeChars + {'#', '?', ';'});
    assert (prefix + id)[|prefix + id| - 1] == id[|id| - 1];
  }

  /** `urlparse` of an `/embed/` or `/shorts/` URL. */
  lemma ParseSegmentUrl(host: string, prefix: string, id: string)
    requires host in WatchHosts
    requires prefix == "/embed/" || prefix == "/shorts/"
    requires SegmentSafe(id)
    ensures var url := "https://" + host + (prefix + id);
      var parsed := SplitTail("https", host, prefix + id);
      Unpadded(url) && !IsVideoId(url) && UrlParse(url) == Ok(parsed) && parsed.path == prefix + id
  {
    SegmentTail(prefix, id);
    WatchHostSimple(host);
    ParseHttpsUrl(host, prefix + id);
  }

  /** The identifier segment of an `/embed/` or `/shorts/` path. */
  lemma SegmentOfPath(prefix: string, id: string)
    requires prefix == "/embed/" || prefix == "/shorts/"
    requires SegmentSafe(id)
    ensures prefix + id != "/watch" && EmbedId(prefix + id) == Some(id)
  {
    var tail := prefix + id;
    assert tail[1] != 'w';
    assert tail[..|prefix|] == prefix && tail[|prefix|..] == id;
    if prefix == "/shorts/" {
      assert tail[..7] != "/embed/" by {
        assert tail[1] == 's';
      }
    }
    FindIs(id, IdStops, |id|);
    assert id[..|id|] == id;
  }

  lemma SegmentFromUrl(prefix: string, id: string, parsed: ParsedUrl)
    requires prefix == "/embed/" || prefix == "/shorts/"
    requires SegmentSafe(id)
    requires parsed.netloc in WatchHosts && parsed.path == prefix + id
    ensures FromUrl(parsed) == Some(id)
  {
    WatchHostSimple(parsed.netloc);
    HostnameOfSimpleHost(parsed.netloc);
    SegmentOfPath(prefix, id);
    OtherPathReadsSegment(parsed);
  }

  /** An `/embed/` or `/shorts/` URL on either canonical host gives its identifier segment. */
  lemma SegmentUrlGivesId(host: string, prefix: string, id: string)
    requires host in WatchHosts
    requires prefix == "/embed/" || prefix == "/shorts/"
    requires SegmentSafe(id)
    ensures ExtractYouTubeId(Some("https://" + host + (prefix + id))) == Extracted(Some(id))
  {
    var parsed := SplitTail("https", host, prefix + id);
    ParseSegmentUrl(host, prefix, id);
    SegmentFromUrl(prefix, id, parsed);
    ExtractGives("https://" + host + (prefix + id), parsed, id);
  }

  /** A URL on the short-link host. */
  function ShortLinkUrl(path: string): string {
    "https://" + ShortLinkHost + path
  }

  lemma ShortLinkHostSimple()
    ensures SimpleHost(ShortLinkHost) && |ShortLinkHost| > 3
  {
  }

  /** `urlparse` of a short link: the netloc is the host and the path is kept whole. */
  lemma ParseShortLink(path: string)
    requires ShortLinkPath(path)
    ensures var url := ShortLinkUrl(path);
      var parsed := SplitTail("https", ShortLinkHost, path);
      Unpadded(url) && !IsVideoId(url) && UrlParse(url) == Ok(parsed) && parsed.path == path
  {
    assert NoneOf(path, UnsafeChars) by {
      forall i | 0 <= i < |path| ensures path[i] !in UnsafeChars {
        assert path[i] !in {'?', '#', ';', '\t', '\r', '\n'};
      }
    }
    ShortLinkHostSimple();
    ParseHttpsUrl(ShortLinkHost, path);
    assert '?' !in path && '#' !in path && ';' !in path;
  }

  lemma ShortLinkFromUrl(path: string, parsed: ParsedUrl)
    requires parsed.netloc == ShortLinkHost && parsed.path == path
    ensures FromUrl(parsed) == Some(TrimSlashes(path))
  {
    ShortLinkHostSimple();
    HostnameOfSimpleHost(parsed.netloc);
    ShortLinkReadsPath(parsed);
  }

  /** A short link gives its path with the leading slashes removed; later slashes stay. */
  lemma ShortLinkGivesPath(path: string)
    requires ShortLinkPath(path)
    ensures ExtractYouTubeId(Some(ShortLinkUrl(path))) == Extracted(Some(TrimSlashes(path)))
  {
    var parsed := SplitTail("https", ShortLinkHost, path);
    ParseShortLink(path);
    ShortLinkFromUrl(path, parsed);
    ExtractGives(ShortLinkUrl(path), parsed, TrimSlashes(path));
  }

  /** The path `/<id>` of a short link, for an `id` that does not start with a slash. */
  lemma ShortLinkIdPath(id: string)
    requires id != "" && id[0] != '/' && NoneOf(id, {'?', '#', ';', '\t', '\r', '\n'})
    requires !IsSpace(id[|id| - 1])
    ensures ShortLinkPath("/" + id) && TrimSlashes("/" + id) == id
  {
    var path := "/" + id;
    NoneOfConcat("/", id, {'?', '#', ';', '\t', '\r', '\n'});
    assert path[|path| - 1] == id[|id| - 1];
    assert path[1..] == id;
  }

  /** `https://youtu.be/<id>` gives `<id>` when it does not start with a slash. */
  lemma ShortLinkGivesId(id: string)
    requires id != "" && id[0] != '/' && NoneOf(id, {'?', '#', ';', '\t', '\r', '\n'})
    requires !IsSpace(id[|id| - 1])
    ensures ExtractYouTubeId(Some(ShortLinkUrl("/" + id))) == Extracted(Some(id))
  {
    ShortLinkIdPath(id);
    ShortLinkGivesPath("/" + id);
  }

  /** The short links of the tests, written out. */
  lemma ShortLinkText(id: string)
    ensures ShortLinkUrl("/" + id) == "https://youtu.be/" + id
    ensures ShortLinkUrl("/") == "https://youtu.be/"
  {
  }

  /** `https://youtu.be/` gives the empty string, not `None`. */
  lemma BareShortLinkGivesEmpty()
    ensures ExtractYouTubeId(Some("https://youtu.be/")) == Extracted(Some(""))
  {
    ShortLinkText("");
    assert ShortLinkPath("/") && TrimSlashes("/") == "";
    ShortLinkGivesPath("/");
  }

  /** An identifier survives in a query value. */
  lemma IdentifierIsQuerySafe(id: string)
    requires IsVideoId(id)
    ensures QuerySafe(id)
  {
    assert IsIdChar(id[|id| - 1]);
    forall i | 0 <= i < |id| ensures id[i] !in {'&', '#', '+', '%', '\t', '\r', '\n'} {
      assert IsIdChar(id[i]);
    }
  }

  /** The watch URL of an identifier gives that identifier back, on every watch host. */
  lemma WatchUrlOfIdentifier(host: string, id: string)
    requires host in WatchHosts && IsVideoId(id)
    ensures ExtractYouTubeId(Some(WatchUrl(host, id))) == Extracted(Some(id))
  {
    IdentifierIsQuerySafe(id);
    WatchUrlGivesV(host, id);
  }

  /** The test identifier meets every safety condition above. */
  lemma SampleIdIsSafe(id: string)
    requires id == "dQw4w9WgXcQ"
    ensures IsVideoId(id) && QuerySafe(id) && SegmentSafe(id) && id[0] != '/'
    ensures NoneOf(id, {'?', '#', ';', '\t', '\r', '\n'})
  {
  }

  /** The watch URL the web service builds for an identifier. */
  lemma CanonicalWatchUrl(id: string)
    ensures WatchUrl(CanonicalHost, id) == "https://www.youtube.com/watch?v=" + id
  {
  }

  /** The four test forms of one identifier give that identifier (test_transcript_fetcher.py:18-23). */
  lemma WatchFormOfSample(id: string)
    requires id == "dQw4w9WgXcQ"
    ensures ExtractYouTubeId(Some(WatchUrl(CanonicalHost, id))) == Extracted(Some(id))
  {
    SampleIdIsSafe(id);
    WatchUrlGivesV(CanonicalHost, id);
  }

  lemma ShortLinkFormOfSample(id: string)
    requires id == "dQw4w9WgXcQ"
    ensures ExtractYouTubeId(Some("https://youtu.be/" + id)) == Extracted(Some(id))
  {
    SampleIdIsSafe(id);
    ShortLinkText(id);
    ShortLinkGivesId(id);
  }

  lemma ShortsFormOfSample(id: string)
    requires id == "dQw4w9WgXcQ"
    ensures ExtractYouTubeId(Some("https://" + CanonicalHost + ("/shorts/" + id))) == Extracted(Some(id))
  {
    SampleIdIsSafe(id);
    SegmentUrlGivesId(CanonicalHost, "/shorts/", id);
  }

  lemma BareFormOfSample(id: string)
    requires id == "dQw4w9WgXcQ"
    ensures ExtractYouTubeId(Some(id)) == Extracted(Some(id))
  {
    SampleIdIsSafe(id);
    IdentifierPassesThrough(id);
  }

  /** `"invalid_url"` matches the 11-character rule, so it comes back verbatim (test_transcript_fetcher.py:298-305). */
  lemma InvalidUrlIsAnIdentifier()
    ensures ExtractYouTubeId(Some("invalid_url")) == Extracted(Some("invalid_url"))
  {
    assert IsVideoId("invalid_url");
    IdentifierPassesThrough("invalid_url");
  }

  /** A netloc with an opening bracket and no closing one makes `urlparse` raise,
      and the error escapes `extract_youtube_id`. */
  lemma UnbalancedBracketRaises(host: string, tail: string)
    requires '[' in host && NoneOf(host, {']', '/', '?', '#', '\t', '\r', '\n'})
    requires (tail == "" || tail[0] == '/') && NoneOf(tail, UnsafeChars)
    requires !IsSpace((host + tail)[|host + tail| - 1])
    ensures ExtractYouTubeId(Some("https://" + host + tail)) == Raised(InvalidIPv6Url)
  {
    var url := "https://" + host + tail;
    assert url[|url| - 1] == (host + tail)[|host + tail| - 1];
    assert !IsVideoId(url) by {
      assert url[5] == ':';
    }
    StripUnchanged(url);
    UnbalancedBracketParse(host, tail);
  }

  lemma UnbalancedBracketParse(host: string, tail: string)
    requires '[' in host && NoneOf(host, {']', '/', '?', '#', '\t', '\r', '\n'})
    requires (tail == "" || tail[0] == '/') && NoneOf(tail, UnsafeChars)
    ensures UrlParse("https://" + host + tail) == Err(InvalidIPv6Url)
  {
    ParseHttpsShape(host, tail);
  }
}
