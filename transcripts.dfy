/**
 * The pure parts of transcript_fetcher.py: the JSON shape of a stored
 * transcript, the cache path of a video, what reading a cache file gives,
 * the errors `get_transcript` raises, and the text `generate_flattened`
 * builds from a transcript.
 */
module Transcripts {
  import opened Wrappers
  import opened Text
  import opened Urls

  /** A JSON value as `json.load` returns it; `JNull` is Python's `None`. */
  datatype Json =
    | JNull
    | JBool(b: bool)
    | JNumber(n: real)
    | JString(s: string)
    | JArray(items: seq<Json>)
    | JObject(fields: map<string, Json>)

  /** One entry of a fetched transcript: its text and two numbers that are only carried along. */
  datatype Snippet = Snippet(text: string, start: real, duration: real)

  /** The dict `{'text': ..., 'start': ..., 'duration': ...}` made for one entry. */
  function SegmentDict(e: Snippet): Json {
    JObject(map["text" := JString(e.text), "start" := JNumber(e.start), "duration" := JNumber(e.duration)])
  }

  /** The list comprehension that normalises a fetched transcript before it is cached and returned. */
  function SegmentsJson(entries: seq<Snippet>): (r: Json)
    ensures r.JArray? && |r.items| == |entries|
  {
    JArray(seq(|entries|, i requires 0 <= i < |entries| => SegmentDict(entries[i])))
  }

  /** Reads an entry back from its dict; `None` for anything else. */
  function SnippetOf(j: Json): Option<Snippet> {
    if j.JObject? && j.fields.Keys == {"text", "start", "duration"}
      && j.fields["text"].JString? && j.fields["start"].JNumber? && j.fields["duration"].JNumber?
    then Some(Snippet(j.fields["text"].s, j.fields["start"].n, j.fields["duration"].n))
    else None
  }

  /** Reads a whole list of entry dicts back, in order. */
  function SnippetsOf(items: seq<Json>): Option<seq<Snippet>> {
    if items == [] then Some([])
    else
      match (SnippetOf(items[0]), SnippetsOf(items[1..]))
      case (Some(e), Some(es)) => Some([e] + es)
      case _ => None
  }

  /** Normalising keeps every entry, in order, with its three fields. */
  lemma {:induction false} SegmentsRoundTrip(entries: seq<Snippet>)
    ensures SnippetsOf(SegmentsJson(entries).items) == Some(entries)
  {
    if entries != [] {
      var items := SegmentsJson(entries).items;
      assert items[1..] == SegmentsJson(entries[1..]).items;
      SegmentsRoundTrip(entries[1..]);
      var e := entries[0];
      assert SegmentDict(e).fields.Keys == {"text", "start", "duration"};
      assert SnippetOf(items[0]) == Some(e);
      assert [e] + entries[1..] == entries;
    }
  }

  /** `os.path.join(a, b)` on POSIX: an absolute `b` replaces `a`, otherwise one `/` separates them. */
  function JoinPath(a: string, b: string): (r: string)
    ensures b != "" && b[0] == '/' ==> r == b
    ensures (b == "" || b[0] != '/') ==> |r| >= |a| + |b| && r[..|a|] == a && r[|r| - |b|..] == b
  {
    if b != "" && b[0] == '/' then b
    else if a == "" || a[|a| - 1] == '/' then a + b
    else a + "/" + b
  }

  /** `_get_cache_path`: `<cache_dir>/<video_id>.json`. */
  function CachePath(cacheDir: string, videoId: string): string {
    JoinPath(cacheDir, videoId + ".json")
  }

  /** With a directory that does not end in `/`, the path is the directory, a separator, the id and `.json`. */
  lemma CachePathShape(cacheDir: string, videoId: string)
    requires cacheDir != "" && cacheDir[|cacheDir| - 1] != '/'
    requires videoId == "" || videoId[0] != '/'
    ensures CachePath(cacheDir, videoId) == cacheDir + "/" + videoId + ".json"
  {
    assert (videoId + ".json")[0] == if videoId == "" then '.' else videoId[0];
  }

  /** Two relative ids never share a cache file. */
  lemma CachePathInjective(cacheDir: string, a: string, b: string)
    requires a == "" || a[0] != '/'
    requires b == "" || b[0] != '/'
    requires CachePath(cacheDir, a) == CachePath(cacheDir, b)
    ensures a == b
  {
    var fa, fb := a + ".json", b + ".json";
    assert fa[0] != '/' && fb[0] != '/' by {
      assert fa[0] == if a == "" then '.' else a[0];
      assert fb[0] == if b == "" then '.' else b[0];
    }
    var sep := if cacheDir == "" || cacheDir[|cacheDir| - 1] == '/' then "" else "/";
    var d := cacheDir + sep;
    assert CachePath(cacheDir, a) == d + fa;
    assert CachePath(cacheDir, b) == d + fb;
    assert fa == (d + fa)[|d|..] == (d + fb)[|d|..] == fb;
    assert a == fa[..|a|] == fb[..|b|] == b;
  }

  /** The path `generate_flattened` writes: `<cache_dir>/<video_id>_flattened.txt`. */
  function FlattenedPath(cacheDir: string, videoId: string): string {
    JoinPath(cacheDir, videoId + "_flattened.txt")
  }

  /** The flattened text never overwrites a cache file: the two names end differently. */
  lemma FlattenedPathIsNotACachePath(cacheDir: string, a: string, b: string)
    requires a == "" || a[0] != '/'
    requires b == "" || b[0] != '/'
    ensures FlattenedPath(cacheDir, a) != CachePath(cacheDir, b)
  {
    var fa, fb := a + "_flattened.txt", b + ".json";
    assert fa[0] != '/' && fb[0] != '/' by {
      assert fa[0] == if a == "" then '_' else a[0];
      assert fb[0] == if b == "" then '.' else b[0];
    }
    var p, q := FlattenedPath(cacheDir, a), CachePath(cacheDir, b);
    assert p[|p| - 1] == fa[|fa| - 1] == 't';
    assert q[|q| - 1] == fb[|fb| - 1] == 'n';
  }

  /** What a cache path holds on disk: a JSON document, or bytes `json.load` rejects. */
  datatype CacheFile = Stored(data: Json) | Unparsable

  /** The errors `get_transcript` lets escape. All but the last are `ValueError`s:
      `urlparse`'s, "Could not extract video ID", `json.load`'s `JSONDecodeError`,
      and "Failed to download subtitles"; the last is the `OSError` of `open(path, 'w')`. */
  datatype Error =
    | BadUrl(cause: UrlError)
    | NoVideoId(url: string)
    | CorruptCache(path: string)
    | DownloadFailed
    | CacheNotWritable(path: string)

  predicate IsValueError(e: Error) { !e.CacheNotWritable? }

  /** The key of the older cache layout, `{"transcript_data": [...]}`. */
  const LegacyKey: string := "transcript_data"

  /** The older layout wraps the list in a dict. */
  function Wrap(data: Json): Json { JObject(map[LegacyKey := data]) }

  /** The shape normalisation on load: a dict holding the legacy key gives that field;
      any other value, a list included, is returned as it is. */
  function Unwrap(data: Json): Json {
    if data.JObject? && LegacyKey in data.fields then data.fields[LegacyKey] else data
  }

  /** Both layouts load to the same value. */
  lemma UnwrapLegacy(data: Json)
    ensures Unwrap(Wrap(data)) == data
    ensures data.JArray? ==> Unwrap(data) == data
  {
  }

  /** A dict without the legacy key, a string, a number, a boolean or null is not touched. */
  lemma UnwrapKeepsOthers(data: Json)
    requires !data.JObject? || LegacyKey !in data.fields
    ensures Unwrap(data) == data
  {
  }

  /** `_load_from_cache` over a map from path to file: `JNull` (Python `None`) when the file
      is missing, the corrupt-file error, or the normalised contents. */
  function Load(files: map<string, CacheFile>, path: string): (r: Result<Json, Error>)
    ensures path !in files ==> r == Ok(JNull)
    ensures path in files && files[path].Unparsable? ==> r == Err(CorruptCache(path))
    ensures path in files && files[path].Stored? ==> r == Ok(Unwrap(files[path].data))
  {
    if path !in files then Ok(JNull)
    else
      match files[path]
      case Unparsable => Err(CorruptCache(path))
      case Stored(d) => Ok(Unwrap(d))
  }

  /** What is saved is what is loaded back: storing a normalised transcript and loading it
      gives the same list (the cache content check of the caching test). */
  lemma LoadAfterSave(files: map<string, CacheFile>, path: string, entries: seq<Snippet>)
    ensures Load(files[path := Stored(SegmentsJson(entries))], path) == Ok(SegmentsJson(entries))
  {
  }

  /** Saving one path leaves every other path's load as it was. */
  lemma LoadOtherPath(files: map<string, CacheFile>, path: string, other: string, data: Json)
    requires other != path
    ensures Load(files[path := Stored(data)], other) == Load(files, other)
  {
  }

  /** A stored `null`, and a legacy dict holding `null`, load as a miss. */
  lemma StoredNullIsMiss(files: map<string, CacheFile>, path: string)
    ensures Load(files[path := Stored(JNull)], path) == Load(map p | p in files && p != path :: files[p], path)
    ensures Load(files[path := Stored(Wrap(JNull))], path) == Ok(JNull)
  {
  }

  // ---------------------------------------------------------------------------------
  // generate_flattened

  /** Why iterating the transcript fails: a value Python cannot iterate (`TypeError`), an item
      without `.get` (`AttributeError`), or a `text` the regular expression cannot match (`TypeError`). */
  datatype FlattenError = NotIterable | ItemNotADict | TextNotAString

  /** The two characters that open a dialogue line. */
  const Mark: string := ">>"

  /** `re.match(r'^\s*>>\s*', text)` succeeds: after leading whitespace comes `>>`. */
  predicate IsDialogue(text: string) {
    var t := TrimStart(text);
    |t| >= 2 && t[0] == Mark[0] && t[1] == Mark[1]
  }

  /** `re.sub(r'^\s*>>\s*', '', text)` on a dialogue line: the prefix and the whitespace after it go. */
  function StripDialogue(text: string): (r: string)
    requires IsDialogue(text)
    ensures |r| < |text|
    ensures r == [] || !IsSpace(r[0])
  {
    var t := TrimStart(text);
    TrimStart(t[2..])
  }

  /** Every text of the form whitespace, `>>`, whitespace, body is a dialogue line with that body. */
  lemma DialogueShape(lead: string, gap: string, body: string)
    requires Blank(lead) && Blank(gap) && (body == [] || !IsSpace(body[0]))
    ensures IsDialogue(lead + Mark + gap + body)
    ensures StripDialogue(lead + Mark + gap + body) == body
  {
    var t := Mark + (gap + body);
    assert lead + Mark + gap + body == lead + t;
    TrimStartBlankPrefix(lead, t);
    assert TrimStart(t) == t;
    assert t[..|Mark|] == Mark && t[|Mark|..] == gap + body;
    TrimStartBlankPrefix(gap, body);
  }

  /** `lstrip` removes a whitespace prefix and stops at the first other character. */
  lemma {:induction false} TrimStartBlankPrefix(ws: string, rest: string)
    requires Blank(ws)
    ensures TrimStart(ws + rest) == TrimStart(rest)
  {
    if ws != [] {
      assert (ws + rest)[1..] == ws[1..] + rest;
      TrimStartBlankPrefix(ws[1..], rest);
    } else {
      assert ws + rest == rest;
    }
  }

  /** The line a segment text contributes: the stripped dialogue, the text itself when
      `text.strip()` is not empty, or nothing. */
  function KeptText(text: string): Option<string> {
    if IsDialogue(text) then Some(StripDialogue(text))
    else if |Strip(text)| > 0 then Some(text)
    else None
  }

  /** A dialogue line is always kept, cleaned; any other text is kept unchanged exactly
      when it is not whitespace only. */
  lemma KeptTextRule(text: string)
    ensures IsDialogue(text) ==> KeptText(text) == Some(StripDialogue(text))
    ensures !IsDialogue(text) ==> (KeptText(text) == None <==> Blank(text))
    ensures !IsDialogue(text) && KeptText(text).Some? ==> KeptText(text) == Some(text)
  {
    StripEmptyIffBlank(text);
  }

  /** The lines an optional line stands for. */
  function Emit(line: Option<string>): (r: seq<string>)
    ensures |r| <= 1
  {
    match line
    case None => []
    case Some(l) => [l]
  }

  /** What one item of the transcript contributes: `segment.get('text', '')` then the dialogue and blank tests. */
  function LineOf(item: Json): Result<Option<string>, FlattenError> {
    if !item.JObject? then Err(ItemNotADict)
    else
      var text := if "text" in item.fields then item.fields["text"] else JString("");
      if !text.JString? then Err(TextNotAString)
      else Ok(KeptText(text.s))
  }

  /** The loop of `generate_flattened` over `items`, as a function of what it has seen:
      the first failing item ends it. */
  function KeptLines(items: seq<Json>): Result<seq<string>, FlattenError> {
    if items == [] then Ok([])
    else
      match KeptLines(items[..|items| - 1])
      case Err(e) => Err(e)
      case Ok(lines) =>
        match LineOf(items[|items| - 1])
        case Err(e) => Err(e)
        case Ok(line) => Ok(lines + Emit(line))
  }

  /** `generate_flattened(transcript_data, video_id)` without its file write: `None` gives `""`,
      the kept lines are joined with newlines, and iterating anything but a list fails on
      its first element (the keys of a dict and the characters of a string have no `.get`). */
  function Flatten(data: Json): Result<string, FlattenError> {
    match data
    case JNull => Ok("")
    case JArray(items) =>
      (match KeptLines(items)
       case Err(e) => Err(e)
       case Ok(lines) => Ok(Join(lines, '\n')))
    case JObject(fields) => if fields == map[] then Ok("") else Err(ItemNotADict)
    case JString(s) => if s == "" then Ok("") else Err(ItemNotADict)
    case JBool(_) => Err(NotIterable)
    case JNumber(_) => Err(NotIterable)
  }

  /** `None` flattens to the empty text. */
  lemma FlattenNull()
    ensures Flatten(JNull) == Ok("")
  {
  }

  /** The kept lines of a list of entries, front to back: an independent statement of the filter. */
  function KeptTexts(entries: seq<Snippet>): seq<string> {
    if entries == [] then [] else Emit(KeptText(entries[0].text)) + KeptTexts(entries[1..])
  }

  /** The filter distributes over concatenation. */
  lemma {:induction false} KeptTextsAppend(a: seq<Snippet>, b: seq<Snippet>)
    ensures KeptTexts(a + b) == KeptTexts(a) + KeptTexts(b)
  {
    if a != [] {
      assert (a + b)[0] == a[0];
      assert (a + b)[1..] == a[1..] + b;
      KeptTextsAppend(a[1..], b);
      var h := Emit(KeptText(a[0].text));
      assert h + (KeptTexts(a[1..]) + KeptTexts(b)) == (h + KeptTexts(a[1..])) + KeptTexts(b);
    } else {
      assert a + b == b;
    }
  }

  /** An entry's dict contributes what its text keeps. */
  lemma LineOfSegment(e: Snippet)
    ensures LineOf(SegmentDict(e)) == Ok(KeptText(e.text))
  {
  }

  /** One more dict at the end of the loop adds the line its entry keeps. */
  lemma KeptLinesSnoc(items: seq<Json>, init: seq<Snippet>, last: Snippet)
    requires items != [] && items[|items| - 1] == SegmentDict(last)
    requires KeptLines(items[..|items| - 1]) == Ok(KeptTexts(init))
    ensures KeptLines(items) == Ok(KeptTexts(init + [last]))
  {
    LineOfSegment(last);
    KeptTextsAppend(init, [last]);
    KeptTextsOne(last);
  }

  /** On a normalised transcript the loop never fails and keeps exactly the lines
      `KeptTexts` names, in order. */
  lemma {:induction false} KeptLinesOfSegments(entries: seq<Snippet>)
    ensures KeptLines(SegmentsJson(entries).items) == Ok(KeptTexts(entries))
  {
    if entries != [] {
      KeptLinesOfSegments(entries[..|entries| - 1]);
      KeptLinesOfSegmentsStep(entries);
    }
  }

  /** The inductive step of `KeptLinesOfSegments`: one more entry at the end. */
  lemma KeptLinesOfSegmentsStep(entries: seq<Snippet>)
    requires entries != []
    requires var init := entries[..|entries| - 1];
      KeptLines(SegmentsJson(init).items) == Ok(KeptTexts(init))
    ensures KeptLines(SegmentsJson(entries).items) == Ok(KeptTexts(entries))
  {
    var n := |entries| - 1;
    SegmentsPrefix(entries, n);
    SplitLast(entries);
    KeptLinesSnoc(SegmentsJson(entries).items, entries[..n], entries[n]);
  }

  lemma SegmentsPrefix(entries: seq<Snippet>, n: nat)
    requires n <= |entries|
    ensures SegmentsJson(entries).items[..n] == SegmentsJson(entries[..n]).items
  {
  }

  lemma SplitLast<T>(s: seq<T>)
    requires s != []
    ensures s[..|s| - 1] + [s[|s| - 1]] == s
  {
  }

  /** Flattening a normalised transcript is the newline join of its kept lines. */
  lemma FlattenSegments(entries: seq<Snippet>)
    ensures Flatten(SegmentsJson(entries)) == Ok(Join(KeptTexts(entries), '\n'))
  {
    KeptLinesOfSegments(entries);
    FlattenArray(SegmentsJson(entries), KeptTexts(entries));
  }

  /** A list whose loop keeps `lines` flattens to their newline join. */
  lemma FlattenArray(data: Json, lines: seq<string>)
    requires data.JArray? && KeptLines(data.items) == Ok(lines)
    ensures Flatten(data) == Ok(Join(lines, '\n'))
  {
  }

  /** Every flattened line is either a stripped dialogue line or a segment text that is not
      whitespace only; nothing is invented, nothing is reordered past its source. */
  lemma {:induction false} KeptTextsFromEntries(entries: seq<Snippet>)
    ensures |KeptTexts(entries)| <= |entries|
    ensures forall l :: l in KeptTexts(entries) ==>
      exists k :: 0 <= k < |entries| && KeptText(entries[k].text) == Some(l)
  {
    if entries != [] {
      KeptTextsFromEntries(entries[1..]);
      var h := Emit(KeptText(entries[0].text));
      forall l | l in KeptTexts(entries)
        ensures exists k :: 0 <= k < |entries| && KeptText(entries[k].text) == Some(l)
      {
        if l in h {
          assert KeptText(entries[0].text) == Some(l);
        } else {
          assert l in KeptTexts(entries[1..]);
          var k :| 0 <= k < |entries[1..]| && KeptText(entries[1..][k].text) == Some(l);
          assert entries[k + 1] == entries[1..][k];
        }
      }
    }
  }


  /** A plain text whose first character is neither whitespace nor `>` is kept as it is. */
  lemma PlainTextKept(text: string)
    requires text != [] && !IsSpace(text[0]) && text[0] != '>'
    ensures KeptText(text) == Some(text)
  {
    assert TrimStart(text) == text;
    assert !IsDialogue(text) by {
      assert |text| >= |Mark| ==> text[..|Mark|][0] == text[0];
    }
    StripEmptyIffBlank(text);
  }

  /** `>> ` followed by a body that does not start with whitespace keeps the body. */
  lemma DialogueTextKept(body: string)
    requires body == [] || !IsSpace(body[0])
    ensures KeptText(Mark + " " + body) == Some(body)
  {
    DialogueShape("", " ", body);
    assert "" + Mark + " " + body == Mark + " " + body;
  }

  /** One entry keeps what its text keeps. */
  lemma KeptTextsOne(e: Snippet)
    ensures KeptTexts([e]) == Emit(KeptText(e.text))
  {
    assert [e][1..] == [];
  }

  /** An entry in front that keeps a line puts that line in front. */
  lemma KeptTextsFront(entries: seq<Snippet>, line: string)
    requires entries != [] && Emit(KeptText(entries[0].text)) == [line]
    ensures KeptTexts(entries) == [line] + KeptTexts(entries[1..])
  {
  }

  /** The tails of a four-element list. */
  lemma TailsOfFour<T>(w: T, x: T, y: T, z: T)
    ensures [w, x, y, z][1..] == [x, y, z] && [x, y, z][1..] == [y, z] && [y, z][1..] == [z] && [z][1..] == []
  {
  }

  /** Four entries that each keep one line keep those four lines. */
  lemma KeptTextsOfFour(e0: Snippet, e1: Snippet, e2: Snippet, e3: Snippet,
                        a: string, b: string, c: string, d: string)
    requires Emit(KeptText(e0.text)) == [a] && Emit(KeptText(e1.text)) == [b]
    requires Emit(KeptText(e2.text)) == [c] && Emit(KeptText(e3.text)) == [d]
    ensures KeptTexts([e0, e1, e2, e3]) == [a, b, c, d]
  {
    TailsOfFour(e0, e1, e2, e3);
    KeptTextsFront([e3], d);
    KeptTextsFront([e2, e3], c);
    KeptTextsFront([e1, e2, e3], b);
    KeptTextsFront([e0, e1, e2, e3], a);
    ConsOfFour(a, b, c, d);
  }

  lemma FourElements<T>(s: seq<T>)
    requires |s| == 4
    ensures s == [s[0], s[1], s[2], s[3]]
  {
  }

  lemma ConsOfFour<T>(w: T, x: T, y: T, z: T)
    ensures [w] + ([x] + ([y] + ([z] + []))) == [w, x, y, z]
  {
  }

  /** Joining four lines. */
  lemma JoinFour(a: string, b: string, c: string, d: string)
    ensures Join([a, b, c, d], '\n') == a + "\n" + b + "\n" + c + "\n" + d
  {
    assert [a, b, c, d][1..] == [b, c, d];
    assert [b, c, d][1..] == [c, d];
    assert [c, d][1..] == [d];
    assert Join([c, d], '\n') == c + "\n" + d;
    assert Join([b, c, d], '\n') == b + "\n" + (c + "\n" + d);
    assert Join([a, b, c, d], '\n') == a + "\n" + (b + "\n" + (c + "\n" + d));
  }

  /** The shape of the flattening test: two dialogue lines and two plain lines, alternating,
      flatten to the four bodies on four lines. */
  lemma FlattenAlternating(entries: seq<Snippet>, a: string, b: string, c: string, d: string)
    requires a == [] || !IsSpace(a[0])
    requires c == [] || !IsSpace(c[0])
    requires b != [] && !IsSpace(b[0]) && b[0] != '>'
    requires d != [] && !IsSpace(d[0]) && d[0] != '>'
    requires |entries| == 4
    requires entries[0].text == Mark + " " + a && entries[1].text == b
    requires entries[2].text == Mark + " " + c && entries[3].text == d
    ensures Flatten(SegmentsJson(entries)) == Ok(a + "\n" + b + "\n" + c + "\n" + d)
  {
    DialogueTextKept(a);
    PlainTextKept(b);
    DialogueTextKept(c);
    PlainTextKept(d);
    KeptTextsOfFour(entries[0], entries[1], entries[2], entries[3], a, b, c, d);
    FourElements(entries);
    FlattenSegments(entries);
    JoinFour(a, b, c, d);
  }

  /** The data of the flattening test (start times 0, 2, 4, 6, durations 2). */
  lemma FlattenTestData()
    ensures Flatten(SegmentsJson([Snippet(">> Hello there", 0.0, 2.0), Snippet("How are you?", 2.0, 2.0),
                                  Snippet(">> I'm doing well", 4.0, 2.0), Snippet("Thanks for asking", 6.0, 2.0)]))
         == Ok("Hello there" + "\n" + "How are you?" + "\n" + "I'm doing well" + "\n" + "Thanks for asking")
  {
    var a, b, c, d := "Hello there", "How are you?", "I'm doing well", "Thanks for asking";
    var entries := [Snippet(">> Hello there", 0.0, 2.0), Snippet(b, 2.0, 2.0),
                    Snippet(">> I'm doing well", 4.0, 2.0), Snippet(d, 6.0, 2.0)];
    TestDialogueTexts();
    FlattenAlternating(entries, a, b, c, d);
  }

  lemma TestDialogueTexts()
    ensures Mark + " " + "Hello there" == ">> Hello there"
    ensures Mark + " " + "I'm doing well" == ">> I'm doing well"
  {
  }
}
