/**
 * The parts of Python's `urllib.parse` that the identifier extractor calls:
 * `urlparse` with the `hostname` property of its result, and `parse_qs`
 * followed by `.get(name, [None])[0]`. The behaviour is that of CPython 3.12
 * on ASCII input (see README for what is left out).
 */
module Urls {
  import opened Wrappers
  import opened Text

  /** The six fields of `urlparse`'s result. */
  datatype ParsedUrl = ParsedUrl(
    scheme: string, netloc: string, path: string, params: string, query: string, fragment: string)

  /** `ValueError("Invalid IPv6 URL")`, raised for a netloc with one square bracket but not the other. */
  datatype UrlError = InvalidIPv6Url

  predicate IsSchemeChar(c: char) {
    IsAsciiLetter(c) || IsAsciiDigit(c) || c == '+' || c == '-' || c == '.'
  }

  /** urllib's `uses_params`: the schemes whose path may end in `;params`. */
  const UsesParams: set<string> := {"", "ftp", "hdl", "prospero", "http", "imap", "https", "shttp",
                                    "rtsp", "rtsps", "rtspu", "sip", "sips", "mms", "sftp", "tel"}

  /** The characters `urlsplit` deletes wherever they occur. */
  const UnsafeChars: set<char> := {'\t', '\r', '\n'}

  /** `url.lstrip(_WHATWG_C0_CONTROL_OR_SPACE)`: drops leading characters up to and including space. */
  function TrimStartControl(s: string): (r: string)
    ensures |r| <= |s| && r == s[|s| - |r|..]
    ensures r == [] || r[0] > ' '
    ensures (s == [] || s[0] > ' ') ==> r == s
  {
    if |s| > 0 && s[0] <= ' ' then TrimStartControl(s[1..]) else s
  }

  /** The scheme test of `urlsplit`: a letter, then scheme characters, up to the first `:`. */
  function SplitScheme(url: string): (r: (string, string))
    ensures r.0 == "" ==> r.1 == url
    ensures r.0 != "" ==> |r.0| < |url| && url[|r.0|] == ':' && r.1 == url[|r.0| + 1..]
  {
    var i := Find(url, {':'});
    if 0 < i < |url| && IsAsciiLetter(url[0]) && forall j :: 0 <= j < i ==> IsSchemeChar(url[j])
    then (AsciiLower(url[..i]), url[i + 1..])
    else ("", url)
  }

  /** `s.split(c, 1)` read as a pair: the text before the first `c` and the text after it,
      or `(s, "")` when `c` does not occur. */
  function SplitOnce(s: string, c: char): (r: (string, string))
    ensures c !in s ==> r == (s, "")
    ensures c in s ==> c !in r.0 && s == r.0 + [c] + r.1
  {
    var i := Find(s, {c});
    if i < |s| then (s[..i], s[i + 1..]) else (s, "")
  }

  /** urllib's `_splitparams`: the `;params` of the last path segment. */
  function SplitParams(path: string): (r: (string, string))
    ensures ';' !in path ==> r == (path, "")
  {
    var j := RFind(path, '/');
    if j >= 0 then
      var k := j + Find(path[j..], {';'});
      if k == |path| then (path, "") else (path[..k], path[k + 1..])
    else
      var i := Find(path, {';'});
      if i < |path| then (path[..i], path[i + 1..]) else (path, "")
  }

  /** What `urlsplit` does after the netloc is known, plus `urlparse`'s params split. */
  function SplitTail(scheme: string, netloc: string, url: string): (r: ParsedUrl)
    ensures r.scheme == scheme && r.netloc == netloc
  {
    var (beforeFragment, fragment) := SplitOnce(url, '#');
    var (beforeQuery, query) := SplitOnce(beforeFragment, '?');
    var (path, params) :=
      if scheme in UsesParams && ';' in beforeQuery then SplitParams(beforeQuery) else (beforeQuery, "");
    ParsedUrl(scheme, netloc, path, params, query, fragment)
  }

  /** The cleaning `urlsplit` does before it looks at the text. */
  function Sanitize(url: string): (r: string)
    ensures NoneOf(r, UnsafeChars)
  {
    Without(TrimStartControl(url), UnsafeChars)
  }

  /** What `urlsplit` does once the scheme is split off: the netloc after a leading `//`,
      up to the first `/`, `?` or `#`, with the bracket check on it. */
  function SplitNetloc(scheme: string, rest: string): (r: Result<ParsedUrl, UrlError>)
    ensures r.Ok? ==> r.value.scheme == scheme
  {
    if |rest| >= 2 && rest[..2] == "//" then
      var end := 2 + Find(rest[2..], {'/', '?', '#'});
      var netloc := rest[2..end];
      if ('[' in netloc) != (']' in netloc) then Err(InvalidIPv6Url)
      else Ok(SplitTail(scheme, netloc, rest[end..]))
    else
      Ok(SplitTail(scheme, "", rest))
  }

  /** `urlparse(url)`. */
  function UrlParse(url: string): (r: Result<ParsedUrl, UrlError>) {
    var u := Sanitize(url);
    SplitNetloc(SplitScheme(u).0, SplitScheme(u).1)
  }

  /** The `hostname` property: the netloc without userinfo and port, lower-cased before any `%zone`;
      `None` when that is empty. */
  function Hostname(netloc: string): (r: Option<string>)
    ensures r.Some? ==> r.value != ""
    ensures netloc == "" ==> r == None
  {
    var hostinfo := netloc[RFind(netloc, '@') + 1..];
    var open := Find(hostinfo, {'['});
    var host :=
      if open < |hostinfo| then
        var bracketed := hostinfo[open + 1..];
        bracketed[..Find(bracketed, {']'})]
      else
        hostinfo[..Find(hostinfo, {':'})];
    if host == "" then None
    else
      var zone := Find(host, {'%'});
      Some(AsciiLower(host[..zone]) + host[zone..])
  }

  /** A host name written without userinfo, port, brackets or zone. */
  predicate PlainHost(h: string) {
    h != "" && forall i :: 0 <= i < |h| ==> h[i] !in {'@', ':', '[', ']', '%'}
  }

  /** The hostname drops the userinfo up to the last `@` and the port after the first `:`. */
  lemma HostnameDropsUserinfoAndPort(userinfo: string, h: string, port: string)
    requires PlainHost(h)
    requires forall i :: 0 <= i < |port| ==> port[i] != '@' && port[i] != '['
    ensures Hostname(userinfo + "@" + h + ":" + port) == Some(AsciiLower(h))
  {
    var hostinfo := h + ":" + port;
    var netloc := userinfo + "@" + hostinfo;
    assert netloc == userinfo + "@" + h + ":" + port;
    forall i | 0 <= i < |hostinfo| ensures hostinfo[i] != '@' && hostinfo[i] != '[' {
      if i > |h| {
        assert hostinfo[i] == port[i - |h| - 1];
      } else if i < |h| {
        assert hostinfo[i] == h[i];
      }
    }
    LastAtBeforeHost(userinfo, hostinfo);
    assert netloc[|userinfo| + 1..] == hostinfo;
    FindIs(hostinfo, {'['}, |hostinfo|);
    assert hostinfo[|h|] == ':';
    forall i | 0 <= i < |h| ensures hostinfo[i] !in {':'} {
      assert hostinfo[i] == h[i];
    }
    FindIs(hostinfo, {':'}, |h|);
    assert hostinfo[..|h|] == h;
    FindIs(h, {'%'}, |h|);
    assert h[..|h|] == h && h[|h|..] == "";
    assert AsciiLower(h[..|h|]) + h[|h|..] == AsciiLower(h);
    var hi := netloc[RFind(netloc, '@') + 1..];
    assert hi == hostinfo;
    assert Find(hi, {'['}) == |hi|;
    assert hi[..Find(hi, {':'})] == h;
  }

  /** `RFind` is determined by its contract. */
  lemma RFindIs(s: string, c: char, k: int)
    requires 0 <= k < |s| && s[k] == c
    requires forall i :: k < i < |s| ==> s[i] != c
    ensures RFind(s, c) == k
  {
  }

  /** The last `@` of `userinfo + "@" + hostinfo` is the one before `hostinfo` when `hostinfo` has none. */
  lemma LastAtBeforeHost(userinfo: string, hostinfo: string)
    requires forall i :: 0 <= i < |hostinfo| ==> hostinfo[i] != '@'
    ensures RFind(userinfo + "@" + hostinfo, '@') == |userinfo|
  {
    var netloc := userinfo + "@" + hostinfo;
    NoAtAfter(userinfo, hostinfo);
    RFindIs(netloc, '@', |userinfo|);
  }

  lemma NoAtAfter(userinfo: string, hostinfo: string)
    requires forall i :: 0 <= i < |hostinfo| ==> hostinfo[i] != '@'
    ensures var netloc := userinfo + "@" + hostinfo;
      netloc[|userinfo|] == '@' && forall i :: |userinfo| < i < |netloc| ==> netloc[i] != '@'
  {
    var netloc := userinfo + "@" + hostinfo;
    forall i | |userinfo| < i < |netloc| ensures netloc[i] != '@' {
      assert netloc[i] == hostinfo[i - |userinfo| - 1];
    }
  }

  /** A `name=value` field of a query string as `parse_qsl` keeps it: fields without `=` and
      fields whose value is blank are dropped, and `+` reads as a space. */
  function QueryPair(field: string): (r: Option<(string, string)>)
    ensures r.Some? ==> r.value.1 != ""
  {
    var i := Find(field, {'='});
    if i + 1 >= |field| then None
    else Some((Replace(field[..i], '+', ' '), Replace(field[i + 1..], '+', ' ')))
  }

  function QueryPairs(fields: seq<string>): seq<(string, string)> {
    if fields == [] then []
    else
      match QueryPair(fields[0])
      case None => QueryPairs(fields[1..])
      case Some(p) => [p] + QueryPairs(fields[1..])
  }

  /** `parse_qsl(qs)`: the pairs of the `&`-separated fields, in order. */
  function ParseQsl(qs: string): seq<(string, string)> {
    if qs == "" then [] else QueryPairs(Split(qs, '&'))
  }

  /** The value of the first pair named `name`. */
  function FirstValue(pairs: seq<(string, string)>, name: string): (r: Option<string>)
    ensures r.Some? ==> exists k :: 0 <= k < |pairs| && pairs[k] == (name, r.value)
                                    && forall j :: 0 <= j < k ==> pairs[j].0 != name
    ensures r.None? ==> forall k :: 0 <= k < |pairs| ==> pairs[k].0 != name
  {
    if pairs == [] then None
    else if pairs[0].0 == name then Some(pairs[0].1)
    else
      var r := FirstValue(pairs[1..], name);
      if r.Some? then
        var k :| 0 <= k < |pairs| - 1 && pairs[1..][k] == (name, r.value)
                 && forall j :: 0 <= j < k ==> pairs[1..][j].0 != name;
        assert pairs[k + 1] == (name, r.value);
        assert forall j :: 0 <= j < k + 1 ==> pairs[j].0 != name by {
          forall j | 0 <= j < k + 1 ensures pairs[j].0 != name {
            if j > 0 {
              assert pairs[j] == pairs[1..][j - 1];
            }
          }
        }
        r
      else
        r
  }

  /** `parse_qs(qs).get(name, [None])[0]`. */
  function QueryValue(qs: string, name: string): Option<string> {
    FirstValue(ParseQsl(qs), name)
  }

  /** A lone field `name=value` gives `value` when nothing in the value is special to `parse_qs`. */
  lemma QueryValueOfSingleField(name: string, value: string)
    requires name != "" && '=' !in name && '&' !in name && '+' !in name && '%' !in name
    requires value != "" && '&' !in value && '+' !in value && '%' !in value
    ensures QueryValue(name + "=" + value, name) == Some(value)
  {
    var qs := name + "=" + value;
    assert '&' !in qs;
    SingleFieldSplit(qs);
    SingleFieldPair(name, value);
    assert QueryPairs([qs]) == [(name, value)] by {
      assert [qs][1..] == [];
    }
  }

  /** A query string without `&` is one field. */
  lemma SingleFieldSplit(qs: string)
    requires '&' !in qs
    ensures Split(qs, '&') == [qs]
  {
    FindIs(qs, {'&'}, |qs|);
  }

  /** The pair of a field `name=value`. */
  lemma SingleFieldPair(name: string, value: string)
    requires '=' !in name && '+' !in name
    requires value != "" && '+' !in value
    ensures QueryPair(name + "=" + value) == Some((name, value))
  {
    FieldEquals(name, value);
    FieldHalves(name, value);
    ReplaceAbsent(name, '+', ' ');
    ReplaceAbsent(value, '+', ' ');
  }

  /** The `=` of `name=value` is the one after `name`. */
  lemma FieldEquals(name: string, value: string)
    requires '=' !in name
    ensures Find(name + "=" + value, {'='}) == |name|
  {
    assert name + "=" + value == name + ("=" + value);
    FindIs("=" + value, {'='}, 0);
    FindAfter(name, "=" + value, {'='});
  }

  lemma FieldHalves(name: string, value: string)
    ensures var field := name + "=" + value;
      field[..|name|] == name && field[|name| + 1..] == value
  {
  }

  /** The lookup reads a query field by field: a leading field that yields a pair with the
      name gives its value, and any other leading field is skipped. */
  lemma LeadingFieldRule(field: string, rest: string, name: string)
    requires '&' !in field
    ensures var p := QueryPair(field);
      p.Some? && p.value.0 == name ==> QueryValue(field + "&" + rest, name) == Some(p.value.1)
    ensures var p := QueryPair(field);
      (p.None? || p.value.0 != name) ==> QueryValue(field + "&" + rest, name) == QueryValue(rest, name)
  {
    var qs := field + "&" + rest;
    assert qs == field + ("&" + rest);
    FindIs("&" + rest, {'&'}, 0);
    FindAfter(field, "&" + rest, {'&'});
    assert qs[..|field|] == field && qs[|field| + 1..] == rest;
    assert Split(qs, '&') == [field] + Split(rest, '&');
    assert ([field] + Split(rest, '&'))[1..] == Split(rest, '&');
    if rest == "" {
      FindIs(rest, {'&'}, 0);
      FindIs("", {'='}, 0);
      assert QueryPairs(Split(rest, '&')) == [] by {
        assert Split(rest, '&') == [""];
        assert QueryPairs([""]) == QueryPairs([""][1..]);
      }
    }
    assert ParseQsl(rest) == QueryPairs(Split(rest, '&'));
  }

  /** A field of another name is passed over: `feature=share&v=abc` gives `abc` for `v`. */
  lemma OtherFieldPassedOver(key: string, other: string, name: string, value: string)
    requires key != name && '=' !in key && '+' !in key && '&' !in key
    requires other != "" && '&' !in other && '+' !in other
    requires name != "" && '=' !in name && '&' !in name && '+' !in name && '%' !in name
    requires value != "" && '&' !in value && '+' !in value && '%' !in value
    ensures QueryValue(key + "=" + other + "&" + name + "=" + value, name) == Some(value)
  {
    var first, rest := key + "=" + other, name + "=" + value;
    assert first + "&" + rest == key + "=" + other + "&" + name + "=" + value;
    SingleFieldPair(key, other);
    LeadingFieldRule(first, rest, name);
    QueryValueOfSingleField(name, value);
  }

  /** Of several fields of one name the first non-blank one wins: `v=&v=x&v=y` gives `x`. */
  lemma FirstNonBlankWins(name: string, x: string, y: string)
    requires name != "" && '=' !in name && '&' !in name && '+' !in name
    requires x != "" && '&' !in x && '+' !in x
    ensures QueryValue(name + "=&" + name + "=" + x + "&" + y, name) == Some(x)
  {
    var first := name + "=" + x;
    assert name + "=&" + name + "=" + x + "&" + y == name + "=&" + (first + "&" + y);
    SingleFieldPair(name, x);
    LeadingFieldRule(first, y, name);
    BlankFieldSkipped(name, first + "&" + y);
  }

  /** Fields before the first one named `name` with a non-blank value do not count:
      a blank `v=` is skipped and the next `v` is taken. */
  lemma {:induction false} BlankFieldSkipped(name: string, rest: string)
    requires name != "" && '=' !in name && '&' !in name
    ensures QueryValue(name + "=&" + rest, name) == QueryValue(rest, name)
  {
    var qs := name + "=&" + rest;
    assert qs == (name + "=") + ("&" + rest);
    FindAfter(name + "=", "&" + rest, {'&'});
    assert Find(qs, {'&'}) == |name| + 1;
    assert qs[..|name| + 1] == name + "=";
    assert qs[|name| + 2..] == rest;
    var field := name + "=";
    assert field == name + ['='];
    FindAfter(name, ['='], {'='});
    assert QueryPair(field) == None;
    assert Split(qs, '&') == [field] + Split(rest, '&');
    assert QueryPairs(Split(qs, '&')) == QueryPairs(Split(rest, '&'));
    if rest == "" {
      FindIs(rest, {'&'}, 0);
      assert Split(rest, '&') == [""];
      FindIs("", {'='}, 0);
      assert QueryPair("") == None;
      assert QueryPairs([""]) == [];
    }
  }
}
