/**
  What `urllib.parse.urlparse` and `urllib.parse.parse_qs` (CPython 3.12)
  give `extract_video_id`: the split of a URL into scheme, network location,
  path, parameters, query and fragment, and the query's name/value pairs.
  Percent-escapes are not decoded (see README).
 */
module Url {
  import opened Wrappers
  import opened Text

  datatype ParseResult = ParseResult(
    scheme: string, netloc: string, path: string, params: string, query: string, fragment: string)

  /** The characters urlsplit strips from the front of a URL: C0 controls and space. */
  predicate IsC0OrSpace(c: char) { c <= ' ' }

  /** The characters urlsplit deletes wherever they are: tab, CR and LF. */
  predicate IsUnsafe(c: char) { c == '\t' || c == '\r' || c == '\n' }

  predicate IsAsciiLetter(c: char) { 'a' <= c <= 'z' || 'A' <= c <= 'Z' }

  /** urllib's `scheme_chars`. */
  predicate IsSchemeChar(c: char) {
    IsAsciiLetter(c) || '0' <= c <= '9' || c == '+' || c == '-' || c == '.'
  }

  /** urllib's `uses_params`: the schemes whose last path segment may carry `;params`. */
  const UsesParams: set<string> :=
    {"", "ftp", "hdl", "prospero", "http", "imap", "https", "shttp", "rtsp", "rtsps",
     "rtspu", "sip", "sips", "mms", "sftp", "tel"}

  /** `s.split(c, 1)` read as a pair, with an empty second half when `c` is absent. */
  function SplitOnce(s: string, c: char): (r: (string, string))
    ensures c !in r.0
    ensures c in s ==> s == r.0 + [c] + r.1
    ensures c !in s ==> r == (s, "")
  {
    var k := IndexOf(s, c);
    if k < |s| then
      assert s == s[..k] + [c] + s[k + 1..];
      (s[..k], s[k + 1..])
    else (s, "")
  }

  /** The scheme: the text before the first `:` when it starts with a letter and is all scheme characters. */
  function SplitScheme(u: string): (r: (string, string))
  {
    var i := IndexOf(u, ':');
    if 0 < i < |u| && IsAsciiLetter(u[0]) && (forall j | 0 <= j < i :: IsSchemeChar(u[j]))
    then (AsciiLower(u[..i]), u[i + 1..])
    else ("", u)
  }

  /** After a leading `//`, the network location runs up to the first `/`, `?` or `#`. */
  function SplitNetloc(u: string): (r: (string, string))
    requires |u| >= 2
    ensures '/' !in r.0 && '?' !in r.0 && '#' !in r.0
    ensures u == u[..2] + r.0 + r.1
    ensures r.1 == [] || r.1[0] in {'/', '?', '#'}
  {
    var d := 2 + FindAny(u[2..], {'/', '?', '#'});
    assert u == u[..2] + u[2..d] + u[d..];
    (u[2..d], u[d..])
  }

  /** `_splitparams`: `;params` is cut from the last path segment only. */
  function SplitParams(u: string): (r: (string, string))
    requires ';' in u
    ensures |r.0| <= |u| && r.0 == u[..|r.0|]
  {
    if '/' in u then
      var slash := LastIndexOf(u, '/');
      var i := slash + IndexOf(u[slash..], ';');
      if i == |u| then (u, "") else (u[..i], u[i + 1..])
    else
      var i := IndexOf(u, ';');
      (u[..i], u[i + 1..])
  }

  /**
    What follows the network location, split into path, parameters, query
    and fragment: the fragment at the first `#`, then the query at the first
    `?`, then `;params` for the schemes that use them.
   */
  function SplitTail(scheme: string, rest: string): (r: (string, string, string, string))
    ensures '?' !in r.0 && '#' !in r.0 && '#' !in r.2
  {
    var (beforeFragment, fragment) := SplitOnce(rest, '#');
    var (pathAndParams, query) := SplitOnce(beforeFragment, '?');
    assert '#' !in pathAndParams && '#' !in query by {
      if '?' in beforeFragment {
        assert beforeFragment == pathAndParams + ['?'] + query;
      }
    }
    var (path, params) :=
      if scheme in UsesParams && ';' in pathAndParams then SplitParams(pathAndParams)
      else (pathAndParams, "");
    assert forall i | 0 <= i < |path| :: path[i] == pathAndParams[i];
    (path, params, query, fragment)
  }

  /** `urlparse(url)`. */
  function UrlParse(url: string): (r: ParseResult)
    ensures '?' !in r.path && '#' !in r.path && '#' !in r.query
  {
    var u := RemoveAll(TrimStart(url, IsC0OrSpace), IsUnsafe);
    var (scheme, afterScheme) := SplitScheme(u);
    var (netloc, rest) :=
      if |afterScheme| >= 2 && afterScheme[0] == '/' && afterScheme[1] == '/'
      then SplitNetloc(afterScheme) else ("", afterScheme);
    var (path, params, query, fragment) := SplitTail(scheme, rest);
    ParseResult(scheme, netloc, path, params, query, fragment)
  }

  /** `+` in a query name or value stands for a space. */
  function PlusToSpace(s: string): string {
    ReplaceChar(s, '+', ' ')
  }

  /**
    One `&`-separated piece of a query as `parse_qsl` (blank values not kept,
    lenient) reads it: nothing for an empty piece, a piece without `=`, or an
    empty value; otherwise the text before and after the first `=`.
   */
  function QueryField(piece: string): (r: Option<(string, string)>)
    ensures r.Some? ==> r.value.1 != ""
  {
    var (name, value) := SplitOnce(piece, '=');
    if piece == "" || '=' !in piece || value == "" then None
    else Some((PlusToSpace(name), PlusToSpace(value)))
  }

  function QueryFields(pieces: seq<string>): (r: seq<(string, string)>)
    ensures forall i | 0 <= i < |r| :: r[i].1 != ""
  {
    if pieces == [] then []
    else
      (match QueryField(pieces[0]) case Some(f) => [f] case None => [])
      + QueryFields(pieces[1..])
  }

  /** `parse_qsl(query)`: the name/value pairs of the query, in order. */
  function ParseQsl(query: string): (r: seq<(string, string)>)
    ensures forall i | 0 <= i < |r| :: r[i].1 != ""
  {
    QueryFields(Split(query, '&'))
  }

  /** `parse_qs(query)[key][0]` when `key in parse_qs(query)`: the first value given for `key`. */
  function FirstValue(pairs: seq<(string, string)>, key: string): (r: Option<string>)
    ensures r.None? <==> forall i | 0 <= i < |pairs| :: pairs[i].0 != key
    ensures r.Some? ==> exists i | 0 <= i < |pairs| ::
      pairs[i] == (key, r.value) && forall j | 0 <= j < i :: pairs[j].0 != key
  {
    if pairs == [] then None
    else if pairs[0].0 == key then Some(pairs[0].1)
    else
      FirstValue(pairs[1..], key)
  }

  /** The query value `extract_video_id` looks up. */
  function QueryValue(query: string, key: string): Option<string> {
    FirstValue(ParseQsl(query), key)
  }

  /** No character of `s` is in `stops` or is one urlsplit deletes. */
  predicate Avoids(s: string, stops: set<char>) {
    forall i | 0 <= i < |s| :: s[i] !in stops && !IsUnsafe(s[i])
  }

  /** A URL that starts with a visible character and holds no tab, CR or LF is not cleaned further. */
  lemma CleanUrlUnchanged(url: string)
    requires url != [] && !IsC0OrSpace(url[0])
    requires forall i | 0 <= i < |url| :: !IsUnsafe(url[i])
    ensures RemoveAll(TrimStart(url, IsC0OrSpace), IsUnsafe) == url
  {
  }

  /** `https:` is read as the scheme. */
  lemma HttpsScheme(rest: string)
    ensures SplitScheme("https:" + rest) == ("https", rest)
  {
    var u := "https:" + rest;
    assert u[5] == ':';
    assert forall i | 0 <= i < 5 :: u[i] == "https"[i] && u[i] != ':';
    assert IndexOf(u, ':') == 5;
    assert u[..5] == "https";
    assert AsciiLower("https") == "https";
    assert u[6..] == rest;
  }

  /** After `//`, the host runs up to the `/` that starts the path. */
  lemma NetlocBeforePath(host: string, rest: string)
    requires Avoids(host, {'/', '?', '#'})
    requires rest != [] && rest[0] == '/'
    ensures SplitNetloc("//" + host + rest) == (host, rest)
  {
    var u := "//" + host + rest;
    assert u[2..] == host + rest;
    assert (host + rest)[|host|] == '/';
    assert FindAny(u[2..], {'/', '?', '#'}) == |host|;
    assert u[2..2 + |host|] == host;
    assert u[2 + |host|..] == rest;
  }

  /** A path followed by an optional `?query` splits into the two. */
  lemma PathAndQuery(path: string, suffix: string)
    requires Avoids(path, {'?', '#'})
    requires suffix == [] || (suffix[0] == '?' && Avoids(suffix, {'#'}))
    ensures SplitOnce(path + suffix, '#') == (path + suffix, "")
    ensures SplitOnce(path + suffix, '?') == (path, if suffix == [] then "" else suffix[1..])
  {
    var rest := path + suffix;
    forall i | 0 <= i < |rest| ensures rest[i] != '#' {
      if i >= |path| {
        assert rest[i] == suffix[i - |path|];
      }
    }
    if suffix == [] {
      assert rest == path;
    } else {
      assert rest[|path|] == '?';
      assert IndexOf(rest, '?') == |path|;
      assert rest[..|path|] == path;
      assert rest[|path| + 1..] == suffix[1..];
    }
  }

  /** With no `;` in the path, the tail of an `https` link is its path and its query. */
  lemma HttpsTail(path: string, suffix: string)
    requires Avoids(path, {'?', '#', ';'})
    requires suffix == [] || (suffix[0] == '?' && Avoids(suffix, {'#'}))
    ensures SplitTail("https", path + suffix) == (path, "", if suffix == [] then "" else suffix[1..], "")
  {
    PathAndQuery(path, suffix);
    assert ';' !in path;
  }

  /** An `https://` link assembled from parts free of tab, CR and LF is free of them too. */
  lemma HttpsUrlChars(url: string, host: string, rest: string)
    requires url == "https://" + host + rest
    requires forall i | 0 <= i < |host| :: !IsUnsafe(host[i])
    requires forall i | 0 <= i < |rest| :: !IsUnsafe(rest[i])
    ensures url != [] && url[0] == 'h'
    ensures forall i | 0 <= i < |url| :: !IsUnsafe(url[i])
    ensures url == "https:" + ("//" + host + rest)
  {
    forall i | 0 <= i < |url| ensures !IsUnsafe(url[i]) {
      if i < 8 {
      } else if i < 8 + |host| {
        assert url[i] == host[i - 8];
      } else {
        assert url[i] == rest[i - 8 - |host|];
      }
    }
  }

  /** Such a link is left as it is by the cleaning urlsplit does first. */
  lemma HttpsUrlClean(url: string, host: string, rest: string)
    requires url == "https://" + host + rest
    requires forall i | 0 <= i < |host| :: !IsUnsafe(host[i])
    requires forall i | 0 <= i < |rest| :: !IsUnsafe(rest[i])
    ensures RemoveAll(TrimStart(url, IsC0OrSpace), IsUnsafe) == url
    ensures url == "https:" + ("//" + host + rest)
  {
    HttpsUrlChars(url, host, rest);
    CleanUrlUnchanged(url);
  }

  /** Two strings free of tab, CR and LF make one. */
  lemma AppendAvoidsUnsafe(a: string, b: string)
    requires forall i | 0 <= i < |a| :: !IsUnsafe(a[i])
    requires forall i | 0 <= i < |b| :: !IsUnsafe(b[i])
    ensures forall i | 0 <= i < |a + b| :: !IsUnsafe((a + b)[i])
  {
    forall i | 0 <= i < |a + b| ensures !IsUnsafe((a + b)[i]) {
      if i >= |a| {
        assert (a + b)[i] == b[i - |a|];
      }
    }
  }

  /** Two texts that avoid the same characters avoid them together. */
  lemma AvoidsConcat(a: string, b: string, stops: set<char>)
    requires Avoids(a, stops) && Avoids(b, stops)
    ensures Avoids(a + b, stops)
  {
    forall i | 0 <= i < |a + b| ensures (a + b)[i] !in stops && !IsUnsafe((a + b)[i]) {
      if i >= |a| {
        assert (a + b)[i] == b[i - |a|];
      } else {
        assert (a + b)[i] == a[i];
      }
    }
  }

  /**
    An `https://host/path` link, with an optional `?query`, parses into
    exactly those parts when the host holds no delimiter and the path no
    `?`, `#` or `;`.
   */
  lemma ParseHttpsUrl(url: string, host: string, path: string, suffix: string)
    requires url == "https://" + host + (path + suffix)
    requires Avoids(host, {'/', '?', '#'})
    requires path != [] && path[0] == '/' && Avoids(path, {'?', '#', ';'})
    requires suffix == [] || (suffix[0] == '?' && Avoids(suffix, {'#'}))
    ensures UrlParse(url)
      == ParseResult("https", host, path, "", if suffix == [] then "" else suffix[1..], "")
  {
    var rest := path + suffix;
    AppendAvoidsUnsafe(path, suffix);
    var afterScheme := "//" + host + rest;
    HttpsUrlClean(url, host, rest);
    HttpsScheme(afterScheme);
    assert SplitScheme(url) == ("https", afterScheme);
    NetlocBeforePath(host, rest);
    assert |afterScheme| >= 2 && afterScheme[0] == '/' && afterScheme[1] == '/';
    HttpsTail(path, suffix);
  }

  /**
    A string with no scheme, no delimiter and no `;` (after the cleaning
    urlsplit does) is all path.
   */
  lemma ParsePlain(url: string, cleaned: string)
    requires RemoveAll(TrimStart(url, IsC0OrSpace), IsUnsafe) == cleaned
    requires Avoids(cleaned, {':', '/', '?', '#', ';'})
    ensures UrlParse(url) == ParseResult("", "", cleaned, "", "", "")
  {
    assert IndexOf(cleaned, ':') == |cleaned|;
    assert SplitScheme(cleaned) == ("", cleaned);
    assert !(|cleaned| >= 2 && cleaned[0] == '/');
    PlainTail(cleaned);
  }

  /** Text with no delimiter and no `;` is all path. */
  lemma PlainTail(rest: string)
    requires Avoids(rest, {'?', '#', ';'})
    ensures SplitTail("", rest) == (rest, "", "", "")
  {
    assert SplitOnce(rest, '#') == (rest, "");
    assert SplitOnce(rest, '?') == (rest, "");
    assert ';' !in rest;
  }
}
