/**
  `extract_video_id`: turns a YouTube link or a bare video ID into the ID,
  trying five rules in order and stopping at the first that applies.
 */
module VideoId {
  import opened Wrappers
  import opened Text
  import opened Url

  /** The short-link host; the first rule is a plain substring test for it. */
  const ShortHost := "youtu.be"

  /** Video IDs are eleven characters long. */
  const IdLength := 11

  /** The path patterns of the third and fourth rules, without their ID part. */
  const EmbedMarkers := ["/embed/", "/v/"]
  const ShortsMarkers := ["/shorts/"]

  /** `[a-zA-Z0-9_-]`. */
  predicate IsIdChar(c: char) {
    'a' <= c <= 'z' || 'A' <= c <= 'Z' || '0' <= c <= '9' || c == '_' || c == '-'
  }

  /** `[a-zA-Z0-9_-]{11}` matched by the whole of `t`. */
  predicate IsIdToken(t: string) {
    |t| == IdLength && forall i | 0 <= i < |t| :: IsIdChar(t[i])
  }

  /** `re.match(r"^[a-zA-Z0-9_-]{11}$", url)`: `$` also matches before one final newline. */
  predicate IsBareId(url: string) {
    IsIdToken(url) || (|url| == IdLength + 1 && IsIdToken(url[..IdLength]) && url[IdLength] == '\n')
  }

  /** The pattern `marker` followed by eleven ID characters matches `s` at index `i`. */
  predicate TokenAt(s: string, i: int, marker: string) {
    0 <= i && i + |marker| + IdLength <= |s| && s[i..i + |marker|] == marker
    && IsIdToken(s[i + |marker|..i + |marker| + IdLength])
  }

  /** The first alternative of the pattern that matches at index `i`. */
  function MarkerAt(s: string, i: int, markers: seq<string>): (r: Option<string>)
    ensures r.Some? ==> r.value in markers && TokenAt(s, i, r.value)
    ensures r.None? ==> forall m | m in markers :: !TokenAt(s, i, m)
  {
    if markers == [] then None
    else if TokenAt(s, i, markers[0]) then Some(markers[0])
    else MarkerAt(s, i, markers[1..])
  }

  /**
    `re.search` for one of `markers` followed by eleven ID characters, from
    index `from` on: the ID part of the leftmost match.
   */
  function SearchToken(s: string, markers: seq<string>, from: nat): (r: Option<string>)
    ensures r.None? ==> forall i, m | from <= i && m in markers :: !TokenAt(s, i, m)
    ensures r.Some? ==> IsIdToken(r.value)
    ensures r.Some? ==> exists i, m | from <= i && m in markers ::
      TokenAt(s, i, m) && r.value == s[i + |m|..i + |m| + IdLength]
      && forall j, m' | from <= j < i && m' in markers :: !TokenAt(s, j, m')
    decreases |s| - from
  {
    if from >= |s| then None
    else
      match MarkerAt(s, from, markers)
      case Some(m) => Some(s[from + |m|..from + |m| + IdLength])
      case None => SearchToken(s, markers, from + 1)
  }

  predicate IsSlash(c: char) { c == '/' }

  /** The first rule's result: the path without its leading slashes, cut at the first `?`. */
  function ShortLinkId(path: string): string {
    Split(TrimStart(path, IsSlash), '?')[0]
  }

  /** Rules two to five, tried in order on a link without `youtu.be`. */
  function LongLinkId(url: string, parsed: ParseResult): Option<string> {
    var v := QueryValue(parsed.query, "v");
    if v.Some? then v
    else
      var embedded := SearchToken(parsed.path, EmbedMarkers, 0);
      if embedded.Some? then embedded
      else
        var short := SearchToken(parsed.path, ShortsMarkers, 0);
        if short.Some? then short
        else if IsBareId(url) then Some(url)
        else None
  }

  /** `extract_video_id(url)`. */
  function ExtractVideoId(url: string): (r: Option<string>)
  {
    if Contains(url, ShortHost) then Some(ShortLinkId(UrlParse(url).path))
    else LongLinkId(url, UrlParse(url))
  }

  /**
    Unfolding step for the proofs below: a link containing `youtu.be`
    anywhere is decided by the first rule alone.
   */
  lemma ShortLinkChosen(url: string)
    requires Contains(url, ShortHost)
    ensures ExtractVideoId(url) == Some(ShortLinkId(UrlParse(url).path))
  {
  }

  /**
    Unfolding step for the proofs below: a link without `youtu.be` is
    decided by the remaining rules.
   */
  lemma LongLinkChosen(url: string)
    requires !Contains(url, ShortHost)
    ensures ExtractVideoId(url) == LongLinkId(url, UrlParse(url))
  {
  }

  /**
    The first rule yields the path without its leading slashes, whatever
    its length or alphabet: the `?` cut never removes anything, because a
    parsed path holds no `?`.
   */
  lemma ShortLinkRule(path: string)
    requires '?' !in path
    ensures var r := ShortLinkId(path);
      |r| <= |path| && r == path[|path| - |r|..]
      && (forall i | 0 <= i < |path| - |r| :: path[i] == '/')
      && (r == [] || r[0] != '/')
      && '?' !in r
  {
    var trimmed := TrimStart(path, IsSlash);
    TrimStartShape(path, IsSlash);
    assert trimmed == path[|path| - |trimmed|..];
    SplitWithout(trimmed, '?');
  }

  /**
    Rules two to five give back the input itself, exactly eleven ID
    characters, or the first `v` value of the query, unchecked; without a
    `v` value, only the first two.
   */
  lemma LongLinkShape(url: string, parsed: ParseResult)
    requires LongLinkId(url, parsed).Some?
    ensures var r := LongLinkId(url, parsed).value;
      (r == url && IsBareId(url)) || IsIdToken(r) || QueryValue(parsed.query, "v") == Some(r)
    ensures var r := LongLinkId(url, parsed).value;
      QueryValue(parsed.query, "v").None? ==> IsIdToken(r) || (r == url && IsBareId(url))
  {
  }

  /**
    Without `youtu.be`, a result that is not the input itself is exactly
    eleven ID characters, or is the first `v` value of the query, unchecked.
   */
  lemma ResultShape(url: string)
    requires !Contains(url, ShortHost)
    requires ExtractVideoId(url).Some?
    ensures var r := ExtractVideoId(url).value;
      (r == url && IsBareId(url)) || IsIdToken(r) || QueryValue(UrlParse(url).query, "v") == Some(r)
  {
    LongLinkChosen(url);
    LongLinkShape(url, UrlParse(url));
  }

  /** Rules two to five give nothing exactly when none of them applies. */
  lemma LongLinkNone(url: string, parsed: ParseResult)
    ensures LongLinkId(url, parsed).None?
      <==> !IsBareId(url) && QueryValue(parsed.query, "v").None?
           && forall i, m | m in EmbedMarkers + ShortsMarkers :: !TokenAt(parsed.path, i, m)
  {
    var path := parsed.path;
    if LongLinkId(url, parsed).None? {
      assert SearchToken(path, EmbedMarkers, 0).None?;
      assert SearchToken(path, ShortsMarkers, 0).None?;
      forall i, m | m in EmbedMarkers + ShortsMarkers ensures !TokenAt(path, i, m) {
        if i < 0 {
        } else if m in EmbedMarkers {
        } else {
          assert m in ShortsMarkers;
        }
      }
    } else if !IsBareId(url) && QueryValue(parsed.query, "v").None?
              && forall i, m | m in EmbedMarkers + ShortsMarkers :: !TokenAt(path, i, m) {
      NoTokenNoMatch(path, EmbedMarkers, EmbedMarkers + ShortsMarkers);
      NoTokenNoMatch(path, ShortsMarkers, EmbedMarkers + ShortsMarkers);
    }
  }

  /** A search finds nothing when no marker of a larger set matches anywhere. */
  lemma NoTokenNoMatch(s: string, markers: seq<string>, all: seq<string>)
    requires forall m | m in markers :: m in all
    requires forall i, m | m in all :: !TokenAt(s, i, m)
    ensures SearchToken(s, markers, 0).None?
  {
  }

  /**
    Nothing is extracted exactly when no rule applies: no `youtu.be`, no `v`
    value, no embed, legacy or shorts pattern, and not a bare ID.
   */
  lemma NoneMeansNoRule(url: string)
    ensures ExtractVideoId(url).None?
      <==> !Contains(url, ShortHost) && !IsBareId(url)
           && QueryValue(UrlParse(url).query, "v").None?
           && forall i, m | m in EmbedMarkers + ShortsMarkers :: !TokenAt(UrlParse(url).path, i, m)
  {
    LongLinkNone(url, UrlParse(url));
    if !Contains(url, ShortHost) {
      LongLinkChosen(url);
    } else {
      ShortLinkChosen(url);
    }
  }

  /**
    Any input containing `youtu.be` yields the path of its parse without
    the leading slashes, whatever that path is.
   */
  lemma ShortLinkResult(url: string)
    requires Contains(url, ShortHost)
    ensures ExtractVideoId(url).Some?
    ensures var path := UrlParse(url).path;
      var r := ExtractVideoId(url).value;
      |r| <= |path| && r == path[|path| - |r|..]
      && (forall i | 0 <= i < |path| - |r| :: path[i] == '/')
      && (r == [] || r[0] != '/')
  {
    ShortLinkChosen(url);
    ShortLinkRule(UrlParse(url).path);
  }

  /**
    Without `youtu.be`, a `v` value in the query wins over every later
    rule, whatever the path says.
   */
  lemma VValueFirst(url: string, x: string)
    requires !Contains(url, ShortHost)
    requires QueryValue(UrlParse(url).query, "v") == Some(x)
    ensures ExtractVideoId(url) == Some(x)
  {
    LongLinkChosen(url);
  }

  /** The host of the long link forms. */
  const WatchHost := "www.youtube.com"

  /** The watch link the script builds from an extracted ID before submitting it. */
  function WatchUrl(id: string): string {
    "https://www.youtube.com/watch?v=" + id
  }

  /** ID characters include none of the URL delimiters, nor `.`, `+` or `=`. */
  lemma IdCharsAvoidDelimiters(s: string)
    requires forall i | 0 <= i < |s| :: IsIdChar(s[i])
    ensures Avoids(s, {':', '/', '?', '#', ';', '&', '=', '+', '.'})
    ensures '.' !in s && '+' !in s && '=' !in s && '&' !in s && '/' !in s
  {
  }

  /** `youtu.be` starts with a `y` that has a dot five characters on. */
  lemma NotShortLink(s: string)
    requires forall i | 0 <= i && i + 5 < |s| :: s[i] != 'y' || s[i + 5] != '.'
    ensures !Contains(s, ShortHost)
  {
    forall i | 0 <= i <= |s| - |ShortHost| ensures !OccursAt(s, ShortHost, i) {
      if s[i] != 'y' {
        assert s[i..i + 8][0] != ShortHost[0];
      } else {
        assert s[i..i + 8][5] != ShortHost[5];
      }
    }
  }

  /** A link on the long host has no `youtu.be` unless its remainder brings a dot. */
  lemma LongHostNotShortLink(rest: string)
    requires '.' !in rest
    ensures !Contains("https://" + WatchHost + rest, ShortHost)
  {
    var prefix := "https://" + WatchHost;
    var s := prefix + rest;
    assert forall i | 0 <= i && i + 5 < |prefix| :: prefix[i] != 'y' || prefix[i + 5] != '.';
    forall i | 0 <= i && i + 5 < |s| ensures s[i] != 'y' || s[i + 5] != '.' {
      if i + 5 >= |prefix| {
        assert s[i + 5] == rest[i + 5 - |prefix|];
      } else {
        assert s[i] == prefix[i] && s[i + 5] == prefix[i + 5];
      }
    }
    NotShortLink(s);
  }

  /** The host of the long link forms holds no delimiter. */
  lemma WatchHostPlain()
    ensures Avoids(WatchHost, {'/', '?', '#'})
  {
  }

  /** Appending a `v` parameter to the path of a long link: it is read as the only query field. */
  lemma SingleVField(value: string)
    requires value != "" && '&' !in value && '+' !in value
    ensures QueryValue("v=" + value, "v") == Some(value)
  {
    var q := "v=" + value;
    SplitWithout(q, '&');
    assert q[0] == 'v' && q[1] == '=';
    assert IndexOf(q, '=') == 1;
    assert q[..1] == "v" && q[2..] == value;
    assert SplitOnce(q, '=') == ("v", value);
    assert PlusToSpace("v") == "v";
    assert PlusToSpace(value) == value;
    assert QueryFields([q]) == [("v", value)];
  }

  /** An empty query has no fields. */
  lemma EmptyQuery()
    ensures QueryValue("", "v").None?
  {
    assert Split("", '&') == [""];
    assert QueryFields([""]) == [];
  }

  /** The watch link built from an ID has no `youtu.be` in it. */
  lemma WatchLinkNotShort(id: string)
    requires IsIdToken(id)
    ensures !Contains(WatchUrl(id), ShortHost)
  {
    var rest := "/watch?v=" + id;
    assert '.' !in rest by {
      assert forall i | 9 <= i < |rest| :: rest[i] == id[i - 9];
    }
    LongHostNotShortLink(rest);
    assert WatchUrl(id) == "https://" + WatchHost + rest;
  }

  /** The query part of the watch link holds no `#`. */
  lemma QuerySuffixPlain(id: string)
    requires IsIdToken(id)
    ensures Avoids("?v=" + id, {'#'})
  {
    var suffix := "?v=" + id;
    assert forall i | 3 <= i < |suffix| :: suffix[i] == id[i - 3];
  }

  /** The pieces of the watch link built from an ID, and what each avoids. */
  lemma WatchUrlPieces(id: string)
    requires IsIdToken(id)
    ensures WatchUrl(id) == "https://" + WatchHost + ("/watch" + ("?v=" + id))
    ensures Avoids(WatchHost, {'/', '?', '#'})
    ensures Avoids("/watch", {'?', '#', ';'})
    ensures Avoids("?v=" + id, {'#'})
  {
    WatchHostPlain();
    QuerySuffixPlain(id);
  }

  /** How the watch link built from an ID parses. */
  lemma WatchLinkParts(id: string)
    requires IsIdToken(id)
    ensures UrlParse(WatchUrl(id)) == ParseResult("https", WatchHost, "/watch", "", "v=" + id, "")
  {
    WatchUrlPieces(id);
    var suffix := "?v=" + id;
    assert suffix != [] && suffix[1..] == "v=" + id;
    ParseHttpsUrl(WatchUrl(id), WatchHost, "/watch", suffix);
  }

  /** The watch link built from an ID gives that ID back (second rule). */
  lemma WatchLinkYieldsId(id: string)
    requires IsIdToken(id)
    ensures ExtractVideoId(WatchUrl(id)) == Some(id)
  {
    WatchLinkParts(id);
    WatchLinkNotShort(id);
    IdCharsAvoidDelimiters(id);
    SingleVField(id);
  }

  /** The pieces of a `youtu.be` link, and what each avoids. */
  lemma ShortUrlPieces(s: string)
    requires Avoids(s, {'?', '#', ';'})
    ensures "https://" + ShortHost + "/" + s == "https://" + ShortHost + (("/" + s) + "")
    ensures Avoids(ShortHost, {'/', '?', '#'})
    ensures Avoids("/" + s, {'?', '#', ';'})
  {
    assert forall i | 1 <= i < |"/" + s| :: ("/" + s)[i] == s[i - 1];
  }

  /** How a `youtu.be` link parses. */
  lemma ShortUrlParts(s: string)
    requires Avoids(s, {'?', '#', ';'})
    ensures UrlParse("https://" + ShortHost + "/" + s) == ParseResult("https", ShortHost, "/" + s, "", "", "")
  {
    ShortUrlPieces(s);
    ParseHttpsUrl("https://" + ShortHost + "/" + s, ShortHost, "/" + s, "");
  }

  /**
    A `youtu.be` link yields whatever follows the slash, of any length and
    any alphabet, the empty string included; an ID in particular.
   */
  lemma ShortLinkYieldsPath(s: string)
    requires Avoids(s, {'?', '#', ';'})
    requires s == [] || s[0] != '/'
    ensures ExtractVideoId("https://" + ShortHost + "/" + s) == Some(s)
  {
    var url := "https://" + ShortHost + "/" + s;
    assert OccursAt(url, ShortHost, 8);
    ShortLinkChosen(url);
    ShortUrlParts(s);
    SlashPath(s);
  }

  /** The first rule applied to a path of one slash and then `s`. */
  lemma SlashPath(s: string)
    requires Avoids(s, {'?', '#', ';'})
    requires s == [] || s[0] != '/'
    ensures ShortLinkId("/" + s) == s
  {
    assert ("/" + s)[1..] == s;
    assert TrimStart("/" + s, IsSlash) == s;
    SplitWithout(s, '?');
  }

  /** The pieces of an embed, legacy or shorts link on the long host, and what each avoids. */
  lemma PathUrlPieces(marker: string, id: string)
    requires marker in EmbedMarkers + ShortsMarkers
    requires IsIdToken(id)
    ensures "https://" + WatchHost + marker + id == "https://" + WatchHost + ((marker + id) + "")
    ensures Avoids(WatchHost, {'/', '?', '#'})
    ensures Avoids(marker + id, {'?', '#', ';'})
    ensures '.' !in marker + id
  {
    IdCharsAvoidDelimiters(id);
    var path := marker + id;
    assert forall i | |marker| <= i < |path| :: path[i] == id[i - |marker|];
  }

  /** How an embed, legacy or shorts link on the long host parses. */
  lemma PathUrlParts(marker: string, id: string)
    requires marker in EmbedMarkers + ShortsMarkers
    requires IsIdToken(id)
    ensures UrlParse("https://" + WatchHost + marker + id)
      == ParseResult("https", WatchHost, marker + id, "", "", "")
  {
    PathUrlPieces(marker, id);
    ParseHttpsUrl("https://" + WatchHost + marker + id, WatchHost, marker + id, "");
  }

  /** A shorts path holds no embed or legacy match: its only slashes are the marker's two. */
  lemma ShortsPathNoEmbed(id: string)
    requires IsIdToken(id)
    ensures forall i, m | m in EmbedMarkers :: !TokenAt("/shorts/" + id, i, m)
  {
    var path := "/shorts/" + id;
    assert forall j | 8 <= j < |path| :: path[j] == id[j - 8];
    forall i, m | m in EmbedMarkers ensures !TokenAt(path, i, m) {
      if 0 <= i && i + |m| <= |path| {
        var k := if i == 0 || i == 7 then |m| - 1 else 0;
        assert path[i..i + |m|][k] == path[i + k];
        assert path[i + k] != '/';
      }
    }
  }

  /** A path that starts with `marker` and an ID matches there, whatever follows. */
  lemma TokenAtStart(marker: string, id: string, tail: string)
    requires IsIdToken(id)
    ensures TokenAt(marker + id + tail, 0, marker)
    ensures (marker + id + tail)[|marker|..|marker| + IdLength] == id
  {
    var path := marker + id + tail;
    assert path[..|marker|] == marker;
    assert path[|marker|..|marker| + IdLength] == id;
  }

  /**
    The search of the third rule finds the ID of an embed or legacy path at
    its start; the pattern is not anchored at the end, so whatever follows
    the eleven characters is ignored.
   */
  lemma EmbedSearch(marker: string, id: string, tail: string)
    requires marker in EmbedMarkers
    requires IsIdToken(id)
    ensures SearchToken(marker + id + tail, EmbedMarkers, 0) == Some(id)
  {
    var path := marker + id + tail;
    TokenAtStart(marker, id, tail);
    if marker == "/v/" {
      assert path[0..7][2] != "/embed/"[2];
    }
  }

  /** The searches of the third and fourth rules on a shorts path: only the fourth matches. */
  lemma ShortsSearch(id: string)
    requires IsIdToken(id)
    ensures SearchToken("/shorts/" + id, EmbedMarkers, 0).None?
    ensures SearchToken("/shorts/" + id, ShortsMarkers, 0) == Some(id)
  {
    var path := "/shorts/" + id;
    ShortsPathNoEmbed(id);
    TokenAtStart("/shorts/", id, "");
    assert path == "/shorts/" + id + "";
  }

  /** `/shorts/`, then an ID, then anything: the fourth rule's search finds that ID. */
  lemma ShortsSearchTail(id: string, tail: string)
    requires IsIdToken(id)
    ensures SearchToken("/shorts/" + id + tail, ShortsMarkers, 0) == Some(id)
  {
    TokenAtStart("/shorts/", id, tail);
  }

  /**
    Without `youtu.be` and without a `v` value, an embed or legacy match
    decides the result, whatever the shorts search would find.
   */
  lemma EmbedBeforeShorts(url: string, x: string)
    requires !Contains(url, ShortHost)
    requires QueryValue(UrlParse(url).query, "v").None?
    requires SearchToken(UrlParse(url).path, EmbedMarkers, 0) == Some(x)
    ensures ExtractVideoId(url) == Some(x)
  {
    LongLinkChosen(url);
  }

  /**
    Only when the embed and legacy search finds nothing does a shorts match
    decide, ahead of the bare-ID rule.
   */
  lemma ShortsAfterEmbed(url: string, x: string)
    requires !Contains(url, ShortHost)
    requires QueryValue(UrlParse(url).query, "v").None?
    requires SearchToken(UrlParse(url).path, EmbedMarkers, 0).None?
    requires SearchToken(UrlParse(url).path, ShortsMarkers, 0) == Some(x)
    ensures ExtractVideoId(url) == Some(x)
  {
    LongLinkChosen(url);
  }

  /** An embed, legacy or shorts path is read by the third or fourth rule when the query is empty. */
  lemma PathRules(url: string, marker: string, id: string)
    requires marker in EmbedMarkers + ShortsMarkers
    requires IsIdToken(id)
    ensures LongLinkId(url, ParseResult("https", WatchHost, marker + id, "", "", "")) == Some(id)
  {
    EmptyQuery();
    if marker in EmbedMarkers {
      EmbedSearch(marker, id, "");
      assert marker + id + "" == marker + id;
    } else {
      ShortsSearch(id);
    }
  }

  /** The embed, legacy and shorts forms on the long host yield the ID that follows the marker. */
  lemma PathLinkYieldsId(marker: string, id: string)
    requires marker in EmbedMarkers + ShortsMarkers
    requires IsIdToken(id)
    ensures ExtractVideoId("https://" + WatchHost + marker + id) == Some(id)
  {
    var url := "https://" + WatchHost + marker + id;
    PathUrlPieces(marker, id);
    assert url == "https://" + WatchHost + (marker + id);
    LongHostNotShortLink(marker + id);
    LongLinkChosen(url);
    PathUrlParts(marker, id);
    PathRules(url, marker, id);
  }

  /** A bare ID, parsed as a plain path, is read by the fifth rule. */
  lemma BareIdRules(id: string)
    requires IsIdToken(id)
    ensures LongLinkId(id, ParseResult("", "", id, "", "", "")) == Some(id)
  {
    IdCharsAvoidDelimiters(id);
    EmptyQuery();
    assert SearchToken(id, EmbedMarkers, 0).None?;
  }

  /** A bare ID is returned as it is (fifth rule). */
  lemma BareIdYieldsItself(id: string)
    requires IsIdToken(id)
    ensures ExtractVideoId(id) == Some(id)
  {
    IdCharsAvoidDelimiters(id);
    NotShortLink(id);
    LongLinkChosen(id);
    CleanUrlUnchanged(id);
    ParsePlain(id, id);
    BareIdRules(id);
  }

  /** An ID followed by one newline, parsed as a plain path, is read by the fifth rule. */
  lemma NewlineIdRules(id: string)
    requires IsIdToken(id)
    ensures LongLinkId(id + "\n", ParseResult("", "", id, "", "", "")) == Some(id + "\n")
  {
    IdCharsAvoidDelimiters(id);
    EmptyQuery();
    assert SearchToken(id, EmbedMarkers, 0).None?;
    assert (id + "\n")[..IdLength] == id;
  }

  /** urlsplit's cleaning deletes the final newline after an ID. */
  lemma NewlineIdClean(id: string)
    requires IsIdToken(id)
    ensures RemoveAll(TrimStart(id + "\n", IsC0OrSpace), IsUnsafe) == id
  {
    var url := id + "\n";
    assert TrimStart(url, IsC0OrSpace) == url;
    RemoveAllAppend(id, "\n", IsUnsafe);
    assert RemoveAll("\n", IsUnsafe) == "";
    assert RemoveAll(id, IsUnsafe) == id;
  }

  /** An ID followed by a newline has no `youtu.be` in it. */
  lemma NewlineIdNotShort(id: string)
    requires IsIdToken(id)
    ensures !Contains(id + "\n", ShortHost)
  {
    var url := id + "\n";
    IdCharsAvoidDelimiters(id);
    forall i | 0 <= i && i + 5 < |url| ensures url[i] != 'y' || url[i + 5] != '.' {
      if i + 5 < |id| {
        assert url[i + 5] == id[i + 5];
      }
    }
    NotShortLink(url);
  }

  /**
    `$` also matches just before a final newline, so a bare ID followed by
    one newline is returned with the newline kept (urlsplit deletes the
    newline, so the parsed path is the ID alone).
   */
  lemma BareIdKeepsNewline(id: string)
    requires IsIdToken(id)
    ensures ExtractVideoId(id + "\n") == Some(id + "\n")
  {
    IdCharsAvoidDelimiters(id);
    NewlineIdNotShort(id);
    LongLinkChosen(id + "\n");
    NewlineIdClean(id);
    ParsePlain(id + "\n", id);
    NewlineIdRules(id);
  }

  // A watch link carrying `feature=youtu.be`: the first rule tests the whole
  // text for `youtu.be`, so that parameter sends a watch link down the
  // short-link path.

  /** A watch link with one more query field, `tag`, after the ID. */
  function TaggedUrl(id: string, tag: string): string {
    WatchUrl(id) + "&" + tag
  }

  /** The query of a tagged watch link. */
  function TaggedQuery(id: string, tag: string): string {
    "v=" + id + "&" + tag
  }

  /** A query field naming the short host, as watch links reached from `youtu.be` carry. */
  const ShareTag := "feature=youtu.be"

  /** That field names the short host and holds no `&` or `#`. */
  lemma ShareTagShape()
    ensures Contains(ShareTag, ShortHost)
    ensures Avoids(ShareTag, {'&', '#'})
  {
    assert OccursAt(ShareTag, ShortHost, 8);
  }

  /** The pieces of a tagged watch link, and what each avoids. */
  lemma TaggedUrlPieces(id: string, tag: string)
    requires IsIdToken(id) && Avoids(tag, {'#'})
    ensures TaggedUrl(id, tag) == "https://" + WatchHost + ("/watch" + ("?" + TaggedQuery(id, tag)))
    ensures Avoids("?" + TaggedQuery(id, tag), {'#'})
  {
    TaggedUrlShape(id, tag);
    TaggedSuffixPlain(id, tag);
  }

  /** A tagged watch link is the watch host, the path `/watch` and the tagged query. */
  lemma TaggedUrlShape(id: string, tag: string)
    ensures TaggedUrl(id, tag) == "https://" + WatchHost + ("/watch" + ("?" + TaggedQuery(id, tag)))
  {
    var prefix := "https://" + WatchHost + "/watch";
    assert prefix == "https://www.youtube.com/watch";
    assert TaggedUrl(id, tag) == prefix + ("?" + TaggedQuery(id, tag));
  }

  /** The query part of a tagged watch link holds no `#` when the tag holds none. */
  lemma TaggedSuffixPlain(id: string, tag: string)
    requires IsIdToken(id) && Avoids(tag, {'#'})
    ensures Avoids("?" + TaggedQuery(id, tag), {'#'})
  {
    QuerySuffixPlain(id);
    assert Avoids("&", {'#'});
    AvoidsConcat("&", tag, {'#'});
    AvoidsConcat("?v=" + id, "&" + tag, {'#'});
    assert "?" + TaggedQuery(id, tag) == ("?v=" + id) + ("&" + tag);
  }

  /** How a tagged watch link parses: on the long host, with path `/watch`. */
  lemma TaggedLinkParts(id: string, tag: string)
    requires IsIdToken(id) && Avoids(tag, {'#'})
    ensures UrlParse(TaggedUrl(id, tag))
      == ParseResult("https", WatchHost, "/watch", "", TaggedQuery(id, tag), "")
  {
    TaggedUrlPieces(id, tag);
    WatchUrlPieces(id);
    var suffix := "?" + TaggedQuery(id, tag);
    assert suffix[1..] == TaggedQuery(id, tag);
    ParseHttpsUrl(TaggedUrl(id, tag), WatchHost, "/watch", suffix);
  }

  /** A tag naming `youtu.be` puts `youtu.be` in the whole link. */
  lemma TaggedLinkHasShortHost(id: string, tag: string)
    requires Contains(tag, ShortHost)
    ensures Contains(TaggedUrl(id, tag), ShortHost)
  {
    var i :| 0 <= i <= |tag| - |ShortHost| && OccursAt(tag, ShortHost, i);
    var url := TaggedUrl(id, tag);
    var k := |WatchUrl(id)| + 1 + i;
    assert url[k..k + |ShortHost|] == tag[i..i + |ShortHost|];
    assert OccursAt(url, ShortHost, k);
  }

  /** The first rule applied to the watch path. */
  lemma WatchPathId()
    ensures ShortLinkId("/watch") == "watch"
  {
    SlashPath("watch");
  }

  /**
    As written, a watch link tagged with a field naming `youtu.be` yields
    `watch`, whatever the ID: the first rule fires and returns the path.
   */
  lemma TaggedLinkMisread(id: string, tag: string)
    requires IsIdToken(id) && Avoids(tag, {'#'}) && Contains(tag, ShortHost)
    ensures ExtractVideoId(TaggedUrl(id, tag)) == Some("watch")
  {
    TaggedLinkHasShortHost(id, tag);
    ShortLinkChosen(TaggedUrl(id, tag));
    TaggedLinkParts(id, tag);
    WatchPathId();
  }

  /** A watch link carrying `feature=youtu.be`, in particular, yields `watch`, whatever its ID. */
  lemma ShareLinkMisread(id: string)
    requires IsIdToken(id)
    ensures ExtractVideoId(WatchUrl(id) + "&" + ShareTag) == Some("watch")
  {
    ShareTagShape();
    TaggedLinkMisread(id, ShareTag);
  }

  /**
    `extract_video_id` with the first rule tested on the network location,
    as its comment describes: only links to the `youtu.be` host take it.
   */
  function ExtractVideoIdByHost(url: string): Option<string> {
    var parsed := UrlParse(url);
    if Contains(parsed.netloc, ShortHost) then Some(ShortLinkId(parsed.path))
    else LongLinkId(url, parsed)
  }

  /** The long host is not the short one. */
  lemma WatchHostNotShort()
    ensures !Contains(WatchHost, ShortHost)
  {
    NotShortLink(WatchHost);
  }

  /** Two `&`-free pieces joined by one `&` split back into those pieces. */
  lemma SplitAtAmpersand(first: string, tag: string)
    requires '&' !in first && '&' !in tag
    ensures Split(first + "&" + tag, '&') == [first, tag]
  {
    var q := first + "&" + tag;
    assert IndexOf(q, '&') == |first|;
    assert q[..|first|] == first && q[|first| + 1..] == tag;
    SplitWithout(tag, '&');
  }

  /** The field `v=<id>` on its own. */
  lemma VField(id: string)
    requires IsIdToken(id)
    ensures '&' !in "v=" + id
    ensures QueryField("v=" + id) == Some(("v", id))
  {
    IdCharsAvoidDelimiters(id);
    SingleVField(id);
    SplitWithout("v=" + id, '&');
    assert QueryFields(["v=" + id]) == [("v", id)];
  }

  /** In a tagged query the ID comes first, so it is the `v` value. */
  lemma TaggedQueryValue(id: string, tag: string)
    requires IsIdToken(id) && '&' !in tag
    ensures QueryValue(TaggedQuery(id, tag), "v") == Some(id)
  {
    VField(id);
    SplitAtAmpersand("v=" + id, tag);
    var pieces := ["v=" + id, tag];
    assert pieces[1..] == [tag];
    assert QueryFields(pieces)[0] == ("v", id);
  }

  /** With the host test, a tagged watch link yields its ID. */
  lemma TaggedLinkYieldsId(id: string, tag: string)
    requires IsIdToken(id) && Avoids(tag, {'&', '#'})
    ensures ExtractVideoIdByHost(TaggedUrl(id, tag)) == Some(id)
  {
    TaggedLinkParts(id, tag);
    WatchHostNotShort();
    TaggedQueryValue(id, tag);
  }

  /** With the host test, a watch link carrying `feature=youtu.be` yields its ID. */
  lemma ShareLinkYieldsId(id: string)
    requires IsIdToken(id)
    ensures ExtractVideoIdByHost(WatchUrl(id) + "&" + ShareTag) == Some(id)
  {
    ShareTagShape();
    TaggedLinkYieldsId(id, ShareTag);
  }

  /** With the host test, a `youtu.be` link still yields what follows the slash. */
  lemma ByHostShortLink(s: string)
    requires Avoids(s, {'?', '#', ';'})
    requires s == [] || s[0] != '/'
    ensures ExtractVideoIdByHost("https://" + ShortHost + "/" + s) == Some(s)
  {
    ShortUrlParts(s);
    assert OccursAt(ShortHost, ShortHost, 0);
    SlashPath(s);
  }

  /** With the host test, the plain watch link still yields its ID. */
  lemma ByHostWatchLink(id: string)
    requires IsIdToken(id)
    ensures ExtractVideoIdByHost(WatchUrl(id)) == Some(id)
  {
    WatchLinkParts(id);
    WatchHostNotShort();
    IdCharsAvoidDelimiters(id);
    SingleVField(id);
  }
}
