/**
 * `URLHelper`: reads a YouTube video ID out of a pasted link and builds
 * the canonical watch-page URL for an ID.
 */
module UrlHelper {
  import opened Wrappers
  import opened Text
  import opened Trimming
  import opened Uri
  import opened UriSoundness
  import opened UriCompleteness
  import opened UriFacts
  import opened UrlComponents

  /** A host containing this takes the short-link rule. */
  const ShortLinkMarker: string := "youtu.be"

  /** A host containing this (and not the short-link marker) takes the watch-page rule. */
  const WatchPageMarker: string := "youtube.com"

  /** The query item that carries the ID on a watch page. */
  const VideoIdName: string := "v"

  /** The host and path of the canonical watch URL. */
  const WatchHost: string := "www.youtube.com"
  const WatchPath: string := "/watch"

  /** "https://www.youtube.com/watch?v=". */
  const WatchUrlPrefix: string := "https://" + WatchHost + WatchPath + "?v="

  /** `url.host?.lowercased() ?? ""`. */
  function LoweredHost(url: Url): string
  {
    match Host(url)
    case None => ""
    case Some(host) => Lower(host)
  }

  /**
   * The ID a parsed URL carries: the last path component on a short-link
   * host, the value of the first `v` query item on a watch-page host,
   * nothing otherwise.
   */
  function VideoIdOf(url: Url): Option<string>
  {
    var host := LoweredHost(url);
    if Contains(host, ShortLinkMarker) then Last(PathComponents(url.path))
    else if Contains(host, WatchPageMarker) then
      match QueryItems(url.query)
      case None => None
      case Some(items) => FirstValue(items, VideoIdName)
    else None
  }

  /** `extractVideoID(from:)`: trim, parse, then read the ID off the parsed URL. */
  function ExtractVideoId(urlString: string): Option<string>
  {
    match Parse(Trim(urlString))
    case None => None
    case Some(url) => VideoIdOf(url)
  }

  /** `makeWatchURL(videoID:)`: the ID appended to the watch-page prefix, unescaped. */
  function MakeWatchUrl(videoId: string): (r: string)
    ensures |r| == |WatchUrlPrefix| + |videoId|
    ensures r[..|WatchUrlPrefix|] == WatchUrlPrefix && r[|WatchUrlPrefix|..] == videoId
  {
    WatchUrlPrefix + videoId
  }

  /** Distinct IDs give distinct watch URLs. */
  lemma MakeWatchUrlInjective(a: string, b: string)
    requires MakeWatchUrl(a) == MakeWatchUrl(b)
    ensures a == b
  {
    assert a == MakeWatchUrl(a)[|WatchUrlPrefix|..];
  }

  // Trimming and parsing.

  /** Whitespace and newlines added at either end change nothing. */
  lemma ExtractIgnoresPadding(lead: string, s: string, trail: string)
    requires AllWhitespace(lead) && AllWhitespace(trail)
    ensures ExtractVideoId(lead + s + trail) == ExtractVideoId(s)
  {
    TrimPadded(lead, s, trail);
  }

  /** A character outside URI syntax in the trimmed text means the text does not parse: no ID. */
  lemma ForeignCharacterNoId(s: string, i: nat)
    requires i < |Trim(s)| && !IsUriChar(Trim(s)[i])
    ensures ExtractVideoId(s) == None
  {
    if IsUriText(Trim(s)) {
      UriTextChars(Trim(s));
    }
  }

  lemma NotAUrl(s: string)
    requires s == "not a url"
    ensures ExtractVideoId(s) == None
  {
    assert Trimmed(s);
    TrimOfTrimmed(s);
    assert !IsUriChar(s[3]);
    ForeignCharacterNoId(s, 3);
  }

  /** URI text has no whitespace, so trimming keeps it. */
  lemma TrimUriText(s: string)
    requires IsUriText(s)
    ensures Trim(s) == s
  {
    if s != [] {
      UriTextChars(s);
      UriCharNotWhitespace(s[0]);
      UriCharNotWhitespace(s[|s| - 1]);
    }
    TrimOfTrimmed(s);
  }

  lemma UriCharNotWhitespace(c: char)
    requires IsUriChar(c)
    ensures !IsWhitespaceOrNewline(c)
  {
  }

  /** The text of a well-formed URL resolves as that URL. */
  lemma ExtractOfRecompose(u: Url)
    requires WellFormed(u)
    ensures ExtractVideoId(Recompose(u)) == VideoIdOf(u)
  {
    ParseRecompose(u);
    TrimUriText(Recompose(u));
  }

  // Host.

  /** With no host the host reads as "", which matches neither marker. */
  lemma NoHostNoId(url: Url)
    requires url.authority.None?
    ensures VideoIdOf(url) == None
  {
    NotContainsWithoutFirst("", ShortLinkMarker);
    NotContainsWithoutFirst("", WatchPageMarker);
  }

  /** A host matching neither marker gives no ID. */
  lemma NeitherMarkerNoId(url: Url)
    requires !Contains(LoweredHost(url), ShortLinkMarker) && !Contains(LoweredHost(url), WatchPageMarker)
    ensures VideoIdOf(url) == None
  {
  }

  /** Changing the letter case of the host changes neither the URL's validity nor the result. */
  lemma HostCaseInsensitive(u: Url, host: string)
    requires WellFormed(u) && u.authority.Some? && SameUpToCase(u.authority.value.host, host)
    ensures WellFormed(u.(authority := Some(u.authority.value.(host := host))))
    ensures ExtractVideoId(Recompose(u.(authority := Some(u.authority.value.(host := host)))))
         == ExtractVideoId(Recompose(u))
  {
    var v := u.(authority := Some(u.authority.value.(host := host)));
    HostCaseVariant(u.authority.value, host);
    ExtractOfRecompose(u);
    ExtractOfRecompose(v);
    SameUpToCaseIff(u.authority.value.host, host);
    assert LoweredHost(v) == LoweredHost(u);
  }

  /** On a short-link host the ID occurs in the URL's text, inside the path. */
  lemma ShortLinkIdOccurs(u: Url) returns (k: nat)
    requires Contains(LoweredHost(u), ShortLinkMarker) && VideoIdOf(u).Some?
    ensures OccursAt(VideoIdOf(u).value, Recompose(u), k)
  {
    var p := LastComponentOccurs(u.path);
    k := OccursInPath(VideoIdOf(u).value, u, p);
  }

  /** Otherwise the ID occurs in the URL's text, inside the query. */
  lemma WatchPageIdOccurs(u: Url) returns (k: nat)
    requires !Contains(LoweredHost(u), ShortLinkMarker) && VideoIdOf(u).Some?
    ensures OccursAt(VideoIdOf(u).value, Recompose(u), k)
  {
    var q := FirstValueOccurs(u.query.value, VideoIdName);
    k := OccursInQuery(VideoIdOf(u).value, u, q);
  }

  /**
   * The ID is never case-folded or otherwise rewritten: it occurs in the
   * input exactly as returned. This holds because the model decodes no
   * percent-escapes in the path or the query; where Foundation decodes
   * them, the returned ID need not occur in the input.
   */
  lemma ExtractedIdIsVerbatim(s: string) returns (k: nat)
    ensures ExtractVideoId(s).Some? ==> OccursAt(ExtractVideoId(s).value, s, k)
  {
    if ExtractVideoId(s).None? {
      return 0;
    }
    var t := Trim(s);
    var u := Parse(t).value;
    assert ExtractVideoId(s) == VideoIdOf(u);
    ParseSound(t);
    assert ReadsBack(t, u);
    var j: nat;
    if Contains(LoweredHost(u), ShortLinkMarker) {
      j := ShortLinkIdOccurs(u);
    } else {
      j := WatchPageIdOccurs(u);
    }
    k := OccursThroughTrim(ExtractVideoId(s).value, s, j);
  }

  // Short links.

  predicate IsShortLinkHost(url: Url)
  {
    Contains(LoweredHost(url), ShortLinkMarker)
  }

  predicate IsWatchPageHost(url: Url)
  {
    !Contains(LoweredHost(url), ShortLinkMarker) && Contains(LoweredHost(url), WatchPageMarker)
  }

  /**
   * On a short-link host the ID is the path's last segment, whatever the
   * query says and whether or not the host also contains the watch-page marker.
   */
  lemma ShortLinkLastSegment(url: Url, before: string, segment: string, tail: string)
    requires IsShortLinkHost(url)
    requires url.path == before + segment + tail
    requires segment != [] && '/' !in segment && AllSlashes(tail)
    requires before == [] || before[|before| - 1] == '/'
    ensures VideoIdOf(url) == Some(segment)
  {
    LastComponentIsLastSegment(url.path, before, segment, tail);
  }

  /** On a short-link host a path without segments gives no ID when empty and "/" otherwise. */
  lemma ShortLinkNoSegment(url: Url)
    requires IsShortLinkHost(url) && AllSlashes(url.path)
    ensures VideoIdOf(url) == if url.path == [] then None else Some("/")
  {
    LastComponentOfSlashes(url.path);
  }

  // Watch pages.

  /**
   * On a watch-page host the ID is `v` exactly when the query has an item
   * named "v" (case-sensitively) whose value is `v`, and no earlier item is
   * named "v". No query, no such item, or an item without '=' gives no ID.
   */
  lemma WatchPageFirstV(url: Url, v: string)
    requires IsWatchPageHost(url)
    ensures VideoIdOf(url) == Some(v) <==>
      && url.query.Some?
      && var items := QueryItems(url.query).value;
         exists k :: FirstNamedAt(items, VideoIdName, k) && items[k].value == Some(v)
  {
    if url.query.Some? {
      FirstValueIff(QueryItems(url.query).value, VideoIdName, v);
    }
  }

  /**
   * On a watch-page host there is no ID exactly when there is no query,
   * no item named "v", or the first such item has no '='.
   */
  lemma WatchPageNoId(url: Url)
    requires IsWatchPageHost(url)
    ensures VideoIdOf(url) == None <==>
      || url.query.None?
      || var items := QueryItems(url.query).value;
         forall k :: FirstNamedAt(items, VideoIdName, k) ==> items[k].value.None?
  {
    if url.query.Some? {
      var items := QueryItems(url.query).value;
      var f := FirstIndexNamed(items, VideoIdName);
      forall k | FirstNamedAt(items, VideoIdName, k)
        ensures k == f
      {
      }
    }
  }
}
