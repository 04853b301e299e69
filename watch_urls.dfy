/**
 * Concrete links: short links and watch pages with a plain https URL, the
 * round trip through `MakeWatchUrl`, and worked examples.
 */
module WatchUrls {
  import opened Wrappers
  import opened Text
  import opened Uri
  import opened UrlComponents
  import opened UriCompleteness
  import opened UriFacts
  import opened UrlHelper

  // Concrete URLs: an https URL with a plain host.

  predicate IsPlainHost(host: string)
  {
    IsUriText(host) && '@' !in host && ':' !in host && '/' !in host && '?' !in host && '#' !in host
  }

  predicate IsPlainPath(path: string)
  {
    IsUriText(path) && '?' !in path && '#' !in path && (path == [] || path[0] == '/')
  }

  predicate IsPlainQuery(query: Option<string>)
  {
    query.Some? ==> IsUriText(query.value) && '#' !in query.value
  }

  function HttpsUrl(host: string, path: string, query: Option<string>): Url
  {
    Url(Some("https"), Some(Authority(None, host, None)), path, query, None)
  }

  lemma HttpsUrlText(host: string, path: string, query: Option<string>)
    requires IsPlainHost(host) && IsPlainPath(path) && IsPlainQuery(query)
    ensures WellFormed(HttpsUrl(host, path, query))
    ensures Recompose(HttpsUrl(host, path, query)) == "https://" + host + path + QueryPart(query)
  {
    var u := HttpsUrl(host, path, query);
    assert IsScheme("https");
    assert AuthorityText(u.authority.value) == host;
    assert HierText(u) == "https:" + ("//" + host) + path;
    assert "https:" + ("//" + host) == "https://" + host;
  }

  /** The text of an https URL with a plain host resolves as that URL. */
  lemma ExtractHttps(host: string, path: string, query: Option<string>)
    requires IsPlainHost(host) && IsPlainPath(path) && IsPlainQuery(query)
    ensures ExtractVideoId("https://" + host + path + QueryPart(query)) == VideoIdOf(HttpsUrl(host, path, query))
  {
    HttpsUrlText(host, path, query);
    ExtractOfRecompose(HttpsUrl(host, path, query));
  }

  /** The typical shape of a video ID: letters, digits, '_' and '-'. */
  predicate IsIdToken(id: string)
  {
    id != [] && forall i :: 0 <= i < |id| ==> IsAlpha(id[i]) || IsDigit(id[i]) || id[i] == '_' || id[i] == '-'
  }

  /**
   * Short-link round trip: an ID-shaped path segment under any host that
   * contains "youtu.be" (in any letter case) comes back unchanged; a query,
   * even one with a `v` item, is ignored.
   */
  lemma ShortLinkRoundTrip(host: string, id: string, query: Option<string>)
    requires IsPlainHost(host) && Contains(Lower(host), ShortLinkMarker)
    requires IsIdToken(id) && IsPlainQuery(query)
    ensures ExtractVideoId("https://" + host + "/" + id + QueryPart(query)) == Some(id)
  {
    PlainUriText("/" + id);
    ExtractHttps(host, "/" + id, query);
    ConcatAssoc("https://" + host, "/", id);
    var url := HttpsUrl(host, "/" + id, query);
    assert url.path == "/" + id + "";
    ShortLinkLastSegment(url, "/", id, "");
  }

  /** The query after `v=<id>`: nothing, or '&' and further items. */
  function QueryTail(rest: Option<string>): string
  {
    if rest.Some? then "&" + rest.value else ""
  }

  lemma WatchQueryText(id: string, rest: Option<string>)
    requires IsUriText(id) && '#' !in id && IsPlainQuery(rest)
    ensures IsPlainQuery(Some("v=" + id + QueryTail(rest)))
  {
    PlainUriText("v=");
    UriTextConcat("v=", id);
    if rest.Some? {
      PlainUriText("&");
      UriTextConcat("&", rest.value);
      UriTextConcat("v=" + id, QueryTail(rest));
    } else {
      assert "v=" + id + QueryTail(rest) == "v=" + id;
    }
  }

  /** The first '&'-separated part of `v=<id>` and a tail is `v=<id>` itself. */
  lemma WatchQueryFirstPart(item: string, rest: Option<string>)
    requires '&' !in item
    ensures Split(item + QueryTail(rest), '&')[0] == item
  {
    assert Split(item, '&') == [item];
    if rest.Some? {
      ConcatAssoc(item, "&", rest.value);
      SplitConcat(item, '&', rest.value);
    } else {
      assert item + QueryTail(rest) == item;
    }
  }

  lemma WatchQueryItem(id: string, rest: Option<string>)
    requires '&' !in id
    ensures QueryItems(Some("v=" + id + QueryTail(rest))).value[0] == QueryItem(VideoIdName, Some(id))
  {
    var item := "v=" + id;
    assert ParseQueryItem(item) == QueryItem(VideoIdName, Some(id)) by {
      assert item == "v" + ['='] + id;
      SplitFirstAt("v", '=', id);
    }
    WatchQueryFirstPart(item, rest);
    FirstQueryItem(item + QueryTail(rest));
  }

  /** On a watch-page host, a leading `v=<id>` query item gives `id`. */
  lemma WatchPageLeadingV(url: Url, id: string)
    requires IsWatchPageHost(url) && url.query.Some? && url.query.value != []
    requires QueryItems(url.query).value[0] == QueryItem(VideoIdName, Some(id))
    ensures VideoIdOf(url) == Some(id)
  {
    assert FirstIndexNamed(QueryItems(url.query).value, VideoIdName) == 0;
  }

  /**
   * Watch-page round trip: under any host whose lower-case form contains
   * "youtube.com" but not "youtu.be", and with any path, a first query item
   * `v=<id>` comes back unchanged whatever items follow it, later `v` items
   * included. The ID may be empty: "v=" gives the empty ID.
   */
  lemma WatchPageRoundTrip(host: string, path: string, id: string, rest: Option<string>)
    requires IsPlainHost(host) && !Contains(Lower(host), ShortLinkMarker) && Contains(Lower(host), WatchPageMarker)
    requires IsPlainPath(path)
    requires IsUriText(id) && '&' !in id && '#' !in id && IsPlainQuery(rest)
    ensures ExtractVideoId("https://" + host + path + "?v=" + id + QueryTail(rest)) == Some(id)
  {
    var query := "v=" + id + QueryTail(rest);
    WatchQueryText(id, rest);
    WatchQueryItem(id, rest);
    ExtractHttps(host, path, Some(query));
    WatchPageLeadingV(HttpsUrl(host, path, Some(query)), id);
    WatchQueryString("https://" + host + path, id, QueryTail(rest));
  }

  lemma WatchQueryString(prefix: string, id: string, tail: string)
    ensures prefix + QueryPart(Some("v=" + id + tail)) == prefix + "?v=" + id + tail
  {
    assert "?" + "v=" == "?v=";
    ConcatAssoc("?", "v=" + id, tail);
    ConcatAssoc("?", "v=", id);
    ConcatAssoc(prefix, "?v=" + id, tail);
    ConcatAssoc(prefix, "?v=", id);
  }

  /** Lower-case letters, digits, '-' and '.': a host name that needs neither escaping nor lowering. */
  predicate IsLowerName(name: string)
  {
    forall i :: 0 <= i < |name| ==> 'a' <= name[i] <= 'z' || IsDigit(name[i]) || name[i] == '-' || name[i] == '.'
  }

  lemma LowerNameFacts(name: string)
    requires IsLowerName(name)
    ensures IsPlainHost(name) && Lower(name) == name
  {
    LowerOfLowercase(name);
    PlainUriText(name);
  }

  /** A path of letters, digits and slashes. */
  predicate IsSimplePath(path: string)
  {
    (path == [] || path[0] == '/') && forall i :: 0 <= i < |path| ==> IsAlpha(path[i]) || IsDigit(path[i]) || path[i] == '/'
  }

  lemma SimplePathFacts(path: string)
    requires IsSimplePath(path)
    ensures IsPlainPath(path)
  {
    PlainUriText(path);
  }

  /** A host that differs only in letter case from a lower-case name. */
  lemma CaseVariantHost(host: string, name: string)
    requires SameUpToCase(host, name) && IsLowerName(name)
    ensures IsPlainHost(host) && Lower(host) == name
  {
    LowerNameFacts(name);
    SameUpToCaseIff(host, name);
    HostCaseVariant(Authority(None, name, None), host);
  }

  /** The watch-page round trip under a lower-case host name and a simple path. */
  lemma WatchPageRoundTripOnName(name: string, path: string, id: string, rest: Option<string>)
    requires IsLowerName(name) && !Contains(name, ShortLinkMarker) && Contains(name, WatchPageMarker)
    requires IsSimplePath(path)
    requires IsUriText(id) && '&' !in id && '#' !in id && IsPlainQuery(rest)
    ensures ExtractVideoId("https://" + name + path + "?v=" + id + QueryTail(rest)) == Some(id)
  {
    LowerNameFacts(name);
    SimplePathFacts(path);
    WatchPageRoundTrip(name, path, id, rest);
  }

  lemma WatchHostLacksShortLinkMarker()
    ensures !Contains(WatchHost, ShortLinkMarker)
  {
    NotContainsPastFirst(WatchHost, ShortLinkMarker, 4, 5);
  }

  lemma WatchHostHasWatchPageMarker()
    ensures Contains(WatchHost, WatchPageMarker)
  {
    ContainsAt(WatchHost, WatchPageMarker, 4);
  }

  lemma CanonicalUrlWithTail(id: string, rest: Option<string>)
    requires IsUriText(id) && '&' !in id && '#' !in id && IsPlainQuery(rest)
    ensures ExtractVideoId(MakeWatchUrl(id) + QueryTail(rest)) == Some(id)
  {
    WatchHostLacksShortLinkMarker();
    WatchHostHasWatchPageMarker();
    WatchPageRoundTripOnName(WatchHost, WatchPath, id, rest);
    assert MakeWatchUrl(id) + QueryTail(rest) == "https://" + WatchHost + WatchPath + "?v=" + id + QueryTail(rest);
  }

  /** The canonical watch URL gives its ID back, for every ID that can sit in a query unescaped. */
  lemma MakeWatchUrlRoundTrip(id: string)
    requires IsUriText(id) && '&' !in id && '#' !in id
    ensures ExtractVideoId(MakeWatchUrl(id)) == Some(id)
  {
    CanonicalUrlWithTail(id, None);
    assert MakeWatchUrl(id) + QueryTail(None) == MakeWatchUrl(id);
  }

  /** Further query items after the canonical URL, later `v` items included, are ignored. */
  lemma MakeWatchUrlFirstVWins(id: string, rest: string)
    requires IsUriText(id) && '&' !in id && '#' !in id
    requires IsUriText(rest) && '#' !in rest
    ensures ExtractVideoId(MakeWatchUrl(id) + "&" + rest) == Some(id)
  {
    CanonicalUrlWithTail(id, Some(rest));
    ConcatAssoc(MakeWatchUrl(id), "&", rest);
  }

  /** "https://youtu.be/dQw4w9WgXcQ", with the host in any letter case, gives "dQw4w9WgXcQ". */
  lemma ShortLinkExample(host: string, id: string)
    requires SameUpToCase(host, ShortLinkMarker) && id == "dQw4w9WgXcQ"
    ensures ExtractVideoId("https://" + host + "/" + id) == Some(id)
  {
    CaseVariantHost(host, ShortLinkMarker);
    ContainsAt(ShortLinkMarker, ShortLinkMarker, 0);
    ShortLinkRoundTrip(host, id, None);
    assert "https://" + host + "/" + id + QueryPart(None) == "https://" + host + "/" + id;
  }

  /**
   * A short link with an empty path gives no ID, and one whose path is just
   * "/" gives "/": the last path component is not checked for being an ID.
   */
  lemma BareShortLink(host: string)
    requires SameUpToCase(host, ShortLinkMarker)
    ensures ExtractVideoId("https://" + host) == None
    ensures ExtractVideoId("https://" + host + "/") == Some("/")
  {
    CaseVariantHost(host, ShortLinkMarker);
    ContainsAt(ShortLinkMarker, ShortLinkMarker, 0);
    ShortLinkSlashesOnly(host, "");
    ShortLinkSlashesOnly(host, "/");
    assert "https://" + host + "" == "https://" + host;
  }

  lemma ShortLinkSlashesOnly(host: string, path: string)
    requires IsPlainHost(host) && Contains(Lower(host), ShortLinkMarker)
    requires path == [] || path == "/"
    ensures ExtractVideoId("https://" + host + path) == if path == [] then None else Some("/")
  {
    var url := HttpsUrl(host, path, None);
    assert IsPlainPath(path) by {
      PlainUriText(path);
    }
    ExtractHttps(host, path, None);
    assert "https://" + host + path + QueryPart(None) == "https://" + host + path;
    assert IsShortLinkHost(url);
    assert AllSlashes(path);
    ShortLinkNoSegment(url);
  }

  /** "https://www.youtube.com/watch?v=dQw4w9WgXcQ&t=30s", with the host in any letter case, gives "dQw4w9WgXcQ". */
  lemma WatchPageExample(host: string, id: string, rest: string)
    requires SameUpToCase(host, WatchHost) && id == "dQw4w9WgXcQ" && rest == "t=30s"
    ensures ExtractVideoId("https://" + host + "/watch?v=" + id + "&" + rest) == Some(id)
  {
    WatchHostVariant(host);
    PlainUriText(id);
    PlainUriText(rest);
    SimplePathFacts(WatchPath);
    WatchPageRoundTrip(host, WatchPath, id, Some(rest));
    FuseWatchText("https://" + host, id, rest);
  }

  /** Any letter-case variant of "www.youtube.com" is a watch-page host. */
  lemma WatchHostVariant(host: string)
    requires SameUpToCase(host, WatchHost)
    ensures IsPlainHost(host) && !Contains(Lower(host), ShortLinkMarker) && Contains(Lower(host), WatchPageMarker)
  {
    WatchHostLacksShortLinkMarker();
    WatchHostHasWatchPageMarker();
    CaseVariantHost(host, WatchHost);
  }

  lemma FuseWatchText(prefix: string, id: string, rest: string)
    ensures prefix + WatchPath + "?v=" + id + QueryTail(Some(rest)) == prefix + "/watch?v=" + id + "&" + rest
  {
    assert WatchPath + "?v=" == "/watch?v=";
    ConcatAssoc(prefix, WatchPath, "?v=");
    ConcatAssoc(prefix + "/watch?v=" + id, "&", rest);
  }

  /** "https://example.com/video", with the host in any letter case, gives no ID. */
  lemma OtherHostExample(host: string, path: string)
    requires SameUpToCase(host, "example.com") && path == "/video"
    ensures ExtractVideoId("https://" + host + path) == None
  {
    CaseVariantHost(host, "example.com");
    NotContainsWithoutFirst("example.com", ShortLinkMarker);
    NotContainsWithoutFirst("example.com", WatchPageMarker);
    SimplePathFacts(path);
    ExtractHttps(host, path, None);
    assert "https://" + host + path + QueryPart(None) == "https://" + host + path;
  }
}
