# YouTube video-ID resolver

This project models `URLHelper` in the YouTubePlayer app. `URLHelper` has two functions:

- `extractVideoID(from:)` reads a video ID out of a pasted link.
  - It trims whitespace and newlines.
  - It parses the rest as a URL and lowercases the host.
  - A host containing `youtu.be` is a short link. Its ID is the last path component.
  - A host containing `youtube.com` is a watch page. Its ID is the value of the first query item named `v`.
  - Any other host gives no ID.
- `makeWatchURL(videoID:)` builds `https://www.youtube.com/watch?v=<id>` by plain concatenation.

Both are pure, so the model is written with functions and lemmas only.

Modules:

- `Text`: the string operations everything else uses.
  - `Find`, `SplitFirst`, `Split` and `Join`.
  - ASCII `Lower`.
  - Substring containment (`Contains`, `OccursAt`).
- `Trimming`: `trimmingCharacters(in: .whitespacesAndNewlines)`, with the whitespace set written out.
- `Uri`: the URL parser Foundation's `URL(string:)` stands for, written against the generic syntax of RFC 3986.
  - `Parse` splits text into scheme, authority (userinfo, host, port), path, query and fragment (RFC 3986 section 3).
  - `None` plays the part of `nil`.
  - `Recompose` is the recomposition of RFC 3986 section 5.3.
- `UriSoundness`: every URL `Parse` returns is well formed and recomposes to its input.
- `UriCompleteness`: every well-formed URL is parsed back from its recomposition, so `Parse` and `Recompose` are inverse on well-formed URLs.
- `UriFacts`: where a component's text sits in the recomposed string, and the case-insensitivity of the host.
- `UrlComponents`: the views the resolver reads.
  - `Host` stands for `url.host`.
  - `PathComponents` stands for `url.pathComponents`.
  - `QueryItems` stands for `URLComponents.queryItems`.
  - `FirstValue` stands for `first(where:)?.value`.
- `UrlHelper`: the resolver.
  - `ExtractVideoId` trims, parses and calls `VideoIdOf`, which applies the host rules.
  - `MakeWatchUrl` builds the watch URL.
- `WatchUrls`: concrete links with a plain https URL, the round trips through the resolver and `MakeWatchUrl`, and worked examples.

Concrete example inputs are stated with a parameter that has to equal the literal, or has to match it up to letter case, rather than with the literal inline. The statement is the same.

Two inputs give an ID that is not a usable video ID, because the code checks nothing about the value it returns:

- `"https://youtu.be/"` gives the ID `"/"`.
  - Foundation reports the components of the path `/` as `["/"]`, and the code returns the last one unconditionally.
  - `BareShortLink` proves this.
- `"https://www.youtube.com/watch?v="` gives the empty ID.
  - The item `v=` has the value `""`, and the code returns any value it finds.
  - `WatchPageRoundTrip` allows the empty ID.
- A caller that wants "not found" for these inputs has to check the returned ID itself.

## Model

| member | source | states |
|---|---|---|
| `UrlHelper.ExtractVideoId` | YouTubePlayer/URLHelper.swift:4-29 | `extractVideoID(from:)`: trim, parse, then apply the host rules. Its contract is the lemmas on it below: padding is ignored (`ExtractIgnoresPadding`), text that does not parse gives no ID (`ForeignCharacterNoId`, `NotAUrl`), a well-formed URL's text resolves by that URL (`ExtractOfRecompose`), the ID occurs verbatim in the input (`ExtractedIdIsVerbatim`), and the short-link and watch-page round trips |
| `Trimming.Trim` | YouTubePlayer/URLHelper.swift:5 | `trimmingCharacters(in: .whitespacesAndNewlines)`: the result has no whitespace or newline at either end, is no longer than the input, and is empty exactly when the input is all whitespace; `TrimLocation`, `TrimPadded` and `TrimIdempotent` complete its contract |
| `Uri.Parse` | YouTubePlayer/URLHelper.swift:7 | `URL(string:)`: by `ParseIff` it returns `u` exactly when `u` is well formed and recomposes to the input, and `None` when no such `u` exists; `ParseSound` and `ParseRecompose` are the two directions |
| `UrlComponents.Host` | YouTubePlayer/URLHelper.swift:11 | `url.host`: the authority's host as written (not percent-decoded, see "## Left out"), absent when the URL has no authority; `NoHostNoId` states what the absent host leads to |
| `UrlHelper.LoweredHost` | YouTubePlayer/URLHelper.swift:11 | `url.host?.lowercased() ?? ""`: `HostCaseInsensitive` states that only the host's letter case is folded, so a case variant of the host gives the same result, and `NoHostNoId` that a missing host reads as "" |
| `UrlHelper.VideoIdOf` | YouTubePlayer/URLHelper.swift:11-28 | the host rules on a parsed URL: the short-link branch by `ShortLinkLastSegment` and `ShortLinkNoSegment`, the watch-page branch in both directions by `WatchPageFirstV` and `WatchPageNoId`, the fall-through by `NeitherMarkerNoId` and `NoHostNoId` |
| `UrlComponents.PathComponents` | YouTubePlayer/URLHelper.swift:15 | `url.pathComponents`: `LastComponentIsLastSegment` and `LastComponentOfSlashes` state what its last element is for every path |
| `UrlComponents.QueryItems` | YouTubePlayer/URLHelper.swift:21-22 | `URLComponents.queryItems`: absent without a query, empty for an empty query, otherwise one item per '&'-separated part, names and values not percent-decoded (see "## Left out"); `FirstQueryItem` states that its first item is parsed from the text before the first '&' |
| `UrlComponents.ParseQueryItem` | YouTubePlayer/URLHelper.swift:22 | one query item: `QueryItemRoundTrip` and `QueryItemTextOfParse` make it the inverse of `QueryItemText`, so the name is the text up to the first '=' and the value the text after it |
| `UrlComponents.FirstValue` | YouTubePlayer/URLHelper.swift:23 | `first(where: { $0.name == "v" })?.value`: `FirstValueIff` states in both directions that it gives `v` exactly when the first item with the name has value `v`, and `FirstValueIgnoresLater` that later items do not matter |
| `Trimming.TrimLocation` | YouTubePlayer/URLHelper.swift:5 | the trimmed text is a slice of the input with only whitespace or newlines before it and after it |
| `Trimming.TrimPadded` | YouTubePlayer/URLHelper.swift:5 | whitespace added at either end of a string does not change its trimmed form |
| `Trimming.TrimIdempotent` | YouTubePlayer/URLHelper.swift:5 | trimming twice is trimming once |
| `UrlHelper.ExtractIgnoresPadding` | YouTubePlayer/URLHelper.swift:4-5 | whitespace or newlines added at either end of the input do not change the result |
| `UriSoundness.ParseSound` | YouTubePlayer/URLHelper.swift:7-9 | what the parser accepts is a well-formed URL that recomposes to exactly its input |
| `UriCompleteness.ParseRecompose` | YouTubePlayer/URLHelper.swift:7-9 | every well-formed URL is parsed back from its recomposed text |
| `UriCompleteness.ParseIff` | YouTubePlayer/URLHelper.swift:7-9 | the parser returns `u` for `s` exactly when `u` is well formed and recomposes to `s` |
| `UrlHelper.ForeignCharacterNoId` | YouTubePlayer/URLHelper.swift:5-9 | a character outside URI syntax in the trimmed input makes parsing fail, so there is no ID |
| `UrlHelper.NotAUrl` | YouTubePlayer/URLHelper.swift:7-9 | "not a url" gives no ID |
| `UrlHelper.ExtractOfRecompose` | YouTubePlayer/URLHelper.swift:4-11 | the text of a well-formed URL resolves by that URL's host, path and query |
| `UrlHelper.NoHostNoId` | YouTubePlayer/URLHelper.swift:11-28 | a URL without a host reads as host "", which matches neither marker, so there is no ID |
| `UrlHelper.HostCaseInsensitive` | YouTubePlayer/URLHelper.swift:11 | changing the letter case of the host keeps the URL well formed and does not change the result |
| `UrlHelper.ExtractedIdIsVerbatim` | YouTubePlayer/URLHelper.swift:11-24 | a returned ID occurs in the input exactly as returned: only the host is lowercased, and the model decodes no percent-escapes (Foundation does, see "## Left out") |
| `UrlHelper.ShortLinkLastSegment` | YouTubePlayer/URLHelper.swift:14-17 | on a host containing "youtu.be" (whether or not it also contains "youtube.com") the ID is the path's last segment, whatever the query holds |
| `UrlHelper.ShortLinkNoSegment` | YouTubePlayer/URLHelper.swift:14-17 | on a short-link host a path without segments gives no ID when empty and "/" when it is only slashes |
| `UrlComponents.LastComponentIsLastSegment` | YouTubePlayer/URLHelper.swift:15 | the last path component is the last run of non-'/' characters, trailing slashes ignored |
| `UrlComponents.LastComponentOfSlashes` | YouTubePlayer/URLHelper.swift:15 | a path made only of slashes has no last component when empty and "/" otherwise |
| `WatchUrls.ShortLinkRoundTrip` | YouTubePlayer/URLHelper.swift:14-17 | `https://<host>/<id>` with any query gives back every non-empty ID over letters, digits, '_' and '-', under every host whose lowercase form contains "youtu.be" |
| `WatchUrls.ShortLinkExample` | YouTubePlayer/URLHelper.swift:14-17 | "https://youtu.be/dQw4w9WgXcQ", with the host in any letter case, gives "dQw4w9WgXcQ" |
| `WatchUrls.BareShortLink` | YouTubePlayer/URLHelper.swift:14-17 | "https://youtu.be" gives no ID and "https://youtu.be/" gives "/", with the host in any letter case |
| `UrlHelper.WatchPageFirstV` | YouTubePlayer/URLHelper.swift:20-25 | on a watch-page host the ID is `v` exactly when there is a query whose first item named "v" (case-sensitively) has the value `v` |
| `UrlHelper.WatchPageNoId` | YouTubePlayer/URLHelper.swift:20-28 | on a watch-page host there is no ID exactly when there is no query, no item named "v", or the first one has no '=' |
| `UrlComponents.FirstValueIff` | YouTubePlayer/URLHelper.swift:23 | the search gives `v` exactly when the first item with the name has the value `v` |
| `UrlComponents.FirstValueIgnoresLater` | YouTubePlayer/URLHelper.swift:23 | items after the first one with the name do not matter |
| `UrlComponents.QueryItemRoundTrip` | YouTubePlayer/URLHelper.swift:22 | the text of an item whose name has no '=' parses back to that item |
| `UrlComponents.QueryItemTextOfParse` | YouTubePlayer/URLHelper.swift:22 | a parsed item's text is the text it was parsed from |
| `WatchUrls.WatchPageRoundTrip` | YouTubePlayer/URLHelper.swift:20-25 | under every host containing "youtube.com" but not "youtu.be" (in any case), any path, and a first item `v=<id>`, the ID comes back unchanged whatever follows it, later `v` items included; the ID may be empty |
| `WatchUrls.WatchPageExample` | YouTubePlayer/URLHelper.swift:20-25 | "https://www.youtube.com/watch?v=dQw4w9WgXcQ&t=30s", with the host in any letter case, gives "dQw4w9WgXcQ" |
| `UrlHelper.NeitherMarkerNoId` | YouTubePlayer/URLHelper.swift:20-28 | a host matching neither marker gives no ID |
| `WatchUrls.OtherHostExample` | YouTubePlayer/URLHelper.swift:20-28 | "https://example.com/video", with the host in any letter case, gives no ID |
| `UrlHelper.MakeWatchUrl` | YouTubePlayer/URLHelper.swift:31-33 | the watch URL is the fixed prefix "https://www.youtube.com/watch?v=" followed by the ID, unescaped |
| `UrlHelper.MakeWatchUrlInjective` | YouTubePlayer/URLHelper.swift:31-33 | distinct IDs give distinct watch URLs |
| `WatchUrls.MakeWatchUrlRoundTrip` | YouTubePlayer/URLHelper.swift:31-33 | resolving the watch URL gives its ID back, for every ID that is URI text without '&' or '#' |
| `WatchUrls.MakeWatchUrlFirstVWins` | YouTubePlayer/URLHelper.swift:20-33 | further query items after the watch URL, later `v` items included, do not change the ID |

## Left out

- The app's user interface is not modelled: ContentView.swift, YouTubePlayerApp.swift and WebView.swift. It is web-view, window and menu glue that forwards the resolver's result asynchronously.
- Foundation's URL parser is replaced by the RFC 3986 model. It differs in these ways:
  - It rejects every character outside the URI repertoire, where newer Foundation releases percent-encode some of them.
  - It refuses the brackets `[` and `]` in every component, not only in hosts. So it has no IP-literal hosts, and a query such as `v=a&x=[1]` makes the whole URL fail to parse.
  - It does not admit internationalised (IDNA) host names.
  - It accepts the empty string as a URL with no host, where Foundation returns `nil`. Both give no ID.
- UrlComponents.Host: the host is not percent-decoded before the markers are looked for. Foundation's `url.host` returns the decoded host, so `https://youtu%2Ebe/abc` gives `"abc"` there (the host reads `youtu.be`) and no ID here, and `https://www.youtube%2Ecom/watch?v=x` gives `"x"` there and no ID here.
- UrlComponents.QueryItems: query names and values are not percent-decoded. `URLComponents.queryItems` decodes them, so `watch?v=a%2Db` gives `"a-b"` there and `"a%2Db"` here, and an item named `%76` is the `v` item there and not here.
- UrlComponents.PathComponents: the path is not percent-decoded. Foundation builds `url.pathComponents` from the decoded path, so `https://youtu.be/a%20b` gives `"a b"` there and `"a%20b"` here, and `https://youtu.be/abc%2Fdef` gives `"def"` there (the decoded `/` splits the segment) and `"abc%2Fdef"` here.
- `URLComponents(url:resolvingAgainstBaseURL:)` returning `nil` for a URL that `URL(string:)` accepted is not modelled. The model always yields components.
- UrlHelper.LoweredHost: `Lower` lowercases ASCII letters only. The host it sees is ASCII here, because the parser admits ASCII text only and decodes no escapes. Foundation's decoded host can hold non-ASCII characters (from an escape such as `%C3%89`), and their case folding by `lowercased()` is not modelled.
- Trimming works on Unicode scalars, not Swift's grapheme clusters. The whitespace-and-newlines set is written out as a fixed list of scalars.
- WatchUrls.ShortLinkRoundTrip: states the round trip for IDs over letters, digits, '_' and '-'. Other non-empty IDs that are URI text without '/', '?' or '#' also work, but are not stated.
- WatchUrls.MakeWatchUrlRoundTrip: requires an ID that can sit in a query unescaped. It is URI text without '&' or '#'. Other IDs make `makeWatchURL` build a URL the parser rejects or splits differently, because the source does not escape the ID.
