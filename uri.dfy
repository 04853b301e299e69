/**
 * The generic URI syntax of RFC 3986, standing in for Foundation's
 * `URL(string:)`. A string is either rejected (`None`, where Foundation
 * returns `nil`) or split into scheme, authority (user information, host,
 * port), path, query and fragment (RFC 3986 section 3). `Recompose` is the
 * component recomposition of RFC 3986 section 5.3; `UriSoundness` and
 * `UriCompleteness` prove the two inverse.
 */
module Uri {
  import opened Wrappers
  import opened Text

  // Character classes (RFC 3986 section 2). The brackets '[' and ']' are not admitted
  // anywhere, so IP-literal hosts and bracketed query text are rejected.

  predicate IsAlpha(c: char) { 'a' <= c <= 'z' || 'A' <= c <= 'Z' }

  predicate IsDigit(c: char) { '0' <= c <= '9' }

  predicate IsHexDigit(c: char) { IsDigit(c) || 'a' <= c <= 'f' || 'A' <= c <= 'F' }

  predicate IsUnreserved(c: char)
  {
    IsAlpha(c) || IsDigit(c) || c == '-' || c == '.' || c == '_' || c == '~'
  }

  predicate IsSubDelim(c: char)
  {
    || c == '!' || c == '$' || c == '&' || c == '\'' || c == '(' || c == ')'
    || c == '*' || c == '+' || c == ',' || c == ';' || c == '='
  }

  /** Unreserved characters, sub-delimiters, the general delimiters other than brackets, and '%'. */
  predicate IsUriChar(c: char)
  {
    IsUnreserved(c) || IsSubDelim(c) || c == ':' || c == '/' || c == '?' || c == '#' || c == '@' || c == '%'
  }

  /**
   * Only URI characters, and every '%' begins a percent-encoded octet,
   * pct-encoded = "%" HEXDIG HEXDIG (RFC 3986 section 2.1).
   */
  predicate IsUriText(s: string)
    decreases |s|
  {
    if s == [] then true
    else if !IsUriChar(s[0]) then false
    else if s[0] == '%' then |s| >= 3 && IsHexDigit(s[1]) && IsHexDigit(s[2]) && IsUriText(s[3..])
    else IsUriText(s[1..])
  }

  /** scheme = ALPHA *( ALPHA / DIGIT / "+" / "-" / "." ) (RFC 3986 section 3.1). */
  predicate IsScheme(s: string)
  {
    |s| >= 1 && IsAlpha(s[0]) && forall i :: 0 <= i < |s| ==> IsSchemeChar(s[i])
  }

  predicate IsSchemeChar(c: char)
  {
    IsAlpha(c) || IsDigit(c) || c == '+' || c == '-' || c == '.'
  }

  /** port = *DIGIT (RFC 3986 section 3.2.3). */
  predicate IsPort(s: string)
  {
    forall i :: 0 <= i < |s| ==> IsDigit(s[i])
  }

  lemma {:induction false} UriTextConcat(a: string, b: string)
    requires IsUriText(a) && IsUriText(b)
    ensures IsUriText(a + b)
    decreases |a|
  {
    if a == [] {
      assert a + b == b;
    } else if a[0] == '%' {
      assert (a + b)[3..] == a[3..] + b;
      UriTextConcat(a[3..], b);
    } else {
      assert (a + b)[1..] == a[1..] + b;
      UriTextConcat(a[1..], b);
    }
  }

  /** URI text is made of URI characters. */
  lemma {:induction false} UriTextChars(s: string)
    requires IsUriText(s)
    ensures forall i :: 0 <= i < |s| ==> IsUriChar(s[i])
    decreases |s|
  {
    if s != [] && s[0] == '%' {
      UriTextChars(s[3..]);
      assert forall i :: 3 <= i < |s| ==> s[i] == s[3..][i - 3];
    } else if s != [] {
      UriTextChars(s[1..]);
      assert forall i :: 1 <= i < |s| ==> s[i] == s[1..][i - 1];
    }
  }

  /** Cutting URI text at a character that is neither '%' nor a hex digit leaves URI text on both sides. */
  lemma {:induction false} UriTextCut(a: string, c: char, b: string)
    requires IsUriText(a + [c] + b) && c != '%' && !IsHexDigit(c)
    ensures IsUriText(a) && IsUriText(b)
    decreases |a|
  {
    var s := a + [c] + b;
    if a == [] {
      assert s[1..] == b;
    } else if a[0] == '%' {
      assert s[1] == a[1] && s[2] == a[2];
      assert s[3..] == a[3..] + [c] + b;
      UriTextCut(a[3..], c, b);
    } else {
      assert s[1..] == a[1..] + [c] + b;
      UriTextCut(a[1..], c, b);
    }
  }

  /** Both sides of a split at a delimiter are URI text. */
  lemma SplitFirstText(s: string, c: char)
    requires IsUriText(s) && c != '%' && !IsHexDigit(c)
    ensures IsUriText(SplitFirst(s, c).0)
    ensures SplitFirst(s, c).1.Some? ==> IsUriText(SplitFirst(s, c).1.value)
  {
    var (before, after) := SplitFirst(s, c);
    if after.Some? {
      UriTextCut(before, c, after.value);
    }
  }

  // Components (RFC 3986 section 3).

  datatype Authority = Authority(userinfo: Option<string>, host: string, port: Option<string>)

  datatype Url = Url(
    scheme: Option<string>,
    authority: Option<Authority>,
    path: string,
    query: Option<string>,
    fragment: Option<string>)

  /** userinfo without '@', a reg-name host without ':' or '@', and a numeric port. */
  predicate WellFormedAuthority(a: Authority)
  {
    && (a.userinfo.Some? ==>
          var ui := a.userinfo.value;
          IsUriText(ui) && '@' !in ui && '/' !in ui && '?' !in ui && '#' !in ui)
    && IsUriText(a.host)
    && '@' !in a.host && ':' !in a.host && '/' !in a.host && '?' !in a.host && '#' !in a.host
    && (a.port.Some? ==> IsPort(a.port.value))
  }

  /**
   * A path after an authority is empty or starts with '/'; without an
   * authority it cannot start with "//" (RFC 3986 section 3.3).
   */
  predicate WellFormedPath(authority: Option<Authority>, path: string)
  {
    && IsUriText(path) && '?' !in path && '#' !in path
    && (authority.Some? ==> path == [] || path[0] == '/')
    && (authority.None? ==> !(|path| >= 2 && path[0] == '/' && path[1] == '/'))
  }

  /** A ':' comes before any '/', so the text up to it reads as a scheme (RFC 3986 section 4.2). */
  predicate HasSchemeDelimiter(h: string)
  {
    Find(h, ':') < Find(h, '/')
  }

  /** The components a URI reference can have. */
  predicate WellFormed(u: Url)
  {
    && (u.scheme.Some? ==> IsScheme(u.scheme.value))
    && (u.authority.Some? ==> WellFormedAuthority(u.authority.value))
    && WellFormedPath(u.authority, u.path)
    && (u.scheme.None? && u.authority.None? ==> !HasSchemeDelimiter(u.path))
    && (u.query.Some? ==> IsUriText(u.query.value) && '#' !in u.query.value)
    && (u.fragment.Some? ==> IsUriText(u.fragment.value) && '#' !in u.fragment.value)
  }

  // Recomposition (RFC 3986 section 5.3).

  function AuthorityText(a: Authority): string
  {
    (if a.userinfo.Some? then a.userinfo.value + "@" else "")
    + a.host
    + (if a.port.Some? then ":" + a.port.value else "")
  }

  function AuthorityPart(authority: Option<Authority>): string
  {
    if authority.Some? then "//" + AuthorityText(authority.value) else ""
  }

  function HierText(u: Url): string
  {
    (if u.scheme.Some? then u.scheme.value + ":" else "") + AuthorityPart(u.authority) + u.path
  }

  function QueryPart(query: Option<string>): string
  {
    if query.Some? then "?" + query.value else ""
  }

  function FragmentPart(fragment: Option<string>): string
  {
    if fragment.Some? then "#" + fragment.value else ""
  }

  function Recompose(u: Url): string
  {
    HierText(u) + QueryPart(u.query) + FragmentPart(u.fragment)
  }

  // Parsing.

  /** Splits an authority into user information, host and port; a second '@' or a non-numeric port is rejected. */
  function ParseAuthority(a: string): Option<Authority>
  {
    var (before, after) := SplitFirst(a, '@');
    var userinfo := if after.Some? then Some(before) else None;
    var hostPort := if after.Some? then after.value else before;
    if '@' in hostPort then None
    else
      var (host, port) := SplitFirst(hostPort, ':');
      if port.Some? && !IsPort(port.value) then None
      else Some(Authority(userinfo, host, port))
  }

  /** After the scheme: "//" and an authority up to the next '/', then the path. */
  function ParseAuthorityAndPath(rest: string): Option<(Option<Authority>, string)>
  {
    if |rest| >= 2 && rest[0] == '/' && rest[1] == '/' then
      var a := rest[2..];
      var j := Find(a, '/');
      match ParseAuthority(a[..j])
      case None => None
      case Some(authority) => Some((Some(authority), a[j..]))
    else
      Some((None, rest))
  }

  /** The part before any '?' or '#': an optional scheme, then authority and path. */
  function ParseHierPart(h: string): Option<Url>
  {
    var k := Find(h, ':');
    if HasSchemeDelimiter(h) then
      if !IsScheme(h[..k]) then None
      else
        match ParseAuthorityAndPath(h[k + 1..])
        case None => None
        case Some((authority, path)) => Some(Url(Some(h[..k]), authority, path, None, None))
    else
      match ParseAuthorityAndPath(h)
      case None => None
      case Some((authority, path)) => Some(Url(None, authority, path, None, None))
  }

  /**
   * `URL(string:)`: rejects text outside the URI character repertoire, then
   * splits off the fragment at the first '#' and the query at the first '?'.
   */
  function Parse(s: string): Option<Url>
  {
    if !IsUriText(s) then None
    else
      var (beforeFragment, fragment) := SplitFirst(s, '#');
      if fragment.Some? && '#' in fragment.value then None
      else
        var (hier, query) := SplitFirst(beforeFragment, '?');
        match ParseHierPart(hier)
        case None => None
        case Some(u) => Some(u.(query := query, fragment := fragment))
  }
}
