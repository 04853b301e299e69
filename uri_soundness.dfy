/**
 * `Parse` loses nothing: every URL it returns is well formed and recomposes
 * to the text it was read from.
 */
module UriSoundness {
  import opened Wrappers
  import opened Text
  import opened Uri

  /** Recomposing an authority from its parts. */
  lemma AuthorityTextOf(userinfo: Option<string>, host: string, port: Option<string>, hostPort: string, a: string)
    requires port.Some? ==> hostPort == host + [':'] + port.value
    requires port.None? ==> hostPort == host
    requires userinfo.Some? ==> a == userinfo.value + ['@'] + hostPort
    requires userinfo.None? ==> a == hostPort
    ensures AuthorityText(Authority(userinfo, host, port)) == a
  {
    if port.Some? {
      assert host + (":" + port.value) == host + [':'] + port.value;
    } else {
      assert host + "" == host;
    }
    if userinfo.None? {
      assert "" + hostPort == hostPort;
    }
  }

  /** The cuts ParseAuthority makes: userinfo before the first '@', then host and port at the first ':'. */
  lemma AuthorityCuts(a: string) returns (userinfo: Option<string>, hostPort: string, host: string, port: Option<string>)
    ensures userinfo.Some? ==> a == userinfo.value + ['@'] + hostPort && '@' !in userinfo.value
    ensures userinfo.None? ==> a == hostPort
    ensures port.Some? ==> hostPort == host + [':'] + port.value
    ensures port.None? ==> hostPort == host
    ensures ':' !in host
    ensures ParseAuthority(a) ==
      if '@' in hostPort || (port.Some? && !IsPort(port.value)) then None
      else Some(Authority(userinfo, host, port))
  {
    var split := SplitFirst(a, '@');
    userinfo := if split.1.Some? then Some(split.0) else None;
    hostPort := if split.1.Some? then split.1.value else split.0;
    host, port := SplitFirst(hostPort, ':').0, SplitFirst(hostPort, ':').1;
  }

  lemma ParseAuthorityText(a: string)
    ensures ParseAuthority(a).Some? ==> AuthorityText(ParseAuthority(a).value) == a
  {
    var userinfo, hostPort, host, port := AuthorityCuts(a);
    if ParseAuthority(a).Some? {
      AuthorityTextOf(userinfo, host, port, hostPort, a);
    }
  }

  lemma ParseAuthorityDelimiters(a: string)
    requires '/' !in a && '?' !in a && '#' !in a
    ensures ParseAuthority(a).Some? ==>
      var r := ParseAuthority(a).value;
      && (r.userinfo.Some? ==> '@' !in r.userinfo.value && '/' !in r.userinfo.value && '?' !in r.userinfo.value && '#' !in r.userinfo.value)
      && '@' !in r.host && ':' !in r.host && '/' !in r.host && '?' !in r.host && '#' !in r.host
      && (r.port.Some? ==> IsPort(r.port.value))
  {
    var userinfo, hostPort, host, port := AuthorityCuts(a);
  }

  lemma ParseAuthorityUriText(a: string)
    requires IsUriText(a)
    ensures ParseAuthority(a).Some? ==>
      var r := ParseAuthority(a).value;
      (r.userinfo.Some? ==> IsUriText(r.userinfo.value)) && IsUriText(r.host)
  {
    var userinfo, hostPort, host, port := AuthorityCuts(a);
    if userinfo.Some? {
      UriTextCut(userinfo.value, '@', hostPort);
    }
    if port.Some? {
      UriTextCut(host, ':', port.value);
    }
  }

  /** `r` is a well-formed authority whose text is `a`. */
  predicate AuthorityReadsBack(a: string, r: Authority)
  {
    WellFormedAuthority(r) && AuthorityText(r) == a
  }

  /** An authority ParseAuthority accepts is well formed and recomposes to its input. */
  lemma ParseAuthoritySound(a: string)
    requires IsUriText(a) && '/' !in a && '?' !in a && '#' !in a
    ensures ParseAuthority(a).Some? ==> AuthorityReadsBack(a, ParseAuthority(a).value)
  {
    ParseAuthorityText(a);
    ParseAuthorityDelimiters(a);
    ParseAuthorityUriText(a);
  }

  /** Cutting URI text before its first '/' leaves URI text on both sides, the second empty or starting with '/'. */
  lemma CutBeforeSlash(a: string) returns (x: string, y: string)
    requires IsUriText(a) && '?' !in a && '#' !in a
    ensures x == a[..Find(a, '/')] && y == a[Find(a, '/')..] && x + y == a
    ensures IsUriText(x) && '/' !in x && '?' !in x && '#' !in x
    ensures IsUriText(y) && '?' !in y && '#' !in y && (y == [] || y[0] == '/')
  {
    var j := Find(a, '/');
    x, y := a[..j], a[j..];
    SlicesLack(a, j, '?');
    SlicesLack(a, j, '#');
    UriTextBeforeSlash(a);
  }

  lemma UriTextBeforeSlash(a: string)
    requires IsUriText(a)
    ensures IsUriText(a[..Find(a, '/')]) && IsUriText(a[Find(a, '/')..])
  {
    var j := Find(a, '/');
    var x, y := a[..j], a[j..];
    if j < |a| {
      assert a == x + ['/'] + a[j + 1..];
      UriTextCut(x, '/', a[j + 1..]);
      assert y == "/" + a[j + 1..];
      UriTextConcat("/", a[j + 1..]);
    } else {
      assert x == a;
    }
  }

  /** What follows a leading "//" is URI text. */
  lemma AfterDoubleSlash(rest: string) returns (a: string)
    requires IsUriText(rest) && '?' !in rest && '#' !in rest
    requires |rest| >= 2 && rest[0] == '/' && rest[1] == '/'
    ensures a == rest[2..] && rest == "//" + a
    ensures IsUriText(a) && '?' !in a && '#' !in a
  {
    a := rest[2..];
    assert rest == ['/'] + ['/'] + a;
    UriTextCut(['/'], '/', a);
  }

  /** After "//": the authority runs up to the first '/', and the path is the rest. */
  lemma AuthorityThenPath(rest: string) returns (x: string, y: string)
    requires IsUriText(rest) && '?' !in rest && '#' !in rest
    requires |rest| >= 2 && rest[0] == '/' && rest[1] == '/'
    ensures rest == "//" + (x + y)
    ensures IsUriText(x) && '/' !in x && '?' !in x && '#' !in x
    ensures IsUriText(y) && '?' !in y && '#' !in y && (y == [] || y[0] == '/')
    ensures ParseAuthorityAndPath(rest) == if ParseAuthority(x).Some? then Some((Some(ParseAuthority(x).value), y)) else None
  {
    var a := AfterDoubleSlash(rest);
    x, y := CutBeforeSlash(a);
  }

  /** An optional well-formed authority and a path that may follow it, together spelling `rest`. */
  predicate AuthorityAndPathReadBack(rest: string, authority: Option<Authority>, path: string)
  {
    && (authority.Some? ==> WellFormedAuthority(authority.value))
    && WellFormedPath(authority, path)
    && AuthorityPart(authority) + path == rest
  }

  lemma ParseAuthorityAndPathSound(rest: string)
    requires IsUriText(rest) && '?' !in rest && '#' !in rest
    ensures ParseAuthorityAndPath(rest).Some? ==>
      AuthorityAndPathReadBack(rest, ParseAuthorityAndPath(rest).value.0, ParseAuthorityAndPath(rest).value.1)
  {
    if |rest| >= 2 && rest[0] == '/' && rest[1] == '/' {
      var x, y := AuthorityThenPath(rest);
      ParseAuthoritySound(x);
      if ParseAuthority(x).Some? {
        var authority := ParseAuthority(x).value;
        assert AuthorityText(authority) == x && WellFormedAuthority(authority);
        assert AuthorityPart(Some(authority)) == "//" + x;
        ConcatAssoc("//", x, y);
        assert AuthorityAndPathReadBack(rest, Some(authority), y);
      }
    } else {
      assert "" + rest == rest;
      assert AuthorityAndPathReadBack(rest, None, rest);
    }
  }

  /** `u` is a well-formed URL without query or fragment whose text before any '?' is `h`. */
  predicate HierReadsBack(h: string, u: Url)
  {
    WellFormed(u) && u.query.None? && u.fragment.None? && HierText(u) == h
  }

  lemma ParseHierPartSound(h: string)
    requires IsUriText(h) && '?' !in h && '#' !in h
    ensures ParseHierPart(h).Some? ==> HierReadsBack(h, ParseHierPart(h).value)
  {
    var k := Find(h, ':');
    if HasSchemeDelimiter(h) {
      var scheme, rest := h[..k], h[k + 1..];
      assert SplitFirst(h, ':') == (scheme, Some(rest));
      SplitFirstText(h, ':');
      ParseAuthorityAndPathSound(rest);
      if IsScheme(scheme) && ParseAuthorityAndPath(rest).Some? {
        var (authority, path) := ParseAuthorityAndPath(rest).value;
        assert AuthorityAndPathReadBack(rest, authority, path);
        var u := Url(Some(scheme), authority, path, None, None);
        assert ParseHierPart(h) == Some(u);
        assert HierText(u) == h by {
          ConcatAssoc(scheme + ":", AuthorityPart(authority), path);
        }
        assert HierReadsBack(h, u);
      }
    } else {
      ParseAuthorityAndPathSound(h);
      if ParseAuthorityAndPath(h).Some? {
        var (authority, path) := ParseAuthorityAndPath(h).value;
        assert AuthorityAndPathReadBack(h, authority, path);
        var u := Url(None, authority, path, None, None);
        assert ParseHierPart(h) == Some(u);
        assert HierText(u) == h by {
          assert "" + AuthorityPart(authority) == AuthorityPart(authority);
        }
        assert HierReadsBack(h, u);
      }
    }
  }

  /** Rejoining a split at `c`, with `c` restored when the second part is present. */
  lemma RejoinAt(s: string, c: char)
    ensures var (before, after) := SplitFirst(s, c);
      s == before + (if after.Some? then [c] + after.value else "")
  {
    var (before, after) := SplitFirst(s, c);
    if after.Some? {
      ConcatAssoc(before, [c], after.value);
    } else {
      assert before + "" == before;
    }
  }

  /** Parse cuts URI text into the part before any '?', the query and the fragment. */
  lemma ParseCuts(s: string) returns (hier: string, query: Option<string>, fragment: Option<string>)
    requires IsUriText(s)
    ensures IsUriText(hier) && '?' !in hier && '#' !in hier
    ensures query.Some? ==> IsUriText(query.value) && '#' !in query.value
    ensures fragment.Some? ==> IsUriText(fragment.value)
    ensures s == hier + QueryPart(query) + FragmentPart(fragment)
    ensures Parse(s) ==
      if (fragment.Some? && '#' in fragment.value) || ParseHierPart(hier).None? then None
      else Some(ParseHierPart(hier).value.(query := query, fragment := fragment))
  {
    var beforeFragment: string;
    beforeFragment, fragment := SplitFirst(s, '#').0, SplitFirst(s, '#').1;
    SplitFirstText(s, '#');
    RejoinAt(s, '#');
    hier, query := SplitFirst(beforeFragment, '?').0, SplitFirst(beforeFragment, '?').1;
    SplitFirstText(beforeFragment, '?');
    RejoinAt(beforeFragment, '?');
  }

  /** `u` is a well-formed URL whose text is `s`. */
  predicate ReadsBack(s: string, u: Url)
  {
    WellFormed(u) && Recompose(u) == s
  }

  /** What Parse returns is well formed and recomposes to exactly its input. */
  lemma ParseSound(s: string)
    ensures Parse(s).Some? ==> ReadsBack(s, Parse(s).value)
  {
    if IsUriText(s) {
      var hier, query, fragment := ParseCuts(s);
      ParseHierPartSound(hier);
    }
  }
}
