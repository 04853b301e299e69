/**
 * `Parse` misses nothing: every well-formed URL is read back from its
 * recomposition, which with soundness makes `Parse` and `Recompose` inverse.
 */
module UriCompleteness {
  import opened Wrappers
  import opened Text
  import opened Uri
  import opened UriSoundness

  /** Text of URI characters without '%' is URI text. */
  lemma {:induction false} PlainUriText(s: string)
    requires forall i :: 0 <= i < |s| ==> IsUriChar(s[i]) && s[i] != '%'
    ensures IsUriText(s)
    decreases |s|
  {
    if s != [] {
      PlainUriText(s[1..]);
    }
  }

  lemma DelimitersAreUriText()
    ensures IsUriText(":") && IsUriText("@") && IsUriText("//") && IsUriText("?") && IsUriText("#")
  {
  }

  lemma PortIsUriText(port: string)
    requires IsPort(port)
    ensures IsUriText(port) && '/' !in port && '?' !in port && '#' !in port && '@' !in port
  {
    PlainUriText(port);
  }

  lemma AuthorityTextFacts(a: Authority)
    requires WellFormedAuthority(a)
    ensures IsUriText(AuthorityText(a))
    ensures '/' !in AuthorityText(a) && '?' !in AuthorityText(a) && '#' !in AuthorityText(a)
  {
    var userinfoPart := if a.userinfo.Some? then a.userinfo.value + "@" else "";
    var portPart := if a.port.Some? then ":" + a.port.value else "";
    DelimitersAreUriText();
    assert IsUriText(userinfoPart) by {
      if a.userinfo.Some? { UriTextConcat(a.userinfo.value, "@"); }
    }
    assert IsUriText(portPart) by {
      if a.port.Some? {
        PortIsUriText(a.port.value);
        UriTextConcat(":", a.port.value);
      }
    }
    UriTextConcat(userinfoPart, a.host);
    UriTextConcat(userinfoPart + a.host, portPart);
    assert '/' !in userinfoPart && '?' !in userinfoPart && '#' !in userinfoPart;
    assert '/' !in portPart && '?' !in portPart && '#' !in portPart by {
      if a.port.Some? { PortIsUriText(a.port.value); }
    }
  }

  function HostPortText(a: Authority): string
  {
    a.host + (if a.port.Some? then ":" + a.port.value else "")
  }

  /** The first ':' after the host starts the port. */
  lemma HostPortCut(a: Authority)
    requires WellFormedAuthority(a)
    ensures SplitFirst(HostPortText(a), ':') == (a.host, a.port) && '@' !in HostPortText(a)
  {
    var hostPort := HostPortText(a);
    if a.port.Some? {
      PortIsUriText(a.port.value);
      ConcatAssoc(a.host, ":", a.port.value);
      SplitFirstAt(a.host, ':', a.port.value);
    } else {
      assert hostPort == a.host;
    }
  }

  lemma ParseAuthorityOfText(a: Authority)
    requires WellFormedAuthority(a)
    ensures ParseAuthority(AuthorityText(a)) == Some(a)
  {
    var portPart := if a.port.Some? then ":" + a.port.value else "";
    HostPortCut(a);
    // The first '@' ends the userinfo.
    if a.userinfo.Some? {
      ConcatAssoc(a.userinfo.value + "@", a.host, portPart);
      SplitFirstAt(a.userinfo.value, '@', HostPortText(a));
    } else {
      ConcatAssoc("", a.host, portPart);
      assert AuthorityText(a) == HostPortText(a);
    }
  }

  lemma ParseAuthorityAndPathOfText(authority: Option<Authority>, path: string)
    requires authority.Some? ==> WellFormedAuthority(authority.value)
    requires WellFormedPath(authority, path)
    ensures ParseAuthorityAndPath(AuthorityPart(authority) + path) == Some((authority, path))
  {
    var rest := AuthorityPart(authority) + path;
    if authority.Some? {
      var text := AuthorityText(authority.value);
      AuthorityTextFacts(authority.value);
      ParseAuthorityOfText(authority.value);
      ConcatAssoc("//", text, path);
      var a := text + path;
      assert rest[2..] == a;
      FindSkipsPrefix(text, path, '/');
      assert Find(a, '/') == |text|;
      assert a[..|text|] == text && a[|text|..] == path;
    } else {
      assert rest == path;
    }
  }

  lemma SchemePartFacts(scheme: string)
    requires IsScheme(scheme)
    ensures IsUriText(scheme + ":") && '?' !in scheme + ":" && '#' !in scheme + ":"
    ensures ':' !in scheme && '/' !in scheme
  {
    PlainUriText(scheme);
    DelimitersAreUriText();
    UriTextConcat(scheme, ":");
  }

  lemma HierTextFacts(u: Url)
    requires WellFormed(u)
    ensures IsUriText(HierText(u)) && '?' !in HierText(u) && '#' !in HierText(u)
  {
    var schemePart := if u.scheme.Some? then u.scheme.value + ":" else "";
    var authorityPart := AuthorityPart(u.authority);
    DelimitersAreUriText();
    if u.scheme.Some? {
      SchemePartFacts(u.scheme.value);
    }
    assert IsUriText(authorityPart) && '?' !in authorityPart && '#' !in authorityPart by {
      if u.authority.Some? {
        AuthorityTextFacts(u.authority.value);
        UriTextConcat("//", AuthorityText(u.authority.value));
        assert '?' !in "//" && '#' !in "//";
      }
    }
    UriTextConcat(schemePart, authorityPart);
    UriTextConcat(schemePart + authorityPart, u.path);
  }

  /** A scheme followed by ':' is read as the scheme, whatever follows. */
  lemma SchemeDelimited(scheme: string, rest: string)
    requires IsScheme(scheme)
    ensures var h := scheme + [':'] + rest;
      HasSchemeDelimiter(h) && Find(h, ':') == |scheme| && h[..|scheme|] == scheme && h[|scheme| + 1..] == rest
  {
    var h := scheme + [':'] + rest;
    SchemePartFacts(scheme);
    ConcatAssoc(scheme, [':'], rest);
    FindSkipsPrefix(scheme, [':'] + rest, ':');
    FindSkipsPrefix(scheme + [':'], rest, '/');
  }

  lemma ParseHierPartOfSchemeText(u: Url)
    requires WellFormed(u) && u.scheme.Some?
    ensures ParseHierPart(HierText(u)) == Some(u.(query := None, fragment := None))
  {
    var scheme := u.scheme.value;
    var rest := AuthorityPart(u.authority) + u.path;
    ParseAuthorityAndPathOfText(u.authority, u.path);
    ConcatAssoc(scheme + ":", AuthorityPart(u.authority), u.path);
    assert HierText(u) == scheme + [':'] + rest;
    SchemeDelimited(scheme, rest);
  }

  /** Without a scheme the text starts with "//" or is a path with no ':' before its first '/'. */
  lemma ParseHierPartOfRelativeText(u: Url)
    requires WellFormed(u) && u.scheme.None?
    ensures ParseHierPart(HierText(u)) == Some(u.(query := None, fragment := None))
  {
    var h := HierText(u);
    assert h == AuthorityPart(u.authority) + u.path;
    assert !HasSchemeDelimiter(h) by {
      if u.authority.Some? {
        assert h[0] == '/';
        assert Find(h, '/') == 0;
      } else {
        assert h == u.path;
      }
    }
    ParseAuthorityAndPathOfText(u.authority, u.path);
  }

  lemma ParseHierPartOfText(u: Url)
    requires WellFormed(u)
    ensures ParseHierPart(HierText(u)) == Some(u.(query := None, fragment := None))
  {
    if u.scheme.Some? {
      ParseHierPartOfSchemeText(u);
    } else {
      ParseHierPartOfRelativeText(u);
    }
  }

  lemma RecomposeIsUriText(u: Url)
    requires WellFormed(u)
    ensures IsUriText(Recompose(u))
  {
    var h := HierText(u);
    var queryPart, fragmentPart := QueryPart(u.query), FragmentPart(u.fragment);
    HierTextFacts(u);
    DelimitersAreUriText();
    if u.query.Some? {
      UriTextConcat("?", u.query.value);
    }
    if u.fragment.Some? {
      UriTextConcat("#", u.fragment.value);
    }
    UriTextConcat(h, queryPart);
    UriTextConcat(h + queryPart, fragmentPart);
  }

  /** Parse's cut at the first '#' falls where the fragment begins. */
  lemma RecomposeFragmentCut(u: Url)
    requires WellFormed(u)
    ensures SplitFirst(Recompose(u), '#') == (HierText(u) + QueryPart(u.query), u.fragment)
  {
    var h := HierText(u);
    var queryPart := QueryPart(u.query);
    HierTextFacts(u);
    assert '#' !in queryPart;
    if u.fragment.Some? {
      ConcatAssoc(h + queryPart, "#", u.fragment.value);
      SplitFirstAt(h + queryPart, '#', u.fragment.value);
    } else {
      assert Recompose(u) == h + queryPart;
    }
  }

  /** Parse's cut at the first '?' falls where the query begins. */
  lemma RecomposeQueryCut(u: Url)
    requires WellFormed(u)
    ensures SplitFirst(HierText(u) + QueryPart(u.query), '?') == (HierText(u), u.query)
  {
    var h := HierText(u);
    HierTextFacts(u);
    if u.query.Some? {
      ConcatAssoc(h, "?", u.query.value);
      SplitFirstAt(h, '?', u.query.value);
    } else {
      assert h + QueryPart(u.query) == h;
    }
  }

  /** Recomposing a well-formed URL and parsing the result gives the URL back. */
  lemma ParseRecompose(u: Url)
    requires WellFormed(u)
    ensures Parse(Recompose(u)) == Some(u)
  {
    RecomposeIsUriText(u);
    RecomposeFragmentCut(u);
    RecomposeQueryCut(u);
    ParseHierPartOfText(u);
  }

  /** Parse and Recompose are inverse: Parse accepts `s` as `u` exactly when `u` is well formed and recomposes to `s`. */
  lemma ParseIff(s: string, u: Url)
    ensures Parse(s) == Some(u) <==> WellFormed(u) && Recompose(u) == s
  {
    ParseSound(s);
    if WellFormed(u) && Recompose(u) == s {
      ParseRecompose(u);
    }
  }
}
