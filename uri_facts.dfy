/**
 * Consequences of the round trip: where a component's text sits in the
 * recomposed string, and the case-insensitivity of the host.
 */
module UriFacts {
  import opened Text
  import opened Uri

  // Where the components sit in the text.

  /** Whatever occurs in the path occurs in the URL's text. */
  lemma OccursInPath(x: string, u: Url, p: nat) returns (k: nat)
    requires OccursAt(x, u.path, p)
    ensures OccursAt(x, Recompose(u), k)
  {
    var r := Recompose(u);
    var at := |HierText(u)| - |u.path|;
    assert r[at..at + |u.path|] == HierText(u)[at..];
    OccursWithin(x, u.path, r, p, at);
    k := at + p;
  }

  /** Whatever occurs in the query occurs in the URL's text. */
  lemma OccursInQuery(x: string, u: Url, q: nat) returns (k: nat)
    requires u.query.Some? && OccursAt(x, u.query.value, q)
    ensures OccursAt(x, Recompose(u), k)
  {
    var r := Recompose(u);
    var at := |HierText(u)| + 1;
    assert r == HierText(u) + ("?" + u.query.value) + FragmentPart(u.fragment);
    assert r[at..at + |u.query.value|] == u.query.value;
    OccursWithin(x, u.query.value, r, q, at);
    k := at + q;
  }

  // The host is case-insensitive (RFC 3986 section 3.2.2).

  lemma CaseVariantChar(x: char, y: char)
    requires LowerChar(x) == LowerChar(y)
    ensures x == y || (IsAlpha(x) && IsAlpha(y))
    ensures IsHexDigit(x) ==> IsHexDigit(y)
  {
  }

  lemma {:induction false} CaseVariantUriText(a: string, b: string)
    requires IsUriText(a) && SameUpToCase(a, b)
    ensures IsUriText(b)
    decreases |a|
  {
    if a != [] {
      CaseVariantChar(a[0], b[0]);
      if a[0] == '%' {
        CaseVariantChar(a[1], b[1]);
        CaseVariantChar(a[2], b[2]);
        assert forall i :: 0 <= i < |a| - 3 ==> a[3..][i] == a[i + 3] && b[3..][i] == b[i + 3];
        CaseVariantUriText(a[3..], b[3..]);
      } else {
        assert forall i :: 0 <= i < |a| - 1 ==> a[1..][i] == a[i + 1] && b[1..][i] == b[i + 1];
        CaseVariantUriText(a[1..], b[1..]);
      }
    }
  }

  lemma CaseVariantLacks(a: string, b: string, c: char)
    requires SameUpToCase(a, b) && !IsAlpha(c) && c !in a
    ensures c !in b
  {
    if c in b {
      var i :| 0 <= i < |b| && b[i] == c;
      CaseVariantChar(b[i], a[i]);
    }
  }

  /** Changing the letter case of a well-formed host keeps the authority well formed. */
  lemma HostCaseVariant(a: Authority, host: string)
    requires WellFormedAuthority(a) && SameUpToCase(a.host, host)
    ensures WellFormedAuthority(a.(host := host))
  {
    CaseVariantUriText(a.host, host);
    CaseVariantLacks(a.host, host, '@');
    CaseVariantLacks(a.host, host, ':');
    CaseVariantLacks(a.host, host, '/');
    CaseVariantLacks(a.host, host, '?');
    CaseVariantLacks(a.host, host, '#');
  }
}
