/**
 * `String.trimmingCharacters(in: .whitespacesAndNewlines)`: removes the
 * members of Foundation's whitespace-and-newline set from both ends.
 */
module Trimming {
  import opened Text

  /**
   * Foundation's `.whitespacesAndNewlines`: horizontal tab, U+000A to U+000D,
   * U+0085, and the Unicode separator categories Zs, Zl and Zp.
   */
  predicate IsWhitespaceOrNewline(c: char)
  {
    || c == '\t' || '\n' <= c <= '\r' || c == '\U{0085}'
    || c == ' ' || c == '\U{00A0}' || c == '\U{1680}' || '\U{2000}' <= c <= '\U{200A}'
    || c == '\U{202F}' || c == '\U{205F}' || c == '\U{3000}'
    || c == '\U{2028}' || c == '\U{2029}'
  }

  predicate AllWhitespace(s: string)
  {
    forall i :: 0 <= i < |s| ==> IsWhitespaceOrNewline(s[i])
  }

  /** Neither the first nor the last character is whitespace. */
  predicate Trimmed(s: string)
  {
    s == [] || (!IsWhitespaceOrNewline(s[0]) && !IsWhitespaceOrNewline(s[|s| - 1]))
  }

  /** Drops the leading whitespace: what is left does not start with whitespace. */
  function TrimStart(s: string): (r: string)
    ensures |r| <= |s|
    ensures r == [] || !IsWhitespaceOrNewline(r[0])
  {
    if s != [] && IsWhitespaceOrNewline(s[0]) then TrimStart(s[1..]) else s
  }

  /** Drops the trailing whitespace: what is left does not end with whitespace. */
  function TrimEnd(s: string): (r: string)
    ensures |r| <= |s|
    ensures r == [] || !IsWhitespaceOrNewline(r[|r| - 1])
  {
    if s != [] && IsWhitespaceOrNewline(s[|s| - 1]) then TrimEnd(s[..|s| - 1]) else s
  }

  /** What TrimStart drops is a whitespace prefix: the result is the rest of `s`. */
  lemma {:induction false} TrimStartSplit(s: string)
    ensures s[|s| - |TrimStart(s)|..] == TrimStart(s)
    ensures AllWhitespace(s[..|s| - |TrimStart(s)|])
    decreases |s|
  {
    if s != [] && IsWhitespaceOrNewline(s[0]) {
      var t := s[1..];
      TrimStartSplit(t);
      var k := |t| - |TrimStart(t)|;
      assert s[k + 1..] == t[k..];
      assert s[..k + 1] == [s[0]] + t[..k];
    } else {
      assert s[..0] == [];
    }
  }

  /** What TrimEnd drops is a whitespace suffix: the result is the start of `s`. */
  lemma {:induction false} TrimEndSplit(s: string)
    ensures s[..|TrimEnd(s)|] == TrimEnd(s)
    ensures AllWhitespace(s[|TrimEnd(s)|..])
    decreases |s|
  {
    if s != [] && IsWhitespaceOrNewline(s[|s| - 1]) {
      var t := s[..|s| - 1];
      TrimEndSplit(t);
      var k := |TrimEnd(t)|;
      assert s[..k] == t[..k];
      assert s[k..] == t[k..] + [s[|s| - 1]];
    } else {
      assert s[|s|..] == [];
    }
  }

  /**
   * Both ends trimmed. The result is empty exactly when `s` is all
   * whitespace; TrimLocation places it inside `s`.
   */
  function Trim(s: string): (r: string)
    ensures Trimmed(r)
    ensures |r| <= |s|
    ensures AllWhitespace(s) <==> r == []
  {
    var t := TrimStart(s);
    TrimStartSplit(s);
    TrimEndSplit(t);
    assert t != [] ==> !AllWhitespace(s) by {
      if t != [] { assert s[|s| - |t|] == t[0]; }
    }
    assert t == [] ==> TrimEnd(t) == [];
    TrimEnd(t)
  }

  /** The trimmed text sits inside `s` at offset `k`, with only whitespace around it. */
  lemma TrimLocation(s: string) returns (k: nat)
    ensures k + |Trim(s)| <= |s| && s[k..k + |Trim(s)|] == Trim(s)
    ensures AllWhitespace(s[..k]) && AllWhitespace(s[k + |Trim(s)|..])
  {
    var t := TrimStart(s);
    var r := TrimEnd(t);
    TrimStartSplit(s);
    TrimEndSplit(t);
    assert Trim(s) == r;
    k := |s| - |t|;
    assert s[k..k + |r|] == t[..|r|] && s[k + |r|..] == t[|r|..];
    assert AllWhitespace(s[..k]) && AllWhitespace(t[|r|..]);
  }

  /** Whatever occurs in the trimmed text occurs, further along, in the untrimmed text. */
  lemma OccursThroughTrim(x: string, s: string, j: nat) returns (k: nat)
    requires OccursAt(x, Trim(s), j)
    ensures OccursAt(x, s, k)
  {
    var at := TrimLocation(s);
    OccursWithin(x, Trim(s), s, j, at);
    k := at + j;
  }

  /** Leading whitespace never reaches the result of TrimStart. */
  lemma {:induction false} TrimStartPadded(w: string, s: string)
    requires AllWhitespace(w)
    ensures TrimStart(w + s) == TrimStart(s)
    decreases |w|
  {
    if w != [] {
      assert (w + s)[0] == w[0];
      assert (w + s)[1..] == w[1..] + s;
      assert AllWhitespace(w[1..]);
      TrimStartPadded(w[1..], s);
    } else {
      assert w + s == s;
    }
  }

  /** Trailing whitespace never reaches the result of TrimEnd. */
  lemma {:induction false} TrimEndPadded(s: string, w: string)
    requires AllWhitespace(w)
    ensures TrimEnd(s + w) == TrimEnd(s)
    decreases |w|
  {
    if w != [] {
      var v := w[..|w| - 1];
      assert (s + w)[|s + w| - 1] == w[|w| - 1];
      assert (s + w)[..|s + w| - 1] == s + v;
      assert AllWhitespace(v);
      TrimEndPadded(s, v);
    } else {
      assert s + w == s;
    }
  }

  /** Text appended to `s` stays in TrimStart's result unless `s` is all whitespace. */
  lemma {:induction false} TrimStartAppend(s: string, t: string)
    ensures TrimStart(s + t) == if TrimStart(s) == [] then TrimStart(t) else TrimStart(s) + t
    decreases |s|
  {
    if s == [] {
      assert s + t == t;
    } else if IsWhitespaceOrNewline(s[0]) {
      assert (s + t)[1..] == s[1..] + t;
      TrimStartAppend(s[1..], t);
    }
  }

  /** Whitespace added at either end does not change the trimmed result. */
  lemma TrimPadded(lead: string, s: string, trail: string)
    requires AllWhitespace(lead) && AllWhitespace(trail)
    ensures Trim(lead + s + trail) == Trim(s)
  {
    assert lead + s + trail == lead + (s + trail);
    TrimStartPadded(lead, s + trail);
    TrimStartAppend(s, trail);
    if TrimStart(s) == [] {
      TrimStartPadded(trail, []);
      assert trail + [] == trail;
    } else {
      TrimEndPadded(TrimStart(s), trail);
    }
  }

  /** Text with no whitespace at either end is left unchanged. */
  lemma TrimOfTrimmed(s: string)
    requires Trimmed(s)
    ensures Trim(s) == s
  {
  }

  /** Trimming twice is trimming once. */
  lemma TrimIdempotent(s: string)
    ensures Trim(Trim(s)) == Trim(s)
  {
    TrimOfTrimmed(Trim(s));
  }
}
