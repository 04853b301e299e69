/**
 * Operations on character sequences that the URL model is built from:
 * searching for a character, splitting on a separator, substring tests
 * and ASCII lower-casing.
 */
module Text {
  import opened Wrappers

  /** Index of the first occurrence of `c` in `s`, or `|s|` when `c` does not occur. */
  function Find(s: string, c: char): (k: nat)
    ensures k <= |s|
    ensures forall j :: 0 <= j < k ==> s[j] != c
    ensures k < |s| ==> s[k] == c
  {
    if s == [] then 0
    else if s[0] == c then 0
    else 1 + Find(s[1..], c)
  }

  /** Find is the only index with its three properties. */
  lemma FindUnique(s: string, c: char, k: nat)
    requires k <= |s|
    requires forall j :: 0 <= j < k ==> s[j] != c
    requires k < |s| ==> s[k] == c
    ensures Find(s, c) == k
  {
  }

  /** A prefix free of `c` shifts the first occurrence of `c` by its length. */
  lemma FindSkipsPrefix(a: string, b: string, c: char)
    requires c !in a
    ensures Find(a + b, c) == |a| + Find(b, c)
  {
    var s, kb := a + b, Find(b, c);
    forall j | 0 <= j < |a| + kb ensures s[j] != c {
      if j < |a| { assert s[j] == a[j]; } else { assert s[j] == b[j - |a|]; }
    }
    if kb < |b| {
      assert s[|a| + kb] == b[kb];
    }
    FindUnique(s, c, |a| + kb);
  }

  /** Concatenation is associative; stated once so that proofs can cite it. */
  lemma ConcatAssoc<T>(a: seq<T>, b: seq<T>, c: seq<T>)
    ensures a + (b + c) == a + b + c
  {
  }

  /**
   * Splits `s` at the first `c`: the part before it and, when `c` occurs,
   * the part after it.
   */
  function SplitFirst(s: string, c: char): (r: (string, Option<string>))
    ensures c !in r.0
    ensures r.1.None? <==> c !in s
    ensures r.1.None? ==> r.0 == s
    ensures r.1.Some? ==> s == r.0 + [c] + r.1.value
  {
    var k := Find(s, c);
    if k == |s| then (s, None) else (s[..k], Some(s[k + 1..]))
  }

  /** Splitting at a separator placed after a separator-free prefix gives the two sides back. */
  lemma SplitFirstAt(a: string, c: char, b: string)
    requires c !in a
    ensures SplitFirst(a + [c] + b, c) == (a, Some(b))
  {
    FindSkipsPrefix(a, [c] + b, c);
    assert a + [c] + b == a + ([c] + b);
    var s := a + [c] + b;
    assert s[..|a|] == a;
    assert s[|a| + 1..] == b;
  }

  /** The parts joined back together with `c` between neighbours. */
  function Join(parts: seq<string>, c: char): string
  {
    if |parts| == 0 then []
    else if |parts| == 1 then parts[0]
    else parts[0] + [c] + Join(parts[1..], c)
  }

  /** All parts of `s` between occurrences of `c`, in order; empty parts included. */
  function Split(s: string, c: char): (parts: seq<string>)
    ensures |parts| >= 1
    ensures forall i :: 0 <= i < |parts| ==> c !in parts[i]
    ensures Join(parts, c) == s
    decreases |s|
  {
    var (head, tail) := SplitFirst(s, c);
    if tail.None? then [head]
    else
      var rest := Split(tail.value, c);
      assert ([head] + rest)[1..] == rest;
      [head] + rest
  }

  /** Split undoes Join: a non-empty list of separator-free parts is recovered exactly. */
  lemma {:induction false} SplitOfJoin(parts: seq<string>, c: char)
    requires |parts| >= 1
    requires forall i :: 0 <= i < |parts| ==> c !in parts[i]
    ensures Split(Join(parts, c), c) == parts
    decreases |parts|
  {
    if |parts| > 1 {
      var rest := parts[1..];
      SplitFirstAt(parts[0], c, Join(rest, c));
      SplitOfJoin(rest, c);
      assert [parts[0]] + rest == parts;
    }
  }

  /** Joining two lists is joining each and putting one separator between. */
  lemma {:induction false} JoinConcat(xs: seq<string>, ys: seq<string>, c: char)
    requires |xs| >= 1 && |ys| >= 1
    ensures Join(xs + ys, c) == Join(xs, c) + [c] + Join(ys, c)
    decreases |xs|
  {
    if |xs| == 1 {
      assert (xs + ys)[1..] == ys;
    } else {
      JoinConcat(xs[1..], ys, c);
      assert (xs + ys)[1..] == xs[1..] + ys;
    }
  }

  /** The parts of `x`, a separator, then `y` are the parts of `x` followed by the parts of `y`. */
  lemma SplitConcat(x: string, c: char, y: string)
    ensures Split(x + [c] + y, c) == Split(x, c) + Split(y, c)
  {
    var xs, ys := Split(x, c), Split(y, c);
    JoinConcat(xs, ys, c);
    SplitOfJoin(xs + ys, c);
  }

  /** `t` occurs in `s` at offset `k`. */
  predicate OccursAt(t: string, s: string, k: nat)
  {
    k + |t| <= |s| && s[k..k + |t|] == t
  }

  /** Whether `t` occurs in `s` as a contiguous run (Swift's `contains` on strings). */
  predicate Contains(s: string, t: string)
  {
    exists k: nat | k <= |s| :: OccursAt(t, s, k)
  }

  /** ASCII upper-case letters map to lower case; every other character is kept. */
  function LowerChar(c: char): char
  {
    if 'A' <= c <= 'Z' then (c as int - 'A' as int + 'a' as int) as char else c
  }

  /** Swift's `lowercased()` restricted to ASCII letters. */
  function Lower(s: string): (r: string)
    ensures |r| == |s|
    ensures forall i :: 0 <= i < |s| ==> r[i] == LowerChar(s[i])
  {
    if s == [] then [] else [LowerChar(s[0])] + Lower(s[1..])
  }

  /** Two texts that lower-case alike, character by character. */
  predicate SameUpToCase(a: string, b: string)
  {
    |a| == |b| && forall i :: 0 <= i < |a| ==> LowerChar(a[i]) == LowerChar(b[i])
  }

  lemma SameUpToCaseIff(a: string, b: string)
    ensures SameUpToCase(a, b) <==> Lower(a) == Lower(b)
  {
    if Lower(a) == Lower(b) {
      forall i | 0 <= i < |a| ensures LowerChar(a[i]) == LowerChar(b[i]) {
        assert Lower(a)[i] == Lower(b)[i];
      }
    }
  }

  /** The last element of a list, as Swift's `Array.last`. */
  function Last<T>(xs: seq<T>): (r: Option<T>)
  {
    if xs == [] then None else Some(xs[|xs| - 1])
  }

  /** Lowering changes nothing in text without upper-case ASCII letters. */
  lemma LowerOfLowercase(s: string)
    requires forall i :: 0 <= i < |s| ==> !('A' <= s[i] <= 'Z')
    ensures Lower(s) == s
  {
  }

  /** `t` occurs in `s` at `k` when it matches there character by character. */
  lemma ContainsAt(s: string, t: string, k: nat)
    requires k + |t| <= |s| && forall i :: 0 <= i < |t| ==> s[k + i] == t[i]
    ensures Contains(s, t)
  {
    assert OccursAt(t, s, k);
  }

  /** A text without `t`'s first character does not contain `t`. */
  lemma NotContainsWithoutFirst(s: string, t: string)
    requires t != [] && t[0] !in s
    ensures !Contains(s, t)
  {
    forall k: nat | k + |t| <= |s| ensures !OccursAt(t, s, k) {
      assert s[k..k + |t|][0] != t[0];
    }
  }

  /**
   * `t` does not occur in `s` when its first character occurs in `s` only
   * at `k`, and the run from `k` differs from `t` at offset `j`.
   */
  lemma NotContainsPastFirst(s: string, t: string, k: nat, j: nat)
    requires 0 < j < |t| && k + j < |s| && s[k + j] != t[j]
    requires forall i :: 0 <= i < |s| && s[i] == t[0] ==> i == k
    ensures !Contains(s, t)
  {
    forall m: nat | m + |t| <= |s| ensures !OccursAt(t, s, m) {
      if s[m] == t[0] {
        assert s[m..m + |t|][j] != t[j];
      } else {
        assert s[m..m + |t|][0] != t[0];
      }
    }
  }

  /** An occurrence inside an occurrence is an occurrence. */
  lemma OccursWithin(t: string, m: string, s: string, i: nat, j: nat)
    requires OccursAt(t, m, i) && OccursAt(m, s, j)
    ensures OccursAt(t, s, j + i)
  {
    forall x | 0 <= x < |t| ensures s[j + i + x] == t[x] {
      assert t[x] == m[i + x] == s[j..j + |m|][i + x];
    }
    assert s[j + i..j + i + |t|] == t;
  }

  /** A character missing from `s` is missing from both sides of any cut. */
  lemma SlicesLack(s: string, j: nat, c: char)
    requires j <= |s| && c !in s
    ensures c !in s[..j] && c !in s[j..] && s[..j] + s[j..] == s
  {
    assert s == s[..j] + s[j..];
  }

  /** Every part occurs in the joined text. */
  lemma {:induction false} PartOccurs(parts: seq<string>, c: char, i: nat) returns (k: nat)
    requires i < |parts|
    ensures OccursAt(parts[i], Join(parts, c), k)
    decreases |parts|
  {
    var joined := Join(parts, c);
    if |parts| == 1 {
      k := 0;
      assert joined[0..|parts[0]|] == parts[0];
    } else if i == 0 {
      k := 0;
      assert joined[0..|parts[0]|] == parts[0];
    } else {
      var j := PartOccurs(parts[1..], c, i - 1);
      var head := parts[0] + [c];
      assert joined == head + Join(parts[1..], c);
      assert OccursAt(Join(parts[1..], c), joined, |head|);
      OccursWithin(parts[i], Join(parts[1..], c), joined, j, |head|);
      k := |head| + j;
    }
  }

  /** Whatever occurs in one part occurs in the joined text. */
  lemma OccursInPart(x: string, parts: seq<string>, c: char, f: nat, i: nat) returns (k: nat)
    requires f < |parts| && OccursAt(x, parts[f], i)
    ensures OccursAt(x, Join(parts, c), k)
  {
    var j := PartOccurs(parts, c, f);
    OccursWithin(x, parts[f], Join(parts, c), i, j);
    k := j + i;
  }
}
