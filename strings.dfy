/** Substring search on strings, as Rust's `str::find`, `str::contains` and
    `str::split_once` perform it with a string pattern. */
module Strings {
  import opened Wrappers

  /** `pat` occurs in `s` starting at position `i`. */
  predicate OccursAt(s: string, pat: string, i: nat)
  {
    i + |pat| <= |s| && s[i..i + |pat|] == pat
  }

  /** The first position at or after `from` where `pat` occurs in `s`, scanning
      left to right. */
  function FindFrom(s: string, pat: string, from: nat): (r: Option<nat>)
    ensures r.Some? ==> from <= r.value && OccursAt(s, pat, r.value)
    ensures r.Some? ==> forall j: nat :: from <= j < r.value ==> !OccursAt(s, pat, j)
    ensures r.None? ==> forall j: nat :: from <= j ==> !OccursAt(s, pat, j)
    decreases |s| - from
  {
    if from + |pat| > |s| then None
    else if OccursAt(s, pat, from) then Some(from)
    else FindFrom(s, pat, from + 1)
  }

  /** The position of the first occurrence of `pat` in `s`, if any (Rust's `str::find`). */
  function FindFirst(s: string, pat: string): (r: Option<nat>)
    ensures r.Some? ==> OccursAt(s, pat, r.value)
    ensures r.Some? ==> forall j: nat :: j < r.value ==> !OccursAt(s, pat, j)
    ensures r.None? ==> forall j: nat :: !OccursAt(s, pat, j)
  {
    FindFrom(s, pat, 0)
  }

  /** `s` contains `pat` somewhere (Rust's `str::contains`). */
  function Contains(s: string, pat: string): (b: bool)
    ensures b <==> exists i: nat :: OccursAt(s, pat, i)
  {
    FindFirst(s, pat).Some?
  }

  /** Rust's `str::split_once`: the text before and after the first occurrence of `pat`. */
  function SplitOnce(s: string, pat: string): (r: Option<(string, string)>)
    ensures r.None? <==> !Contains(s, pat)
    ensures r.Some? ==> s == r.value.0 + pat + r.value.1
    ensures r.Some? ==> forall j: nat :: j < |r.value.0| ==> !OccursAt(s, pat, j)
  {
    match FindFirst(s, pat)
    case None => None
    case Some(i) =>
      assert s == s[..i] + pat + s[i + |pat|..] by {
        assert s[i..i + |pat|] == pat;
      }
      Some((s[..i], s[i + |pat|..]))
  }

  /** An occurrence of `pat` that no earlier one precedes is the one `FindFirst` returns. */
  lemma FindFirstIs(s: string, pat: string, i: nat)
    requires OccursAt(s, pat, i)
    requires forall j: nat :: j < i ==> !OccursAt(s, pat, j)
    ensures FindFirst(s, pat) == Some(i)
  {
  }

  /** `FindFirst` taken past a prefix `a` in which no occurrence begins. */
  function Offset(n: nat, r: Option<nat>): Option<nat>
  {
    match r
    case None => None
    case Some(k) => Some(n + k)
  }

  /** An occurrence `k` places into `b` is one `|a| + k` places into `a + b`. */
  lemma OccursPast(a: string, b: string, pat: string, k: nat)
    ensures OccursAt(a + b, pat, |a| + k) <==> OccursAt(b, pat, k)
  {
    if |a| + k + |pat| <= |a + b| {
      assert (a + b)[|a| + k..|a| + k + |pat|] == b[k..k + |pat|];
    }
  }

  /** When no occurrence of `pat` begins inside `a`, searching `a + b` is searching `b`. */
  lemma FindFirstPast(a: string, b: string, pat: string)
    requires forall j: nat :: j < |a| ==> !OccursAt(a + b, pat, j)
    ensures FindFirst(a + b, pat) == Offset(|a|, FindFirst(b, pat))
  {
    var f := FindFirst(a + b, pat);
    var r := FindFirst(b, pat);
    if f.Some? {
      assert f.value >= |a|;
      OccursPast(a, b, pat, f.value - |a|);
      assert r.Some? && r.value <= f.value - |a|;
      OccursPast(a, b, pat, r.value);
      assert f.value == |a| + r.value;
    } else if r.Some? {
      OccursPast(a, b, pat, r.value);
      assert false;
    }
  }

  /** No occurrence of `pat` begins in a prefix that lacks `pat`'s first character. */
  lemma NoStartWithout(a: string, b: string, pat: string)
    requires |pat| > 0 && pat[0] !in a
    ensures forall j: nat :: j < |a| ==> !OccursAt(a + b, pat, j)
  {
    forall j: nat | j < |a|
      ensures !OccursAt(a + b, pat, j)
    {
      if j + |pat| <= |a + b| {
        assert (a + b)[j..j + |pat|][0] == a[j];
      }
    }
  }

  /** Searching past a prefix that lacks `pat`'s first character. */
  lemma FindFirstSkip(a: string, b: string, pat: string)
    requires |pat| > 0 && pat[0] !in a
    ensures FindFirst(a + b, pat) == Offset(|a|, FindFirst(b, pat))
  {
    NoStartWithout(a, b, pat);
    FindFirstPast(a, b, pat);
  }

  /** A string that begins with `pat` finds it at position 0. */
  lemma FindFirstAtStart(b: string, pat: string)
    ensures FindFirst(pat + b, pat) == Some(0)
  {
    assert (pat + b)[0..|pat|] == pat;
    FindFirstIs(pat + b, pat, 0);
  }

  /** `pat` does not occur at the start of a string that differs from it at position `k`. */
  lemma MismatchAt(s: string, pat: string, k: nat)
    requires k < |pat| && k < |s| && s[k] != pat[k]
    ensures !OccursAt(s, pat, 0)
  {
    if |pat| <= |s| {
      assert s[0..|pat|][k] == s[k];
    }
  }

  /** Searching past a chunk `x` that differs from `pat` at position `k` and holds
      `pat`'s first character nowhere after its own first. */
  lemma FindFirstSkipChunk(x: string, rest: string, pat: string, k: nat)
    requires k < |pat| && k < |x| && x[k] != pat[k] && pat[0] !in x[1..]
    ensures FindFirst(x + rest, pat) == Offset(|x|, FindFirst(rest, pat))
  {
    var s := x + rest;
    forall j: nat | j < |x|
      ensures !OccursAt(s, pat, j)
    {
      if j == 0 {
        assert s[k] == x[k];
        MismatchAt(s, pat, k);
      } else if j + |pat| <= |s| {
        assert s[j..j + |pat|][0] == x[1..][j - 1];
      }
    }
    FindFirstPast(x, rest, pat);
  }

  /** An occurrence of a pattern is an occurrence of each of its prefixes. */
  lemma OccursPrefix(s: string, pat: string, q: string, i: nat)
    requires OccursAt(s, pat, i) && |q| <= |pat| && q == pat[..|q|]
    ensures OccursAt(s, q, i)
  {
    assert s[i..i + |q|] == s[i..i + |pat|][..|q|];
  }

  /** A string shorter than `pat` does not contain it. */
  lemma FindFirstShort(s: string, pat: string)
    requires |s| < |pat|
    ensures FindFirst(s, pat) == None
  {
  }

  /** Six concatenated strings, nested to the right. */
  lemma NestRight6(a: string, b: string, c: string, d: string, e: string, f: string)
    ensures a + b + c + d + e + f == a + (b + (c + (d + (e + f))))
  {
  }

  /** `(a + (b + c)) + d + e` cut after `b` instead: `(a + b) + (c + (d + e))`. */
  lemma ShiftSplitRight(a: string, b: string, c: string, d: string, e: string)
    ensures a + (b + c) + d + e == (a + b) + (c + (d + e))
  {
  }

  /** A connect request line cut into the chunks its route search skips one by one. */
  lemma NestConnectLine(a: string, b1: string, b2: string, d: string, c1: string, c2: string, r: string)
    ensures a + (b1 + b2) + d + (c1 + c2) + r == a + (b1 + ((b2 + (d + c1)) + (c2 + r)))
  {
  }
}
