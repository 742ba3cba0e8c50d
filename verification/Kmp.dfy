/** Substring search (`src/stdlib/string.rs`): Knuth-Morris-Pratt for long needles. */
module Kmp {
  import opened Bytes

  /** The `k` bytes of `s` before index `i` are the first `k` bytes of `p`. */
  predicate Matches(s: seq<byte>, i: nat, p: seq<byte>, k: nat) {
    k <= i <= |s| && k <= |p| && s[i - k..i] == p[..k]
  }

  /** `k` is the longest match of at most `cap` bytes. */
  predicate Best(s: seq<byte>, i: nat, p: seq<byte>, k: nat, cap: nat) {
    Matches(s, i, p, k) && k <= cap && forall j: nat :: k < j <= cap ==> !Matches(s, i, p, j)
  }

  /** `k` is the length of the longest proper border of the first `i` bytes of `p`. */
  predicate LongestBorder(p: seq<byte>, i: nat, k: nat) { i > 0 && Best(p, i, p, k, i - 1) }

  /** `needle` occurs in `haystack` at offset `at`. */
  predicate Occurs(haystack: seq<byte>, needle: seq<byte>, at: nat) {
    at + |needle| <= |haystack| && haystack[at..at + |needle|] == needle
  }

  /** The first occurrence. */
  predicate IsFirst(haystack: seq<byte>, needle: seq<byte>, r: Option<nat>) {
    match r
    case Some(at) => Occurs(haystack, needle, at) && forall j :: 0 <= j < at ==> !Occurs(haystack, needle, j)
    case None => forall j: nat :: j <= |haystack| ==> !Occurs(haystack, needle, j)
  }

  /** Shorter matches at the same place are borders of the longer one. */
  lemma MatchIsBorder(s: seq<byte>, i: nat, p: seq<byte>, k: nat, j: nat)
    requires Matches(s, i, p, k) && j < k
    ensures Matches(s, i, p, j) <==> Matches(p, k, p, j)
  {
    assert s[i - j..i] == s[i - k..i][k - j..];
    assert p[k - j..k] == p[..k][k - j..];
  }

  /** A match one byte further is a match here and the next byte. */
  lemma MatchNext(s: seq<byte>, i: nat, p: seq<byte>, k: nat)
    requires i < |s| && k < |p|
    ensures Matches(s, i + 1, p, k + 1) <==> Matches(s, i, p, k) && s[i] == p[k]
  {
    if k <= i {
      assert s[i - k..i + 1] == s[i - k..i] + [s[i]];
      assert p[..k + 1] == p[..k] + [p[k]];
      assert Matches(s, i + 1, p, k + 1) ==> s[i - k..i + 1][..k] == p[..k + 1][..k];
    }
  }

  /** Nothing between `k` and `cap` can be continued with byte `s[i]`. */
  predicate Exhausted(s: seq<byte>, i: nat, p: seq<byte>, k: nat, cap: nat)
    requires i < |s| && cap < |p|
  {
    forall j: nat :: k < j <= cap && Matches(s, i, p, j) ==> p[j] != s[i]
  }

  /** The longest match one byte further, once the longest continuation is known. */
  lemma BestNext(s: seq<byte>, i: nat, p: seq<byte>, k: nat, cap: nat)
    requires i < |s| && k <= cap < |p| && Matches(s, i, p, k) && Exhausted(s, i, p, k, cap)
    ensures p[k] == s[i] ==> Best(s, i + 1, p, k + 1, cap + 1)
    ensures k == 0 && p[k] != s[i] ==> Best(s, i + 1, p, 0, cap + 1)
  {
    MatchNext(s, i, p, k);
    var next := i + 1;
    forall j: nat | k + 1 < j <= cap + 1
      ensures !Matches(s, next, p, j)
    {
      LongerFails(s, i, p, k, cap, j);
    }
    if k == 0 && p[k] != s[i] {
      assert s[next..next] == p[..0];
    }
  }

  lemma LongerFails(s: seq<byte>, i: nat, p: seq<byte>, k: nat, cap: nat, j: nat)
    requires i < |s| && cap < |p| && Exhausted(s, i, p, k, cap) && k + 1 < j <= cap + 1
    ensures !Matches(s, i + 1, p, j)
  {
    MatchNext(s, i, p, j - 1);
  }

  /** Longest borders of the first `n` prefixes. */
  ghost predicate Table(p: seq<byte>, fail: seq<nat>, n: nat) {
    n <= |fail| && forall i :: 0 <= i < n ==> LongestBorder(p, i + 1, fail[i])
  }

  /** Follows borders until the match can be continued with byte `s[i]`. Each step shortens it. */
  method Extend(s: seq<byte>, i: nat, p: seq<byte>, from: nat, cap: nat, fail: array<nat>) returns (k: nat, ghost steps: nat)
    requires i < |s| && cap < |p| && fail.Length == |p|
    requires Best(s, i, p, from, cap) && Table(p, fail[..], from)
    ensures Best(s, i + 1, p, k, cap + 1)
    ensures k + steps <= from + 1
  {
    k := from;
    steps := 0;
    while k > 0 && p[k] != s[i]
      invariant k <= from && k + steps <= from
      invariant Matches(s, i, p, k) && Exhausted(s, i, p, k, cap)
      decreases k
    {
      assert LongestBorder(p, (k - 1) + 1, fail[..][k - 1]);
      var next := fail[k - 1];
      assert next == fail[..][k - 1];
      MatchIsBorder(s, i, p, k, next);
      forall j: nat | next < j <= cap && Matches(s, i, p, j)
        ensures p[j] != s[i]
      {
        if j < k { MatchIsBorder(s, i, p, k, j); }
      }
      k := next;
      steps := steps + 1;
    }
    BestNext(s, i, p, k, cap);
    if p[k] == s[i] { k := k + 1; }
  }

  /** The failure table: the longest proper border of every prefix. It takes a number of steps linear
      in the needle. */
  method Failures(p: seq<byte>) returns (fail: array<nat>, ghost steps: nat)
    requires p != []
    ensures fresh(fail) && fail.Length == |p| && Table(p, fail[..], |p|)
    ensures steps <= |p|
  {
    fail := new nat[|p|](i => 0);
    steps := 0;
    var k: nat := 0;
    assert p[1..1] == p[..0];
    assert LongestBorder(p, 1, 0);
    for i := 1 to |p|
      invariant Table(p, fail[..], i) && LongestBorder(p, i, k)
      invariant k + steps <= i
    {
      ghost var taken;
      ghost var before := fail[..];
      k, taken := Extend(p, i, p, k, i - 1, fail);
      steps := steps + taken;
      fail[i] := k;
      assert forall j :: 0 <= j < i ==> fail[..][j] == before[j];
    }
  }

  /** The scan over all windows. */
  method FindByWindows(haystack: seq<byte>, needle: seq<byte>) returns (r: Option<nat>)
    requires needle != []
    ensures IsFirst(haystack, needle, r)
  {
    if |needle| > |haystack| { return None; }
    for i := 0 to |haystack| - |needle| + 1
      invariant forall j :: 0 <= j < i ==> !Occurs(haystack, needle, j)
    {
      if haystack[i..i + |needle|] == needle { return Some(i); }
    }
    return None;
  }

  /** No occurrence ends before index `i`. */
  ghost predicate NoneBefore(haystack: seq<byte>, needle: seq<byte>, i: nat) {
    forall j: nat :: j + |needle| <= i ==> !Occurs(haystack, needle, j)
  }

  lemma OccursIsMatch(haystack: seq<byte>, needle: seq<byte>, j: nat)
    requires j + |needle| <= |haystack|
    ensures Occurs(haystack, needle, j) <==> Matches(haystack, j + |needle|, needle, |needle|)
  {
    assert needle[..|needle|] == needle;
  }

  /** The linear search: total inner steps are bounded by the lengths of needle and haystack. */
  method FindByBorders(haystack: seq<byte>, needle: seq<byte>) returns (r: Option<nat>, ghost steps: nat)
    requires needle != []
    ensures IsFirst(haystack, needle, r)
    ensures steps <= |needle| + |haystack|
  {
    var n := |needle|;
    var fail;
    fail, steps := Failures(needle);
    ghost var built := steps;
    var k: nat := 0;
    assert haystack[0..0] == needle[..0];
    for i := 0 to |haystack|
      invariant Best(haystack, i, needle, k, n - 1) && NoneBefore(haystack, needle, i)
      invariant Table(needle, fail[..], n) && fail.Length == n
      invariant k + steps <= built + i
    {
      ghost var taken;
      k, taken := Extend(haystack, i, needle, k, n - 1, fail);
      steps := steps + taken;
      EndsHere(haystack, needle, i, k);
      if k == n { return Some(i + 1 - k), steps; }
    }
    forall j: nat | j <= |haystack|
      ensures !Occurs(haystack, needle, j)
    {
      if j + n <= |haystack| { assert !Occurs(haystack, needle, j); }
    }
    return None, steps;
  }

  /** After one more byte, either the needle ends there for the first time, or no occurrence does. */
  lemma EndsHere(haystack: seq<byte>, needle: seq<byte>, i: nat, k: nat)
    requires needle != [] && i < |haystack|
    requires Best(haystack, i + 1, needle, k, |needle|) && NoneBefore(haystack, needle, i)
    ensures k == |needle| ==> IsFirst(haystack, needle, Some(i + 1 - k))
    ensures k < |needle| ==> NoneBefore(haystack, needle, i + 1) && Best(haystack, i + 1, needle, k, |needle| - 1)
  {
    var n := |needle|;
    if n <= i + 1 {
      OccursIsMatch(haystack, needle, i + 1 - n);
      assert i + 1 - n + n == i + 1;
    }
    if k < n {
      forall j: nat | j + n <= i + 1
        ensures !Occurs(haystack, needle, j)
      {
        if j + n == i + 1 { assert j == i + 1 - n; }
      }
    }
  }

  /** `find`: the first occurrence of any needle in any haystack; an empty needle occurs at 0. */
  method Find(haystack: seq<byte>, needle: seq<byte>) returns (r: Option<nat>)
    ensures IsFirst(haystack, needle, r)
  {
    if needle == [] {
      return Some(0);
    } else if |needle| <= 16 {
      r := FindByWindows(haystack, needle);
    } else {
      ghost var steps;
      r, steps := FindByBorders(haystack, needle);
    }
  }
}
