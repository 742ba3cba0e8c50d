/** Wildcard matching row by row (`src/stdlib/strbuf.rs`). */
module Glob {
  import opened Bytes

  const STAR: byte := 42
  const QUESTION: byte := 63
  const SLASH: byte := 47
  const BACKSLASH: byte := 92

  function Lower(b: byte): byte { if 65 <= b <= 90 then b + 32 else b }

  predicate Separator(b: byte) { b == SLASH || b == BACKSLASH }

  predicate NoSeparator(s: seq<byte>) { forall i :: 0 <= i < |s| ==> !Separator(s[i]) }

  /** What one pattern byte matches: `*` any run without separators, `?` any one byte, another byte
      itself, letters in either case. */
  predicate PieceOk(p: byte, piece: seq<byte>) {
    if p == STAR then NoSeparator(piece)
    else |piece| == 1 && (p == QUESTION || Lower(p) == Lower(piece[0]))
  }

  /** `cuts` divides `s` into consecutive pieces, one matching each byte of `p`. */
  ghost predicate Divides(p: seq<byte>, s: seq<byte>, cuts: seq<nat>) {
    && |cuts| == |p| + 1 && cuts[0] == 0 && cuts[|p|] == |s|
    && (forall i, k :: 0 <= i <= k <= |p| ==> cuts[i] <= cuts[k])
    && forall i :: 0 <= i < |p| ==> PieceAt(p, s, cuts, i)
  }

  ghost predicate PieceAt(p: seq<byte>, s: seq<byte>, cuts: seq<nat>, i: nat)
    requires i < |p| && |cuts| == |p| + 1
  {
    cuts[i] <= cuts[i + 1] <= |s| && PieceOk(p[i], s[cuts[i]..cuts[i + 1]])
  }

  /** The glob relation: the text is a sequence of pieces, one for each pattern byte. */
  ghost predicate Matches(p: seq<byte>, s: seq<byte>) {
    exists cuts :: Divides(p, s, cuts)
  }

  // ---- one more pattern byte -------------------------------------------------------------------

  /** Some prefix of `s` matches `p`, and the rest is a piece for `c`. */
  ghost predicate Splits(p: seq<byte>, c: byte, s: seq<byte>, j: nat) {
    j <= |s| && Matches(p, s[..j]) && PieceOk(c, s[j..])
  }

  lemma SliceOf(s: seq<byte>, j: nat, a: nat, b: nat)
    requires a <= b <= j <= |s|
    ensures s[..j][a..b] == s[a..b]
  {
  }

  lemma AddPiece(p: seq<byte>, c: byte, s: seq<byte>, j: nat)
    requires Splits(p, c, s, j)
    ensures Matches(p + [c], s)
  {
    var cuts: seq<nat> :| Divides(p, s[..j], cuts);
    var more: seq<nat> := cuts + [|s|];
    assert |s[..j]| == j;
    assert forall i :: 0 <= i <= |p| ==> more[i] == cuts[i] <= cuts[|p|] == j;
    forall i | 0 <= i <= |p|
      ensures PieceAt(p + [c], s, more, i)
    {
      if i < |p| {
        assert PieceAt(p, s[..j], cuts, i);
        assert more[i + 1] == cuts[i + 1] <= j;
        SliceOf(s, j, cuts[i], cuts[i + 1]);
      } else {
        assert s[j..|s|] == s[j..];
      }
    }
    assert Divides(p + [c], s, more);
  }

  lemma LastPiece(p: seq<byte>, c: byte, s: seq<byte>) returns (j: nat)
    requires Matches(p + [c], s)
    ensures Splits(p, c, s, j)
  {
    var cuts: seq<nat> :| Divides(p + [c], s, cuts);
    j := cuts[|p|];
    var fewer := cuts[..|p| + 1];
    assert PieceAt(p + [c], s, cuts, |p|);
    forall i | 0 <= i < |p|
      ensures PieceAt(p, s[..j], fewer, i)
    {
      assert PieceAt(p + [c], s, cuts, i);
      assert cuts[i + 1] <= cuts[|p|];
      SliceOf(s, j, cuts[i], cuts[i + 1]);
    }
    assert s[j..] == s[cuts[|p|]..cuts[|p| + 1]];
    assert Divides(p, s[..j], fewer);
  }

  lemma NoPieces(s: seq<byte>)
    ensures Matches([], s) <==> s == []
  {
    if s == [] { assert Divides([], s, [0]); }
  }

  // ---- rows ------------------------------------------------------------------------------------

  /** `ok[j]`: the pattern matches the first `j` bytes. */
  ghost predicate Row(p: seq<byte>, s: seq<byte>, ok: seq<bool>) {
    |ok| == |s| + 1 && forall j :: 0 <= j <= |s| ==> (ok[j] <==> Matches(p, s[..j]))
  }

  /** `p` matches the first `m` bytes, and those from there up to `j` are no separators. */
  predicate RunFrom(s: seq<byte>, ok: seq<bool>, m: nat, j: nat) {
    m <= j <= |s| && m < |ok| && ok[m] && NoSeparator(s[m..j])
  }

  /** `*` after `p` matches the first `j` bytes: some shorter prefix matches `p`, and the run up to
      `j` has no separators. */
  ghost predicate Runs(s: seq<byte>, ok: seq<bool>, j: nat) {
    exists m: nat :: RunFrom(s, ok, m, j)
  }

  lemma StarIsRun(p: seq<byte>, s: seq<byte>, ok: seq<bool>, j: nat)
    requires Row(p, s, ok) && j <= |s|
    ensures Matches(p + [STAR], s[..j]) <==> Runs(s, ok, j)
  {
    if Matches(p + [STAR], s[..j]) {
      var m := LastPiece(p, STAR, s[..j]);
      assert s[..j][..m] == s[..m] && s[..j][m..] == s[m..j];
      assert RunFrom(s, ok, m, j);
    }
    if m: nat :| RunFrom(s, ok, m, j) {
      assert s[..j][..m] == s[..m] && s[..j][m..] == s[m..j];
      assert Splits(p, STAR, s[..j], m);
      AddPiece(p, STAR, s[..j], m);
    }
  }

  /** A run reaches one byte further, or starts there. */
  lemma RunNext(s: seq<byte>, ok: seq<bool>, j: nat)
    requires |ok| == |s| + 1 && j < |s|
    ensures Runs(s, ok, j + 1) <==> ok[j + 1] || (Runs(s, ok, j) && !Separator(s[j]))
  {
    var next := j + 1;
    if m: nat :| RunFrom(s, ok, m, next) {
      if m <= j {
        assert s[m..next] == s[m..j] + [s[j]];
        assert s[m..next][j - m] == s[j];
        assert forall i :: 0 <= i < j - m ==> s[m..j][i] == s[m..next][i];
        assert RunFrom(s, ok, m, j);
      }
    }
    if ok[next] { assert RunFrom(s, ok, next, next); }
    if m: nat :| RunFrom(s, ok, m, j) && !Separator(s[j]) {
      assert s[m..next] == s[m..j] + [s[j]];
      assert RunFrom(s, ok, m, next);
    }
  }

  lemma RunStart(s: seq<byte>, ok: seq<bool>)
    requires |ok| == |s| + 1
    ensures Runs(s, ok, 0) <==> ok[0]
  {
    if ok[0] { assert RunFrom(s, ok, 0, 0); }
  }

  /** Another byte matches exactly one. */
  lemma OneByte(p: seq<byte>, c: byte, s: seq<byte>, ok: seq<bool>, j: nat)
    requires Row(p, s, ok) && c != STAR && j <= |s|
    ensures Matches(p + [c], s[..j]) <==> j > 0 && ok[j - 1] && (c == QUESTION || Lower(c) == Lower(s[j - 1]))
  {
    if Matches(p + [c], s[..j]) {
      var m := LastPiece(p, c, s[..j]);
      assert m == j - 1 && s[..j][..m] == s[..m];
    }
    if j > 0 && ok[j - 1] && (c == QUESTION || Lower(c) == Lower(s[j - 1])) {
      var m := j - 1;
      assert s[..j][..m] == s[..m] && s[..j][m..] == [s[m]];
      assert Splits(p, c, s[..j], m);
      AddPiece(p, c, s[..j], m);
    }
  }

  /** The row for `*` after `p`. */
  method StarRow(p: seq<byte>, s: seq<byte>, ok: array<bool>) returns (next: array<bool>)
    requires Row(p, s, ok[..])
    ensures fresh(next) && Row(p + [STAR], s, next[..])
  {
    next := new bool[ok.Length](i => false);
    var run := false;
    for j := 0 to ok.Length
      invariant j > 0 ==> (run <==> Runs(s, ok[..], j - 1))
      invariant forall i :: 0 <= i < j ==> (next[i] <==> Matches(p + [STAR], s[..i]))
    {
      var extend := j > 0 && run && !Separator(s[j - 1]);
      run := ok[j] || extend;
      if j == 0 { RunStart(s, ok[..]); } else { RunNext(s, ok[..], j - 1); }
      StarIsRun(p, s, ok[..], j);
      next[j] := run;
    }
  }

  /** The row for another byte after `p`. */
  method ByteRow(p: seq<byte>, c: byte, s: seq<byte>, ok: array<bool>) returns (next: array<bool>)
    requires Row(p, s, ok[..]) && c != STAR
    ensures fresh(next) && Row(p + [c], s, next[..])
  {
    next := new bool[ok.Length](i => false);
    OneByte(p, c, s, ok[..], 0);
    for j := 1 to ok.Length
      invariant forall i :: 0 <= i < j ==> (next[i] <==> Matches(p + [c], s[..i]))
    {
      OneByte(p, c, s, ok[..], j);
      next[j] := ok[j - 1] && (c == QUESTION || Lower(c) == Lower(s[j - 1]));
    }
  }

  /** The row-by-row matcher agrees with the glob relation, for every pattern and text. */
  method Wildcmp(pattern: seq<byte>, s: seq<byte>) returns (r: bool)
    ensures r <==> Matches(pattern, s)
  {
    var ok := new bool[|s| + 1](i => i == 0);
    forall j | 0 <= j <= |s|
      ensures ok[j] <==> Matches([], s[..j])
    {
      NoPieces(s[..j]);
    }
    for i := 0 to |pattern|
      invariant Row(pattern[..i], s, ok[..])
    {
      assert pattern[..i + 1] == pattern[..i] + [pattern[i]];
      if pattern[i] == STAR {
        ok := StarRow(pattern[..i], s, ok);
      } else {
        ok := ByteRow(pattern[..i], pattern[i], s, ok);
      }
    }
    assert pattern[..|pattern|] == pattern && s[..|s|] == s;
    r := ok[|s|];
  }
}
