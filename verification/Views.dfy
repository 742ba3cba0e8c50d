/** The two ways the interpreter reaches its operands in region S (`src/vm/interp.rs`): all of the
    region, bounds-checked, or a fixed window at its start through masked offsets. */
module Views {
  import opened Bytes

  datatype View = Whole | Window

  /** The window's size, and the number of offsets its mask keeps apart. */
  const WINDOW: nat := 0x40_0010
  const MASKED: nat := 0x40_0000

  /** Region S can be seen through the view. */
  predicate HasView(v: View, s: seq<byte>) { v.Whole? || |s| >= WINDOW }

  /** The offset an operand access uses. */
  function Eff(v: View, o: nat): nat { if v.Whole? then o else o % MASKED }

  /** How many bytes of region S the view spans. */
  function Span(v: View, s: seq<byte>): nat { if v.Whole? then |s| else WINDOW }

  /** Reads the word at offset `o` (0 out of range). */
  function G(v: View, s: seq<byte>, o: nat): word
    requires HasView(v, s)
  {
    if Eff(v, o) + 4 <= Span(v, s) then WordAt(s, Eff(v, o)) else 0
  }

  /** Writes the word at offset `o`; stray writes are dropped. */
  function Set(v: View, s: seq<byte>, o: nat, w: word): (r: seq<byte>)
    requires HasView(v, s)
    ensures |r| == |s|
  {
    if Eff(v, o) + 4 <= Span(v, s) then Splice(s, Eff(v, o), BytesOf(w)) else s
  }

  /** The offset of word `k` after offset `o`. */
  function Nth(o: nat, k: nat): nat { o + 4 * k }

  /** Copies words in increasing order, so overlapping copies repeat like the engine's. */
  function Copy(v: View, s: seq<byte>, src: nat, dst: nat, words: nat): (r: seq<byte>)
    requires HasView(v, s)
    ensures |r| == |s|
  {
    if words == 0 then s
    else
      var t := Copy(v, s, src, dst, words - 1);
      Set(v, t, Nth(dst, words - 1), G(v, t, Nth(src, words - 1)))
  }

  /** The bytes of `words` consecutive words. */
  function Gather(v: View, s: seq<byte>, o: nat, words: nat): (r: seq<byte>)
    requires HasView(v, s)
    ensures |r| == 4 * words
  {
    if words == 0 then [] else Gather(v, s, o, words - 1) + BytesOf(G(v, s, Nth(o, words - 1)))
  }

  /** Writes the first `words` words of `b` at consecutive offsets. */
  function Scatter(v: View, s: seq<byte>, o: nat, b: seq<byte>, words: nat): (r: seq<byte>)
    requires HasView(v, s) && 4 * words <= |b|
    ensures |r| == |s|
  {
    if words == 0 then s
    else Set(v, Scatter(v, s, o, b, words - 1), Nth(o, words - 1), WordAt(b, 4 * (words - 1)))
  }

  /** Zeroes `words` consecutive words. */
  function ZeroWords(v: View, s: seq<byte>, o: nat, words: nat): (r: seq<byte>)
    requires HasView(v, s)
    ensures |r| == |s|
  {
    if words == 0 then s else Set(v, ZeroWords(v, s, o, words - 1), Nth(o, words - 1), 0)
  }

  /** The `n` bytes at byte address `p`, if they lie in the view. */
  predicate InView(v: View, s: seq<byte>, p: nat, n: nat) { p + n <= Span(v, s) }

  // ---- what a copy writes ------------------------------------------------------------------------

  /** One more word of a copy. */
  lemma CopyNext(v: View, s: seq<byte>, src: nat, dst: nat, n: nat, t: seq<byte>) returns (w: word)
    requires HasView(v, s) && t == Copy(v, s, src, dst, n)
    ensures HasView(v, t) && w == G(v, t, Nth(src, n)) && Copy(v, s, src, dst, n + 1) == Set(v, t, Nth(dst, n), w)
  {
    w := G(v, t, Nth(src, n));
  }

  lemma SetByte(t: seq<byte>, o: nat, w: word, k: nat)
    requires o + 4 <= |t| && k < 4
    ensures Set(Whole, t, o, w)[o + k] == BytesOf(w)[k]
  {
  }

  lemma WordByte(t: seq<byte>, o: nat, k: nat)
    requires o + 4 <= |t| && k < 4
    ensures BytesOf(WordAt(t, o))[k] == t[o + k]
  {
    WordBytesInverse(t[o..o + 4]);
  }

  /** The last word a 3-word copy wrote. */
  lemma LastWordCopied(s: seq<byte>, src: nat, dst: nat, k: nat)
    requires src + 12 <= dst && dst + 12 <= |s| && k < 4
    ensures Copy(Whole, s, src, dst, 3)[dst + 8 + k] == s[src + 8 + k]
  {
    var n: nat := 2;
    var t := Copy(Whole, s, src, dst, n);
    var w := CopyNext(Whole, s, src, dst, n, t);
    SetByte(t, Nth(dst, n), w, k);
    WordByte(t, Nth(src, n), k);
    CopyElsewhere(s, src, dst, n, src + 8 + k);
  }

  lemma {:induction false} CopyElsewhere(s: seq<byte>, src: nat, dst: nat, words: nat, k: nat)
    requires k < |s| && !(dst <= k < dst + 4 * words)
    ensures Copy(Whole, s, src, dst, words)[k] == s[k]
  {
    if words > 0 { CopyElsewhere(s, src, dst, words - 1, k); }
  }

  // ---- where the two views agree ---------------------------------------------------------------

  /** The mask changes no offset of `words` words from `o`. */
  predicate Unmasked(o: nat, words: nat) { o + 4 * words <= MASKED }

  lemma SameWord(s: seq<byte>, o: nat)
    requires |s| >= WINDOW && Unmasked(o, 1)
    ensures G(Window, s, o) == G(Whole, s, o)
    ensures forall w :: Set(Window, s, o, w) == Set(Whole, s, o, w)
  {
    assert o % MASKED == o;
  }

  lemma {:induction false} SameCopy(s: seq<byte>, src: nat, dst: nat, words: nat)
    requires |s| >= WINDOW && Unmasked(src, words) && Unmasked(dst, words)
    ensures Copy(Window, s, src, dst, words) == Copy(Whole, s, src, dst, words)
  {
    if words > 0 {
      SameCopy(s, src, dst, words - 1);
      var t := Copy(Whole, s, src, dst, words - 1);
      SameWord(t, Nth(src, words - 1));
      SameWord(t, Nth(dst, words - 1));
    }
  }

  lemma {:induction false} SameGather(s: seq<byte>, o: nat, words: nat)
    requires |s| >= WINDOW && Unmasked(o, words)
    ensures Gather(Window, s, o, words) == Gather(Whole, s, o, words)
  {
    if words > 0 {
      SameGather(s, o, words - 1);
      SameWord(s, Nth(o, words - 1));
    }
  }

  lemma ScatterNext(v: View, s: seq<byte>, o: nat, b: seq<byte>, n: nat, t: seq<byte>) returns (w: word)
    requires HasView(v, s) && 4 * (n + 1) <= |b| && t == Scatter(v, s, o, b, n)
    ensures HasView(v, t) && w == WordAt(b, 4 * n) && Scatter(v, s, o, b, n + 1) == Set(v, t, Nth(o, n), w)
  {
    w := WordAt(b, 4 * n);
  }

  lemma {:induction false} SameScatter(s: seq<byte>, o: nat, b: seq<byte>, words: nat)
    requires |s| >= WINDOW && Unmasked(o, words) && 4 * words <= |b|
    ensures Scatter(Window, s, o, b, words) == Scatter(Whole, s, o, b, words)
  {
    if words > 0 {
      var n := words - 1;
      SameScatter(s, o, b, n);
      var t := Scatter(Whole, s, o, b, n);
      var w := ScatterNext(Whole, s, o, b, n, t);
      var u := ScatterNext(Window, s, o, b, n, t);
      SameWord(t, Nth(o, n));
    }
  }

  /** Past the mask the views differ: the window wraps around to its start. */
  lemma MaskWraps(s: seq<byte>)
    requires |s| >= WINDOW + 4 && WordAt(s, 0) != WordAt(s, MASKED)
    ensures G(Window, s, MASKED) != G(Whole, s, MASKED)
  {
  }
}
