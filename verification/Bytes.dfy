/** Bytes, 32-bit words and their little-endian layout in a byte sequence (`src/bytes.rs`). */
module Bytes {

  type byte = x: int | 0 <= x < 0x100
  type word = x: int | 0 <= x < 0x1_0000_0000

  const U32: int := 0x1_0000_0000
  const U32_MAX: int := 0xFFFF_FFFF

  datatype Option<+T> = None | Some(value: T) {
    function GetOr(default: T): T { if Some? then value else default }
  }

  /** Two's-complement arithmetic keeps the low 32 bits. */
  function Wrap(x: int): (w: word) { x % U32 }

  /** The signed reading of a word. */
  function Signed(w: word): int { if w < 0x8000_0000 then w else w - U32 }

  function WordAt(s: seq<byte>, o: nat): (w: word)
    requires o + 4 <= |s|
  {
    s[o] as int + 0x100 * (s[o + 1] as int) + 0x1_0000 * (s[o + 2] as int) + 0x100_0000 * (s[o + 3] as int)
  }

  /** The four bytes of a word, low byte first. */
  function BytesOf(w: word): (b: seq<byte>)
    ensures |b| == 4 && WordAt(b, 0) == w
  {
    var (x, y) := (w / 0x100, w / 0x100 / 0x100);
    [w % 0x100, x % 0x100, y % 0x100, y / 0x100]
  }

  lemma WordBytesInverse(b: seq<byte>)
    requires |b| == 4
    ensures BytesOf(WordAt(b, 0)) == b
  {
    var w, c := WordAt(b, 0), BytesOf(WordAt(b, 0));
    var (p, q, r, t) := (b[0] as int, b[1] as int, b[2] as int, b[3] as int);
    assert w == p + 0x100 * (q + 0x100 * (r + 0x100 * t));
    assert w / 0x100 == q + 0x100 * (r + 0x100 * t);
    assert w / 0x100 / 0x100 == r + 0x100 * t;
    assert c[0] == b[0] && c[1] == b[1] && c[2] == b[2] && c[3] == b[3];
  }

  /** `s` with `b` written over the bytes at `o`. */
  function Splice(s: seq<byte>, o: nat, b: seq<byte>): (r: seq<byte>)
    requires o + |b| <= |s|
    ensures |r| == |s|
    ensures forall k :: 0 <= k < |s| ==> r[k] == if o <= k < o + |b| then b[k - o] else s[k]
  {
    seq(|s|, k requires 0 <= k < |s| => if o <= k < o + |b| then b[k - o] else s[k])
  }

  /** `n` zero bytes. */
  function Zeros(n: nat): (z: seq<byte>)
    ensures |z| == n && forall k :: 0 <= k < n ==> z[k] == 0
  {
    seq(n, i => 0)
  }

  /** The bytes before the first NUL (all of them if there is none). */
  function UntilNul(s: seq<byte>): (r: seq<byte>)
    ensures |r| <= |s| && r == s[..|r|]
    ensures 0 !in r
    ensures |r| < |s| ==> s[|r|] == 0
  {
    if s == [] || s[0] == 0 then [] else [s[0]] + UntilNul(s[1..])
  }
}
