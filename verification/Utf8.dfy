/** UTF-8 as QuakeC sees it (`src/stdlib/charset.rs`): RFC 3629 section 3, with the 5- and 6-byte
    forms of RFC 2279 section 2 and an overlong NUL. */
module Utf8 {
  import opened Bytes

  /** Code points the encoder can write. */
  const MAX_CODE: nat := 0x7FFF_FFFF
  const REPLACEMENT: nat := 0xFFFD

  datatype Utf8Error = Malformed | Illegal | LoneHighSurrogate | LowSurrogate

  datatype Decoded = Decoded(ch: nat, len: nat, error: Option<Utf8Error>)

  // ---- encoding --------------------------------------------------------------------------------

  /** How many bytes a code point takes. */
  function Width(ch: nat): (n: nat)
    ensures 1 <= n <= 6
  {
    if ch == 0 then 2 else if ch <= 0x7F then 1 else if ch <= 0x7FF then 2 else if ch <= 0xFFFF then 3
    else if ch <= 0x1F_FFFF then 4 else if ch <= 0x3FF_FFFF then 5 else 6
  }

  /** The marker bits of the lead byte of `n` bytes, and the number of values its payload has. */
  function Lead(n: nat): (b: nat)
    requires 2 <= n <= 6
  {
    if n == 2 then 0xC0 else if n == 3 then 0xE0 else if n == 4 then 0xF0 else if n == 5 then 0xF8 else 0xFC
  }

  function Payloads(n: nat): (b: nat)
    requires 2 <= n <= 6
  {
    if n == 2 then 0x20 else if n == 3 then 0x10 else if n == 4 then 8 else if n == 5 then 4 else 2
  }

  /** `ch` shifted right by `k` groups of six bits. */
  function Shifted(ch: nat, k: nat): nat { if k == 0 then ch else Shifted(ch / 64, k - 1) }

  /** The lowest `k` groups of six bits, highest first, as continuation bytes. */
  function Tail(ch: nat, k: nat): (t: seq<byte>)
    ensures |t| == k && forall i :: 0 <= i < k ==> 0x80 <= t[i] < 0xC0
  {
    if k == 0 then [] else Tail(ch / 64, k - 1) + [0x80 + ch % 64]
  }

  lemma LeadFits(ch: nat)
    requires ch <= MAX_CODE && Width(ch) >= 2
    ensures Shifted(ch, Width(ch) - 1) < Payloads(Width(ch))
    ensures Lead(Width(ch)) + Payloads(Width(ch)) <= 0xFE
  {
    var a := ch / 64;
    var b := a / 64;
    var c := b / 64;
    var d := c / 64;
    var e := d / 64;
    assert Shifted(ch, 1) == a && Shifted(ch, 2) == Shifted(a, 1) == b && Shifted(ch, 3) == Shifted(a, 2) == Shifted(b, 1) == c;
    assert Shifted(ch, 4) == Shifted(a, 3) == Shifted(b, 2) == Shifted(c, 1) == d;
    assert Shifted(ch, 5) == Shifted(a, 4) == Shifted(b, 3) == Shifted(c, 2) == Shifted(d, 1) == e;
  }

  /** The bytes of a code point. */
  function Encode(ch: nat): (r: seq<byte>)
    requires ch <= MAX_CODE
    ensures |r| == Width(ch)
  {
    var n := Width(ch);
    if n == 1 then [ch]
    else
      LeadFits(ch);
      [Lead(n) + Shifted(ch, n - 1)] + Tail(ch, n - 1)
  }

  /** The group of six bits number `k`, highest first, as the encoder's loop takes them. */
  lemma {:induction false} TailFirst(ch: nat, k: nat)
    ensures Tail(ch, k + 1) == [0x80 + Shifted(ch, k) % 64] + Tail(ch, k)
  {
    if k > 0 { TailFirst(ch / 64, k - 1); }
  }

  lemma EncodeParts(ch: nat, n: nat)
    requires ch <= MAX_CODE && n == Width(ch) && n >= 2
    ensures Lead(n) + Shifted(ch, n - 1) < 0xFE
    ensures Encode(ch) == [Lead(n) + Shifted(ch, n - 1)] + Tail(ch, n - 1)
  {
    LeadFits(ch);
  }

  /** Appends the encoding of a code point; larger values become the replacement character. */
  method AppendUtf8(out: seq<byte>, code: word) returns (r: seq<byte>)
    ensures r == out + Encode(if code > MAX_CODE then REPLACEMENT else code)
  {
    var ch: nat := if code > MAX_CODE then REPLACEMENT else code;
    if ch == 0 {
      assert Encode(0) == [0xC0, 0x80];
      return out + [0xC0, 0x80];
    }
    if ch <= 0x7F { return out + [ch]; }
    var n := Width(ch);
    EncodeParts(ch, n);
    var lead: seq<byte> := [Lead(n) + Shifted(ch, n - 1)];
    r := AppendTail(out + lead, ch, n - 1);
    JoinThree(out, lead, Tail(ch, n - 1));
  }

  /** Appends the lowest `n` groups of six bits, highest first. */
  method AppendTail(out: seq<byte>, ch: nat, n: nat) returns (r: seq<byte>)
    ensures r == out + Tail(ch, n)
  {
    r := out;
    for k := n downto 0
      invariant r + Tail(ch, k) == out + Tail(ch, n)
    {
      TailFirst(ch, k);
      ghost var before := r;
      r := r + [0x80 + Shifted(ch, k) % 64];
      assert before + Tail(ch, k + 1) == r + Tail(ch, k);
    }
    assert r == out + Tail(ch, n);
  }

  // ---- decoding --------------------------------------------------------------------------------

  predicate IsCont(s: seq<byte>, i: nat) { i < |s| && 0x80 <= s[i] < 0xC0 }

  /** The payload of bytes 1 up to (not including) `n`, after the lead byte's. */
  function Fold(acc: nat, s: seq<byte>, n: nat): nat
    requires 1 <= n <= |s|
  {
    if n == 1 then acc else Fold(acc, s, n - 1) * 64 + s[n - 1] % 64
  }

  /** The length a lead byte announces, and the smallest value that needs it. */
  function LengthOf(b: byte): (n: nat)
    requires 0xC0 <= b < 0xFE
    ensures 2 <= n <= 6 && Lead(n) <= b < Lead(n) + Payloads(n)
  {
    if b < 0xE0 then 2 else if b < 0xF0 then 3 else if b < 0xF8 then 4 else if b < 0xFC then 5 else 6
  }

  function Smallest(n: nat): nat
    requires 2 <= n <= 6
  {
    if n == 2 then 0x80 else if n == 3 then 0x800 else if n == 4 then 0x1_0000 else if n == 5 then 0x20_0000 else 0x400_0000
  }

  /** Decodes one sequence without surrogate handling. */
  function DecodeBasic(s: seq<byte>): (d: Decoded)
    ensures d.len >= 1 && (s != [] ==> d.len <= |s|)
  {
    if s == [] then Decoded(0, 1, None)
    else if s[0] < 0x80 then Decoded(s[0], 1, None)
    else if s[0] < 0xC0 || s[0] >= 0xFE then Decoded(0xE000 + s[0] as nat, 1, Some(Malformed))
    else
      var n := LengthOf(s[0]);
      if !(forall i :: 1 <= i < n ==> IsCont(s, i)) then Decoded(REPLACEMENT, 1, Some(Malformed))
      else
        assert IsCont(s, n - 1);
        var ch := Fold(s[0] as nat - Lead(n), s, n);
        Decoded(ch, n, if ch >= Smallest(n) || (n == 2 && ch == 0) then None else Some(Illegal))
  }

  predicate High(ch: nat) { 0xD800 <= ch < 0xDC00 }

  predicate Low(ch: nat) { 0xDC00 <= ch < 0xE000 }

  /** The character a high and a low surrogate form. */
  function Combine(high: nat, low: nat): nat { high % 0x400 * 0x400 + low % 0x400 + 0x1_0000 }

  /** Decodes one character. */
  function Decode(s: seq<byte>): (d: Decoded)
    ensures d.len >= 1 && (s != [] ==> d.len <= |s|)
  {
    var d := DecodeBasic(s);
    if d.error.Some? then d
    else
      var low := if d.len <= |s| then DecodeBasic(s[d.len..]) else DecodeBasic([]);
      var paired := High(d.ch) && low.error.None? && Low(low.ch);
      var d1 := if paired then Decoded(Combine(d.ch, low.ch), d.len + low.len, None)
                else if High(d.ch) then d.(error := Some(LoneHighSurrogate)) else d;
      var d2 := if Low(d1.ch) then d1.(error := Some(LowSurrogate)) else d1;
      if d2.ch == 0xFFFE || d2.ch == 0xFFFF || d2.ch > 0x10_FFFF then d2.(error := Some(Illegal)) else d2
  }

  /** A decoded character of a string: where it starts, what it is, how long it is. */
  datatype Char = Char(at: nat, ch: nat, len: nat)

  /** A decoder takes at least one byte, and no more than there are. */
  ghost predicate Decoder(dec: seq<byte> -> Decoded) {
    forall t {:trigger dec(t)} :: dec(t).len >= 1 && (t != [] ==> dec(t).len <= |t|)
  }

  /** The characters from byte offset `at` on. */
  function CharsBy(dec: seq<byte> -> Decoded, s: seq<byte>, at: nat): (r: seq<Char>)
    requires Decoder(dec)
    decreases |s| - at
  {
    if at >= |s| then []
    else var d := dec(s[at..]); [Char(at, d.ch, d.len)] + CharsBy(dec, s, at + d.len)
  }

  function CharsFrom(s: seq<byte>, at: nat): seq<Char> { CharsBy(Decode, s, at) }

  // ---- round trip ------------------------------------------------------------------------------

  /** Folding continuation bytes undoes splitting into them. */
  lemma {:induction false} FoldTail(s: seq<byte>, ch: nat, n: nat)
    requires 1 <= n <= |s| && s[1..n] == Tail(ch, n - 1)
    ensures Fold(Shifted(ch, n - 1), s, n) == ch
    decreases n
  {
    if n > 1 {
      assert s[1..n - 1] == s[1..n][..n - 2] == Tail(ch / 64, n - 2);
      assert s[n - 1] == s[1..n][n - 2] == 0x80 + ch % 64;
      FoldTail(s, ch / 64, n - 1);
      LastGroup(ch);
    }
  }

  lemma LastGroup(ch: nat)
    ensures (0x80 + ch % 64) % 64 == ch % 64 && ch / 64 * 64 + ch % 64 == ch
  {
  }

  /** Decoding starts with what was encoded, whatever follows. */
  lemma DecodesOne(ch: nat, rest: seq<byte>)
    requires ch <= MAX_CODE
    ensures DecodeBasic(Encode(ch) + rest) == Decoded(ch, Width(ch), None)
  {
    var s, n := Encode(ch) + rest, Width(ch);
    if n >= 2 {
      LeadFits(ch);
      assert s[0] == Lead(n) + Shifted(ch, n - 1);
      assert LengthOf(s[0]) == n;
      assert s[1..n] == Tail(ch, n - 1);
      forall i | 1 <= i < n
        ensures IsCont(s, i)
      {
        assert s[i] == s[1..n][i - 1];
      }
      FoldTail(s, ch, n);
    }
  }

  /** A text of code points. */
  predicate Codes(cs: seq<nat>) { forall i :: 0 <= i < |cs| ==> cs[i] <= MAX_CODE }

  function EncodeAll(cs: seq<nat>): seq<byte>
    requires Codes(cs)
  {
    if cs == [] then [] else Encode(cs[0]) + EncodeAll(cs[1..])
  }

  predicate PairAt(cs: seq<nat>, i: nat) { i + 1 < |cs| && High(cs[i]) && Low(cs[i + 1]) }

  /** What decoding yields for encoded code points that start at byte offset `at`: themselves, but a
      high surrogate directly followed by a low one is one character. */
  function Expected(cs: seq<nat>, at: nat): seq<Char>
    decreases |cs|
  {
    if cs == [] then []
    else if PairAt(cs, 0) then
      var len := Width(cs[0]) + Width(cs[1]);
      [Char(at, Combine(cs[0], cs[1]), len)] + Expected(cs[2..], at + len)
    else [Char(at, cs[0], Width(cs[0]))] + Expected(cs[1..], at + Width(cs[0]))
  }

  /** The first character decoded from encoded code points. */
  predicate FirstIs(d: Decoded, cs: seq<nat>)
    requires cs != []
  {
    if PairAt(cs, 0) then d.ch == Combine(cs[0], cs[1]) && d.len == Width(cs[0]) + Width(cs[1])
    else d.ch == cs[0] && d.len == Width(cs[0])
  }

  lemma DecodesNext(cs: seq<nat>)
    requires Codes(cs) && cs != []
    ensures FirstIs(Decode(EncodeAll(cs)), cs)
  {
    var s, n := EncodeAll(cs), Width(cs[0]);
    DecodesOne(cs[0], EncodeAll(cs[1..]));
    assert s[n..] == EncodeAll(cs[1..]);
    if |cs| > 1 {
      DecodesOne(cs[1], EncodeAll(cs[1..][1..]));
    }
  }

  lemma DropTwice(s: seq<byte>, at: nat, n: nat, a: seq<byte>, b: seq<byte>)
    requires at <= |s| && s[at..] == a + b && |a| == n
    ensures at + n <= |s| && s[at + n..] == b
  {
    assert s[at + n..] == s[at..][n..];
  }

  lemma JoinThree(a: seq<byte>, b: seq<byte>, c: seq<byte>)
    ensures a + (b + c) == (a + b) + c
  {
  }

  lemma EncodeFirst(cs: seq<nat>)
    requires Codes(cs) && cs != []
    ensures EncodeAll(cs) == Encode(cs[0]) + EncodeAll(cs[1..])
  {
  }

  lemma EncodeTwo(cs: seq<nat>)
    requires Codes(cs) && |cs| >= 2
    ensures EncodeAll(cs) == (Encode(cs[0]) + Encode(cs[1])) + EncodeAll(cs[2..])
  {
    assert cs[1..][1..] == cs[2..];
    EncodeFirst(cs);
    EncodeFirst(cs[1..]);
    JoinThree(Encode(cs[0]), Encode(cs[1]), EncodeAll(cs[2..]));
  }

  /** Two code points are decoded as one character. */
  lemma DecodesPair(dec: seq<byte> -> Decoded, s: seq<byte>, at: nat, cs: seq<nat>)
    requires Decoder(dec) && Codes(cs) && at <= |s| && s[at..] == EncodeAll(cs)
    requires PairAt(cs, 0) && FirstIs(dec(s[at..]), cs)
    ensures var n := Width(cs[0]) + Width(cs[1]);
      && at + n <= |s| && s[at + n..] == EncodeAll(cs[2..])
      && CharsBy(dec, s, at) == [Char(at, Combine(cs[0], cs[1]), n)] + CharsBy(dec, s, at + n)
  {
    EncodeTwo(cs);
    DropTwice(s, at, Width(cs[0]) + Width(cs[1]), Encode(cs[0]) + Encode(cs[1]), EncodeAll(cs[2..]));
  }

  /** One code point is decoded as itself. */
  lemma DecodesSingle(dec: seq<byte> -> Decoded, s: seq<byte>, at: nat, cs: seq<nat>)
    requires Decoder(dec) && Codes(cs) && cs != [] && at <= |s| && s[at..] == EncodeAll(cs)
    requires !PairAt(cs, 0) && FirstIs(dec(s[at..]), cs)
    ensures var n := Width(cs[0]);
      && at + n <= |s| && s[at + n..] == EncodeAll(cs[1..])
      && CharsBy(dec, s, at) == [Char(at, cs[0], n)] + CharsBy(dec, s, at + n)
  {
    EncodeFirst(cs);
    DropTwice(s, at, Width(cs[0]), Encode(cs[0]), EncodeAll(cs[1..]));
  }

  /** The decoder finds the first character of encoded code points. */
  ghost predicate FindsFirst(dec: seq<byte> -> Decoded, cs: seq<nat>)
    requires Codes(cs) && cs != []
  {
    FirstIs(dec(EncodeAll(cs)), cs)
  }

  lemma {:induction false} DecodesAllBy(dec: seq<byte> -> Decoded, s: seq<byte>, at: nat, cs: seq<nat>)
    requires Decoder(dec) && forall c {:trigger FindsFirst(dec, c)} :: Codes(c) && c != [] ==> FindsFirst(dec, c)
    requires Codes(cs) && at <= |s| && s[at..] == EncodeAll(cs)
    ensures CharsBy(dec, s, at) == Expected(cs, at)
    decreases |cs|
  {
    if cs != [] {
      assert FindsFirst(dec, cs);
      if PairAt(cs, 0) {
        DecodesPair(dec, s, at, cs);
        DecodesAllBy(dec, s, at + (Width(cs[0]) + Width(cs[1])), cs[2..]);
      } else {
        DecodesSingle(dec, s, at, cs);
        DecodesAllBy(dec, s, at + Width(cs[0]), cs[1..]);
      }
    }
  }

  /** Encoding code points and iterating over the bytes gives `Expected`, for any code points. */
  lemma DecodesAll(cs: seq<nat>)
    requires Codes(cs)
    ensures CharsFrom(EncodeAll(cs), 0) == Expected(cs, 0)
  {
    forall c | Codes(c) && c != []
      ensures FindsFirst(Decode, c)
    {
      DecodesNext(c);
    }
    assert EncodeAll(cs)[0..] == EncodeAll(cs);
    DecodesAllBy(Decode, EncodeAll(cs), 0, cs);
  }

  /** Code points, in order. */
  function CodesOf(chars: seq<Char>): (r: seq<nat>)
    ensures |r| == |chars| && forall i :: 0 <= i < |r| ==> r[i] == chars[i].ch
  {
    seq(|chars|, i requires 0 <= i < |chars| => chars[i].ch)
  }

  predicate NoPair(cs: seq<nat>) { forall i :: 0 <= i < |cs| ==> !PairAt(cs, i) }

  /** Decoding gives back what was encoded exactly when no high surrogate is directly followed by a
      low one. */
  lemma RoundTrip(cs: seq<nat>)
    requires Codes(cs)
    ensures CodesOf(CharsFrom(EncodeAll(cs), 0)) == cs <==> NoPair(cs)
  {
    DecodesAll(cs);
    ExpectedCodes(cs, 0);
  }

  lemma {:induction false} ExpectedCodes(cs: seq<nat>, at: nat)
    ensures |Expected(cs, at)| <= |cs|
    ensures NoPair(cs) ==> CodesOf(Expected(cs, at)) == cs
    ensures !NoPair(cs) ==> |Expected(cs, at)| < |cs|
    decreases |cs|
  {
    if cs != [] {
      if PairAt(cs, 0) {
        ExpectedCodes(cs[2..], at + (Width(cs[0]) + Width(cs[1])));
      } else {
        ExpectedCodes(cs[1..], at + Width(cs[0]));
        if NoPair(cs) {
          assert forall i :: 0 <= i < |cs| - 1 && PairAt(cs[1..], i) ==> PairAt(cs, i + 1);
          assert cs == [cs[0]] + cs[1..];
        } else {
          var i :| 0 <= i < |cs| && PairAt(cs, i);
          assert PairAt(cs[1..], i - 1);
        }
      }
    }
  }

  // ---- offsets ---------------------------------------------------------------------------------

  /** The byte offset of character `index`, or the end. */
  function ByteOffset(s: seq<byte>, index: nat): nat {
    var cs := CharsFrom(s, 0);
    if index < |cs| then cs[index].at else |s|
  }

  /** How many of the characters end at or before byte offset `ofs`, up to the first that does not. */
  function Ending(cs: seq<Char>, ofs: nat): (n: nat)
    ensures n <= |cs|
  {
    if cs == [] || cs[0].at + cs[0].len > ofs then 0 else 1 + Ending(cs[1..], ofs)
  }

  function CharOffset(s: seq<byte>, ofs: nat): nat { Ending(CharsFrom(s, 0), ofs) }

  /** Where character number `i` ends up starting: the end of the one before. */
  function StartOf(cs: seq<Char>, from: nat, i: nat): nat
    requires i <= |cs|
  {
    if i == 0 then from else cs[i - 1].at + cs[i - 1].len
  }

  /** Characters that tile from `from` on. */
  predicate Tiles(cs: seq<Char>, from: nat) {
    forall i {:trigger StartOf(cs, from, i)} :: 0 <= i < |cs| ==> cs[i].at == StartOf(cs, from, i) && cs[i].len >= 1
  }

  lemma TilesCons(c: Char, rest: seq<Char>)
    requires c.len >= 1 && Tiles(rest, c.at + c.len)
    ensures Tiles([c] + rest, c.at)
    ensures StartOf([c] + rest, c.at, |rest| + 1) == StartOf(rest, c.at + c.len, |rest|)
  {
    var cs := [c] + rest;
    forall i | 0 <= i < |cs|
      ensures cs[i].at == StartOf(cs, c.at, i) && cs[i].len >= 1
    {
      if i > 0 {
        assert cs[i] == rest[i - 1];
        assert rest[i - 1].at == StartOf(rest, c.at + c.len, i - 1);
      }
    }
  }

  /** The characters cover the bytes from `at` on, one after another. */
  lemma {:induction false} CharsTile(dec: seq<byte> -> Decoded, s: seq<byte>, at: nat)
    requires Decoder(dec) && at <= |s|
    ensures Tiles(CharsBy(dec, s, at), at) && StartOf(CharsBy(dec, s, at), at, |CharsBy(dec, s, at)|) == |s|
    decreases |s| - at
  {
    if at < |s| {
      var d := dec(s[at..]);
      var next := at + d.len;
      CharsTile(dec, s, next);
      TilesCons(Char(at, d.ch, d.len), CharsBy(dec, s, next));
      FirstChar(dec, s, at, Char(at, d.ch, d.len), CharsBy(dec, s, next));
    }
  }

  lemma FirstChar(dec: seq<byte> -> Decoded, s: seq<byte>, at: nat, c: Char, rest: seq<Char>)
    requires Decoder(dec) && at < |s|
    requires var d := dec(s[at..]); c == Char(at, d.ch, d.len) && rest == CharsBy(dec, s, at + d.len)
    ensures CharsBy(dec, s, at) == [c] + rest
  {
  }

  lemma {:induction false} EndingAt(cs: seq<Char>, from: nat, k: nat)
    requires Tiles(cs, from) && k <= |cs|
    ensures from + k <= StartOf(cs, from, k) && Ending(cs, StartOf(cs, from, k)) == k
    decreases k
  {
    if k > 0 {
      var rest := cs[1..];
      var next := cs[0].at + cs[0].len;
      forall i | 0 <= i < |rest|
        ensures rest[i].at == StartOf(rest, next, i) && rest[i].len >= 1
      {
        assert cs[i + 1].at == StartOf(cs, from, i + 1);
      }
      assert cs[0].at == StartOf(cs, from, 0);
      EndingAt(rest, next, k - 1);
      assert StartOf(rest, next, k - 1) == StartOf(cs, from, k);
    } else if cs != [] {
      assert cs[0].at == StartOf(cs, from, 0);
    }
  }

  /** Character and byte offsets are inverse on character boundaries, for any bytes. */
  lemma OffsetsInverse(s: seq<byte>, index: nat)
    requires index <= |CharsFrom(s, 0)|
    ensures CharOffset(s, ByteOffset(s, index)) == index
    ensures ByteOffset(s, CharOffset(s, ByteOffset(s, index))) == ByteOffset(s, index)
    ensures ByteOffset(s, index) == |s| <==> index == |CharsFrom(s, 0)|
  {
    var cs := CharsFrom(s, 0);
    CharsTile(Decode, s, 0);
    EndingAt(cs, 0, index);
    EndingAt(cs, 0, |cs|);
    if index < |cs| { assert cs[index].at == StartOf(cs, 0, index); }
  }
}
