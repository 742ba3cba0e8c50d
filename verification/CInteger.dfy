/** C's `strtol` and `strtoul` (`src/stdlib/convert.rs`). */
module CInteger {
  import opened Bytes
  import opened Memory

  const U64_MAX: nat := 0xFFFF_FFFF_FFFF_FFFF
  const I64_MAX: int := 0x7FFF_FFFF_FFFF_FFFF
  const I64_MIN: int := -0x8000_0000_0000_0000

  predicate IsSpace(c: byte) { c == 32 || 9 <= c <= 13 }

  /** The value of a digit in bases up to 36. */
  function DigitValue(c: byte): (d: Option<nat>)
    ensures d.Some? ==> d.value < 36
  {
    if 48 <= c <= 57 then Some(c - 48)
    else if 97 <= c <= 122 then Some(c - 87)
    else if 65 <= c <= 90 then Some(c - 55)
    else None
  }

  /** Byte `i` is a digit of the base. */
  predicate IsDigit(s: seq<byte>, i: nat, base: nat) { i < |s| && DigitByte(s[i], base) }

  predicate DigitByte(c: byte, base: nat) { DigitValue(c).Some? && DigitValue(c).value < base }

  function SpaceEnd(s: seq<byte>, i: nat): (e: nat)
    requires i <= |s|
    ensures i <= e <= |s|
    decreases |s| - i
  {
    if i < |s| && IsSpace(s[i]) then SpaceEnd(s, i + 1) else i
  }

  predicate HasSign(s: seq<byte>, i: nat) { i < |s| && (s[i] == 45 || s[i] == 43) }

  predicate HasHexPrefix(s: seq<byte>, i: nat) {
    i + 2 < |s| && s[i] == 48 && (s[i + 1] == 120 || s[i + 1] == 88) && IsDigit(s, i + 2, 16)
  }

  /** The base of the digits at `i`: base 0 goes by their prefix. */
  function BaseAt(s: seq<byte>, i: nat, base: nat): nat {
    if base != 0 then base
    else if HasHexPrefix(s, i) then 16
    else if i < |s| && s[i] == 48 then 8
    else 10
  }

  /** Where a number is, what it is written in, and its sign. */
  datatype Number = Number(negative: bool, base: nat, first: nat, end: nat)

  function DigitsEnd(s: seq<byte>, i: nat, base: nat): (e: nat)
    requires i <= |s|
    ensures i <= e <= |s| && !IsDigit(s, e, base)
    ensures forall k :: i <= k < e ==> IsDigit(s, k, base)
    decreases |s| - i
  {
    if IsDigit(s, i, base) then DigitsEnd(s, i + 1, base) else i
  }

  function NumberIn(s: seq<byte>, base: nat): (n: Number)
    ensures n.first <= n.end <= |s| && forall k :: n.first <= k < n.end ==> IsDigit(s, k, n.base)
  {
    var p := SpaceEnd(s, 0);
    var i := if HasSign(s, p) then p + 1 else p;
    var b := BaseAt(s, i, base);
    var first := if b == 16 && HasHexPrefix(s, i) then i + 2 else i;
    Number(p < |s| && s[p] == 45, b, first, DigitsEnd(s, first, b))
  }

  /** The number the digits from `i` to `j` stand for. */
  function ValueOf(s: seq<byte>, i: nat, j: nat, base: nat): (v: nat)
    requires i <= j <= |s| && forall k :: i <= k < j ==> IsDigit(s, k, base)
    decreases j
  {
    if i == j then 0
    else
      assert IsDigit(s, j - 1, base);
      Times(ValueOf(s, i, j - 1, base), base) + DigitValue(s[j - 1]).value
  }

  /** The magnitude of the number in `s`, however many digits it has. */
  function Magnitude(s: seq<byte>, base: nat): nat {
    var n := NumberIn(s, base);
    ValueOf(s, n.first, n.end, n.base)
  }

  /** How much of `s` the number takes, or nothing without a digit. */
  function Used(s: seq<byte>, base: nat): nat {
    var n := NumberIn(s, base);
    if n.end == n.first then 0 else n.end
  }

  lemma {:induction false} MoreDigitsGrow(s: seq<byte>, i: nat, j: nat, e: nat, base: nat)
    requires i <= j <= e <= |s| && base >= 1 && forall k :: i <= k < e ==> IsDigit(s, k, base)
    ensures ValueOf(s, i, j, base) <= ValueOf(s, i, e, base)
    decreases e
  {
    if j < e {
      assert IsDigit(s, e - 1, base);
      MoreDigitsGrow(s, i, j, e - 1, base);
      TimesGrows(ValueOf(s, i, e - 1, base), base);
    }
  }

  lemma {:induction false} TimesGrows(v: nat, base: nat)
    requires base >= 1
    ensures v <= Times(v, base)
  {
    if v > 0 { TimesGrows(v - 1, base); }
  }

  /** Sums digits until the base's digits end; `overflow` says that the sum stopped fitting 64 bits. */
  method Digits(s: seq<byte>, first: nat, base: nat) returns (value: nat, overflow: bool, end: nat)
    requires first <= |s| && base >= 1
    ensures end == DigitsEnd(s, first, base)
    ensures overflow <==> ValueOf(s, first, end, base) > U64_MAX
    ensures !overflow ==> value == ValueOf(s, first, end, base)
  {
    value, overflow, end := 0, false, first;
    while IsDigit(s, end, base)
      invariant first <= end <= |s| && DigitsEnd(s, first, base) == DigitsEnd(s, end, base)
      invariant forall k :: first <= k < end ==> IsDigit(s, k, base)
      invariant overflow <==> ValueOf(s, first, end, base) > U64_MAX
      invariant !overflow ==> value == ValueOf(s, first, end, base)
      decreases |s| - end
    {
      var d := DigitValue(s[end]).value;
      MoreDigitsGrow(s, first, end, end + 1, base);
      var next := Times(value, base) + d;
      if next <= U64_MAX { value := next; } else { overflow := true; }
      end := end + 1;
    }
  }

  method SkipSpace(s: seq<byte>) returns (i: nat)
    ensures i == SpaceEnd(s, 0)
  {
    i := 0;
    while i < |s| && IsSpace(s[i])
      invariant i <= |s| && SpaceEnd(s, 0) == SpaceEnd(s, i)
    {
      i := i + 1;
    }
  }

  /** Reads what comes before the digits. */
  method Prefix(s: seq<byte>, base: nat) returns (negative: bool, b: nat, i: nat)
    ensures var n := NumberIn(s, base); negative == n.negative && b == n.base && i == n.first
  {
    i := SkipSpace(s);
    negative := false;
    if i < |s| && s[i] == 45 {
      i, negative := i + 1, true;
    } else if i < |s| && s[i] == 43 {
      i := i + 1;
    }
    b := BaseAt(s, i, base);
    if b == 16 && HasHexPrefix(s, i) { i := i + 2; }
  }

  method ParseCInteger(s: seq<byte>, base: nat) returns (negative: bool, value: nat, overflow: bool, end: nat)
    requires base == 0 || 2 <= base <= 36
    ensures negative == NumberIn(s, base).negative && end == Used(s, base)
    ensures overflow <==> Magnitude(s, base) > U64_MAX
    ensures !overflow ==> value == Magnitude(s, base)
  {
    var b, first;
    negative, b, first := Prefix(s, base);
    value, overflow, end := Digits(s, first, b);
    if end == first { end := 0; }
  }

  // ---- the two conversions ---------------------------------------------------------------------

  function Clamp(v: int): int { if v > I64_MAX then I64_MAX else if v < I64_MIN then I64_MIN else v }

  function SignedValue(s: seq<byte>, base: nat): int {
    if NumberIn(s, base).negative then -(Magnitude(s, base) as int) else Magnitude(s, base)
  }

  /** The number in `s`, clamped to 64 signed bits, for any number of digits. */
  method Strtol(s: seq<byte>, base: nat) returns (value: int, end: nat)
    requires base == 0 || 2 <= base <= 36
    ensures value == Clamp(SignedValue(s, base)) && end == Used(s, base)
  {
    var negative, mag, overflow;
    negative, mag, overflow, end := ParseCInteger(s, base);
    if overflow {
      value := if negative then I64_MIN else I64_MAX;
    } else if negative {
      value := if -(mag as int) < I64_MIN then I64_MIN else -(mag as int);
    } else {
      value := if mag > I64_MAX then I64_MAX else mag;
    }
  }

  /** The number in `s` modulo 2^64, or all ones when its magnitude does not fit. */
  method Strtoul(s: seq<byte>, base: nat) returns (value: nat, end: nat)
    requires base == 0 || 2 <= base <= 36
    ensures end == Used(s, base)
    ensures value == if Magnitude(s, base) > U64_MAX then U64_MAX else SignedValue(s, base) % (U64_MAX + 1)
  {
    var negative, mag, overflow;
    negative, mag, overflow, end := ParseCInteger(s, base);
    value := if overflow then U64_MAX else if negative && mag != 0 then U64_MAX + 1 - mag else mag;
  }

  // ---- round trip ------------------------------------------------------------------------------

  function DigitChar(d: nat): (c: byte)
    requires d < 36
    ensures DigitValue(c) == Some(d) && !IsSpace(c) && c != 45 && c != 43 && (c == 48 <==> d == 0)
  {
    if d < 10 then d + 48 else d + 87
  }

  /** The digits of a number. */
  function DigitsText(v: nat, base: nat): (t: seq<byte>)
    requires 2 <= base <= 36
    ensures t != [] && forall c :: c in t ==> DigitByte(c, base)
    decreases v
  {
    if v < base then [DigitChar(v)]
    else
      QuotientBelow(v, base);
      DigitsText(Quot(v, base), base) + [DigitChar(Rem(v, base))]
  }

  lemma QuotientBelow(v: nat, base: nat)
    requires 2 <= base <= v
    ensures 0 < Quot(v, base) < v && Times(Quot(v, base), base) + Rem(v, base) == v
  {
    var q := Quot(v, base);
    TimesGrows(q, base - 1);
    TimesSplit(q, base - 1);
    assert Times(0, base) == 0;
  }

  lemma {:induction false} TimesSplit(q: nat, d: nat)
    ensures Times(q, d + 1) == Times(q, d) + q
  {
    if q > 0 { TimesSplit(q - 1, d); }
  }

  /** A number as text. */
  function Text(v: int, base: nat): seq<byte>
    requires 2 <= base <= 36
  {
    if v < 0 then [45] + DigitsText(-v, base) else DigitsText(v, base)
  }

  /** A number of more than one digit does not start with a zero. */
  lemma {:induction false} NoLeadingZero(v: nat, base: nat)
    requires 2 <= base <= 36
    ensures v > 0 ==> DigitsText(v, base)[0] != 48
    ensures v == 0 ==> |DigitsText(v, base)| == 1
    decreases v
  {
    if v >= base {
      QuotientBelow(v, base);
      NoLeadingZero(Quot(v, base), base);
    }
  }

  lemma SliceInit(s: seq<byte>, at: nat, rest: seq<byte>, c: byte)
    requires at + |rest| + 1 <= |s| && s[at..at + |rest| + 1] == rest + [c]
    ensures s[at..at + |rest|] == rest && s[at + |rest|] == c
  {
    assert s[at + |rest|] == s[at..at + |rest| + 1][|rest|];
    assert s[at..at + |rest|] == s[at..at + |rest| + 1][..|rest|];
  }

  lemma AllDigits(s: seq<byte>, at: nat, t: seq<byte>, base: nat)
    requires at + |t| <= |s| && s[at..at + |t|] == t && forall c :: c in t ==> DigitByte(c, base)
    ensures forall k :: at <= k < at + |t| ==> IsDigit(s, k, base)
  {
    forall k | at <= k < at + |t|
      ensures IsDigit(s, k, base)
    {
      assert s[k] == s[at..at + |t|][k - at] == t[k - at];
    }
  }

  /** The digits of a number stand for it. */
  lemma {:induction false} TextValue(s: seq<byte>, at: nat, t: seq<byte>, v: nat, base: nat)
    requires 2 <= base <= 36 && t == DigitsText(v, base) && at + |t| <= |s| && s[at..at + |t|] == t
    ensures forall k :: at <= k < at + |t| ==> IsDigit(s, k, base)
    ensures ValueOf(s, at, at + |t|, base) == v
    decreases v
  {
    AllDigits(s, at, t, base);
    if v >= base {
      QuotientBelow(v, base);
      var q, d := Quot(v, base), Rem(v, base);
      var rest := DigitsText(q, base);
      SliceInit(s, at, rest, DigitChar(d));
      TextValue(s, at, rest, q, base);
    } else {
      SliceInit(s, at, [], DigitChar(v));
      assert ValueOf(s, at, at, base) == 0;
    }
  }

  lemma {:induction false} DigitsReach(s: seq<byte>, i: nat, base: nat)
    requires i <= |s| && forall k :: i <= k < |s| ==> IsDigit(s, k, base)
    ensures DigitsEnd(s, i, base) == |s|
    decreases |s| - i
  {
    if i < |s| { DigitsReach(s, i + 1, base); }
  }

  /** Digits that reach to the end, with no more than a minus sign before them, are the number. */
  lemma DigitsAreNumber(s: seq<byte>, at: nat, base: nat)
    requires 2 <= base <= 36 && at < |s| && forall k :: at <= k < |s| ==> IsDigit(s, k, base)
    requires at == 0 || (at == 1 && s[0] == 45)
    requires !(s[at] == 48 && at + 1 < |s|)
    ensures NumberIn(s, base) == Number(at == 1, base, at, |s|)
  {
    assert IsDigit(s, at, base);
    DigitsReach(s, at, base);
    assert SpaceEnd(s, 0) == 0;
    assert !HasHexPrefix(s, at);
  }

  /** What is written in a base is read back in it, all of it. */
  lemma StrtolReadsText(v: int, base: nat)
    requires 2 <= base <= 36
    ensures SignedValue(Text(v, base), base) == v && Used(Text(v, base), base) == |Text(v, base)|
    ensures I64_MIN <= v <= I64_MAX ==> Clamp(SignedValue(Text(v, base), base)) == v
  {
    var s := Text(v, base);
    var m: nat := if v < 0 then -v else v;
    var t, at := DigitsText(m, base), if v < 0 then 1 else 0;
    NoLeadingZero(m, base);
    assert s[at..at + |t|] == t;
    TextValue(s, at, t, m, base);
    DigitsAreNumber(s, at, base);
  }
}
