/** Hex floats in text: the mantissa, the exponent, and their value (`src/stdlib/convert.rs`; the
    hexadecimal form of C99 `strtod`). */
module HexText {
  import opened Bytes
  import opened HexFloat
  import opened HexParse

  const POINT: byte := 46
  const MINUS: byte := 45
  const PLUS: byte := 43

  function HexVal(c: byte): (r: Option<nat>)
    ensures r.Some? ==> r.value < 16
  {
    if 48 <= c <= 57 then Some(c as nat - 48)
    else if 65 <= c <= 70 then Some(c as nat - 55)
    else if 97 <= c <= 102 then Some(c as nat - 87)
    else None
  }

  // ---- the mantissa ----------------------------------------------------------------------------

  /** Where the longest run of hex digits with at most one point ends. */
  function MantissaEnd(s: seq<byte>, i: nat, point: bool): (r: nat)
    requires i <= |s|
    ensures i <= r <= |s|
    decreases |s| - i
  {
    if i == |s| then i
    else if s[i] == POINT && !point then MantissaEnd(s, i + 1, true)
    else if HexVal(s[i]).Some? then MantissaEnd(s, i + 1, point)
    else i
  }

  /** The hex digits of a text. */
  function DigitsOf(t: seq<byte>): (r: seq<nat>)
    ensures Hex(r)
  {
    if t == [] then []
    else
      var v := HexVal(t[|t| - 1]);
      if v.Some? then DigitsOf(t[..|t| - 1]) + [v.value] else DigitsOf(t[..|t| - 1])
  }

  /** How many of them stand after the point. */
  function Fraction(t: seq<byte>): nat {
    if t == [] || HexVal(t[|t| - 1]).None? || POINT !in t[..|t| - 1] then 0 else Fraction(t[..|t| - 1]) + 1
  }

  /** Digits without leading zeros. */
  function Strip(ds: seq<nat>): (r: seq<nat>)
    ensures |r| <= |ds| && (r != [] ==> r[0] != 0)
    ensures Hex(ds) ==> Hex(r)
  {
    if ds != [] && ds[0] == 0 then Strip(ds[1..]) else ds
  }

  lemma {:induction false} StripSnoc(ds: seq<nat>, d: nat)
    ensures Strip(ds + [d]) == if Strip(ds) == [] && d == 0 then [] else Strip(ds) + [d]
  {
    if ds == [] {
      assert ds + [d] == [d];
      assert [d][1..] == [];
    } else if ds[0] == 0 {
      assert (ds + [d])[1..] == ds[1..] + [d];
      StripSnoc(ds[1..], d);
    }
  }

  /** Leading zeros add nothing. */
  lemma {:induction false} StripValue(ds: seq<nat>)
    ensures Value(Strip(ds)) == Value(ds)
  {
    if ds != [] && ds[0] == 0 {
      StripValue(ds[1..]);
      assert ds == [0] + ds[1..];
      ValueSplit([0], ds[1..]);
      assert [0][..0] == [] && Value([0]) == 0;
      ShlOrder(0, 1, Bits(|ds[1..]|));
    }
  }

  /** The kept digits, whether the others are nonzero, and their number. */
  function FirstDigits(ds: seq<nat>): seq<nat> { if |ds| <= KEPT then ds else ds[..KEPT] }

  function OtherDigits(ds: seq<nat>): seq<nat> { if |ds| <= KEPT then [] else ds[KEPT..] }

  lemma OneMoreDigit(ds: seq<nat>, d: nat)
    ensures |ds| < KEPT ==> FirstDigits(ds + [d]) == FirstDigits(ds) + [d] && OtherDigits(ds + [d]) == []
    ensures |ds| >= KEPT ==>
              && FirstDigits(ds + [d]) == FirstDigits(ds)
              && (NonZero(OtherDigits(ds + [d])) <==> NonZero(OtherDigits(ds)) || d != 0)
              && |OtherDigits(ds + [d])| == |OtherDigits(ds)| + 1
  {
    if |ds| >= KEPT {
      NonZeroNext(ds[KEPT..], d);
      assert OtherDigits(ds + [d]) == ds[KEPT..] + [d];
      assert |ds| == KEPT ==> ds[KEPT..] == [];
      assert (ds + [d])[..KEPT] == ds[..KEPT];
    }
  }

  /** What is known after reading text `t`. */
  predicate Read(t: seq<byte>, digits: seq<nat>, sticky: bool, scale: int) {
    var sig := Strip(DigitsOf(t));
    && digits == FirstDigits(sig) && (sticky <==> NonZero(OtherDigits(sig)))
    && scale == Bits(|OtherDigits(sig)|) - Bits(Fraction(t))
  }

  /** One more digit. */
  lemma ReadDigit(t: seq<byte>, c: byte, digits: seq<nat>, sticky: bool, scale: int)
    requires Read(t, digits, sticky, scale) && HexVal(c).Some?
    ensures var h := HexVal(c).value;
      var skip := digits == [] && h == 0;
      var keep := |digits| < KEPT;
      Read(t + [c], if skip || !keep then digits else digits + [h], sticky || (!skip && !keep && h != 0),
           scale + (if !skip && !keep then 4 else 0) - (if POINT in t then 4 else 0))
  {
    var h, ds := HexVal(c).value, DigitsOf(t);
    assert (t + [c])[..|t|] == t;
    assert DigitsOf(t + [c]) == ds + [h];
    StripSnoc(ds, h);
    OneMoreDigit(Strip(ds), h);
    if POINT !in t { NoPointNoFraction(t); }
  }

  lemma NoPointNoFraction(t: seq<byte>)
    requires POINT !in t
    ensures Fraction(t) == 0
  {
  }

  lemma ReadPoint(t: seq<byte>, digits: seq<nat>, sticky: bool, scale: int)
    requires Read(t, digits, sticky, scale) && POINT !in t
    ensures Read(t + [POINT], digits, sticky, scale)
  {
    assert (t + [POINT])[..|t|] == t;
    NoPointNoFraction(t);
  }

  /** Reads one more digit. */
  method Digit(h: nat, seenPoint: bool, digits: seq<nat>, sticky: bool, scale: int, ghost t: seq<byte>, ghost c: byte)
    returns (digits': seq<nat>, sticky': bool, scale': int)
    requires Read(t, digits, sticky, scale) && HexVal(c) == Some(h) && (seenPoint <==> POINT in t)
    ensures Read(t + [c], digits', sticky', scale')
  {
    ReadDigit(t, c, digits, sticky, scale);
    digits', sticky', scale' := digits, sticky, scale;
    if digits == [] && h == 0 {
      // Leading zeros only shift fractional digits.
    } else if |digits| < KEPT {
      digits' := digits + [h];
    } else {
      sticky' := sticky || h != 0;
      scale' := scale + 4;
    }
    if seenPoint { scale' := scale' - 4; }
  }

  /** What the mantissa's first `i` bytes have been read as. */
  ghost predicate ReadUpTo(s: seq<byte>, i: nat, digits: seq<nat>, sticky: bool, scale: int, any: bool, seenPoint: bool) {
    && i <= |s| && Read(s[..i], digits, sticky, scale)
    && (seenPoint <==> POINT in s[..i]) && (any <==> DigitsOf(s[..i]) != [])
  }

  /** A decimal point, which ends the mantissa if it is the second. */
  lemma PointRead(s: seq<byte>, i: nat, digits: seq<nat>, sticky: bool, scale: int, any: bool)
    requires i < |s| && s[i] == POINT && ReadUpTo(s, i, digits, sticky, scale, any, false)
    ensures ReadUpTo(s, i + 1, digits, sticky, scale, any, true)
  {
    OneMore(s, i);
    ReadPoint(s[..i], digits, sticky, scale);
  }

  /** Reads one more digit of the mantissa. */
  method MantissaDigit(h: nat, seenPoint: bool, digits: seq<nat>, sticky: bool, scale: int, ghost s: seq<byte>, ghost i: nat, ghost any: bool)
    returns (digits': seq<nat>, sticky': bool, scale': int)
    requires i < |s| && HexVal(s[i]) == Some(h) && ReadUpTo(s, i, digits, sticky, scale, any, seenPoint)
    ensures ReadUpTo(s, i + 1, digits', sticky', scale', true, seenPoint)
  {
    OneMore(s, i);
    digits', sticky', scale' := Digit(h, seenPoint, digits, sticky, scale, s[..i], s[i]);
  }

  /** Reads one byte of the mantissa, if it goes on. */
  method MantissaByte(s: seq<byte>, i: nat, digits: seq<nat>, sticky: bool, scale: int, any: bool, seenPoint: bool)
    returns (more: bool, digits': seq<nat>, sticky': bool, scale': int, any': bool, seenPoint': bool)
    requires i < |s| && ReadUpTo(s, i, digits, sticky, scale, any, seenPoint)
    ensures more ==> ReadUpTo(s, i + 1, digits', sticky', scale', any', seenPoint')
    ensures MantissaEnd(s, i, seenPoint) == if more then MantissaEnd(s, i + 1, seenPoint') else i
  {
    more, digits', sticky', scale', any', seenPoint' := true, digits, sticky, scale, any, seenPoint;
    if s[i] == POINT && !seenPoint {
      PointRead(s, i, digits, sticky, scale, any);
      seenPoint' := true;
    } else {
      var v := HexVal(s[i]);
      more := v.Some?;
      if more {
        digits', sticky', scale' := MantissaDigit(v.value, seenPoint, digits, sticky, scale, s, i, any);
        any' := true;
      }
    }
  }

  /** Reads the mantissa. */
  method Mantissa(s: seq<byte>) returns (digits: seq<nat>, sticky: bool, scale: int, any: bool, i: nat)
    ensures i == MantissaEnd(s, 0, false) && Read(s[..i], digits, sticky, scale)
    ensures any <==> DigitsOf(s[..i]) != []
  {
    digits, sticky, scale, any, i := [], false, 0, false, 0;
    var seenPoint := false;
    ghost var end := MantissaEnd(s, 0, false);
    while i < |s|
      invariant i <= |s| && MantissaEnd(s, i, seenPoint) == end
      invariant ReadUpTo(s, i, digits, sticky, scale, any, seenPoint)
    {
      var more, digits', sticky', scale', any', seenPoint' := MantissaByte(s, i, digits, sticky, scale, any, seenPoint);
      if !more { return; }
      digits, sticky, scale, any, seenPoint, i := digits', sticky', scale', any', seenPoint', i + 1;
    }
  }

  lemma OneMore(s: seq<byte>, i: nat)
    requires i < |s|
    ensures s[..i + 1] == s[..i] + [s[i]]
    ensures POINT in s[..i + 1] <==> POINT in s[..i] || s[i] == POINT
    ensures DigitsOf(s[..i + 1]) == if HexVal(s[i]).Some? then DigitsOf(s[..i]) + [HexVal(s[i]).value] else DigitsOf(s[..i])
  {
    assert (s[..i] + [s[i]])[..i] == s[..i];
  }

  // ---- the exponent ----------------------------------------------------------------------------

  const I64_MAX: int := 0x7FFF_FFFF_FFFF_FFFF
  const I64_MIN: int := -0x8000_0000_0000_0000

  /** Saturating 64-bit arithmetic. */
  function Sat(x: int): int { if x > I64_MAX then I64_MAX else if x < I64_MIN then I64_MIN else x }

  predicate IsDecimal(s: seq<byte>, i: nat) { i < |s| && 48 <= s[i] <= 57 }

  function DecimalEnd(s: seq<byte>, i: nat): (r: nat)
    ensures i <= r
    decreases |s| - i
  {
    if IsDecimal(s, i) then DecimalEnd(s, i + 1) else i
  }

  function DecimalValue(s: seq<byte>, from: nat, to: nat): nat
    requires from <= to <= |s| && forall i :: from <= i < to ==> IsDecimal(s, i)
  {
    if to == from then 0 else assert IsDecimal(s, to - 1); 10 * DecimalValue(s, from, to - 1) + (s[to - 1] as nat - 48)
  }

  lemma {:induction false} DecimalRun(s: seq<byte>, i: nat)
    requires i <= |s|
    ensures DecimalEnd(s, i) <= |s| && forall k :: i <= k < DecimalEnd(s, i) ==> IsDecimal(s, k)
    decreases |s| - i
  {
    if IsDecimal(s, i) { DecimalRun(s, i + 1); }
  }

  predicate HasSign(s: seq<byte>, j: nat) { j < |s| && (s[j] == MINUS || s[j] == PLUS) }

  /** Where the digits of the exponent at `j` start, if there is one. */
  function ExponentDigits(s: seq<byte>, j: nat): Option<nat>
    ensures ExponentDigits(s, j).Some? ==> j < ExponentDigits(s, j).value < |s|
  {
    if j < |s| && (s[j] == 112 || s[j] == 80) then
      var k := if HasSign(s, j + 1) then j + 2 else j + 1;
      if IsDecimal(s, k) then Some(k) else None
    else None
  }

  function ExponentEnd(s: seq<byte>, j: nat): nat {
    match ExponentDigits(s, j) case None => j case Some(k) => DecimalEnd(s, k)
  }

  /** The exponent, 0 without one. */
  function ExponentOf(s: seq<byte>, j: nat): int {
    match ExponentDigits(s, j)
    case None => 0
    case Some(k) =>
      DecimalRun(s, k);
      var e: int := DecimalValue(s, k, DecimalEnd(s, k));
      if s[j + 1] == MINUS then -e else e
  }

  /** Reads decimal digits, saturating. */
  method Decimal(s: seq<byte>, from: nat) returns (e: int, j: nat)
    requires from <= |s|
    ensures j == DecimalEnd(s, from) && j <= |s|
    ensures forall k :: from <= k < j ==> IsDecimal(s, k)
    ensures e == Sat(DecimalValue(s, from, j))
  {
    e, j := 0, from;
    while IsDecimal(s, j)
      invariant from <= j <= |s| && DecimalEnd(s, from) == DecimalEnd(s, j)
      invariant forall k :: from <= k < j ==> IsDecimal(s, k)
      invariant e == Sat(DecimalValue(s, from, j))
      decreases |s| - j
    {
      e := Sat(Sat(e * 10) + (s[j] as int - 48));
      j := j + 1;
    }
  }

  /** The scale with the exponent added, saturating. */
  function Applied(scale: int, e: int): int { if e < 0 then Sat(scale - Sat(-e)) else Sat(scale + Sat(e)) }

  /** Reads the exponent, if there is one, into the scale. */
  method Exponent(s: seq<byte>, i: nat, scale: int) returns (scale': int, end: nat)
    requires i <= |s|
    ensures end == ExponentEnd(s, i)
    ensures scale' == Applied(scale, ExponentOf(s, i))
  {
    scale', end := Sat(scale), i;
    if i < |s| && (s[i] == 112 || s[i] == 80) {
      var j := i + 1;
      var negative := false;
      if j < |s| && s[j] == MINUS {
        j, negative := j + 1, true;
      } else if j < |s| && s[j] == PLUS {
        j := j + 1;
      }
      if IsDecimal(s, j) {
        var e;
        e, end := Decimal(s, j);
        scale' := if negative then Sat(scale - e) else Sat(scale + e);
      }
    }
  }

  // ---- hex floats ------------------------------------------------------------------------------

  /** Strings are shorter than what could overflow 64 bits of scale. */
  const LENGTH_LIMIT: nat := 0x200_0000_0000_0000

  /** The scale of the cut digits. */
  lemma CutParts(sig: seq<nat>, e: int)
    ensures Cut(sig) == FirstDigits(sig) + (if NonZero(OtherDigits(sig)) then [1] else [])
    ensures CutScale(sig, e) == e + Bits(|OtherDigits(sig)|) - (if NonZero(OtherDigits(sig)) then 4 else 0)
  {
    if |sig| <= KEPT { assert FirstDigits(sig) + [] == sig; }
  }

  /** The scale the source ends up with, for digits cut and an exponent that may have saturated. */
  function FinalScale(sig: seq<nat>, base: int, e: int): int {
    var a := Applied(base + Bits(|OtherDigits(sig)|), e);
    if NonZero(OtherDigits(sig)) then Sat(a - 4) else a
  }

  predicate Small(x: int) { -0x1000_0000_0000_0000 <= x <= 0x1000_0000_0000_0000 }

  /** The double of the cut digits: the digits' own. */
  lemma CutDouble(sig: seq<nat>, e: int, cut: seq<nat>, exact: int)
    requires Hex(sig) && sig != [] && sig[0] != 0 && cut == Cut(sig) && exact == CutScale(sig, e)
    ensures Hex(cut) && cut != [] && cut[0] != 0 && ToDouble(cut, exact) == ToDouble(sig, e)
    ensures exact + Bits(|cut|) > 1100 ==> ToDouble(sig, e) == Inf
    ensures exact + Bits(|cut|) < -1200 ==> ToDouble(sig, e) == Zero
  {
    CutSame(sig, e);
    OutOfRange(cut, exact);
  }

  /** The scale the source ends up with against the exact one of the cut digits. */
  lemma ScaleOfCut(sig: seq<nat>, base: int, e: int, cut: seq<nat>, scale: int, top: int)
    requires cut == Cut(sig) && Small(base + Bits(|OtherDigits(sig)|)) && scale == FinalScale(sig, base, e)
    requires top == Sat(scale + Bits(|cut|))
    ensures var exact := CutScale(sig, base + e);
      && (top > 1100 ==> exact + Bits(|cut|) > 1100)
      && (top < -1200 ==> exact + Bits(|cut|) < -1200)
      && (-1200 <= top <= 1100 ==> scale == exact)
  {
    CutParts(sig, base + e);
    ScaleBounds(base + Bits(|OtherDigits(sig)|), e, if NonZero(OtherDigits(sig)) then 4 else 0, Bits(|cut|), scale, top);
  }

  /** Saturation only happens where the double is infinite or zero anyway. */
  lemma SaturationHarmless(sig: seq<nat>, base: int, e: int, cut: seq<nat>, scale: int, top: int)
    requires Hex(sig) && sig != [] && sig[0] != 0 && cut == Cut(sig)
    requires Small(base + Bits(|OtherDigits(sig)|)) && scale == FinalScale(sig, base, e)
    requires top == Sat(scale + Bits(|cut|))
    ensures Hex(cut) && cut != [] && cut[0] != 0
    ensures top > 1100 ==> ToDouble(sig, base + e) == Inf
    ensures top < -1200 ==> ToDouble(sig, base + e) == Zero
    ensures -1200 <= top <= 1100 ==> ToDouble(sig, base + e) == ToDouble(cut, scale)
  {
    ScaleOfCut(sig, base, e, cut, scale, top);
    CutDouble(sig, base + e, cut, CutScale(sig, base + e));
  }

  lemma ScaleBounds(m: int, e: int, c: int, bits: int, scale: int, top: int)
    requires Small(m) && 0 <= c <= 4 && 0 <= bits <= 164
    requires scale == (if c > 0 then Sat(Applied(m, e) - c) else Applied(m, e)) && top == Sat(scale + bits)
    ensures top > 1100 ==> m + e - c + bits > 1100
    ensures top < -1200 ==> m + e - c + bits < -1200
    ensures -1200 <= top <= 1100 ==> scale == m + e - c
  {
  }

  /** The number of digits after the point. */
  lemma {:induction false} FractionFits(t: seq<byte>)
    ensures Fraction(t) <= |t| && |DigitsOf(t)| <= |t|
  {
    if t != [] { FractionFits(t[..|t| - 1]); }
  }

  /** Converts the digits kept, with a 1 for the others if they are not all zero. */
  method Convert(digits: seq<nat>, sticky: bool, scale: int, ghost sig: seq<nat>, ghost base: int, ghost e: int) returns (f: F64)
    requires Hex(sig) && sig != [] && sig[0] != 0 && Small(base + Bits(|OtherDigits(sig)|))
    requires digits == FirstDigits(sig) && (sticky <==> NonZero(OtherDigits(sig)))
    requires scale == Applied(base + Bits(|OtherDigits(sig)|), e)
    ensures f == ToDouble(sig, base + e)
  {
    var ds, sc := digits, scale;
    if sticky { ds, sc := digits + [1], Sat(scale - 4); }
    CutIs(sig, base + e, digits, sticky);
    var top := Sat(sc + 4 * |ds|);
    SaturationHarmless(sig, base, e, ds, sc, top);
    if top > 1100 {
      f := Inf;
    } else if top < -1200 {
      f := Zero;
    } else {
      f := HexDigitsToF64(ds, sc);
    }
  }

  lemma CutIs(sig: seq<nat>, e: int, digits: seq<nat>, sticky: bool)
    requires digits == FirstDigits(sig) && (sticky <==> NonZero(OtherDigits(sig)))
    ensures Cut(sig) == if sticky then digits + [1] else digits
  {
    CutParts(sig, e);
    assert digits + [] == digits;
  }

  /** The significant digits of a mantissa: their value, and the scale of those beyond the kept ones. */
  lemma SignificantDigits(t: seq<byte>, digits: seq<nat>, sticky: bool, scale: int, sig: seq<nat>, base: int)
    requires |t| < LENGTH_LIMIT && Read(t, digits, sticky, scale)
    requires sig == Strip(DigitsOf(t)) && base == -(Bits(Fraction(t)) as int)
    ensures Hex(sig) && (sig != [] ==> sig[0] != 0) && Value(sig) == Value(DigitsOf(t))
    ensures digits == [] <==> sig == []
    ensures digits == FirstDigits(sig) && (sticky <==> NonZero(OtherDigits(sig)))
    ensures Small(base + Bits(|OtherDigits(sig)|)) && scale == base + Bits(|OtherDigits(sig)|)
  {
    FractionFits(t);
    StripValue(DigitsOf(t));
  }

  /** The value of a mantissa and an exponent. */
  method OfParts(ghost t: seq<byte>, digits: seq<nat>, sticky: bool, ghost scale: int, ghost e: int, scale': int) returns (f: F64)
    requires |t| < LENGTH_LIMIT && Read(t, digits, sticky, scale) && scale' == Applied(scale, e)
    ensures Rounded(Value(DigitsOf(t)), e - Bits(Fraction(t)), f)
  {
    ghost var sig, base := Strip(DigitsOf(t)), -(Bits(Fraction(t)) as int);
    SignificantDigits(t, digits, sticky, scale, sig, base);
    if digits == [] { return Zero; }
    f := Convert(digits, sticky, scale', sig, base, e);
    ToDoubleRounds(sig, base + e, f);
  }

  /** What follows `0x`: nothing without a hex digit; otherwise the correctly rounded value of mantissa
      and exponent, for any number of digits and any exponent, and how far they reach. */
  method ParseHexFloat(s: seq<byte>) returns (r: Option<(F64, nat)>)
    requires |s| < LENGTH_LIMIT
    ensures var j := MantissaEnd(s, 0, false);
      var t := s[..j];
      && (r.None? <==> DigitsOf(t) == [])
      && (r.Some? ==>
            && r.value.1 == ExponentEnd(s, j)
            && Rounded(Value(DigitsOf(t)), ExponentOf(s, j) - Bits(Fraction(t)), r.value.0))
  {
    var digits, sticky, scale, any, i := Mantissa(s);
    if !any { return None; }
    var scale', end := Exponent(s, i, scale);
    var f := OfParts(s[..i], digits, sticky, scale, ExponentOf(s, i), scale');
    return Some((f, end));
  }
}
