/** Reading hex floats from text (`src/stdlib/convert.rs`). */
module HexParse {
  import opened Bytes
  import opened HexFloat

  // ---- digit strings ---------------------------------------------------------------------------

  predicate Hex(ds: seq<nat>) { forall i :: 0 <= i < |ds| ==> ds[i] < 16 }

  /** The number hex digits stand for, most significant first. */
  function Value(ds: seq<nat>): nat { if ds == [] then 0 else 16 * Value(ds[..|ds| - 1]) + ds[|ds| - 1] }

  /** The bits of `n` digits. */
  function Bits(n: nat): nat { 4 * n }

  predicate NonZero(ds: seq<nat>) { exists i :: 0 <= i < |ds| && ds[i] != 0 }

  lemma ShlDigit(n: nat, k: nat)
    ensures Shl(n, k + 4) == 16 * Shl(n, k)
  {
    assert Shl(n, k + 1) == 2 * Shl(n, k);
    assert Shl(n, k + 2) == 2 * Shl(n, k + 1);
    assert Shl(n, k + 3) == 2 * Shl(n, k + 2);
  }

  lemma {:induction false} ValueSplit(a: seq<nat>, b: seq<nat>)
    ensures Value(a + b) == Shl(Value(a), Bits(|b|)) + Value(b)
  {
    if b == [] {
      assert a + b == a;
    } else {
      var p, d := b[..|b| - 1], b[|b| - 1];
      ValueSplit(a, p);
      assert (a + b)[..|a + b| - 1] == a + p;
      ShlDigit(Value(a), Bits(|p|));
    }
  }

  lemma {:induction false} ValueFits(ds: seq<nat>)
    requires Hex(ds)
    ensures Value(ds) < Shl(1, Bits(|ds|))
    ensures Value(ds) > 0 <==> NonZero(ds)
  {
    if ds != [] {
      var p, d := ds[..|ds| - 1], ds[|ds| - 1];
      ValueFits(p);
      ShlDigit(1, Bits(|p|));
      if NonZero(p) { var i :| 0 <= i < |p| && p[i] != 0; assert ds[i] != 0; }
      if d != 0 { assert ds[|ds| - 1] != 0; }
      if NonZero(ds) { var i :| 0 <= i < |ds| && ds[i] != 0; assert i < |p| ==> p[i] != 0; }
    }
  }

  /** Without leading zeros the first digit holds the leading one. */
  lemma {:induction false} ValueLeads(ds: seq<nat>)
    requires Hex(ds) && ds != [] && ds[0] != 0
    ensures Shl(1, Bits(|ds| - 1)) <= Value(ds)
  {
    if |ds| == 1 {
      assert ds[..0] == [];
    } else {
      ValueLeads(ds[..|ds| - 1]);
      ShlDigit(1, Bits(|ds| - 2));
    }
  }

  lemma LeadingLog(ds: seq<nat>)
    requires Hex(ds) && ds != [] && ds[0] != 0
    ensures Value(ds) > 0 && Bits(|ds| - 1) <= Log2(Value(ds)) < Bits(|ds|)
  {
    ValueLeads(ds);
    ValueFits(ds);
    assert NonZero(ds);
    var l := Log2(Value(ds));
    PowOrder(l, Bits(|ds| - 1));
    PowOrder(Bits(|ds|), l + 1);
    if Bits(|ds|) <= l { PowOrder(Bits(|ds|), l); }
  }

  // ---- the double of a digit string ------------------------------------------------------------

  const TOP: nat := 16

  function TopOf(ds: seq<nat>): seq<nat> { if |ds| <= TOP then ds else ds[..TOP] }

  function RestOf(ds: seq<nat>): seq<nat> { if |ds| <= TOP then [] else ds[TOP..] }

  lemma TopFits(ds: seq<nat>)
    requires Hex(ds) && ds != [] && ds[0] != 0
    ensures Value(TopOf(ds)) > 0 && Log2(Value(TopOf(ds))) <= 63
    ensures RestOf(ds) != [] ==> Log2(Value(TopOf(ds))) >= 60
    ensures Bits(|ds|) - 4 <= Log2(Value(TopOf(ds))) + Bits(|RestOf(ds)|) < Bits(|ds|)
  {
    LeadingLog(TopOf(ds));
  }

  /** The double of digits without leading zeros: from the first 16 and whether the others are zero. */
  function ToDouble(ds: seq<nat>, scale: int): F64
    requires Hex(ds) && ds != [] && ds[0] != 0
  {
    TopFits(ds);
    FromTop(Value(TopOf(ds)), NonZero(RestOf(ds)), scale + Bits(|RestOf(ds)|))
  }

  /** Conversion is correctly rounded, for any number of digits and any scale. */
  lemma ToDoubleRounds(ds: seq<nat>, scale: int, f: F64)
    requires Hex(ds) && ds != [] && ds[0] != 0 && f == ToDouble(ds, scale)
    ensures Rounded(Value(ds), scale, f)
  {
    var top, rest := TopOf(ds), RestOf(ds);
    assert ds == top + rest;
    TopFits(ds);
    ValueSplit(top, rest);
    ValueFits(rest);
    FromTopRounds(Value(ds), Value(top), Bits(|rest|), Value(rest), scale, NonZero(rest), f);
  }

  /** The first 64 bits, and whether any digit after them is nonzero. */
  method Leading(digits: seq<nat>, scale: int) returns (m: nat, sticky: bool, exp: int)
    requires Hex(digits)
    ensures m == Value(TopOf(digits)) && (sticky <==> NonZero(RestOf(digits))) && exp == scale + Bits(|RestOf(digits)|)
  {
    m, sticky, exp := 0, false, scale;
    for k := 0 to |digits|
      invariant m == Value(TopOf(digits[..k]))
      invariant sticky <==> NonZero(RestOf(digits[..k]))
      invariant exp == scale + Bits(|RestOf(digits[..k])|)
    {
      NextDigit(digits, k);
      if k < 16 {
        m := 16 * m + digits[k];
      } else {
        sticky := sticky || digits[k] != 0;
        exp := exp + 4;
      }
    }
    assert digits[..|digits|] == digits;
  }

  /** Rounds the leading bits. */
  method RoundLeading(m: nat, sticky: bool, e: int) returns (f: F64)
    requires 0 < m && Log2(m) <= 63
    ensures f == FromTop(m, sticky, e)
  {
    var lz := 63 - Log2(m);
    LogShl(m, lz);
    var n := Shl(m, lz);
    var exp := e - lz;
    var lead := exp + 63;
    if lead > 1023 { return Inf; }
    var drop := 11 + (if -1022 - lead > 0 then -1022 - lead else 0);
    if drop > 64 { return Zero; }
    var kept := KeepBits(n, drop, sticky);
    f := Pack(kept, exp + drop);
  }

  /** Drops bits of a 64-bit number, rounding by them. Dropping all 64 is a case of its own. */
  method KeepBits(n: nat, drop: nat, sticky: bool) returns (kept: nat)
    requires n > 0 && Log2(n) == 63 && 11 <= drop <= 64
    ensures kept == RoundBits(n, drop, sticky)
  {
    var top := Shl(1, drop - 1);
    if drop == 64 {
      RoundAll(n, drop, sticky, top);
      kept := RoundKept(0, n >= top, n != top || sticky);
    } else {
      kept := KeepSome(n, drop, sticky, top);
    }
  }

  method KeepSome(n: nat, drop: nat, sticky: bool, top: nat) returns (kept: nat)
    requires drop > 0 && top == Shl(1, drop - 1)
    ensures kept == RoundBits(n, drop, sticky)
  {
    var dropped := Dropped(n, drop);
    var half := dropped >= top;
    RoundBitsIs(n, drop, sticky, dropped, top);
    kept := RoundKept(Shr(n, drop), half, dropped != (if half then top else 0) || sticky);
  }

  lemma RoundAll(n: nat, drop: nat, sticky: bool, top: nat)
    requires n > 0 && Log2(n) + 1 == drop && top == Shl(1, drop - 1)
    ensures RoundBits(n, drop, sticky) == RoundKept(0, n >= top, n != top || sticky)
  {
    AllDropped(n, drop);
    RoundBitsIs(n, drop, sticky, n, top);
  }

  lemma AllDropped(n: nat, k: nat)
    requires n > 0 && Log2(n) < k
    ensures Shr(n, k) == 0 && Dropped(n, k) == n
  {
    if Log2(n) + 1 < k { PowOrder(Log2(n) + 1, k); }
    ShrShl(n, k);
    ShlOrder(1, Shr(n, k), k);
    ShlOrder(0, 1, k);
  }

  /** The double nearest to the digits times 2 to the power `scale`, ties to even. */
  method HexDigitsToF64(digits: seq<nat>, scale: int) returns (f: F64)
    requires Hex(digits) && (digits != [] ==> digits[0] != 0)
    ensures digits != [] ==> f == ToDouble(digits, scale)
    ensures Rounded(Value(digits), scale, f)
  {
    var m, sticky, exp := Leading(digits, scale);
    if digits == [] { return Zero; }
    TopFits(digits);
    f := RoundLeading(m, sticky, exp);
    ToDoubleRounds(digits, scale, f);
  }

  lemma NextDigit(ds: seq<nat>, k: nat)
    requires k < |ds|
    ensures k < TOP ==> Value(TopOf(ds[..k + 1])) == 16 * Value(TopOf(ds[..k])) + ds[k] && RestOf(ds[..k + 1]) == []
    ensures k >= TOP ==>
              && TopOf(ds[..k + 1]) == TopOf(ds[..k])
              && (NonZero(RestOf(ds[..k + 1])) <==> NonZero(RestOf(ds[..k])) || ds[k] != 0)
              && |RestOf(ds[..k + 1])| == |RestOf(ds[..k])| + 1
  {
    if k < TOP {
      assert ds[..k + 1][..k] == ds[..k];
    } else {
      NonZeroNext(ds[TOP..k], ds[k]);
      assert RestOf(ds[..k + 1]) == ds[TOP..k] + [ds[k]];
      assert k > TOP ==> RestOf(ds[..k]) == ds[TOP..k];
      assert TopOf(ds[..k + 1]) == ds[..TOP] == TopOf(ds[..k]);
    }
  }

  lemma NonZeroNext(ds: seq<nat>, d: nat)
    ensures NonZero(ds + [d]) <==> NonZero(ds) || d != 0
  {
    if i :| 0 <= i < |ds| && ds[i] != 0 { assert (ds + [d])[i] != 0; }
    if d != 0 { assert (ds + [d])[|ds|] != 0; }
    if i :| 0 <= i < |ds + [d]| && (ds + [d])[i] != 0 { assert i < |ds| ==> ds[i] != 0; }
  }

  // ---- cutting digits --------------------------------------------------------------------------

  const KEPT: nat := 40

  /** At most 40 digits, and a 1 for the others if they are not all zero. */
  function Cut(ds: seq<nat>): seq<nat> {
    if |ds| <= KEPT then ds else ds[..KEPT] + (if NonZero(ds[KEPT..]) then [1] else [])
  }

  function CutScale(ds: seq<nat>, scale: int): int {
    if |ds| <= KEPT then scale else scale + Bits(|ds| - KEPT) - (if NonZero(ds[KEPT..]) then 4 else 0)
  }

  /** Cutting digits does not change the double. */
  lemma CutSame(ds: seq<nat>, scale: int)
    requires Hex(ds) && ds != [] && ds[0] != 0
    ensures Hex(Cut(ds)) && Cut(ds) != [] && Cut(ds)[0] != 0
    ensures ToDouble(Cut(ds), CutScale(ds, scale)) == ToDouble(ds, scale)
  {
    if |ds| > KEPT {
      var cut, tail := Cut(ds), ds[KEPT..];
      assert TopOf(cut) == TopOf(ds);
      assert RestOf(ds) == ds[TOP..KEPT] + tail;
      assert RestOf(cut) == ds[TOP..KEPT] + cut[KEPT..];
      NonZeroParts(ds[TOP..KEPT], tail);
      NonZeroParts(ds[TOP..KEPT], cut[KEPT..]);
      if NonZero(tail) { assert cut[KEPT..][0] != 0; }
    }
  }

  lemma NonZeroParts(a: seq<nat>, b: seq<nat>)
    ensures NonZero(a + b) <==> NonZero(a) || NonZero(b)
  {
    if i :| 0 <= i < |a| && a[i] != 0 { assert (a + b)[i] != 0; }
    if i :| 0 <= i < |b| && b[i] != 0 { assert (a + b)[|a| + i] != 0; }
    if i :| 0 <= i < |a + b| && (a + b)[i] != 0 {
      assert if i < |a| then a[i] != 0 else b[i - |a|] != 0;
    }
  }

  /** Far out of range the double is infinite, or zero. */
  lemma OutOfRange(ds: seq<nat>, scale: int)
    requires Hex(ds) && ds != [] && ds[0] != 0
    ensures scale + Bits(|ds|) > 1100 ==> ToDouble(ds, scale) == Inf
    ensures scale + Bits(|ds|) < -1200 ==> ToDouble(ds, scale) == Zero
  {
    TopFits(ds);
  }
}
