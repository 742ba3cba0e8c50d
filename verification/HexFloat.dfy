/** Hex floats, correctly rounded (`src/stdlib/convert.rs`; section 4.3.1 of IEEE 754-2008, round to
    nearest, ties to even). */
module HexFloat {
  import opened Bytes

  // ---- shifts ----------------------------------------------------------------------------------

  /** `n` times 2 to the power `k`. */
  function Shl(n: nat, k: nat): nat { if k == 0 then n else 2 * Shl(n, k - 1) }

  lemma {:induction false} ShlSum(a: nat, b: nat, k: nat)
    ensures Shl(a + b, k) == Shl(a, k) + Shl(b, k)
  {
    if k > 0 { ShlSum(a, b, k - 1); }
  }

  lemma {:induction false} ShlOrder(a: nat, b: nat, k: nat)
    ensures a <= b ==> Shl(a, k) <= Shl(b, k)
    ensures a < b ==> Shl(a, k) + Shl(1, k) <= Shl(b, k)
    ensures Shl(1, k) >= 1 && Shl(0, k) == 0
  {
    if k > 0 { ShlOrder(a, b, k - 1); }
  }

  lemma {:induction false} ShlShl(n: nat, j: nat, k: nat)
    ensures Shl(Shl(n, j), k) == Shl(n, j + k)
  {
    if k > 0 { ShlShl(n, j, k - 1); }
  }

  /** The position of the leading one. */
  function Log2(n: nat): (l: nat)
    requires n > 0
    ensures Shl(1, l) <= n < Shl(1, l + 1)
  {
    if n == 1 then 0 else Log2(n / 2) + 1
  }

  lemma LogUnique(n: nat, l: nat)
    requires n > 0 && Shl(1, l) <= n < Shl(1, l + 1)
    ensures Log2(n) == l
  {
    PowOrder(l, Log2(n));
    PowOrder(Log2(n), l);
  }

  lemma {:induction false} PowOrder(a: nat, b: nat)
    ensures a < b ==> Shl(1, a + 1) <= Shl(1, b)
    decreases b
  {
    if a + 1 < b { PowOrder(a, b - 1); }
  }

  // ---- doubles ---------------------------------------------------------------------------------

  /** A non-negative double: zero, infinity or `mant` times 2 to the power `exp`. */
  datatype F64 = Zero | Inf | Finite(mant: nat, exp: int)

  /** `m` times 2 to the power `e` is at least 2 to the power 1024. */
  predicate Overflows(m: nat, e: int) { if e >= 1024 then m > 0 else m >= Shl(1, 1024 - e) }

  /** The double `m` times 2 to the power `e`, when that is on the grid of doubles. */
  function Pack(m: nat, e: int): F64 { if m == 0 then Zero else if Overflows(m, e) then Inf else Finite(m, e) }

  /** The spacing of doubles around a number with its leading one at `lead`: 53 bits, but never finer
      than the smallest subnormal. */
  function Grid(lead: int): int { if lead - 52 >= -1074 then lead - 52 else -1074 }

  /** `r` is the integer nearest to `n` divided by 2 to the power `d`, ties to even. */
  predicate NearestInt(n: nat, d: nat, r: nat) {
    && Shl(2 * r, d) <= 2 * n + Shl(1, d) && 2 * n <= Shl(2 * r, d) + Shl(1, d)
    && (Shl(2 * r, d) == 2 * n + Shl(1, d) || 2 * n == Shl(2 * r, d) + Shl(1, d) ==> r % 2 == 0)
  }

  /** `r` times 2 to the power `g` is the multiple nearest to `n` times 2 to the power `s`. */
  predicate NearestMultiple(n: nat, s: int, g: int, r: nat) {
    if s >= g then r == Shl(n, s - g) else NearestInt(n, g - s, r)
  }

  /** `f` is the correctly rounded double of `n` times 2 to the power `s`. */
  ghost predicate Rounded(n: nat, s: int, f: F64) {
    if n == 0 then f == Zero
    else
      var g := Grid(Log2(n) + s);
      exists r: nat :: NearestMultiple(n, s, g, r) && f == Pack(r, g)
  }

  /** Only one integer is nearest. */
  lemma NearestIntUnique(n: nat, d: nat, r: nat, q: nat)
    requires NearestInt(n, d, r) && NearestInt(n, d, q)
    ensures r == q
  {
    if r < q { NoneAbove(n, d, r, q); }
    if q < r { NoneAbove(n, d, q, r); }
  }

  lemma NoneAbove(n: nat, d: nat, r: nat, q: nat)
    requires NearestInt(n, d, r) && r < q
    ensures !NearestInt(n, d, q)
  {
    ShlOrder(2 * r, 2 * r + 1, d);
    ShlOrder(2 * r + 1, 2 * r + 2, d);
    ShlOrder(2 * r + 2, 2 * q, d);
  }

  /** So correct rounding determines the double. */
  lemma RoundedUnique(n: nat, s: int, f: F64, h: F64)
    requires Rounded(n, s, f) && Rounded(n, s, h)
    ensures f == h
  {
    if n > 0 {
      var g := Grid(Log2(n) + s);
      var r: nat :| NearestMultiple(n, s, g, r) && f == Pack(r, g);
      var q: nat :| NearestMultiple(n, s, g, q) && h == Pack(q, g);
      if s < g { NearestIntUnique(n, g - s, r, q); }
    }
  }

  // ---- rounding depends on the value only ------------------------------------------------------

  lemma {:induction false} LogShl(n: nat, k: nat)
    requires n > 0
    ensures Shl(n, k) > 0 && Log2(Shl(n, k)) == Log2(n) + k
  {
    if k > 0 {
      LogShl(n, k - 1);
      var l := Log2(n) + (k - 1);
      assert Shl(1, l + 1) == 2 * Shl(1, l) && Shl(1, l + 2) == 2 * Shl(1, l + 1);
      LogUnique(Shl(n, k), l + 1);
    }
  }

  lemma SumCancels(a: nat, b: nat, c: nat, k: nat)
    ensures Shl(a, k) <= Shl(b, k) + Shl(c, k) <==> a <= b + c
    ensures Shl(a, k) == Shl(b, k) + Shl(c, k) <==> a == b + c
  {
    ShlSum(b, c, k);
    ShlOrder(a, b + c, k);
    ShlOrder(b + c, a, k);
  }

  lemma NearestScaled(n: nat, d: nat, k: nat, r: nat)
    requires NearestInt(Shl(n, k), d + k, r)
    ensures NearestInt(n, d, r)
  {
    ShlShl(2 * r, d, k);
    ShlShl(1, d, k);
    ShlSum(n, n, k);
    SumCancels(Shl(2 * r, d), 2 * n, Shl(1, d), k);
    SumCancels(2 * n, Shl(2 * r, d), Shl(1, d), k);
  }

  /** A multiple is its own nearest integer. */
  lemma NearestExact(q: nat, d: nat, r: nat)
    requires NearestInt(Shl(q, d), d, r)
    ensures r == q
  {
    ShlSum(q, q, d);
    ShlOrder(0, 1, d);
    NearestIntUnique(Shl(q, d), d, r, q);
  }

  lemma MultipleScaled(n: nat, s: int, k: nat, g: int, r: nat)
    requires NearestMultiple(Shl(n, k), s - k, g, r)
    ensures NearestMultiple(n, s, g, r)
  {
    if s - k >= g {
      ShlShl(n, k, s - k - g);
    } else if s >= g {
      ShlShl(n, s - g, g - (s - k));
      NearestExact(Shl(n, s - g), g - (s - k), r);
    } else {
      NearestScaled(n, g - s, k, r);
    }
  }

  /** The multiple a double was rounded to, with the leading one of its number at `lead`. */
  lemma RoundedFrom(n: nat, s: int, lead: int, f: F64) returns (r: nat)
    requires n > 0 && Rounded(n, s, f) && lead == Log2(n) + s
    ensures NearestMultiple(n, s, Grid(lead), r) && f == Pack(r, Grid(lead))
  {
    assert Grid(lead) == Grid(Log2(n) + s);
    r :| NearestMultiple(n, s, Grid(lead), r) && f == Pack(r, Grid(lead));
  }

  lemma RoundedTo(n: nat, s: int, lead: int, r: nat, f: F64)
    requires n > 0 && lead == Log2(n) + s && NearestMultiple(n, s, Grid(lead), r) && f == Pack(r, Grid(lead))
    ensures Rounded(n, s, f)
  {
    assert Grid(lead) == Grid(Log2(n) + s);
  }

  lemma RoundedShifted(n: nat, s: int, k: nat, w: nat, t: int, lead: int, f: F64)
    requires n > 0 && w > 0 && w == Shl(n, k) && t == s - k && lead == Log2(n) + s && lead == Log2(w) + t
    requires Rounded(w, t, f)
    ensures Rounded(n, s, f)
  {
    var r := RoundedFrom(w, t, lead, f);
    MultipleScaled(n, s, k, Grid(lead), r);
    RoundedTo(n, s, lead, r, f);
  }

  /** Shifting the digits and lowering the scale changes nothing. */
  lemma RoundedScaled(n: nat, s: int, k: nat, f: F64)
    requires n > 0 && Rounded(Shl(n, k), s - k, f)
    ensures Rounded(n, s, f)
  {
    LogShl(n, k);
    RoundedShifted(n, s, k, Shl(n, k), s - k, Log2(n) + s, f);
  }

  // ---- keeping the leading bits ----------------------------------------------------------------

  /** `n` shifted right, and the bits that drop off. */
  function Shr(n: nat, k: nat): nat { if k == 0 then n else Shr(n / 2, k - 1) }

  lemma {:induction false} ShrShl(n: nat, k: nat)
    ensures Shl(Shr(n, k), k) <= n < Shl(Shr(n, k), k) + Shl(1, k)
  {
    if k > 0 { ShrShl(n / 2, k - 1); }
  }

  function Dropped(n: nat, k: nat): (r: nat)
    ensures r < Shl(1, k) && n == Shl(Shr(n, k), k) + r
  {
    ShrShl(n, k);
    n - Shl(Shr(n, k), k)
  }

  /** What is kept, rounded by the leading dropped bit, the others, and whether anything nonzero
      follows. */
  function RoundKept(kept: nat, half: bool, rest: bool): nat { if half && (rest || kept % 2 == 1) then kept + 1 else kept }

  /** Rounding by those bits is rounding to nearest, ties to even. */
  lemma RoundKeptIsNearest(n: nat, d: nat, kept: nat, rem: nat, half: bool, rest: bool)
    requires d > 0 && n == Shl(kept, d) + rem && rem < Shl(1, d)
    requires half <==> 2 * rem >= Shl(1, d)
    requires half ==> (rest <==> 2 * rem != Shl(1, d))
    ensures NearestInt(n, d, RoundKept(kept, half, rest))
  {
    ShlSum(kept, kept, d);
    ShlSum(2 * kept, 2, d);
    ShlSum(1, 1, d);
  }

  /** Dropping bits of a shifted number drops a shifted number. */
  lemma {:induction false} DroppedShifted(m: nat, lz: nat, k: nat)
    requires lz <= k
    ensures Dropped(Shl(m, lz), k) == Shl(Dropped(m, k - lz), lz)
  {
    if lz > 0 {
      DroppedShifted(m, lz - 1, k - 1);
      ShrShl(m, k - lz);
      assert Shl(m, lz) / 2 == Shl(m, lz - 1);
    } else {
      ShrShl(m, k);
    }
  }

  /** Half of the bit above `e` dropped bits, shifted. */
  lemma HalfShifted(e: nat, k: nat)
    requires e > 0
    ensures Shl(Shl(1, e - 1), k) == Shl(1, e - 1 + k) && Shl(Shl(1, e), k) == Shl(1, e + k)
    ensures Shl(1, e + k) == 2 * Shl(1, e - 1 + k)
  {
    ShlShl(1, e - 1, k);
    ShlShl(1, e, k);
  }

  /** Shifted numbers compare like the numbers, also with less than one unit added. */
  lemma TailCompared(low: nat, half: nat, k: nat, tail: nat)
    requires tail < Shl(1, k)
    ensures low >= half <==> Shl(low, k) + tail >= Shl(half, k)
    ensures low == half && tail == 0 <==> Shl(low, k) + tail == Shl(half, k)
  {
    ShlOrder(low, half, k);
    ShlOrder(half, low, k);
  }

  lemma TailInside(low: nat, top: nat, k: nat, tail: nat)
    requires tail < Shl(1, k) && low < top
    ensures Shl(low, k) + tail < Shl(top, k)
  {
    ShlOrder(low, top, k);
  }

  /** The dropped bits with what follows them, against half. `tail` is what follows, in units of 2 to
      the power `-c`; it is below the lowest bit of `m` before it was shifted by `lz`. */
  lemma HalfDecides(m: nat, lz: nat, drop: nat, c: nat, tail: nat)
    requires lz < drop && tail < Shl(1, c + lz)
    ensures var dropped := Dropped(Shl(m, lz), drop);
      && dropped >= 0
      && var rem := Shl(dropped, c) + tail;
      && rem < Shl(1, drop + c)
      && (dropped >= Shl(1, drop - 1) <==> 2 * rem >= Shl(1, drop + c))
      && (dropped == Shl(1, drop - 1) && tail == 0 <==> 2 * rem == Shl(1, drop + c))
  {
    var e: nat := drop - lz;
    var k: nat := lz + c;
    var low, half := Dropped(m, e), Shl(1, e - 1);
    DroppedShifted(m, lz, drop);
    ShlShl(low, lz, c);
    ShlOrder(0, 1, lz);
    HalfShifted(e, lz);
    HalfShifted(e, k);
    assert e + k == drop + c && e - 1 + lz == drop - 1;
    TailCompared(low, half, lz, 0);
    TailCompared(low, half, k, tail);
    TailInside(low, Shl(1, e), k, tail);
  }

  // ---- from the leading 64 bits ----------------------------------------------------------------

  /** The double for `m` times 2 to the power `exp` and, if `sticky`, a nonzero part below it. */
  function FromTop(m: nat, sticky: bool, exp: int): F64
    requires 0 < m && Log2(m) <= 63
  {
    var lz := 63 - Log2(m);
    OfBits(Shl(m, lz), sticky, exp - lz)
  }

  /** How many of 64 leading bits a double with that leading bit cannot hold. */
  function DropFor(lead: int): (drop: nat)
    ensures drop >= 11
  {
    if -1022 - lead > 0 then 11 + (-1022 - lead) else 11
  }

  /** `n` rounded to its bits above the lowest `drop`. */
  function RoundBits(n: nat, drop: nat, sticky: bool): nat
    requires drop > 0
  {
    var dropped, top := Dropped(n, drop), Shl(1, drop - 1);
    RoundKept(Shr(n, drop), dropped >= top, dropped != (if dropped >= top then top else 0) || sticky)
  }

  /** What the dropped bits and what follows them say, with or without a tail. */
  lemma BitsDecide(m: nat, lz: nat, drop: nat, c: nat, tail: nat)
    requires drop > 0 && (tail > 0 ==> lz < drop) && tail < Shl(1, c + lz)
    ensures var dropped := Dropped(Shl(m, lz), drop);
      && dropped >= 0
      && var rem := Shl(dropped, c) + tail;
      && rem < Shl(1, drop + c)
      && (dropped >= Shl(1, drop - 1) <==> 2 * rem >= Shl(1, drop + c))
      && (dropped == Shl(1, drop - 1) && tail == 0 <==> 2 * rem == Shl(1, drop + c))
  {
    if tail > 0 {
      HalfDecides(m, lz, drop, c, tail);
    } else {
      ShlOrder(0, 1, c);
      HalfDecides(Shl(m, lz), 0, drop, c, 0);
    }
  }

  /** `n` followed by a tail, split into what is kept and what is not. */
  lemma SplitWithTail(n: nat, drop: nat, c: nat, tail: nat, kept: nat, dropped: nat)
    requires n == Shl(kept, drop) + dropped
    ensures Shl(n, c) + tail == Shl(kept, drop + c) + (Shl(dropped, c) + tail)
  {
    ShlSum(Shl(kept, drop), dropped, c);
    ShlShl(kept, drop, c);
  }

  lemma RoundBitsIs(n: nat, drop: nat, sticky: bool, dropped: nat, top: nat)
    requires drop > 0 && dropped == Dropped(n, drop) && top == Shl(1, drop - 1)
    ensures RoundBits(n, drop, sticky)
            == RoundKept(Shr(n, drop), dropped >= top, dropped != (if dropped >= top then top else 0) || sticky)
  {
  }

  lemma DroppedIs(n: nat, drop: nat)
    ensures n == Shl(Shr(n, drop), drop) + Dropped(n, drop)
  {
  }

  /** Rounding the leading bits rounds the whole number: `n` is `m` shifted left by `lz`, followed by
      `tail` in units of 2 to the power `-c`. */
  lemma RoundBitsIsNearest(m: nat, lz: nat, drop: nat, c: nat, tail: nat)
    requires drop > 0 && (tail > 0 ==> lz < drop) && tail < Shl(1, c + lz)
    ensures NearestInt(Shl(Shl(m, lz), c) + tail, drop + c, RoundBits(Shl(m, lz), drop, tail > 0))
  {
    var n := Shl(m, lz);
    BitsDecide(m, lz, drop, c, tail);
    DroppedIs(n, drop);
    RoundBitsIs(n, drop, tail > 0, Dropped(n, drop), Shl(1, drop - 1));
    TopBitsRound(n, drop, c, tail, Shr(n, drop), Dropped(n, drop), Shl(1, drop - 1));
  }

  lemma TopBitsRound(n: nat, drop: nat, c: nat, tail: nat, kept: nat, dropped: nat, top: nat)
    requires drop > 0 && n == Shl(kept, drop) + dropped && Shl(dropped, c) + tail < Shl(1, drop + c)
    requires dropped >= top <==> 2 * (Shl(dropped, c) + tail) >= Shl(1, drop + c)
    requires dropped == top && tail == 0 <==> 2 * (Shl(dropped, c) + tail) == Shl(1, drop + c)
    ensures NearestInt(Shl(n, c) + tail, drop + c,
                       RoundKept(kept, dropped >= top, dropped != (if dropped >= top then top else 0) || tail > 0))
  {
    SplitWithTail(n, drop, c, tail, kept, dropped);
    BitsRound(Shl(n, c) + tail, drop + c, kept, Shl(dropped, c) + tail, dropped, top, tail > 0);
  }

  lemma BitsRound(n: nat, d: nat, kept: nat, rem: nat, dropped: nat, top: nat, tail: bool)
    requires d > 0 && n == Shl(kept, d) + rem && rem < Shl(1, d)
    requires dropped >= top <==> 2 * rem >= Shl(1, d)
    requires dropped == top && !tail <==> 2 * rem == Shl(1, d)
    ensures NearestInt(n, d, RoundKept(kept, dropped >= top, dropped != (if dropped >= top then top else 0) || tail))
  {
    RoundKeptIsNearest(n, d, kept, rem, dropped >= top, dropped != (if dropped >= top then top else 0) || tail);
  }

  /** The number of which `m` holds the leading bits. */
  lemma LogOfParts(m: nat, c: nat, tail: nat)
    requires m > 0 && tail < Shl(1, c)
    ensures Shl(m, c) + tail > 0 && Log2(Shl(m, c) + tail) == Log2(m) + c
  {
    var l := Log2(m);
    ShlOrder(Shl(1, l), m, c);
    ShlOrder(m, Shl(1, l + 1), c);
    ShlShl(1, l, c);
    ShlShl(1, l + 1, c);
    ShlOrder(0, 1, l + c);
    LogUnique(Shl(m, c) + tail, l + c);
  }

  /** `m` normalised to 64 bits: the whole number, shifted alike. */
  lemma Normalised(m: nat, lz: nat, c: nat, tail: nat)
    ensures Shl(Shl(m, c) + tail, lz) == Shl(Shl(m, lz), c) + Shl(tail, lz)
    ensures tail < Shl(1, c) ==> Shl(tail, lz) < Shl(1, c + lz)
    ensures tail > 0 <==> Shl(tail, lz) > 0
  {
    ShlSum(Shl(m, c), tail, lz);
    ShlShl(m, c, lz);
    ShlShl(m, lz, c);
    ShlShl(1, c, lz);
    ShlOrder(tail, Shl(1, c), lz);
    ShlOrder(0, tail, lz);
    ShlOrder(0, 1, lz);
  }

  /** The leading bits and whether anything follows decide the double. When something follows, `m`
      has at least 61 bits. */
  lemma FromTopRounds(n: nat, m: nat, c: nat, tail: nat, scale: int, sticky: bool, f: F64)
    requires 0 < m && Log2(m) <= 63 && tail < Shl(1, c) && (tail > 0 ==> Log2(m) >= 60)
    requires n == Shl(m, c) + tail && (sticky <==> tail > 0) && f == FromTop(m, sticky, scale + c)
    ensures Rounded(n, scale, f)
  {
    var lz: nat := 63 - Log2(m);
    var b, low := Shl(m, lz), Shl(tail, lz);
    TopParts(m, c, tail, lz, n, b, low);
    ScaledRounds(n, b, m, lz, c, low, scale, f, scale + c - lz, sticky);
  }

  lemma ScaledRounds(n: nat, b: nat, m: nat, lz: nat, c: nat, low: nat, scale: int, f: F64, x: int, sticky: bool)
    requires b == Shl(m, lz) && b > 0 && Log2(b) == 63 && low < Shl(1, c + lz) && (low > 0 ==> lz < 11)
    requires n > 0 && Shl(n, lz) == Shl(b, c) + low > 0 && Log2(Shl(b, c) + low) == 63 + c
    requires x == scale - lz + c && (sticky <==> low > 0) && f == OfBits(b, sticky, x)
    ensures Rounded(n, scale, f)
  {
    ShiftedRounds(b, m, lz, c, low, scale - lz, f);
    RoundedScaled(n, scale, lz, f);
  }

  lemma TopParts(m: nat, c: nat, tail: nat, lz: nat, n: nat, b: nat, low: nat)
    requires 0 < m && Log2(m) + lz == 63 && tail < Shl(1, c)
    requires n == Shl(m, c) + tail && b == Shl(m, lz) && low == Shl(tail, lz)
    ensures n > 0 && Shl(n, lz) == Shl(b, c) + low && low < Shl(1, c + lz) && (tail > 0 <==> low > 0)
    ensures b > 0 && Log2(b) == 63 && Shl(b, c) + low > 0 && Log2(Shl(b, c) + low) == 63 + c
  {
    LogOfParts(m, c, tail);
    Normalised(m, lz, c, tail);
    LogShl(n, lz);
    LogShl(m, lz);
  }

  /** The double made of 64 leading bits. */
  function OfBits(n: nat, sticky: bool, e: int): F64 {
    var lead := e + 63;
    if lead > 1023 then Inf
    else if DropFor(lead) > 64 then Zero
    else Pack(RoundBits(n, DropFor(lead), sticky), e + DropFor(lead))
  }

  lemma RoundedBy(n: nat, s: int, g: int, d: nat, r: nat, f: F64)
    requires n > 0 && g == Grid(Log2(n) + s) && d > 0 && g == s + d && NearestInt(n, d, r) && f == Pack(r, g)
    ensures Rounded(n, s, f)
  {
    assert NearestMultiple(n, s, g, r);
  }

  /** The spacing of doubles, from the number of bits dropped. */
  lemma GridIsDrop(lead: int)
    ensures Grid(lead) == lead - 63 + DropFor(lead)
  {
  }

  /** Nothing is kept: the number rounds to zero. */
  lemma AllShiftedOut(n: nat, c: nat, e: int, drop: nat)
    requires n > 0 && Log2(n) == 63 + c && drop == DropFor(e + c + 63) && drop > 64
    ensures Rounded(n, e, Zero)
  {
    GridIsDrop(e + c + 63);
    TooSmall(n, 63 + c, drop + c);
    RoundedBy(n, e, Grid(e + c + 63), drop + c, 0, Zero);
  }

  /** The kept bits, rounded, decide the double, unless it is too large. */
  lemma KeptDecides(n: nat, b: nat, sticky: bool, c: nat, e: int, drop: nat, r: nat)
    requires n > 0 && Log2(n) == 63 + c && b > 0 && Log2(b) == 63
    requires drop == DropFor(e + c + 63) <= 64 && r == RoundBits(b, drop, sticky) && NearestInt(n, drop + c, r)
    ensures Rounded(n, e, OfBits(b, sticky, e + c))
  {
    var lead := e + c + 63;
    GridIsDrop(lead);
    if lead > 1023 { TooLarge(b, sticky, Grid(lead)); }
    RoundedBy(n, e, Grid(lead), drop + c, r, OfBits(b, sticky, e + c));
  }

  lemma ShiftedRounds(b: nat, m: nat, lz: nat, c: nat, tail: nat, e: int, f: F64)
    requires b == Shl(m, lz) && b > 0 && Log2(b) == 63 && tail < Shl(1, c + lz) && (tail > 0 ==> lz < 11)
    requires Shl(b, c) + tail > 0 && Log2(Shl(b, c) + tail) == 63 + c
    requires f == OfBits(b, tail > 0, e + c)
    ensures Rounded(Shl(b, c) + tail, e, f)
  {
    var n, drop := Shl(b, c) + tail, DropFor(e + c + 63);
    if drop > 64 {
      AllShiftedOut(n, c, e, drop);
    } else {
      RoundBitsIsNearest(m, lz, drop, c, tail);
      KeptDecides(n, b, tail > 0, c, e, drop, RoundBits(b, drop, tail > 0));
    }
  }

  /** Less than half of the smallest subnormal. */
  lemma TooSmall(n: nat, l: nat, d: nat)
    requires n > 0 && Log2(n) == l && l + 1 < d
    ensures NearestInt(n, d, 0)
  {
    PowOrder(l + 1, d);
    ShlOrder(0, 1, d);
  }

  /** Rounding does not bring a number back below 2 to the power 1024. */
  lemma TooLarge(n: nat, sticky: bool, g: int)
    requires n > 0 && Log2(n) == 63 && g >= 972
    ensures Pack(RoundBits(n, 11, sticky), g) == Inf
  {
    var (top, drop) := (52 as nat, 11 as nat);
    KeptBits(n, drop, top);
    ShlOrder(0, 1, top);
    if g < 1024 { PowOrder(1024 - g - 1, top); }
  }

  lemma KeptBits(n: nat, drop: nat, top: nat)
    requires n > 0 && Log2(n) == top + drop
    ensures Shr(n, drop) >= Shl(1, top)
  {
    var kept := Shr(n, drop);
    ShlShl(1, top, drop);
    ShrShl(n, drop);
    ShlSum(kept, 1, drop);
    ShlOrder(kept + 1, Shl(1, top), drop);
  }
}
