/** Correct rounding as `HexFloat` defines it gives a double, and no double is nearer. */
module HexNearest {
  import opened Bytes
  import opened HexFloat

  function Dist(a: nat, b: nat): nat { if a >= b then a - b else b - a }

  lemma {:induction false} DistScaled(a: nat, b: nat, k: nat)
    ensures Dist(Shl(a, k), Shl(b, k)) == Shl(Dist(a, b), k)
  {
    if k > 0 { DistScaled(a, b, k - 1); }
  }

  lemma HalfStep(n: nat, p: nat, u: nat, w: nat)
    requires 2 * p <= 2 * n + u && 2 * n <= 2 * p + u
    requires w == p || p + u <= w || w + u <= p
    ensures Dist(n, p) <= Dist(n, w)
  {
  }

  lemma ShlTwice(r: nat, d: nat)
    ensures Shl(2 * r, d) == 2 * Shl(r, d)
  {
    ShlSum(r, r, d);
    assert r + r == 2 * r;
  }

  /** The nearest integer is the nearest of all multiples. */
  lemma NearestOfMultiples(n: nat, d: nat, r: nat, q: nat)
    requires NearestInt(n, d, r)
    ensures Dist(n, Shl(r, d)) <= Dist(n, Shl(q, d))
  {
    var p, u, w := Shl(r, d), Shl(1, d), Shl(q, d);
    assert 2 * p <= 2 * n + u && 2 * n <= 2 * p + u by { ShlTwice(r, d); }
    assert w == p || p + u <= w || w + u <= p by {
      ShlOrder(r, q, d);
      ShlOrder(q, r, d);
    }
    HalfStep(n, p, u, w);
  }

  /** Also counted in units of 2 to the power `-k`. */
  lemma NearestInUnits(n: nat, d: nat, k: nat, r: nat, q: nat)
    requires NearestInt(n, d, r)
    ensures Dist(Shl(n, k), Shl(r, d + k)) <= Dist(Shl(n, k), Shl(q, d + k))
  {
    NearestOfMultiples(n, d, r, q);
    ShlShl(r, d, k);
    ShlShl(q, d, k);
    DistScaled(n, Shl(r, d), k);
    DistScaled(n, Shl(q, d), k);
    ShlOrder(Dist(n, Shl(r, d)), Dist(n, Shl(q, d)), k);
  }

  /** `d` times 2 to the power `x` is a double's finite value. */
  predicate IsDouble(d: nat, x: int, bits: nat) { bits == 53 && d < Shl(1, bits) && x >= -1074 }

  lemma {:induction false} PowUpTo(a: nat, b: nat)
    requires a <= b
    ensures Shl(1, a) <= Shl(1, b)
  {
    if a < b { PowUpTo(a, b - 1); }
  }

  lemma BelowPower(d: nat, bits: nat, j: nat, h: nat, k: nat)
    requires d < Shl(1, bits) && bits + j <= h + k
    ensures Shl(d, j) <= Shl(Shl(1, h), k)
  {
    ShlOrder(d, Shl(1, bits), j);
    ShlShl(1, bits, j);
    ShlShl(1, h, k);
    PowUpTo(bits + j, h + k);
  }

  lemma AbovePower(n: nat, l: nat, m: nat, h: nat, k: nat)
    requires Shl(1, l) <= n && h + k == l + m
    ensures Shl(Shl(1, h), k) <= Shl(n, m)
  {
    ShlOrder(Shl(1, l), n, m);
    SamePower(1, l, m, h, k);
  }

  lemma SamePower(a: nat, l: nat, m: nat, h: nat, k: nat)
    requires h + k == l + m
    ensures Shl(Shl(a, h), k) == Shl(Shl(a, l), m)
  {
    ShlShl(a, l, m);
    ShlShl(a, h, k);
  }

  /** A double finer than the grid around a number lies below the number's leading one, which is on
      the grid. */
  lemma FinerIsBelow(n: nat, s: int, d: nat, x: int, bits: nat, b: int)
    requires n > 0 && IsDouble(d, x, bits) && x < Grid(Log2(n) + s) && b <= x && b <= s
    ensures var g := Grid(Log2(n) + s);
      Shl(d, x - b) <= Shl(Shl(1, (bits - 1) as nat), g - b) <= Shl(n, s - b)
  {
    var g, l, h: nat := Grid(Log2(n) + s), Log2(n), bits - 1;
    BelowPower(d, bits, x - b, h, g - b);
    AbovePower(n, l, s - b, h, g - b);
  }

  /** No double is nearer to `n` times 2 to the power `s` than the correctly rounded one. All three are
      counted in units of 2 to the power `b`. */
  lemma RoundedIsNearest(n: nat, s: int, r: nat, d: nat, x: int, bits: nat, b: int)
    requires n > 0 && NearestMultiple(n, s, Grid(Log2(n) + s), r)
    requires IsDouble(d, x, bits) && b <= s && b <= x && b <= Grid(Log2(n) + s)
    ensures Dist(Shl(n, s - b), Shl(r, Grid(Log2(n) + s) - b)) <= Dist(Shl(n, s - b), Shl(d, x - b))
  {
    var g := Grid(Log2(n) + s);
    if s >= g {
      ShlShl(n, s - g, g - b);
    } else if x >= g {
      ShlShl(d, x - g, g - b);
      NearestInUnits(n, g - s, s - b, r, Shl(d, x - g));
    } else {
      FinerIsBelow(n, s, d, x, bits, b);
      NearestInUnits(n, g - s, s - b, r, Shl(1, (bits - 1) as nat));
    }
  }

  /** A number on its grid has at most as many bits as a mantissa. */
  lemma OnGridFits(n: nat, l: nat, k: nat, bits: nat)
    requires n < Shl(1, l + 1) && l + 1 + k <= bits
    ensures Shl(n, k) <= Shl(1, bits)
  {
    ShlOrder(n, Shl(1, l + 1), k);
    ShlShl(1, l + 1, k);
    PowOrder(l + 1 + k, bits);
  }

  /** So has a number rounded to its grid, or it is the power of two just above. */
  lemma ToGridFits(n: nat, l: nat, k: nat, bits: nat, r: nat)
    requires n < Shl(1, l + 1) && l + 1 <= bits + k && NearestInt(n, k, r)
    ensures r <= Shl(1, bits)
  {
    PowOrder(l + 1, bits + k);
    ShlShl(1, bits, k);
    NoMoreThan(n, k, r, Shl(1, bits));
  }

  /** The rounded multiple is a double, or the power of two just above the mantissas of its grid, which
      is a double of the next grid. */
  lemma RoundedIsDouble(n: nat, s: int, r: nat, bits: nat)
    requires n > 0 && bits == 53 && NearestMultiple(n, s, Grid(Log2(n) + s), r)
    ensures r <= Shl(1, bits) && Grid(Log2(n) + s) >= -1074
  {
    var g, l := Grid(Log2(n) + s), Log2(n);
    if s >= g {
      OnGridFits(n, l, s - g, bits);
    } else {
      ToGridFits(n, l, g - s, bits, r);
    }
  }

  /** The nearest integer of something at most `q` is at most `q`. */
  lemma NoMoreThan(n: nat, d: nat, r: nat, q: nat)
    requires NearestInt(n, d, r) && n <= Shl(q, d)
    ensures r <= q
  {
    if q < r {
      ShlTwice(r, d);
      ShlOrder(q, r, d);
    }
  }
}
