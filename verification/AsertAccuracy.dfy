/** How near the fixed-point factor comes to the power of two it stands for: over the two parts of
    one half-life the factors multiply to two. */
module AsertAccuracy {
  import opened Arithmetic
  import opened Asert

  const ONE: int := 0x1_0000_0000_0000_0000
  const UNIT: int := 0x1_0000_0000_0000
  const HALF: int := 0x8000_0000_0000

  /** The cubic in units of 2^-64, unrounded, for a fraction x of 65536. */
  function Exact(x: int): int
  {
    ONE + 195_766_423_245_049 * x + 971_821_376 * (x * x) + 5_127 * (x * x * x)
  }

  /** Rounding moves the factor by at most one half. */
  lemma FactorRounds(f: nat, exact: int)
    requires exact == Cubic(f) + ONE - HALF
    ensures -HALF <= UNIT * Factor(f) - exact <= HALF
  {
    hide Cubic;
  }

  lemma CubicIs(f: nat)
    ensures Exact(f) == Cubic(f) + ONE - HALF
  {
    ProductIs(f, f);
    ProductIs(f * f, f);
    hide Product;
  }

  lemma PowersOfTwoParts(x: int, y: int)
    requires x + y == 65536
    ensures x * x + y * y == 0x1_0000_0000 - 2 * (x * y)
    ensures x * x * x + y * y * y == ONE / 0x1_0000 - 196608 * (x * y)
  {
    assert y == 65536 - x;
    assert y * y == 0x1_0000_0000 - 131072 * x + x * x;
    assert x * y == 65536 * x - x * x;
    CubeOf(x, y);
  }

  lemma CubeOf(x: int, y: int)
    requires y == 65536 - x
    ensures y * y * y == 0x1_0000_0000_0000 - 12_884_901_888 * x + 196608 * (x * x) - x * x * x
  {
    assert y * y == 0x1_0000_0000 - 131072 * x + x * x;
    assert y * y * y == (0x1_0000_0000 - 131072 * x + x * x) * (65536 - x);
  }

  /** The slope part of the cubic. */
  function Slope(x: int): int { 195_766_423_245_049 + 971_821_376 * x + 5_127 * (x * x) }

  lemma ExactIs(x: int)
    ensures Exact(x) == ONE + x * Slope(x)
  {
    assert x * Slope(x) == 195_766_423_245_049 * x + 971_821_376 * (x * x) + 5_127 * (x * (x * x));
  }

  lemma SlopesMultiply(x: int, y: int)
    requires x + y == 65536
    ensures var v := x * y;
            Slope(x) * Slope(y) ==
            55103550976617770304126554673 - 736417149332931998 * v + 26286129 * (v * v)
  {
    var v, s, q := x * y, x * x + y * y, (x * x) * (y * y);
    PowersOfTwoParts(x, y);
    assert q == v * v;
    assert x * (y * y) + y * (x * x) == v * 65536 by { assert x * (y * y) + y * (x * x) == v * (x + y); }
    SlopeProduct(x, y);
  }

  lemma SlopeTimes(x: int, t: int)
    ensures Slope(x) * t == 195_766_423_245_049 * t + 971_821_376 * (x * t) + 5_127 * ((x * x) * t)
  {
    Distribute(195_766_423_245_049, 971_821_376, x, 5_127, x * x, t);
  }

  lemma Distribute(a: int, b: int, x: int, c: int, z: int, t: int)
    ensures (a + b * x + c * z) * t == a * t + b * (x * t) + c * (z * t)
  {}

  lemma SlopeProduct(x: int, y: int)
    ensures Slope(x) * Slope(y) ==
            38324492470159661439503012401 + 190249994812601904367424 * (x + y) + 1003694451977366223 * (x * x + y * y)
            + 944436786850533376 * (x * y) + 4982528194752 * (x * (y * y) + y * (x * x))
            + 26286129 * ((x * x) * (y * y))
  {
    SlopeTimes(x, Slope(y));
    SlopeTimes(y, 1);
    SlopeTimes(y, x);
    SlopeTimes(y, x * x);
    hide Slope;
    GatherSlopes(x, y, x * x, y * y, x * y, x * (y * y), y * (x * x), (x * x) * (y * y),
                 Slope(y), x * Slope(y), (x * x) * Slope(y));
  }

  lemma GatherSlopes(x: int, y: int, xx: int, yy: int, xy: int, xyy: int, yxx: int, xxyy: int,
                     t: int, xt: int, xxt: int)
    requires t == 195_766_423_245_049 + 971_821_376 * y + 5_127 * yy
    requires xt == 195_766_423_245_049 * x + 971_821_376 * xy + 5_127 * xyy
    requires xxt == 195_766_423_245_049 * xx + 971_821_376 * yxx + 5_127 * xxyy
    ensures 195_766_423_245_049 * t + 971_821_376 * xt + 5_127 * xxt ==
            38324492470159661439503012401 + 190249994812601904367424 * (x + y) + 1003694451977366223 * (xx + yy)
            + 944436786850533376 * xy + 4982528194752 * (xyy + yxx) + 26286129 * xxyy
  {}

  lemma ExactSum(x: int, y: int)
    requires x + y == 65536
    ensures Exact(x) + Exact(y) == 2 * ONE + 18446811546856783872 - 2951651968 * (x * y)
  {
    PowersOfTwoParts(x, y);
  }

  /** The product of the two, less twice the square of one, as a cubic of x * y. */
  lemma ExactProduct(x: int, y: int)
    requires x + y == 65536
    ensures var v := x * y;
            Exact(x) * Exact(y) - 2 * (ONE * ONE) ==
            1244659878841150403073941172125696 + 655182528260635216362574385 * v
            - 736417149332931998 * (v * v) + 26286129 * (v * (v * v))
  {
    var p, q, v := Exact(x) - ONE, Exact(y) - ONE, x * y;
    ExactSum(x, y);
    ExactIs(x);
    ExactIs(y);
    SlopesMultiply(x, y);
    assert p * q == v * (Slope(x) * Slope(y)) by { Rearrange(x, Slope(x), y, Slope(y)); }
    assert Exact(x) * Exact(y) == ONE * ONE + ONE * (p + q) + p * q;
    assert v * (55103550976617770304126554673 - 736417149332931998 * v + 26286129 * (v * v)) ==
      55103550976617770304126554673 * v - 736417149332931998 * (v * v) + 26286129 * (v * (v * v));
  }

  lemma Rearrange(x: int, r: int, y: int, t: int)
    ensures (x * r) * (y * t) == (x * y) * (r * t)
  {}

  // ---------------------------------------------------------------- it stays small

  lemma Peak(v: int)
    ensures 655182528260635216362574385 * v - 736417149332931998 * (v * v) <= 145727236840844204544278524199083803
  {
    var d := 1472834298665863996 * v - 655182528260635216362574385;
    assert d * d ==
      2169240871326567466667644477169088016 * (v * v) - 1929950599017760572604919704939530189686684920 * v
      + 429264145337998063952447616313056522432544504658128225;
    assert d * d >= 0;
  }

  lemma Ends(v: int)
    requires 0 <= v <= 0x4000_0000
    ensures 655182528260635216362574385 * v - 736417149332931998 * (v * v) >= -145534284879703071395329926714359808
  {
    MulMonotone(v, 0x4000_0000, v, v);
  }

  lemma Cube(v: int)
    requires 0 <= v <= 0x4000_0000
    ensures 0 <= v * (v * v) <= 1237940039285380274899124224
  {
    MulMonotone(v, 0x4000_0000, v, 0x4000_0000);
    CubeBelow(v, v * v);
  }

  lemma CubeBelow(v: nat, w: nat)
    requires v <= 0x4000_0000 && w <= 0x1000_0000_0000_0000
    ensures 0 <= v * w <= 0x4000_0000 * 0x1000_0000_0000_0000
  {
    MulMonotone(v, 0x4000_0000, w, 0x1000_0000_0000_0000);
  }

  lemma SplitBound(x: int, y: int)
    requires 0 <= x && 0 <= y && x + y == 65536
    ensures 0 <= x * y <= 0x4000_0000
  {
    var d := x - y;
    assert 4 * (x * y) == (x + y) * (x + y) - d * d;
    assert d * d >= 0;
  }

  /** Two near values of bounded size have near products. */
  lemma NearProducts(p: int, q: int, x: int, y: int, h: int, most: int)
    requires -h <= p - x <= h && -h <= q - y <= h && 0 <= x <= most && 0 <= q <= most && h >= 0
    ensures -(2 * h * most) <= p * q - x * y <= 2 * h * most
  {
    assert p * q - x * y == (p - x) * q + x * (q - y);
    Scaled(p - x, q, h, most);
    Scaled(q - y, x, h, most);
  }

  lemma Scaled(d: int, q: int, h: int, most: int)
    requires -h <= d <= h && 0 <= q <= most
    ensures -(h * most) <= d * q <= h * most
  {
    if d >= 0 { MulMonotone(d, h, q, most); } else { MulMonotone(-d, h, q, most); Negated(d, q); }
    MulMonotone(0, h, 0, most);
  }

  lemma Negated(d: int, q: int)
    ensures (-d) * q == -(d * q)
  {}

  /** Over the two parts of one half-life the factors multiply to two, in units of 2^-32, to within
      one part in 3500. */
  lemma FactorsMultiplyToTwo(f: nat)
    requires 0 < f < 65536
    ensures -0x2_0000_0000 <= 3500 * (Factor(f) * Factor(65536 - f) - 0x2_0000_0000) <= 0x2_0000_0000
  {
    var g: nat := 65536 - f;
    FactorBounds(f);
    FactorBounds(g);
    CubicIs(f);
    CubicIs(g);
    FactorRounds(f, Exact(f));
    FactorRounds(g, Exact(g));
    SplitBound(f, g);
    ExactProduct(f, g);
    Peak(f * g);
    Ends(f * g);
    Cube(f * g);
    hide Factor, Exact;
    FactorsNear(Factor(f), Factor(g), Exact(f), Exact(g));
  }

  lemma FactorsNear(f: nat, g: nat, x: int, y: int)
    requires f < 131072 && g < 131072
    requires -HALF <= UNIT * f - x <= HALF && -HALF <= UNIT * g - y <= HALF && 0 <= x
    requires -144289625000861920992255985542234112 <= x * y - 2 * (ONE * ONE) <= 179512548286605928667406306710298395
    ensures -0x2_0000_0000 <= 3500 * (f * g - 0x2_0000_0000) <= 0x2_0000_0000
  {
    var most := UNIT * 131072 + HALF;
    NearProducts(UNIT * f, UNIT * g, x, y, HALF, most);
    assert (UNIT * f) * (UNIT * g) == UNIT * UNIT * (f * g);
  }
}
