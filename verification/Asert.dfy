/** ASERT target schedule in fixed point, against the unbounded-integer formula. */
module Asert {
  import opened Arithmetic
  import opened Primitives

  type i128 = n: int | -0x8000_0000_0000_0000_0000_0000_0000_0000 <= n < 0x8000_0000_0000_0000_0000_0000_0000_0000

  const FRACTION_SCALE: nat := 65536

  // Products and quotients of two variables are spelled as recursions, so that the solver
  // keeps them apart; ProductIs and QuotientIs say they are * and /.

  function Product(a: nat, b: nat): nat { if b == 0 then 0 else Product(a, b - 1) + a }

  function Quotient(x: nat, p: nat): (q: nat)
    requires p >= 1
    ensures q <= x
    decreases x
  {
    if x < p then 0 else 1 + Quotient(x - p, p)
  }

  /** Signed division truncating toward zero. */
  function TruncDiv(a: int, b: int): int
    requires b > 0
  {
    if a >= 0 then Quotient(a, b) else -(Quotient(-a, b) as int)
  }

  /** The cubic of the fixed-point exponential, before its final shift. */
  function Cubic(fraction: nat): nat
  {
    195_766_423_245_049 * fraction
    + 971_821_376 * Product(fraction, fraction)
    + 5_127 * Product(Product(fraction, fraction), fraction)
    + 0x8000_0000_0000
  }

  function Factor(fraction: nat): nat { FRACTION_SCALE + Cubic(fraction) / 0x1_0000_0000_0000 }

  /** 512-bit shifts: the left one loses whatever leaves the top. */
  function Shl512(x: u512, n: nat): u512 { Product(x, Pow2(n)) % TWO_512 }

  function Shr512(x: u512, n: nat): u512 { Quotient(x, Pow2(n)) }

  /** The source's computation, in its own widths. */
  function AsertUpper(initial: u256, drift: i128, halfLife: u32, cap: u256): Option<u256>
  {
    if initial == 0 || cap == 0 || initial > cap || halfLife == 0 then None
    else
      var cutoff := 256 * halfLife;
      if drift >= cutoff then Some(cap)
      else if drift <= -cutoff then Some(1)
      else
        var exponent := TruncDiv(drift * FRACTION_SCALE, halfLife);
        var whole, fraction := exponent / FRACTION_SCALE, exponent % FRACTION_SCALE;
        var factor := Factor(fraction);
        FactorBounds(fraction);
        ScaledFits(initial, factor);
        var scaled: u512 := Product(initial, factor);
        var target := if whole >= 16 then Shl512(scaled, whole - 16) else Shr512(scaled, 16 - whole);
        if target == 0 then Some(1)
        else if target > cap then Some(cap)
        else Some(target)
  }

  // ---------------------------------------------------------------- the formula

  /** floor(initial * factor * 2^(whole - 16)) for any exponent, in unbounded integers. */
  function Ideal(initial: nat, exponent: int): nat
  {
    var whole, factor := exponent / FRACTION_SCALE, Factor(exponent % FRACTION_SCALE);
    if whole >= 16 then Product(Product(initial, factor), Pow2(whole - 16))
    else Quotient(Product(initial, factor), Pow2(16 - whole))
  }

  function Clamp(x: nat, cap: nat): nat { if x == 0 then 1 else if x > cap then cap else x }

  function Exponent(drift: int, halfLife: nat): int
    requires halfLife > 0
  {
    TruncDiv(drift * FRACTION_SCALE, halfLife)
  }

  // ---------------------------------------------------------------- arithmetic

  lemma {:induction false} Pow2Add(a: nat, b: nat)
    ensures Pow2(a + b) == Pow2(a) * Pow2(b)
  {
    if a == 0 {
      assert Pow2(a) == 1;
    } else {
      Pow2Add(a - 1, b);
      assert Pow2(a + b) == 2 * Pow2(a - 1 + b) && Pow2(a) == 2 * Pow2(a - 1);
      hide Pow2;
      DoubleLeft(Pow2(a - 1), Pow2(b));
    }
  }

  lemma DoubleLeft(x: nat, y: nat)
    ensures 2 * (x * y) == (2 * x) * y
  {
  }

  lemma {:induction false} Pow2Monotone(a: nat, b: nat)
    requires a <= b
    ensures Pow2(a) <= Pow2(b)
  {
    if a < b { Pow2Monotone(a, b - 1); }
  }

  lemma Pow2Values()
    ensures Pow2(16) == 65536 && Pow2(17) == 131072
    ensures Pow2(256) == TWO_256 && Pow2(512) == TWO_512
  {
    Pow2Small();
    Pow2Large();
  }

  lemma Pow2Small()
    ensures Pow2(16) == 65536 && Pow2(17) == 131072
  {
    assert Pow2(4) == 16;
    Pow2Add(4, 4);
    Pow2Add(8, 8);
  }

  lemma Pow2Large()
    ensures Pow2(256) == TWO_256 && Pow2(512) == TWO_512
  {
    hide Pow2;
    Pow2Small();
    Pow2Add(16, 16);
    Pow2Add(32, 32);
    Pow2Add(64, 64);
    Pow2Add(128, 128);
    Pow2Add(256, 256);
  }

  lemma {:induction false} ProductIs(a: nat, b: nat)
    ensures Product(a, b) == a * b
  {
    if b > 0 {
      ProductIs(a, b - 1);
      assert a * (b - 1) + a == a * b;
    }
  }

  lemma {:induction false} QuotientBounds(x: nat, p: nat)
    requires p >= 1
    ensures Quotient(x, p) * p <= x < (Quotient(x, p) + 1) * p
    decreases x
  {
    if x >= p {
      QuotientBounds(x - p, p);
      var q := Quotient(x - p, p);
      assert (q + 1) * p == q * p + p && (q + 2) * p == (q + 1) * p + p;
    }
  }

  lemma {:induction false} QuotientIs(x: nat, p: nat)
    requires p >= 1
    ensures Quotient(x, p) == x / p
  {
    hide Quotient;
    QuotientBounds(x, p);
    QuotientUnique(x, p, Quotient(x, p));
  }

  lemma {:induction false} TruncIs(a: int, b: int)
    requires b > 0
    ensures TruncDiv(a, b) == if a >= 0 then a / b else -((-a) / b)
  {
    hide Quotient;
    if a >= 0 { QuotientIs(a, b); } else { QuotientIs(-a, b); }
  }

  lemma {:induction false} IdealIs(initial: nat, exponent: int)
    ensures var whole, factor := exponent / FRACTION_SCALE, Factor(exponent % FRACTION_SCALE);
            Ideal(initial, exponent) ==
            if whole >= 16 then initial * factor * Pow2(whole - 16) else initial * factor / Pow2(16 - whole)
  {
    hide Product, Quotient, Factor, Pow2;
    var whole, factor := exponent / FRACTION_SCALE, Factor(exponent % FRACTION_SCALE);
    ProductIs(initial, factor);
    if whole >= 16 {
      ProductIs(initial * factor, Pow2(whole - 16));
    } else {
      QuotientIs(initial * factor, Pow2(16 - whole));
    }
  }

  /** The cubic and all its partial sums stay far below 2^128, and the factor in [2^16, 2^17). */
  lemma FactorBounds(fraction: nat)
    requires fraction < FRACTION_SCALE
    ensures Cubic(fraction) < 0x1_0000_0000_0000_0000_0000_0000_0000_0000
    ensures FRACTION_SCALE <= Factor(fraction) < 2 * FRACTION_SCALE
  {
    var top: nat := 65535;
    CubicMonotone(fraction, top);
    CubicTop(top);
    hide Cubic;
    DivMonotone(Cubic(fraction), Cubic(top), 0x1_0000_0000_0000);
  }

  lemma CubicTop(top: nat)
    requires top == 65535
    ensures Cubic(top) < 0x1_0000_0000_0000 * FRACTION_SCALE
  {
    hide Product;
    ProductIs(top, top);
    ProductIs(Product(top, top), top);
  }

  lemma CubicMonotone(f: nat, g: nat)
    requires f <= g
    ensures Cubic(f) <= Cubic(g)
  {
    hide Product;
    ProductMonotone(f, g, f, g);
    ProductMonotone(Product(f, f), Product(g, g), f, g);
    Weighted(f, g, Product(f, f), Product(g, g), Product(Product(f, f), f), Product(Product(g, g), g));
  }

  lemma {:induction false} ProductMonotone(a: nat, a': nat, b: nat, b': nat)
    requires a <= a' && b <= b'
    ensures Product(a, b) <= Product(a', b')
  {
    hide Product;
    ProductIs(a, b);
    ProductIs(a', b');
    MulMonotone(a, a', b, b');
  }

  lemma Weighted(x: nat, x': nat, y: nat, y': nat, z: nat, z': nat)
    requires x <= x' && y <= y' && z <= z'
    ensures 195_766_423_245_049 * x + 971_821_376 * y + 5_127 * z
              <= 195_766_423_245_049 * x' + 971_821_376 * y' + 5_127 * z'
  {}

  lemma {:induction false} ScaledFits(initial: nat, factor: nat)
    requires initial < TWO_256 && factor < TWO_256
    ensures Product(initial, factor) < TWO_512
  {
    hide Product;
    ProductIs(initial, factor);
    MulMonotone(initial, TWO_256 - 1, factor, TWO_256 - 1);
  }

  lemma FactorMonotone(f: nat, g: nat)
    requires f <= g
    ensures Factor(f) <= Factor(g)
  {
    hide Cubic;
    CubicMonotone(f, g);
    DivMonotone(Cubic(f), Cubic(g), 0x1_0000_0000_0000);
  }

  /** Truncation cannot reverse an order. */
  lemma TruncMonotone(a: int, b: int, d: nat)
    requires a <= b && d > 0
    ensures TruncDiv(a, d) <= TruncDiv(b, d)
  {
    hide TruncDiv;
    TruncIs(a, d);
    TruncIs(b, d);
    if a >= 0 && b >= 0 {
      DivMonotone(a, b, d);
    } else if b < 0 {
      DivMonotone(-b, -a, d);
    } else {
      DivMonotone(0, -a, d);
      DivMonotone(0, b, d);
    }
  }

  /** With a common power of two in front, the two cases of the formula are one division. */
  lemma IdealOverCommonScale(initial: nat, exponent: int, k: nat)
    requires k >= 16 && exponent / FRACTION_SCALE + k - 16 >= 0
    ensures var whole, factor := exponent / FRACTION_SCALE, Factor(exponent % FRACTION_SCALE);
            Ideal(initial, exponent) == initial * (factor * Pow2(whole + k - 16)) / Pow2(k)
  {
    var whole, x := exponent / FRACTION_SCALE, initial * Factor(exponent % FRACTION_SCALE);
    var factor := Factor(exponent % FRACTION_SCALE);
    hide Ideal, Factor;
    IdealIs(initial, exponent);
    MulAssoc(initial, factor, Pow2(whole + k - 16));
    if whole >= 16 {
      Pow2Add(whole - 16, k);
      MulAssoc(x, Pow2(whole - 16), Pow2(k));
      DivExact(x * Pow2(whole - 16), Pow2(k));
    } else {
      Pow2Add(16 - whole, whole + k - 16);
      DivCancel(x, Pow2(16 - whole), Pow2(whole + k - 16));
    }
  }

  lemma MulAssoc(a: nat, b: nat, c: nat)
    ensures a * b * c == a * (b * c)
  {}

  lemma DivExact(a: nat, d: nat)
    requires d > 0
    ensures a * d / d == a
  {
    QuotientUnique(a * d, d, a);
  }

  lemma QuotientUnique(a: nat, d: nat, q: nat)
    requires d > 0 && q * d <= a < (q + 1) * d
    ensures a / d == q
  {
    var p := a / d;
    assert p * d <= a < (p + 1) * d;
    if p < q {
      MulMonotone(p + 1, q, d, d);
    } else if q < p {
      MulMonotone(q + 1, p, d, d);
    }
  }

  lemma DivCancel(a: nat, d: nat, c: nat)
    requires d > 0 && c > 0
    ensures d * c > 0 && a * c / (d * c) == a / d
  {
    var q := a / d;
    assert q * d <= a < (q + 1) * d;
    MulMonotone(q * d, a, c, c);
    MulAssoc(q, d, c);
    MulAssoc(q + 1, d, c);
    MulMonotone(a + 1, (q + 1) * d, c, c);
    assert (a + 1) * c == a * c + c;
    assert d * c > 0 by { MulMonotone(1, d, 1, c); }
    QuotientUnique(a * c, d * c, q);
  }

  // ---------------------------------------------------------------- the formula is monotone

  /** The scaled factor never falls, also where the fraction wraps and the shift grows. */
  lemma ScaledFactorMonotone(e1: int, e2: int, k: nat)
    requires e1 <= e2 && k >= 16 && e1 / FRACTION_SCALE + k - 16 >= 0
    ensures Factor(e1 % FRACTION_SCALE) * Pow2(e1 / FRACTION_SCALE + k - 16) <=
            Factor(e2 % FRACTION_SCALE) * Pow2(e2 / FRACTION_SCALE + k - 16)
  {
    hide Factor;
    var (w1, w2) := (e1 / FRACTION_SCALE, e2 / FRACTION_SCALE);
    var (f1, f2) := (Factor(e1 % FRACTION_SCALE), Factor(e2 % FRACTION_SCALE));
    FactorBounds(e1 % FRACTION_SCALE);
    FactorBounds(e2 % FRACTION_SCALE);
    if w1 == w2 {
      FactorMonotone(e1 % FRACTION_SCALE, e2 % FRACTION_SCALE);
      MulMonotone(f1, f2, Pow2(w1 + k - 16), Pow2(w1 + k - 16));
    } else {
      assert w1 < w2;
      Pow2Monotone(w1 + k - 16 + 1, w2 + k - 16);
      assert Pow2(w1 + k - 16 + 1) == 2 * Pow2(w1 + k - 16);
      MulMonotone(f1, 2 * FRACTION_SCALE, Pow2(w1 + k - 16), Pow2(w1 + k - 16));
      MulMonotone(FRACTION_SCALE, f2, Pow2(w1 + k - 16 + 1), Pow2(w2 + k - 16));
    }
  }

  lemma IdealMonotone(initial: nat, e1: int, e2: int)
    requires e1 <= e2
    ensures Ideal(initial, e1) <= Ideal(initial, e2)
  {
    hide Pow2, Factor, Ideal;
    var k := if e1 / FRACTION_SCALE >= 0 then 16 else 16 - e1 / FRACTION_SCALE;
    assert e1 / FRACTION_SCALE <= e2 / FRACTION_SCALE;
    IdealOverCommonScale(initial, e1, k);
    IdealOverCommonScale(initial, e2, k);
    ScaledFactorMonotone(e1, e2, k);
    var g1 := Factor(e1 % FRACTION_SCALE) * Pow2(e1 / FRACTION_SCALE + k - 16);
    var g2 := Factor(e2 % FRACTION_SCALE) * Pow2(e2 / FRACTION_SCALE + k - 16);
    MulMonotone(initial, initial, g1, g2);
    DivMonotone(initial * g1, initial * g2, Pow2(k));
  }

  // ---------------------------------------------------------------- the code meets the formula

  lemma AtLeast(initial: nat, factor: nat, p: nat)
    requires initial >= 1 && factor >= FRACTION_SCALE
    ensures initial * factor * p >= FRACTION_SCALE * p
  {
    MulMonotone(1, initial, FRACTION_SCALE, factor);
    MulMonotone(FRACTION_SCALE, initial * factor, p, p);
  }

  /** From 256 half-lives up the formula exceeds every cap. */
  lemma SaturatesHigh(initial: nat, exponent: int)
    requires initial >= 1 && exponent >= 256 * FRACTION_SCALE
    ensures Ideal(initial, exponent) >= TWO_256
  {
    hide Ideal, Factor, Pow2;
    var edge: int := 256 * FRACTION_SCALE;
    IdealMonotone(initial, edge, exponent);
    IdealIs(initial, edge);
    FactorBounds(0);
    Pow2Values();
    Pow2Add(16, 240);
    AtLeast(initial, Factor(0), Pow2(240));
  }

  /** From 256 half-lives down it is at most one. */
  lemma SaturatesLow(initial: nat, exponent: int)
    requires initial < TWO_256 && exponent <= -256 * FRACTION_SCALE
    ensures Ideal(initial, exponent) <= 1
  {
    hide Ideal, Factor, Pow2;
    IdealMonotone(initial, exponent, -256 * FRACTION_SCALE);
    IdealIs(initial, -256 * FRACTION_SCALE);
    FactorBounds(0);
    Pow2Values();
    Pow2Add(256, 16);
    var x := initial * Factor(0);
    MulMonotone(initial, TWO_256, Factor(0), 2 * FRACTION_SCALE - 1);
    assert Ideal(initial, -256 * FRACTION_SCALE) == x / Pow2(272);
    assert x < 2 * Pow2(272) && x / Pow2(272) * Pow2(272) <= x;
    Cancel(x / Pow2(272), 2, Pow2(272));
  }

  lemma TruncExact(a: int, d: nat)
    requires d > 0
    ensures TruncDiv(a * d, d) == a
  {
    hide TruncDiv;
    TruncIs(a * d, d);
    if a >= 0 {
      DivExact(a, d);
    } else {
      DivExact(-a, d);
      assert -(a * d) == (-a) * d;
    }
  }

  /** A drift strictly inside the cutoffs has an exponent inside 256 half-lives. */
  lemma ExponentBounds(drift: int, halfLife: nat)
    requires halfLife > 0
    ensures drift >= 256 * halfLife ==> Exponent(drift, halfLife) >= 256 * FRACTION_SCALE
    ensures drift <= -256 * halfLife ==> Exponent(drift, halfLife) <= -256 * FRACTION_SCALE
    ensures -256 * halfLife < drift < 256 * halfLife ==>
              -256 * FRACTION_SCALE <= Exponent(drift, halfLife) < 256 * FRACTION_SCALE
  {
    hide TruncDiv;
    var (hi, lo) := (256 * FRACTION_SCALE, -256 * FRACTION_SCALE);
    TruncExact(hi, halfLife);
    TruncExact(lo, halfLife);
    assert hi * halfLife == 256 * halfLife * FRACTION_SCALE;
    assert lo * halfLife == -256 * halfLife * FRACTION_SCALE;
    if drift >= 256 * halfLife {
      TruncMonotone(hi * halfLife, drift * FRACTION_SCALE, halfLife);
    } else if drift <= -256 * halfLife {
      TruncMonotone(drift * FRACTION_SCALE, lo * halfLife, halfLife);
    } else {
      TruncMonotone(lo * halfLife, drift * FRACTION_SCALE, halfLife);
      TruncIs(drift * FRACTION_SCALE, halfLife);
      if drift >= 0 {
        var q := drift * FRACTION_SCALE / halfLife;
        assert q * halfLife <= drift * FRACTION_SCALE < hi * halfLife;
        if q >= hi { MulMonotone(hi, q, halfLife, halfLife); }
      }
    }
  }

  /** Inside the cutoffs neither the product nor the left shift loses a bit of 512. */
  lemma NoBitLost(initial: u256, whole: int, factor: nat)
    requires 16 <= whole < 256 && factor < 2 * FRACTION_SCALE
    ensures initial * factor * Pow2(whole - 16) < TWO_512
  {
    hide Pow2;
    Pow2Values();
    Pow2Monotone(whole - 16, 239);
    Pow2Add(17, 239);
    ProductBound(initial, TWO_256 - 1, factor, Pow2(17), Pow2(whole - 16), Pow2(239));
    assert (TWO_256 - 1) * TWO_256 < TWO_512;
  }

  lemma ProductBound(a: nat, a': nat, b: nat, b': nat, c: nat, c': nat)
    requires a <= a' && b <= b' && c <= c'
    ensures a * b * c <= a' * (b' * c')
  {
    MulMonotone(a, a', b, b');
    MulMonotone(a * b, a' * b', c, c');
    MulAssoc(a', b', c');
  }

  predicate ValidInput(initial: u256, halfLife: u32, cap: u256)
  {
    0 < initial <= cap && halfLife != 0
  }

  /** The result is the clamped unbounded formula, for every drift. */
  lemma AsertIsClampedFormula(initial: u256, drift: i128, halfLife: u32, cap: u256)
    ensures AsertUpper(initial, drift, halfLife, cap).Some? <==> ValidInput(initial, halfLife, cap)
    ensures ValidInput(initial, halfLife, cap) ==>
              var r := AsertUpper(initial, drift, halfLife, cap).value;
              r == Clamp(Ideal(initial, Exponent(drift, halfLife)), cap) && 1 <= r <= cap
  {
    hide Ideal, TruncDiv;
    if ValidInput(initial, halfLife, cap) {
      var e := Exponent(drift, halfLife);
      ExponentBounds(drift, halfLife);
      if drift >= 256 * halfLife {
        SaturatesHigh(initial, e);
      } else if drift <= -256 * halfLife {
        SaturatesLow(initial, e);
      } else {
        InsideCutoffs(initial, drift, halfLife, cap);
      }
    }
  }

  lemma InsideCutoffs(initial: u256, drift: i128, halfLife: u32, cap: u256)
    requires ValidInput(initial, halfLife, cap) && -256 * halfLife < drift < 256 * halfLife
    ensures AsertUpper(initial, drift, halfLife, cap) == Some(Clamp(Ideal(initial, Exponent(drift, halfLife)), cap))
  {
    hide Pow2, Factor, TruncDiv, Product, Quotient;
    var e := Exponent(drift, halfLife);
    ExponentBounds(drift, halfLife);
    var whole, factor := e / FRACTION_SCALE, Factor(e % FRACTION_SCALE);
    FactorBounds(e % FRACTION_SCALE);
    ScaledFits(initial, factor);
    if whole >= 16 {
      NoBitLost(initial, whole, factor);
      ProductIs(initial, factor);
      ProductIs(Product(initial, factor), Pow2(whole - 16));
      SmallMod(Product(Product(initial, factor), Pow2(whole - 16)), TWO_512);
    }
  }

  lemma SmallMod(x: nat, m: nat)
    requires x < m
    ensures x % m == x
  {}

  /** More drift never makes mining harder. */
  lemma AsertMonotone(initial: u256, d1: i128, d2: i128, halfLife: u32, cap: u256)
    requires ValidInput(initial, halfLife, cap) && d1 <= d2
    ensures AsertUpper(initial, d1, halfLife, cap).Some? && AsertUpper(initial, d2, halfLife, cap).Some?
    ensures AsertUpper(initial, d1, halfLife, cap).value <= AsertUpper(initial, d2, halfLife, cap).value
  {
    AsertIsClampedFormula(initial, d1, halfLife, cap);
    AsertIsClampedFormula(initial, d2, halfLife, cap);
    TruncMonotone(d1 * FRACTION_SCALE, d2 * FRACTION_SCALE, halfLife);
    IdealMonotone(initial, Exponent(d1, halfLife), Exponent(d2, halfLife));
  }

  /** Exactly n half-lives of drift scale the target by 2^n. */
  lemma WholeHalfLivesDouble(initial: u256, n: int, halfLife: u32, cap: u256)
    requires ValidInput(initial, halfLife, cap)
    requires -0x8000_0000_0000_0000_0000_0000_0000_0000 <= n * halfLife < 0x8000_0000_0000_0000_0000_0000_0000_0000
    ensures AsertUpper(initial, n * halfLife, halfLife, cap) ==
            Some(Clamp(if n >= 0 then initial * Pow2(n) else initial / Pow2(-n), cap))
  {
    hide AsertUpper, Ideal, TruncDiv, Pow2, Clamp;
    AsertIsClampedFormula(initial, n * halfLife, halfLife, cap);
    assert n * halfLife * FRACTION_SCALE == (n * FRACTION_SCALE) * halfLife;
    TruncExact(n * FRACTION_SCALE, halfLife);
    IdealAtWhole(initial, n);
  }

  lemma IdealAtWhole(initial: nat, n: int)
    ensures Ideal(initial, n * FRACTION_SCALE) == if n >= 0 then initial * Pow2(n) else initial / Pow2(-n)
  {
    assert n * FRACTION_SCALE / FRACTION_SCALE == n && n * FRACTION_SCALE % FRACTION_SCALE == 0;
    assert Factor(0) == FRACTION_SCALE;
    hide Pow2, Factor, Ideal;
    IdealIs(initial, n * FRACTION_SCALE);
    Pow2Small();
    if n >= 16 {
      Pow2Add(16, n - 16);
      MulAssoc(initial, Pow2(16), Pow2(n - 16));
    } else if n >= 0 {
      Pow2Add(n, 16 - n);
      ScaleDown(initial, Pow2(n), Pow2(16 - n));
    } else {
      Pow2Add(-n, 16);
      DivCancel(initial, Pow2(-n), Pow2(16));
    }
  }

  lemma ScaleDown(x: nat, a: nat, b: nat)
    requires b > 0
    ensures x * (a * b) / b == x * a
  {
    MulAssoc(x, a, b);
    DivExact(x * a, b);
  }
}
