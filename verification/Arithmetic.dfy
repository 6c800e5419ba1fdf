/** Powers of two, and order facts about products and quotients, kept away from everything else. */
module Arithmetic {
  function Pow2(n: nat): (p: nat)
    ensures p >= 1
  {
    if n == 0 then 1 else 2 * Pow2(n - 1)
  }

  lemma MulMonotone(a: nat, a': nat, b: nat, b': nat)
    requires a <= a' && b <= b'
    ensures a * b <= a' * b'
  {
    assert a * b <= a' * b;
    assert a' * b <= a' * b';
  }

  lemma Cancel(q: nat, r: nat, d: nat)
    ensures q * d < r * d ==> q < r
  {
    if r <= q { MulMonotone(r, q, d, d); }
  }

  lemma DivMonotone(a: nat, b: nat, d: nat)
    requires a <= b && d > 0
    ensures a / d <= b / d
  {
    assert a / d * d <= a && b < (b / d + 1) * d;
    Cancel(a / d, b / d + 1, d);
  }

  lemma QuotientBelow(a: nat, d: nat)
    requires d > 0
    ensures 0 <= a / d <= a
  {
    MulMonotone(a + 1, a + 1, 1, d);
    assert a / d * d <= a < (a + 1) * d;
    Cancel(a / d, a + 1, d);
  }

  lemma QuotientFloor(a: nat, d: nat)
    requires d > 0
    ensures a / d * d <= a < (a / d + 1) * d
  {}

  lemma SmallerFactor(q: nat, r: nat, a: nat, small: nat, large: nat)
    requires q * large <= a < (r + 1) * small && small <= large
    ensures q <= r
  {
    MulMonotone(q, q, small, large);
    Cancel(q, r + 1, small);
  }

  lemma QuotientShrinks(a: nat, small: nat, large: nat)
    requires 0 < small <= large
    ensures 0 <= a / large <= a / small
  {
    var q, r := a / large, a / small;
    QuotientFloor(a, small);
    QuotientFloor(a, large);
    assert 0 <= q && 0 <= r by { QuotientBelow(a, large); QuotientBelow(a, small); }
    SmallerFactor(q, r, a, small, large);
  }
}
