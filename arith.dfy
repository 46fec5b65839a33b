/** Integer facts the solver does not find on its own (products and remainders by a variable). */
module Arith {

  lemma MulAtLeast(d: int, m: int)
    requires d >= 1 && m > 0
    ensures d * m >= m
  {
    if d > 1 {
      MulAtLeast(d - 1, m);
      assert d * m == (d - 1) * m + m;
    }
  }

  lemma NegMul(d: int, m: int)
    ensures (-d) * m == -(d * m)
  {
  }

  lemma SmallMultiple(d: int, m: int)
    requires m > 0 && -m < d * m < m
    ensures d == 0
  {
    NegMul(d, m);
    if d >= 1 {
      MulAtLeast(d, m);
    } else if d <= -1 {
      MulAtLeast(-d, m);
    }
  }

  /** Euclidean division is unique. */
  lemma DivModUnique(a: int, m: int, q: int, r: int)
    requires m > 0 && 0 <= r < m && a == q * m + r
    ensures a / m == q && a % m == r
  {
    assert (q - a / m) * m == a % m - r;
    SmallMultiple(q - a / m, m);
  }

  lemma ModOfSmall(a: int, m: int)
    requires 0 <= a < m
    ensures a % m == a
  {
    DivModUnique(a, m, 0, a);
  }

  lemma ModAddPeriod(a: int, m: int)
    requires m > 0
    ensures (a + m) % m == a % m
  {
    DivModUnique(a + m, m, a / m + 1, a % m);
  }

  /** Adding an even number keeps the parity. */
  lemma ParityShift(d: int, m: int)
    ensures (d + 2 * m) % 2 == d % 2
  {
    DivModUnique(d + 2 * m, 2, d / 2 + m, d % 2);
  }
}
