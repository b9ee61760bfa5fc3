/** Multiples, and rounding up to them. */
module Arithmetic {
  lemma ProductMonotone(p: nat, q: nat, a: nat)
    requires p <= q
    ensures p * a <= q * a
  {
    assert q * a == p * a + (q - p) * a;
  }

  lemma ExactQuotient(q: nat, m: nat)
    requires m > 0
    ensures m * q / m == q && m * q % m == 0
  {
    var n := m * q;
    var d := n / m;
    assert n == m * d + n % m;
    assert q > d ==> n >= m * d + m by { if q > d { MultiplesApart(m, d, q); } }
    assert q < d ==> n + m <= m * d by { if q < d { MultiplesApart(m, q, d); } }
    assert d == q;
  }

  lemma MultiplesApart(b: nat, x: nat, y: nat)
    requires x < y
    ensures b * x + b <= b * y
  {
    ProductMonotone(x + 1, y, b);
    assert (x + 1) * b == b * x + b;
  }

  function Max(a: int, b: int): (m: int)
    ensures a <= m && b <= m && (m == a || m == b)
  {
    if a < b then b else a
  }

  // ----- alignment

  ghost predicate Aligned(n: nat, a: nat)
    requires a > 0
  {
    n % a == 0
  }

  /** RT_ALIGN, for a power of two `a`, when the addition does not wrap. */
  function RoundUp(n: nat, a: nat): nat
    requires a > 0
  {
    (n + a - 1) / a * a
  }

  lemma AlignedSum(x: nat, y: nat, a: nat)
    requires a > 0 && Aligned(x, a) && Aligned(y, a)
    ensures Aligned(x + y, a)
    ensures x >= y ==> Aligned(x - y, a)
  {
    var p, q := x / a, y / a;
    assert x == p * a && y == q * a;
    assert x + y == (p + q) * a;
    MultipleIsAligned(p + q, a);
    if x >= y {
      DivisionMonotone(x, y, a);
      assert x - y == (p - q) * a;
      MultipleIsAligned(p - q, a);
    }
  }

  lemma DivisionMonotone(x: nat, y: nat, a: nat)
    requires a > 0 && x >= y
    ensures x / a >= y / a
  {
    var p, q := x / a, y / a;
    assert y == q * a + y % a && x == p * a + x % a;
    assert x < (p + 1) * a;
    if p < q {
      ProductMonotone(p + 1, q, a);
    }
  }

  lemma MultipleIsAligned(q: nat, a: nat)
    requires a > 0
    ensures Aligned(q * a, a)
  {
    ExactQuotient(q, a);
  }

  /** `RoundUp` gives the least aligned number that is not below `n`. */
  lemma RoundUpIsLeast(n: nat, a: nat)
    requires a > 0
    ensures Aligned(RoundUp(n, a), a) && n <= RoundUp(n, a) < n + a
    ensures forall k: nat :: n <= k && Aligned(k, a) ==> RoundUp(n, a) <= k
  {
    RoundUpBounds(n, a);
    forall k: nat | n <= k && Aligned(k, a)
      ensures RoundUp(n, a) <= k
    {
      AlignedGap(RoundUp(n, a), k, a);
    }
  }

  lemma RoundUpBounds(n: nat, a: nat)
    requires a > 0
    ensures Aligned(RoundUp(n, a), a) && n <= RoundUp(n, a) < n + a
  {
    var q := (n + a - 1) / a;
    assert n + a - 1 == q * a + (n + a - 1) % a;
    MultipleIsAligned(q, a);
  }

  /** Aligned numbers less than `a` apart are not apart. */
  lemma AlignedGap(x: nat, k: nat, a: nat)
    requires a > 0 && Aligned(x, a) && Aligned(k, a) && x < k + a
    ensures x <= k
  {
    var p, q := x / a, k / a;
    assert x == p * a && k == q * a;
    ProductOrder(p, q, a);
  }

  lemma ProductOrder(p: nat, q: nat, a: nat)
    ensures p * a <= q * a || p * a >= q * a + a
  {
    if p > q {
      ProductMonotone(q + 1, p, a);
    } else {
      ProductMonotone(p, q, a);
    }
  }
}
