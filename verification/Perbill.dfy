/**
 Fixed-point fractions in parts per billion, as sp_runtime provides them:
 FromRational floors and saturates at one, a product of two fractions is truncated,
 and a fraction of an amount is rounded to the nearest unit with ties going down.
 */
module Perbills {
  const BILLION: nat := 1_000_000_000

  type Perbill = p: nat | p <= BILLION

  function FromRational(p: nat, q: nat): Perbill {
    if q == 0 || p > q then BILLION
    else
      DivUpper(p * BILLION, q, BILLION);
      p * BILLION / q
  }

  /** Perbill times Perbill. */
  function Times(a: Perbill, b: Perbill): (r: Perbill)
    ensures r <= a && r <= b
  {
    MulMono(a, b, BILLION);
    MulMono(b, a, BILLION);
    a * b / BILLION
  }

  /** A number of billionths to the nearest unit, ties down. */
  function Nearest(n: nat): nat {
    var q, r := n / BILLION, n % BILLION;
    if 2 * r > BILLION then q + 1 else q
  }

  /** Perbill times an amount. */
  function Of(p: Perbill, x: nat): nat {
    Nearest(p * x)
  }

  function SatSub(a: nat, b: nat): nat {
    if a < b then 0 else a - b
  }

  function PerbillAdd(a: Perbill, b: Perbill): Perbill {
    if a + b > BILLION then BILLION else a + b
  }

  lemma MulMono(x: nat, y: nat, z: nat)
    requires y <= z
    ensures x * y <= x * z
  {
  }

  lemma DivUpper(n: nat, d: nat, m: nat)
    requires d > 0 && n <= m * d
    ensures n / d <= m
  {
    if n / d > m {
      MulMono(d, m + 1, n / d);
    }
  }

  lemma QuotientBounds(a: nat, d: nat)
    requires d > 0
    ensures (a / d) * d <= a < (a / d) * d + d
  {
  }

  lemma DivMono(a: nat, b: nat, d: nat)
    requires a <= b && d > 0
    ensures a / d <= b / d
  {
    if a / d > b / d {
      MulMono(d, b / d + 1, a / d);
    }
  }

  /** The rounded product lies within half a unit of the exact one: 2*Of(p, x)*BILLION is within BILLION of 2*p*x. */
  lemma OfWithinHalf(p: Perbill, x: nat)
    ensures 2 * p * x - BILLION <= 2 * Of(p, x) * BILLION <= 2 * p * x + BILLION
    ensures 2 * Of(p, x) * BILLION < 2 * p * x + BILLION
  {
    var n := p * x;
    assert n == BILLION * (n / BILLION) + n % BILLION;
    assert 2 * p * x == 2 * n;
  }

  lemma OfAtMost(p: Perbill, x: nat)
    ensures Of(p, x) <= x
  {
    OfWithinHalf(p, x);
    MulMono(x, p, BILLION);
    assert 2 * p * x == 2 * (x * p);
  }

  /** A fraction of an amount is monotone in both arguments. */
  lemma OfMono(p: Perbill, q: Perbill, x: nat, y: nat)
    requires p <= q && x <= y
    ensures Of(p, x) <= Of(q, y)
  {
    MulMono(x, p, q);
    MulMono(q, x, y);
    var m, n := p * x, q * y;
    assert m <= n;
    DivMono(m, n, BILLION);
  }

  lemma TimesMono(a: Perbill, b: Perbill, c: Perbill, d: Perbill)
    requires a <= c && b <= d
    ensures Times(a, b) <= Times(c, d)
  {
    MulMono(a, b, d);
    MulMono(d, a, c);
    DivMono(a * b, c * d, BILLION);
  }

  lemma FromRationalMono(p: nat, p': nat, q: nat)
    requires p <= p'
    ensures FromRational(p, q) <= FromRational(p', q)
  {
    if q != 0 && p' <= q {
      MulMono(BILLION, p, p');
      DivMono(p * BILLION, p' * BILLION, q);
    }
  }

  lemma FromRationalBelow(p: nat, q: nat)
    requires p <= q && q > 0
    ensures FromRational(p, q) * q <= p * BILLION
  {
    assert q * (p * BILLION / q) <= p * BILLION;
  }

  lemma FullRatio(p: nat, q: nat)
    requires p >= q
    ensures FromRational(p, q) == BILLION
  {
    if p == q && q > 0 {
      DivExact(BILLION, q);
    }
  }

  lemma DivExact(n: nat, d: nat)
    requires d > 0
    ensures d * n / d == n
  {
    var q := d * n / d;
    DivUpper(d * n, d, n);
    if q < n {
      MulMono(d, q + 1, n);
    }
  }

  lemma FullTimes(p: Perbill)
    ensures Times(BILLION, p) == p
  {
  }
}
