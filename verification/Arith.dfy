// Facts about products and quotients that the index arithmetic of the kernels
// needs and that the solver does not find by itself.

module Arith {

  lemma MulMono(a: int, b: int, c: int)
    requires a <= b && 0 <= c
    ensures a * c <= b * c
  {
  }

  // i * n + [0, n) stays below m * n when i < m.
  lemma RowFits(i: int, m: int, n: int)
    requires i < m && 0 <= n
    ensures i * n + n <= m * n
  {
    MulMono(i + 1, m, n);
    assert (i + 1) * n == i * n + n;
  }

  lemma {:induction false} DivModUnique(q: nat, n: nat, r: nat)
    requires r < n
    ensures (q * n + r) / n == q && (q * n + r) % n == r
    decreases q
  {
    if q == 0 {
      assert q * n == 0;
    } else {
      DivModUnique(q - 1, n, r);
      var x, y := (q - 1) * n + r, q * n + r;
      StepDivMod(x, n);
      assert y == x + n;
    }
  }

  lemma StepDivMod(x: nat, n: nat)
    requires n > 0
    ensures (x + n) / n == x / n + 1 && (x + n) % n == x % n
  {
    var q, r := x / n, x % n;
    assert x == n * q + r;
    var q', r' := (x + n) / n, (x + n) % n;
    assert x + n == n * q' + r';
    assert n * (q' - q - 1) == r - r' && 0 - n < r - r' < n;
    SmallMultiple(q' - q - 1, n, r - r');
  }

  lemma SmallMultiple(k: int, n: nat, x: int)
    requires n * k == x && 0 - n < x < n
    ensures k == 0 && x == 0
  {
    assert k <= 0 by { if k > 0 { MulMono(1, k, n); } }
    assert k >= 0 by { if k < 0 { MulMono(k, -1, n); } }
  }

  lemma DivMod(x: nat, n: nat)
    requires n > 0
    ensures 0 <= x % n < n && 0 <= x / n && (x / n) * n + x % n == x
  {
  }

  lemma DivBelow(x: nat, n: nat, m: nat)
    requires n > 0 && x < m * n
    ensures x / n < m
  {
    DivMod(x, n);
    if x / n >= m { MulMono(m, x / n, n); }
  }

  lemma Positive(a: nat, b: nat)
    requires a > 0 && b > 0
    ensures a * b > 0
  {
  }

  lemma PositiveFactor(a: nat, b: nat)
    requires a * b > 0
    ensures a > 0 && b > 0
  {
  }

  lemma Assoc(a: int, b: int, c: int)
    ensures a * b * c == a * (b * c)
  {
  }

  // Counting up by one passes a multiple of d exactly when it reaches one.
  lemma NextQuotient(d: nat, k: nat)
    requires d > 0 && k > 0
    ensures k / d == (k - 1) / d + if k % d == 0 then 1 else 0
  {
    var q, r := (k - 1) / d, (k - 1) % d;
    DivMod(k - 1, d);
    if r + 1 < d {
      DivModUnique(q, d, r + 1);
      assert q * d + (r + 1) == k;
    } else {
      DivModUnique(q + 1, d, 0);
      assert (q + 1) * d == q * d + d;
      assert (q + 1) * d + 0 == k;
    }
  }
}

// The same for reals.
module RealArith {

  function Max(a: real, b: real): real { if a >= b then a else b }

  lemma Mono(a: real, b: real, n: real)
    requires a <= b && n >= 0.0
    ensures a * n <= b * n
  {
    assert (b - a) * n >= 0.0;
  }

  lemma Divided(a: real, b: real, d: real)
    requires a <= b && d > 0.0
    ensures a / d <= b / d
  {
    assert b / d - a / d == (b - a) / d;
  }

  lemma SumOver(a: real, b: real, d: real)
    requires d > 0.0
    ensures (a + b) / d == a / d + b / d
  {
  }

  lemma Itself(d: real)
    requires d > 0.0
    ensures d / d == 1.0
  {
  }

  lemma SumTimes(a: real, b: real, d: real)
    ensures (a + b) * d == a * d + b * d
  {
  }
}
