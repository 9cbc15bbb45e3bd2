/** Division facts that the solver does not find alone. */
module Arith {
  lemma {:induction false} MulMono(a: int, b: int, m: nat)
    requires a <= b
    ensures a * m <= b * m
    ensures a < b ==> a * m + m <= b * m
    decreases b - a
  {
    if a < b {
      MulMono(a, b - 1, m);
      assert b * m == (b - 1) * m + m;
    }
  }

  /** Quotient and remainder are unique. */
  lemma DivMod(n: nat, q: nat, r: nat, m: nat)
    requires r < m && n == q * m + r
    ensures n / m == q && n % m == r
  {
    assert n == (n / m) * m + n % m;
    if n / m < q {
      MulMono(n / m, q, m);
    } else {
      MulMono(q, n / m, m);
    }
  }

  lemma DivMonotone(a: nat, b: nat, m: nat)
    requires a <= b && m > 0
    ensures a / m <= b / m
  {
    assert a == (a / m) * m + a % m && b == (b / m) * m + b % m;
    if a / m > b / m {
      MulMono(b / m, a / m, m);
    }
  }

  lemma DivBounds(n: nat, m: nat)
    requires m > 0
    ensures (n / m) * m <= n < (n / m + 1) * m
    ensures n == 0 ==> n / m == 0
  {
    assert n == (n / m) * m + n % m;
    MulMono(n / m, n / m + 1, m);
  }

  const INT32_END: nat := 0x8000_0000

  /** What 32-bit arithmetic makes of an integer: it wraps around. */
  function Wrap32(x: int): (r: int)
    ensures 0 - INT32_END <= r < INT32_END
    ensures 0 <= x < INT32_END ==> r == x
    ensures INT32_END <= x < 3 * INT32_END ==> r == x - 2 * INT32_END
  {
    if 0 - INT32_END <= x < INT32_END then x else (x + INT32_END) % (2 * INT32_END) - INT32_END
  }

  function Pow2(n: nat): (r: nat)
    ensures r > 0
  {
    if n == 0 then 1 else 2 * Pow2(n - 1)
  }

  lemma {:induction false} Pow2Grows(a: nat, b: nat)
    requires a <= b
    ensures Pow2(a) <= Pow2(b)
  {
    if a < b {
      Pow2Grows(a, b - 1);
    }
  }

  lemma TwiceProduct(p: int, q: int, twice: int)
    requires twice == 2 * p
    ensures twice * q == 2 * (p * q)
  {
  }

  lemma {:induction false} Pow2Sum(a: nat, b: nat)
    ensures Pow2(a + b) == Pow2(a) * Pow2(b)
  {
    if a > 0 {
      Pow2Sum(a - 1, b);
      TwiceProduct(Pow2(a - 1), Pow2(b), Pow2(a));
    }
  }
}
