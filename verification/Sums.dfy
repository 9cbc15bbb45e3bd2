/** Finite sums of reals. */
module Sums {
  /** f(0) + .. + f(n - 1). */
  ghost function Sum(f: nat -> real, n: nat): real
  {
    if n == 0 then 0.0 else Sum(f, n - 1) + f(n - 1)
  }

  lemma {:induction false} SumAdds(f: nat -> real, g: nat -> real, h: nat -> real, n: nat)
    requires forall r: nat :: r < n ==> h(r) == f(r) + g(r)
    ensures Sum(h, n) == Sum(f, n) + Sum(g, n)
  {
    if n > 0 {
      SumAdds(f, g, h, n - 1);
    }
  }

  lemma {:induction false} SumSame(f: nat -> real, g: nat -> real, n: nat)
    requires forall r: nat :: r < n ==> f(r) == g(r)
    ensures Sum(f, n) == Sum(g, n)
  {
    if n > 0 {
      SumSame(f, g, n - 1);
    }
  }

  lemma {:induction false} SumOfZeros(f: nat -> real, n: nat)
    requires forall r: nat :: r < n ==> f(r) == 0.0
    ensures Sum(f, n) == 0.0
  {
    if n > 0 {
      SumOfZeros(f, n - 1);
    }
  }

  /** When all terms but one are zero, the sum is that term. */
  lemma {:induction false} SumOfOne(f: nat -> real, n: nat, k: nat)
    requires k < n && forall r: nat :: r < n && r != k ==> f(r) == 0.0
    ensures Sum(f, n) == f(k)
  {
    if k == n - 1 {
      SumOfZeros(f, n - 1);
    } else {
      SumOfOne(f, n - 1, k);
    }
  }

  lemma {:induction false} SumScales(f: nat -> real, g: nat -> real, a: real, n: nat)
    requires forall r: nat :: r < n ==> g(r) == a * f(r)
    ensures Sum(g, n) == a * Sum(f, n)
  {
    if n > 0 {
      SumScales(f, g, a, n - 1);
    }
  }

  /** The terms of `f` and behind them those of `g`. */
  lemma {:induction false} SumJoins(f: nat -> real, g: nat -> real, h: nat -> real, m: nat, n: nat)
    requires forall r: nat :: r < m ==> h(r) == f(r)
    requires forall r: nat :: r < n ==> h(m + r) == g(r)
    ensures Sum(h, m + n) == Sum(f, m) + Sum(g, n)
  {
    if n == 0 {
      SumSame(f, h, m);
    } else {
      SumJoins(f, g, h, m, n - 1);
      assert h(m + (n - 1)) == g(n - 1);
    }
  }
}
