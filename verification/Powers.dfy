/** Powers of a real number, and how they grow. */
module Powers {

  function Power(base: real, n: nat): real {
    if n == 0 then 1.0 else base * Power(base, n - 1)
  }

  lemma {:induction false} PowerGrows(base: real, m: nat, n: nat)
    requires base > 1.0 && m <= n
    ensures 1.0 <= Power(base, m) <= Power(base, n)
    decreases n
  {
    if m < n {
      PowerGrows(base, m, n - 1);
      TimesMore(base, Power(base, n - 1));
    } else if n > 0 {
      PowerGrows(base, n - 1, n - 1);
      TimesMore(base, Power(base, n - 1));
    }
  }

  lemma TimesMore(base: real, x: real)
    requires base > 1.0 && x >= 1.0
    ensures base * x >= x
  {
    assert (base - 1.0) * x >= 0.0;
  }

  /** Bernoulli's inequality. */
  lemma {:induction false} PowerIsLarge(base: real, n: nat)
    requires base > 1.0
    ensures Power(base, n) >= 1.0 + (n as real) * (base - 1.0)
  {
    if n > 0 {
      PowerIsLarge(base, n - 1);
      BernoulliStep(base - 1.0, (n - 1) as real, Power(base, n - 1));
    }
  }

  lemma ProductIsNonNegative(a: real, b: real)
    requires a >= 0.0 && b >= 0.0
    ensures a * b >= 0.0
  {
  }

  lemma BernoulliStep(d: real, m: real, power: real)
    requires d > 0.0 && m >= 0.0 && power >= 1.0 + m * d
    ensures (1.0 + d) * power >= 1.0 + (m + 1.0) * d
  {
    ProductIsNonNegative(m, d);
    ProductIsNonNegative(d, m * d);
    ProductIsNonNegative(1.0 + d, power - (1.0 + m * d));
    assert (1.0 + d) * (1.0 + m * d) == 1.0 + (m + 1.0) * d + d * (m * d);
  }

  lemma {:induction false} PowerOfProduct(a: real, b: real, n: nat)
    ensures Power(a * b, n) == Power(a, n) * Power(b, n)
  {
    if n > 0 {
      PowerOfProduct(a, b, n - 1);
      var x, y := Power(a, n - 1), Power(b, n - 1);
      assert (a * b) * (x * y) == (a * x) * (b * y);
    }
  }
}
