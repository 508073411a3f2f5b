/** A hyper-dual number read as the truncated Taylor series of the function
    it carries: coefficient k is the k-th derivative divided by k!. Under
    this reading the hyper-dual product is the product of power series and
    the chain rule is the substitution of one series into another, which is
    what makes the arithmetic of `HyperDual` correct. */
module HyperDualSeries {
  import opened HyperDual
  import opened TruncatedSeries

  /** The truncated Taylor series represented by `x`. */
  function Taylor(x: HD3): Series
  {
    [x.re, x.v1, x.v2 / 2.0, x.v3 / 6.0]
  }

  /** Coefficient k of `Taylor(x)` times k! is the k-th field of `x`. */
  lemma TaylorCoefficients(x: HD3)
    ensures Taylor(x)[0] == x.re && Taylor(x)[1] == x.v1
    ensures 2.0 * Taylor(x)[2] == x.v2 && 6.0 * Taylor(x)[3] == x.v3
  {
  }

  /** The hyper-dual number whose Taylor series is `s`. */
  function FromTaylor(s: Series): (x: HD3)
    ensures x.re == s[0] && x.v1 == s[1]
    ensures x.v2 == 2.0 * s[2] && x.v3 == 6.0 * s[3]
  {
    HD3(s[0], s[1], 2.0 * s[2], 6.0 * s[3])
  }

  /** The two representations determine each other. */
  lemma {:induction false} TaylorRoundTrip(x: HD3, s: Series)
    ensures FromTaylor(Taylor(x)) == x
    ensures Taylor(FromTaylor(s)) == s
  {
    assert Taylor(FromTaylor(s))[2] == s[2];
    assert Taylor(FromTaylor(s))[3] == s[3];
  }

  /** The Leibniz rule on Taylor coefficients: when s, t and u are the series
      of a, b and m, and m has the fields of the hyper-dual product a * b,
      then u is the Cauchy product of s and t, coefficient by coefficient. */
  lemma LeibnizCoefficients(a: HD3, b: HD3, m: HD3, s: Series, t: Series, u: Series)
    requires s[0] == a.re && s[1] == a.v1 && 2.0 * s[2] == a.v2 && 6.0 * s[3] == a.v3
    requires t[0] == b.re && t[1] == b.v1 && 2.0 * t[2] == b.v2 && 6.0 * t[3] == b.v3
    requires u[0] == m.re && u[1] == m.v1 && 2.0 * u[2] == m.v2 && 6.0 * u[3] == m.v3
    requires m.re == a.re * b.re && m.v1 == a.v1 * b.re + a.re * b.v1
    requires m.v2 == a.v2 * b.re + 2.0 * a.v1 * b.v1 + a.re * b.v2
    requires m.v3 == a.v3 * b.re + 3.0 * a.v2 * b.v1 + 3.0 * a.v1 * b.v2 + a.re * b.v3
    ensures u[0] == s[0] * t[0]
    ensures u[1] == s[0] * t[1] + s[1] * t[0]
    ensures u[2] == s[0] * t[2] + s[1] * t[1] + s[2] * t[0]
    ensures u[3] == s[0] * t[3] + s[1] * t[2] + s[2] * t[1] + s[3] * t[0]
  {
  }

  /** The hyper-dual product is the product of the Taylor series. */
  lemma {:induction false} MulIsSeriesProduct(a: HD3, b: HD3)
    ensures Taylor(Mul(a, b)) == Times(Taylor(a), Taylor(b))
  {
    MulFields(a, b);
    TaylorCoefficients(a);
    TaylorCoefficients(b);
    TaylorCoefficients(Mul(a, b));
    TimesCoefficients(Taylor(a), Taylor(b));
    LeibnizCoefficients(a, b, Mul(a, b), Taylor(a), Taylor(b), Taylor(Mul(a, b)));
    SeriesEquality(Taylor(Mul(a, b)), Times(Taylor(a), Taylor(b)));
  }

  /** The Taylor series of `x` without its constant term: the increment
      x(t) - x(t0) that the outer function of a composition is applied to. */
  function Increment(x: HD3): Series
  {
    [0.0, x.v1, x.v2 / 2.0, x.v3 / 6.0]
  }

  /** Coefficient k of `Increment(x)` times k! is the k-th derivative of `x`,
      and the constant term is zero. */
  lemma IncrementCoefficients(x: HD3)
    ensures Increment(x)[0] == 0.0 && Increment(x)[1] == x.v1
    ensures 2.0 * Increment(x)[2] == x.v2 && 6.0 * Increment(x)[3] == x.v3
  {
  }

  /** Faà di Bruno's formula on Taylor coefficients: when h is the increment
      of x, h2 and h3 its square and cube, and u the series of c, where c has
      the fields of the chain rule for (f0, f1, f2, f3) at x, then u is the
      Taylor polynomial of the outer function evaluated at h. */
  lemma FaaDiBrunoCoefficients(x: HD3, c: HD3, f0: real, f1: real, f2: real, f3: real,
                               h: Series, h2: Series, h3: Series, u: Series)
    requires h[0] == 0.0 && h[1] == x.v1 && 2.0 * h[2] == x.v2 && 6.0 * h[3] == x.v3
    requires h2[0] == h[0] * h[0] && h2[1] == h[0] * h[1] + h[1] * h[0]
    requires h2[2] == h[0] * h[2] + h[1] * h[1] + h[2] * h[0]
    requires h2[3] == h[0] * h[3] + h[1] * h[2] + h[2] * h[1] + h[3] * h[0]
    requires h3[0] == h2[0] * h[0] && h3[1] == h2[0] * h[1] + h2[1] * h[0]
    requires h3[2] == h2[0] * h[2] + h2[1] * h[1] + h2[2] * h[0]
    requires h3[3] == h2[0] * h[3] + h2[1] * h[2] + h2[2] * h[1] + h2[3] * h[0]
    requires c.re == f0 && c.v1 == f1 * x.v1 && c.v2 == f2 * x.v1 * x.v1 + f1 * x.v2
    requires c.v3 == f3 * x.v1 * x.v1 * x.v1 + 3.0 * f2 * x.v1 * x.v2 + f1 * x.v3
    requires u[0] == c.re && u[1] == c.v1 && 2.0 * u[2] == c.v2 && 6.0 * u[3] == c.v3
    ensures u[0] == f0
    ensures u[1] == f1 * h[1] + f2 / 2.0 * h2[1] + f3 / 6.0 * h3[1]
    ensures u[2] == f1 * h[2] + f2 / 2.0 * h2[2] + f3 / 6.0 * h3[2]
    ensures u[3] == f1 * h[3] + f2 / 2.0 * h2[3] + f3 / 6.0 * h3[3]
  {
  }

  /** The chain rule is composition of series: the Taylor series of
      `ChainRule(x, f0, f1, f2, f3)` is the outer function's Taylor polynomial
      evaluated at the increment of `x`. */
  lemma {:induction false} ChainRuleIsComposition(x: HD3, f0: real, f1: real, f2: real, f3: real)
    ensures Taylor(ChainRule(x, f0, f1, f2, f3)) == Compose(f0, f1, f2, f3, Increment(x))
  {
    var h := Increment(x);
    var c := ChainRule(x, f0, f1, f2, f3);
    ChainRuleFields(x, f0, f1, f2, f3);
    TaylorCoefficients(c);
    IncrementCoefficients(x);
    TimesCoefficients(h, h);
    TimesCoefficients(Times(h, h), h);
    ComposeCoefficients(f0, f1, f2, f3, h);
    FaaDiBrunoCoefficients(x, c, f0, f1, f2, f3, h, Times(h, h), Times(Times(h, h), h), Taylor(c));
    SeriesEquality(Taylor(c), Compose(f0, f1, f2, f3, h));
  }
}
