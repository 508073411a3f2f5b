/** Power series in one infinitesimal eps, truncated after eps^3 (eps^4 = 0).
    A hyper-dual number is the Taylor expansion of a function at a point, so
    this module is the independent reference its arithmetic is checked
    against: products are Cauchy products of coefficient sequences, and
    composition substitutes one series into the Taylor polynomial of another. */
module TruncatedSeries {

  /** Order of truncation: coefficients 0 .. Order are kept. */
  const Order := 3

  /** The coefficients c0, c1, c2, c3 of c0 + c1*eps + c2*eps^2 + c3*eps^3. */
  type Series = s: seq<real> | |s| == Order + 1 witness [0.0, 0.0, 0.0, 0.0]

  /** The constant series c. */
  function Const(c: real): (r: Series)
    ensures r[0] == c
    ensures forall k :: 1 <= k <= Order ==> r[k] == 0.0
  {
    [c, 0.0, 0.0, 0.0]
  }

  /** Coefficient-wise sum. */
  function Plus(p: Series, q: Series): (r: Series)
    ensures forall k :: 0 <= k <= Order ==> r[k] == p[k] + q[k]
  {
    seq(Order + 1, k requires 0 <= k <= Order => p[k] + q[k])
  }

  /** Coefficient-wise scaling by c. */
  function Scale(c: real, p: Series): (r: Series)
    ensures forall k :: 0 <= k <= Order ==> r[k] == c * p[k]
  {
    seq(Order + 1, k requires 0 <= k <= Order => c * p[k])
  }

  /** Two series are equal when their coefficients are. */
  lemma {:induction false} SeriesEquality(p: Series, q: Series)
    requires p[0] == q[0] && p[1] == q[1] && p[2] == q[2] && p[3] == q[3]
    ensures p == q
  {
    assert forall k :: 0 <= k <= Order ==> p[k] == q[k];
  }

  /** p[0]*q[k] + p[1]*q[k-1] + ... + p[n-1]*q[k-n+1]: the first n terms of
      the Cauchy sum for coefficient k. */
  function CauchySum(p: Series, q: Series, k: nat, n: nat): real
    requires k <= Order && n <= k + 1
  {
    if n == 0 then 0.0 else CauchySum(p, q, k, n - 1) + p[n - 1] * q[k - (n - 1)]
  }

  /** The product of two series with every term of degree above Order dropped. */
  function Times(p: Series, q: Series): Series
  {
    seq(Order + 1, k requires 0 <= k <= Order => CauchySum(p, q, k, k + 1))
  }

  /** One more term of a Cauchy sum. */
  lemma CauchySumStep(p: Series, q: Series, k: nat, n: nat)
    requires k <= Order && n < k + 1
    ensures CauchySum(p, q, k, n + 1) == CauchySum(p, q, k, n) + p[n] * q[k - n]
  {
  }

  /** The product written out coefficient by coefficient: the coefficient of
      eps^k collects every p[i] * q[j] with i + j == k. */
  lemma {:induction false} TimesCoefficients(p: Series, q: Series)
    ensures Times(p, q)[0] == p[0] * q[0]
    ensures Times(p, q)[1] == p[0] * q[1] + p[1] * q[0]
    ensures Times(p, q)[2] == p[0] * q[2] + p[1] * q[1] + p[2] * q[0]
    ensures Times(p, q)[3] == p[0] * q[3] + p[1] * q[2] + p[2] * q[1] + p[3] * q[0]
  {
    CauchySumStep(p, q, 0, 0);
    CauchySumStep(p, q, 1, 0);
    CauchySumStep(p, q, 1, 1);
    CauchySumStep(p, q, 2, 0);
    CauchySumStep(p, q, 2, 1);
    CauchySumStep(p, q, 2, 2);
    CauchySumStep(p, q, 3, 0);
    CauchySumStep(p, q, 3, 1);
    CauchySumStep(p, q, 3, 2);
    CauchySumStep(p, q, 3, 3);
  }

  /** The Taylor polynomial f0 + f1*h + f2/2!*h^2 + f3/3!*h^3 of a function whose
      value and first three derivatives at a point are f0 .. f3, evaluated at
      the increment h (a series without constant term). */
  function Compose(f0: real, f1: real, f2: real, f3: real, h: Series): Series
    requires h[0] == 0.0
  {
    var h2 := Times(h, h);
    var h3 := Times(h2, h);
    Plus(Plus(Const(f0), Scale(f1, h)), Plus(Scale(f2 / 2.0, h2), Scale(f3 / 6.0, h3)))
  }

  /** Coefficient k of the substituted polynomial: f1 times the k-th
      coefficient of h, plus f2/2! and f3/3! times those of h^2 and h^3. */
  lemma {:induction false} ComposeCoefficients(f0: real, f1: real, f2: real, f3: real, h: Series)
    requires h[0] == 0.0
    ensures Compose(f0, f1, f2, f3, h)[0] == f0
    ensures Compose(f0, f1, f2, f3, h)[1]
              == f1 * h[1] + f2 / 2.0 * Times(h, h)[1] + f3 / 6.0 * Times(Times(h, h), h)[1]
    ensures Compose(f0, f1, f2, f3, h)[2]
              == f1 * h[2] + f2 / 2.0 * Times(h, h)[2] + f3 / 6.0 * Times(Times(h, h), h)[2]
    ensures Compose(f0, f1, f2, f3, h)[3]
              == f1 * h[3] + f2 / 2.0 * Times(h, h)[3] + f3 / 6.0 * Times(Times(h, h), h)[3]
  {
    TimesCoefficients(h, h);
    TimesCoefficients(Times(h, h), h);
  }
}
