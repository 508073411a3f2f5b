/** The third-order hyper-dual number: a value together with its first,
    second and third derivatives along one direction. The coefficient type of
    the original is generic over any dual-number type; here the coefficients
    are exact reals, so every law below holds without rounding. */
module HyperDual {

  /** `re` is the function value, `v1`, `v2`, `v3` its first three derivatives. */
  datatype HD3 = HD3(re: real, v1: real, v2: real, v3: real)

  /** Builds a hyper-dual number from its four fields, unchanged. */
  function New(re: real, v1: real, v2: real, v3: real): (r: HD3)
    ensures r.re == re && r.v1 == v1 && r.v2 == v2 && r.v3 == v3
  {
    HD3(re, v1, v2, v3)
  }

  /** A constant: its value is `re` and all of its derivatives vanish. */
  predicate IsConstant(x: HD3) {
    x.v1 == 0.0 && x.v2 == 0.0 && x.v3 == 0.0
  }

  /** The constant function with value `re`. */
  function FromRe(re: real): (r: HD3)
    ensures r.re == re && IsConstant(r)
  {
    New(re, 0.0, 0.0, 0.0)
  }

  /** Marks `x` as the variable of differentiation: the first derivative
      becomes one, everything else is kept. */
  function Derive(x: HD3): (r: HD3)
    ensures r.v1 == 1.0
    ensures r.re == x.re && r.v2 == x.v2 && r.v3 == x.v3
  {
    x.(v1 := 1.0)
  }

  /** Composes an outer function g with the expansion held in `x`, given
      g's value and first three derivatives (f0, f1, f2, f3) at `x.re`:
      Faà di Bruno's formula truncated at order three. */
  function ChainRule(x: HD3, f0: real, f1: real, f2: real, f3: real): HD3
  {
    HD3(
      f0,
      f1 * x.v1,
      f2 * x.v1 * x.v1 + f1 * x.v2,
      f3 * x.v1 * x.v1 * x.v1 + 3.0 * f2 * x.v1 * x.v2 + f1 * x.v3)
  }

  /** The product of two hyper-dual numbers: the Leibniz rule truncated at
      order three (binomial weights 1,2,1 and 1,3,3,1). */
  function Mul(a: HD3, b: HD3): HD3
  {
    HD3(
      a.re * b.re,
      a.v1 * b.re + a.re * b.v1,
      a.v2 * b.re + 2.0 * a.v1 * b.v1 + a.re * b.v2,
      a.v3 * b.re
        + 3.0 * a.v2 * b.v1
        + 3.0 * a.v1 * b.v2
        + a.re * b.v3)
  }

  /** The four fields of a product, as polynomials in the fields of the factors. */
  lemma MulFields(a: HD3, b: HD3)
    ensures Mul(a, b).re == a.re * b.re
    ensures Mul(a, b).v1 == a.v1 * b.re + a.re * b.v1
    ensures Mul(a, b).v2 == a.v2 * b.re + 2.0 * a.v1 * b.v1 + a.re * b.v2
    ensures Mul(a, b).v3 == a.v3 * b.re + 3.0 * a.v2 * b.v1 + 3.0 * a.v1 * b.v2 + a.re * b.v3
  {
  }

  /** The four fields of a composition, as polynomials in the outer tuple and
      the fields of `x`. */
  lemma ChainRuleFields(x: HD3, f0: real, f1: real, f2: real, f3: real)
    ensures ChainRule(x, f0, f1, f2, f3).re == f0
    ensures ChainRule(x, f0, f1, f2, f3).v1 == f1 * x.v1
    ensures ChainRule(x, f0, f1, f2, f3).v2 == f2 * x.v1 * x.v1 + f1 * x.v2
    ensures ChainRule(x, f0, f1, f2, f3).v3 == f3 * x.v1 * x.v1 * x.v1 + 3.0 * f2 * x.v1 * x.v2 + f1 * x.v3
  {
  }

  /** The reciprocal of `b`: the chain rule fed the derivatives of 1/x at
      `b.re`, each obtained from the previous one by f_n = -n * f_(n-1) / x. */
  function Reciprocal(b: HD3): HD3
    requires b.re != 0.0
  {
    var rec := 1.0 / b.re;
    var f0 := rec;
    var f1 := -f0 * rec;
    var f2 := f1 * rec * -2.0;
    var f3 := f2 * rec * -3.0;
    ChainRule(b, f0, f1, f2, f3)
  }

  /** The quotient `a / b`: `a` times the reciprocal of `b`. */
  function Div(a: HD3, b: HD3): HD3
    requires b.re != 0.0
  {
    Mul(a, Reciprocal(b))
  }
}
