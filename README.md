# Third-order hyper-dual numbers

A Dafny model of `HD3`, the third-order hyper-dual number of the
`num-hyperdual` crate (`src/hd3.rs`). An `HD3` carries a function value `re`
and its first three derivatives `v1`, `v2`, `v3` along one direction. Its
arithmetic propagates those derivatives exactly:

- `new`, `from_re` (a constant) and `derive` (marks the variable of
  differentiation) build values;
- `chain_rule` composes an outer function, given as the tuple
  `(f0, f1, f2, f3)` of its value and derivatives, with the expansion held
  in a hyper-dual number (Faà di Bruno's formula truncated at order three);
- multiplication is the Leibniz product rule with binomial weights 1,2,1 and
  1,3,3,1;
- division multiplies by the reciprocal, which is `chain_rule` fed the
  derivatives of `1/x` (`f_n = -n * f_(n-1) / x`).

The coefficients are exact `real`s, so every law holds without rounding. The
literals `two`, `three`, `-2.0` and `-3.0` of the source are the reals 2, 3,
-2 and -3.

Files:

- `hd3.dfy`, module `HyperDual`: the datatype and the operations, written
  expression for expression as in the source (all of them are pure).
- `laws.dfy`, module `HyperDualLaws`: the algebraic laws (construction,
  chain rule, product, quotient) and the concrete values of the crate's
  doc-test.
- `series.dfy`, module `TruncatedSeries`: an independent reference, namely
  power series truncated after eps^3, with the Cauchy product and the
  substitution of a series into a Taylor polynomial.
- `taylor.dfy`, module `HyperDualSeries`: reads a hyper-dual number as the
  Taylor series of the function it carries (coefficient k is the k-th
  derivative over k!). It proves that the hyper-dual product is the series
  product and the chain rule is series composition. This is the reason the
  formulas in `hd3.rs` are right.

## Model

| member | source | states |
|---|---|---|
| HyperDual.New | src/hd3.rs:32-40 | the result holds the four arguments unchanged in `re`, `v1`, `v2`, `v3` |
| HyperDual.FromRe | src/hd3.rs:46-48 | the result has real part `re` and all three derivatives zero |
| HyperDual.Derive | src/hd3.rs:62-65 | `v1` becomes 1; `re`, `v2`, `v3` are kept |
| HyperDualLaws.NewOfFields | src/hd3.rs:32-40 | rebuilding a value from its own four fields gives it back |
| HyperDualLaws.ConstantIffFromRe | src/hd3.rs:46-48 | a value has all derivatives zero exactly when it equals `from_re` of its real part |
| HyperDualLaws.DeriveIdempotent | src/hd3.rs:62-65 | deriving twice is the same as deriving once |
| HyperDualLaws.ChainRuleIdentity | src/hd3.rs:70-78 | the identity function's tuple `(x.re, 1, 0, 0)` returns `x` unchanged |
| HyperDualLaws.ChainRuleOfConstant | src/hd3.rs:70-78 | the result's real part is always `f0`, and a constant input gives the constant `f0` |
| HyperDualLaws.ChainRuleOfVariable | src/hd3.rs:70-78 | applied to a derived constant (the variable), the result is the outer tuple itself |
| HyperDualLaws.ChainRuleComposes | src/hd3.rs:70-78 | applying g then f equals applying the tuple of f after g, which is the chain rule applied to g's tuple |
| HyperDualLaws.ChainRuleOfProduct | src/hd3.rs:70-96 | the product of f and g, each composed with `x`, is the composition with `x` of the product tuple `f * g` |
| HyperDualSeries.ChainRuleIsComposition | src/hd3.rs:70-78 | the Taylor series of the result is the outer function's Taylor polynomial evaluated at the increment of `x` (Faà di Bruno) |
| HyperDualLaws.MulCommutative | src/hd3.rs:84-96 | `a * b == b * a` |
| HyperDualLaws.MulAssociative | src/hd3.rs:84-96 | `(a * b) * c == a * (b * c)` |
| HyperDualLaws.MulIdentity | src/hd3.rs:84-96 | `from_re(1)` is a two-sided identity |
| HyperDualLaws.MulOfConstants | src/hd3.rs:84-96 | `from_re(x) * from_re(y) == from_re(x * y)` |
| HyperDualSeries.MulIsSeriesProduct | src/hd3.rs:84-96 | the Taylor series of `a * b` is the Cauchy product of the series of `a` and `b` (the Leibniz rule) |
| HyperDualLaws.CubeAtFive | src/hd3.rs:55-59 | with `x = from_re(5).derive()`, `x * x * x == (125, 75, 30, 6)` |
| HyperDualLaws.ReciprocalCancels | src/hd3.rs:103-108 | for `b.re != 0`, the reciprocal built in `div` times `b`, on either side, is `from_re(1)` |
| HyperDualLaws.ReciprocalOfVariable | src/hd3.rs:103-107 | the reciprocal of the variable at c is `(1/c, -1/c^2, 2/c^3, -6/c^4)` |
| HyperDualLaws.DivMulCancel | src/hd3.rs:102-109 | for `b.re != 0`, `(a / b) * b == a` |
| HyperDualLaws.MulDivCancel | src/hd3.rs:102-109 | for `b.re != 0`, `(a * b) / b == a` |
| HyperDualLaws.DivIsUniqueQuotient | src/hd3.rs:102-109 | for `b.re != 0`, `q * b == a` holds exactly when `q == a / b` |
| HyperDualLaws.DivOfConstants | src/hd3.rs:102-109 | `from_re(x) / from_re(y) == from_re(x / y)` for `y != 0` |
| HyperDualLaws.ReciprocalAtTwo | src/hd3.rs:103-108 | `from_re(1) / from_re(2).derive() == (0.5, -0.25, 0.25, -0.375)` |
| HyperDualSeries.TaylorRoundTrip | src/hd3.rs:10-18 | the four fields (value and derivatives) and the four Taylor coefficients determine each other, in both directions |

## Left out

- The `Display` implementation (src/hd3.rs:113-121): text formatting only.
- The macro-generated code (src/hd3.rs:123-124): addition, subtraction,
  `powi`, `exp`, the trigonometric functions and the rest. Their bodies are
  not part of this model. The doc-test's `powi(3)` is reproduced in
  `CubeAtFive` as `x * x * x` with the modelled `mul`.
- The type aliases (src/hd3.rs:22-27), the generic coefficient types
  `T: DualNum<F>` and `F: Float`, and the `PhantomData<F>` field: the
  coefficients are `real`.
- Floating point: rounding, infinities and NaN. In particular
  `T::one() / rhs.re` with `rhs.re == 0` (src/hd3.rs:103) yields inf or
  NaN in the source. Here `Reciprocal` and `Div` require `b.re != 0` instead.
- The `Clone`, `Copy`, `PartialEq`, `Eq`, `Hash` and `Debug` derives
  (src/hd3.rs:9): a Dafny datatype has value equality of its own.
- `Mul` and `ChainRule` build the record directly rather than through
  `New`. `New` is the identity on the four fields (see `New`'s contract), so
  the two are the same.
- The reciprocal that `div` computes inline (src/hd3.rs:103-108) is given
  its own name, `Reciprocal`, so that it can be stated about. `Div` is
  `Mul(a, Reciprocal(b))`, as in the source.
