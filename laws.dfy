/** Algebraic laws of hyper-dual arithmetic: construction, the chain rule,
    the product rule, and the quotient. */
module HyperDualLaws {
  import opened HyperDual

  /* ---------------- construction ---------------- */

  /** Rebuilding a hyper-dual number from its own four fields gives it back. */
  lemma NewOfFields(x: HD3)
    ensures New(x.re, x.v1, x.v2, x.v3) == x
  {
  }

  /** A hyper-dual number is a constant exactly when it is built from its
      real part alone. */
  lemma ConstantIffFromRe(x: HD3)
    ensures IsConstant(x) <==> x == FromRe(x.re)
  {
  }

  /** Marking the variable twice is the same as marking it once. */
  lemma DeriveIdempotent(x: HD3)
    ensures Derive(Derive(x)) == Derive(x)
  {
  }

  /* ---------------- chain rule ---------------- */

  /** The identity function's tuple (x.re, 1, 0, 0) leaves a hyper-dual
      number unchanged. */
  lemma ChainRuleIdentity(x: HD3)
    ensures ChainRule(x, x.re, 1.0, 0.0, 0.0) == x
  {
  }

  /** The value is the outer function's value, and a constant stays a
      constant. */
  lemma ChainRuleOfConstant(x: HD3, f0: real, f1: real, f2: real, f3: real)
    ensures ChainRule(x, f0, f1, f2, f3).re == f0
    ensures IsConstant(x) ==> ChainRule(x, f0, f1, f2, f3) == FromRe(f0)
  {
  }

  /** Applied to the variable of differentiation, the chain rule returns the
      outer function's own value and derivatives. */
  lemma ChainRuleOfVariable(c: real, f0: real, f1: real, f2: real, f3: real)
    ensures ChainRule(Derive(FromRe(c)), f0, f1, f2, f3) == HD3(f0, f1, f2, f3)
  {
  }

  /** Composition is associative: applying g and then f to `x` equals applying
      to `x` the tuple of f after g, which is itself the chain rule applied to
      g's tuple read as a hyper-dual number. */
  lemma {:induction false} ChainRuleComposes(x: HD3, g0: real, g1: real, g2: real, g3: real,
                                             f0: real, f1: real, f2: real, f3: real)
    ensures var fg := ChainRule(HD3(g0, g1, g2, g3), f0, f1, f2, f3);
            ChainRule(ChainRule(x, g0, g1, g2, g3), f0, f1, f2, f3)
              == ChainRule(x, fg.re, fg.v1, fg.v2, fg.v3)
  {
    NestedChainRuleV1(x, g0, g1, g2, g3, f0, f1, f2, f3);
    ComposedTupleV1(x, g0, g1, g2, g3, f0, f1, f2, f3);
    NestedChainRuleV2(x, g0, g1, g2, g3, f0, f1, f2, f3);
    ComposedTupleV2(x, g0, g1, g2, g3, f0, f1, f2, f3);
    NestedChainRuleV3(x, g0, g1, g2, g3, f0, f1, f2, f3);
    ComposedTupleV3(x, g0, g1, g2, g3, f0, f1, f2, f3);
  }

  /** The chain rule respects products: the product of two functions f and
      g, each composed with `x`, is their product composed with `x`, where the
      tuples of f, g and the product f * g are read as hyper-dual numbers and
      multiplied by `Mul`. */
  lemma {:induction false} ChainRuleOfProduct(x: HD3, f: HD3, g: HD3)
    ensures var fg := Mul(f, g);
            Mul(ChainRule(x, f.re, f.v1, f.v2, f.v3), ChainRule(x, g.re, g.v1, g.v2, g.v3))
              == ChainRule(x, fg.re, fg.v1, fg.v2, fg.v3)
  {
    var p := ChainRule(x, f.re, f.v1, f.v2, f.v3);
    var q := ChainRule(x, g.re, g.v1, g.v2, g.v3);
    var r := Mul(f, g);
    ChainRuleFields(x, f.re, f.v1, f.v2, f.v3);
    ChainRuleFields(x, g.re, g.v1, g.v2, g.v3);
    ChainRuleFields(x, r.re, r.v1, r.v2, r.v3);
    MulFields(f, g);
    MulFields(p, q);
    ProductOfCompositionsV2(x, p, q, f, g);
    ProductOfCompositionsV3(x, p, q, f, g);
    CompositionOfProductV2(x, r, f, g);
    CompositionOfProductV3(x, r, f, g);
  }

  /* ---------------- multiplication ---------------- */

  lemma MulCommutative(a: HD3, b: HD3)
    ensures Mul(a, b) == Mul(b, a)
  {
  }

  lemma {:induction false} MulAssociative(a: HD3, b: HD3, c: HD3)
    ensures Mul(Mul(a, b), c) == Mul(a, Mul(b, c))
  {
    MulAssociativeRe(a, b, c);
    MulAssociativeV1(a, b, c);
    MulAssociativeV2(a, b, c);
    MulAssociativeV3(a, b, c);
  }

  /** The constant one is a two-sided identity. */
  lemma MulIdentity(a: HD3)
    ensures Mul(FromRe(1.0), a) == a
    ensures Mul(a, FromRe(1.0)) == a
  {
  }

  /** Constants stay constant: the product of constants is the constant of
      the product. */
  lemma MulOfConstants(x: real, y: real)
    ensures Mul(FromRe(x), FromRe(y)) == FromRe(x * y)
  {
  }

  /** The power rule at x = 5: x*x*x has value 125 and derivatives
      3x^2 = 75, 6x = 30 and 6. */
  lemma CubeAtFive()
    ensures var x := Derive(FromRe(5.0));
            Mul(Mul(x, x), x) == HD3(125.0, 75.0, 30.0, 6.0)
  {
    assert Derive(FromRe(5.0)) == HD3(5.0, 1.0, 0.0, 0.0);
  }

  /* ---------------- reciprocal and division ---------------- */

  /** The reciprocal cancels `b` from either side. */
  lemma {:induction false} ReciprocalCancels(b: HD3)
    requires b.re != 0.0
    ensures Mul(Reciprocal(b), b) == FromRe(1.0)
    ensures Mul(b, Reciprocal(b)) == FromRe(1.0)
  {
    var rec := 1.0 / b.re;
    assert rec * b.re == 1.0;
    var r := Reciprocal(b);
    var p := Mul(r, b);
    assert p.v1 == 0.0;
    assert p.v2 == 0.0;
    assert p.v3 == 0.0;
    MulCommutative(r, b);
  }

  /** The derivatives of 1/x at a variable c: 1/c, -1/c^2, 2/c^3, -6/c^4. */
  lemma ReciprocalOfVariable(c: real)
    requires c != 0.0
    ensures Reciprocal(Derive(FromRe(c)))
              == HD3(1.0 / c, -1.0 / (c * c), 2.0 / (c * c * c), -6.0 / (c * c * c * c))
  {
  }

  /** Dividing by `b` and multiplying by `b` gives back `a`. */
  lemma {:induction false} DivMulCancel(a: HD3, b: HD3)
    requires b.re != 0.0
    ensures Mul(Div(a, b), b) == a
  {
    MulAssociative(a, Reciprocal(b), b);
    ReciprocalCancels(b);
    MulIdentity(a);
  }

  /** Multiplying by `b` and dividing by `b` gives back `a`. */
  lemma {:induction false} MulDivCancel(a: HD3, b: HD3)
    requires b.re != 0.0
    ensures Div(Mul(a, b), b) == a
  {
    MulAssociative(a, b, Reciprocal(b));
    ReciprocalCancels(b);
    MulIdentity(a);
  }

  /** The quotient is the one and only solution q of q * b == a. */
  lemma {:induction false} DivIsUniqueQuotient(a: HD3, b: HD3, q: HD3)
    requires b.re != 0.0
    ensures Mul(q, b) == a <==> q == Div(a, b)
  {
    if Mul(q, b) == a {
      MulDivCancel(q, b);
    }
    if q == Div(a, b) {
      DivMulCancel(a, b);
    }
  }

  /** Constants divide as reals. */
  lemma DivOfConstants(x: real, y: real)
    requires y != 0.0
    ensures Div(FromRe(x), FromRe(y)) == FromRe(x / y)
  {
  }

  /** The reciprocal of the variable at x = 2: 0.5, -0.25, 0.25, -0.375. */
  lemma ReciprocalAtTwo()
    ensures Div(FromRe(1.0), Derive(FromRe(2.0))) == HD3(0.5, -0.25, 0.25, -0.375)
  {
    assert Derive(FromRe(2.0)) == HD3(2.0, 1.0, 0.0, 0.0);
  }

  /* ------- both sides of the chain-rule laws, multiplied out into monomials ------- */

  /** f after g at `x` in monomials of x's derivatives: Faà di Bruno's
      formula with g's derivatives substituted for the inner function's. */
  function ComposedExpansion(x: HD3, g0: real, g1: real, g2: real, g3: real, f0: real, f1: real, f2: real, f3: real): HD3 {
    HD3(f0,
        f1 * g1 * x.v1,
        f2 * g1 * g1 * x.v1 * x.v1 + f1 * g2 * x.v1 * x.v1 + f1 * g1 * x.v2,
        f3 * g1 * g1 * g1 * x.v1 * x.v1 * x.v1 + 3.0 * f2 * g1 * g2 * x.v1 * x.v1 * x.v1
          + f1 * g3 * x.v1 * x.v1 * x.v1 + 3.0 * f2 * g1 * g1 * x.v1 * x.v2
          + 3.0 * f1 * g2 * x.v1 * x.v2 + f1 * g1 * x.v3)
  }

  /** g and then f applied to `x`, and f after g applied to `x`, coefficient by coefficient. */
  lemma NestedChainRuleV1(x: HD3, g0: real, g1: real, g2: real, g3: real, f0: real, f1: real, f2: real, f3: real)
    ensures ChainRule(ChainRule(x, g0, g1, g2, g3), f0, f1, f2, f3).v1
            == ComposedExpansion(x, g0, g1, g2, g3, f0, f1, f2, f3).v1
  {
  }

  lemma ComposedTupleV1(x: HD3, g0: real, g1: real, g2: real, g3: real, f0: real, f1: real, f2: real, f3: real)
    ensures var fg := ChainRule(HD3(g0, g1, g2, g3), f0, f1, f2, f3);
            ChainRule(x, fg.re, fg.v1, fg.v2, fg.v3).v1
            == ComposedExpansion(x, g0, g1, g2, g3, f0, f1, f2, f3).v1
  {
  }

  lemma NestedChainRuleV2(x: HD3, g0: real, g1: real, g2: real, g3: real, f0: real, f1: real, f2: real, f3: real)
    ensures ChainRule(ChainRule(x, g0, g1, g2, g3), f0, f1, f2, f3).v2
            == ComposedExpansion(x, g0, g1, g2, g3, f0, f1, f2, f3).v2
  {
  }

  lemma ComposedTupleV2(x: HD3, g0: real, g1: real, g2: real, g3: real, f0: real, f1: real, f2: real, f3: real)
    ensures var fg := ChainRule(HD3(g0, g1, g2, g3), f0, f1, f2, f3);
            ChainRule(x, fg.re, fg.v1, fg.v2, fg.v3).v2
            == ComposedExpansion(x, g0, g1, g2, g3, f0, f1, f2, f3).v2
  {
  }

  lemma NestedChainRuleV3(x: HD3, g0: real, g1: real, g2: real, g3: real, f0: real, f1: real, f2: real, f3: real)
    ensures ChainRule(ChainRule(x, g0, g1, g2, g3), f0, f1, f2, f3).v3
            == ComposedExpansion(x, g0, g1, g2, g3, f0, f1, f2, f3).v3
  {
  }

  lemma ComposedTupleV3(x: HD3, g0: real, g1: real, g2: real, g3: real, f0: real, f1: real, f2: real, f3: real)
    ensures var fg := ChainRule(HD3(g0, g1, g2, g3), f0, f1, f2, f3);
            ChainRule(x, fg.re, fg.v1, fg.v2, fg.v3).v3
            == ComposedExpansion(x, g0, g1, g2, g3, f0, f1, f2, f3).v3
  {
  }

  /* The product rule under composition, coefficients two and three (the
     lower ones are immediate): with p and q the compositions of f and g with
     `x` (ProductOfCompositions*), and r the product tuple f * g
     (CompositionOfProduct*), both sides equal the same polynomial in the
     fields of f, g and x. */

  lemma ProductOfCompositionsV2(x: HD3, p: HD3, q: HD3, f: HD3, g: HD3)
    requires p.re == f.re && p.v1 == f.v1 * x.v1 && p.v2 == f.v2 * x.v1 * x.v1 + f.v1 * x.v2
    requires q.re == g.re && q.v1 == g.v1 * x.v1 && q.v2 == g.v2 * x.v1 * x.v1 + g.v1 * x.v2
    ensures p.v2 * q.re + 2.0 * p.v1 * q.v1 + p.re * q.v2
         == f.v2 * g.re * x.v1 * x.v1 + 2.0 * f.v1 * g.v1 * x.v1 * x.v1 + f.re * g.v2 * x.v1 * x.v1
          + f.v1 * g.re * x.v2 + f.re * g.v1 * x.v2
  {
  }

  lemma ProductOfCompositionsV3(x: HD3, p: HD3, q: HD3, f: HD3, g: HD3)
    requires p.re == f.re && p.v1 == f.v1 * x.v1 && p.v2 == f.v2 * x.v1 * x.v1 + f.v1 * x.v2
    requires p.v3 == f.v3 * x.v1 * x.v1 * x.v1 + 3.0 * f.v2 * x.v1 * x.v2 + f.v1 * x.v3
    requires q.re == g.re && q.v1 == g.v1 * x.v1 && q.v2 == g.v2 * x.v1 * x.v1 + g.v1 * x.v2
    requires q.v3 == g.v3 * x.v1 * x.v1 * x.v1 + 3.0 * g.v2 * x.v1 * x.v2 + g.v1 * x.v3
    ensures p.v3 * q.re + 3.0 * p.v2 * q.v1 + 3.0 * p.v1 * q.v2 + p.re * q.v3
         == f.v3 * g.re * x.v1 * x.v1 * x.v1 + 3.0 * f.v2 * g.v1 * x.v1 * x.v1 * x.v1
          + 3.0 * f.v1 * g.v2 * x.v1 * x.v1 * x.v1 + f.re * g.v3 * x.v1 * x.v1 * x.v1
          + 3.0 * f.v2 * g.re * x.v1 * x.v2 + 6.0 * f.v1 * g.v1 * x.v1 * x.v2 + 3.0 * f.re * g.v2 * x.v1 * x.v2
          + f.v1 * g.re * x.v3 + f.re * g.v1 * x.v3
  {
  }

  lemma CompositionOfProductV2(x: HD3, r: HD3, f: HD3, g: HD3)
    requires r.v1 == f.v1 * g.re + f.re * g.v1 && r.v2 == f.v2 * g.re + 2.0 * f.v1 * g.v1 + f.re * g.v2
    ensures r.v2 * x.v1 * x.v1 + r.v1 * x.v2
         == f.v2 * g.re * x.v1 * x.v1 + 2.0 * f.v1 * g.v1 * x.v1 * x.v1 + f.re * g.v2 * x.v1 * x.v1
          + f.v1 * g.re * x.v2 + f.re * g.v1 * x.v2
  {
  }

  lemma CompositionOfProductV3(x: HD3, r: HD3, f: HD3, g: HD3)
    requires r.v1 == f.v1 * g.re + f.re * g.v1 && r.v2 == f.v2 * g.re + 2.0 * f.v1 * g.v1 + f.re * g.v2
    requires r.v3 == f.v3 * g.re + 3.0 * f.v2 * g.v1 + 3.0 * f.v1 * g.v2 + f.re * g.v3
    ensures r.v3 * x.v1 * x.v1 * x.v1 + 3.0 * r.v2 * x.v1 * x.v2 + r.v1 * x.v3
         == f.v3 * g.re * x.v1 * x.v1 * x.v1 + 3.0 * f.v2 * g.v1 * x.v1 * x.v1 * x.v1
          + 3.0 * f.v1 * g.v2 * x.v1 * x.v1 * x.v1 + f.re * g.v3 * x.v1 * x.v1 * x.v1
          + 3.0 * f.v2 * g.re * x.v1 * x.v2 + 6.0 * f.v1 * g.v1 * x.v1 * x.v2 + 3.0 * f.re * g.v2 * x.v1 * x.v2
          + f.v1 * g.re * x.v3 + f.re * g.v1 * x.v3
  {
  }

  /* Associativity, one coefficient at a time: the two nestings written as
     explicit polynomials in the fields of a, b and c (Expanded*), the same
     identity read through the inner products m = a*b and n = b*c (Step*),
     and finally the coefficient of the nested products themselves. */

  lemma ExpandedAssociativeRe(a: HD3, b: HD3, c: HD3)
    ensures (a.re * b.re) * c.re
         == a.re * (b.re * c.re)
  {
  }

  lemma {:induction false} MulAssociativeStepRe(m: HD3, n: HD3, a: HD3, b: HD3, c: HD3)
    requires m == Mul(a, b) && n == Mul(b, c)
    ensures m.re * c.re
         == a.re * n.re
  {
    ExpandedAssociativeRe(a, b, c);
  }

  lemma {:induction false} MulAssociativeRe(a: HD3, b: HD3, c: HD3)
    ensures Mul(Mul(a, b), c).re == Mul(a, Mul(b, c)).re
  {
    MulAssociativeStepRe(Mul(a, b), Mul(b, c), a, b, c);
  }

  lemma ExpandedAssociativeV1(a: HD3, b: HD3, c: HD3)
    ensures (a.v1 * b.re + a.re * b.v1) * c.re
          + (a.re * b.re) * c.v1
         == a.v1 * (b.re * c.re)
          + a.re * (b.v1 * c.re + b.re * c.v1)
  {
  }

  lemma {:induction false} MulAssociativeStepV1(m: HD3, n: HD3, a: HD3, b: HD3, c: HD3)
    requires m == Mul(a, b) && n == Mul(b, c)
    ensures m.v1 * c.re
          + m.re * c.v1
         == a.v1 * n.re
          + a.re * n.v1
  {
    ExpandedAssociativeV1(a, b, c);
  }

  lemma {:induction false} MulAssociativeV1(a: HD3, b: HD3, c: HD3)
    ensures Mul(Mul(a, b), c).v1 == Mul(a, Mul(b, c)).v1
  {
    MulAssociativeStepV1(Mul(a, b), Mul(b, c), a, b, c);
  }

  lemma ExpandedAssociativeV2(a: HD3, b: HD3, c: HD3)
    ensures (a.v2 * b.re + 2.0 * a.v1 * b.v1 + a.re * b.v2) * c.re
          + 2.0 * (a.v1 * b.re + a.re * b.v1) * c.v1
          + (a.re * b.re) * c.v2
         == a.v2 * (b.re * c.re)
          + 2.0 * a.v1 * (b.v1 * c.re + b.re * c.v1)
          + a.re * (b.v2 * c.re + 2.0 * b.v1 * c.v1 + b.re * c.v2)
  {
  }

  lemma {:induction false} MulAssociativeStepV2(m: HD3, n: HD3, a: HD3, b: HD3, c: HD3)
    requires m == Mul(a, b) && n == Mul(b, c)
    ensures m.v2 * c.re
          + 2.0 * m.v1 * c.v1
          + m.re * c.v2
         == a.v2 * n.re
          + 2.0 * a.v1 * n.v1
          + a.re * n.v2
  {
    ExpandedAssociativeV2(a, b, c);
  }

  lemma {:induction false} MulAssociativeV2(a: HD3, b: HD3, c: HD3)
    ensures Mul(Mul(a, b), c).v2 == Mul(a, Mul(b, c)).v2
  {
    MulAssociativeStepV2(Mul(a, b), Mul(b, c), a, b, c);
  }

  lemma ExpandedAssociativeV3(a: HD3, b: HD3, c: HD3)
    ensures (a.v3 * b.re + 3.0 * a.v2 * b.v1 + 3.0 * a.v1 * b.v2 + a.re * b.v3) * c.re
          + 3.0 * (a.v2 * b.re + 2.0 * a.v1 * b.v1 + a.re * b.v2) * c.v1
          + 3.0 * (a.v1 * b.re + a.re * b.v1) * c.v2
          + (a.re * b.re) * c.v3
         == a.v3 * (b.re * c.re)
          + 3.0 * a.v2 * (b.v1 * c.re + b.re * c.v1)
          + 3.0 * a.v1 * (b.v2 * c.re + 2.0 * b.v1 * c.v1 + b.re * c.v2)
          + a.re * (b.v3 * c.re + 3.0 * b.v2 * c.v1 + 3.0 * b.v1 * c.v2 + b.re * c.v3)
  {
  }

  lemma {:induction false} MulAssociativeStepV3(m: HD3, n: HD3, a: HD3, b: HD3, c: HD3)
    requires m == Mul(a, b) && n == Mul(b, c)
    ensures m.v3 * c.re
          + 3.0 * m.v2 * c.v1
          + 3.0 * m.v1 * c.v2
          + m.re * c.v3
         == a.v3 * n.re
          + 3.0 * a.v2 * n.v1
          + 3.0 * a.v1 * n.v2
          + a.re * n.v3
  {
    ExpandedAssociativeV3(a, b, c);
  }

  lemma {:induction false} MulAssociativeV3(a: HD3, b: HD3, c: HD3)
    ensures Mul(Mul(a, b), c).v3 == Mul(a, Mul(b, c)).v3
  {
    MulAssociativeStepV3(Mul(a, b), Mul(b, c), a, b, c);
  }
}
