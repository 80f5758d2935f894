/**
 * Impermanent loss of a two-asset constant-product liquidity pool
 * (`iloss` in defi/defi_tools.py).
 *
 * The source computes `2 * (r**0.5 / (1 + r)) - 1` in floating point. The model
 * works over exact reals. Dafny has no square root on `real`, so every member
 * that needs `r**0.5` takes the root as an extra argument `root` together with
 * the requirement `IsSqrt(root, r)`; `SqrtOrder` shows that this pins the root
 * down uniquely, so the results never depend on which witness a caller passes.
 */
module ImpermanentLoss {

  /** `s` is the non-negative square root of `x`, i.e. what Python's `x**0.5`
      returns for a non-negative float `x`. */
  predicate IsSqrt(s: real, x: real) {
    s >= 0.0 && s * s == x
  }

  /** For non-negative a and b <= c, a * b <= a * c. */
  lemma MulLeft(a: real, b: real, c: real)
    requires a >= 0.0 && b <= c
    ensures a * b <= a * c
  {
    assert a * c - a * b == a * (c - b);
    assert a * (c - b) >= 0.0;
  }

  /** For positive a and b, a * b is positive. */
  lemma MulPos(a: real, b: real)
    requires a > 0.0 && b > 0.0
    ensures a * b > 0.0
  {
  }

  /** Dividing by a larger positive number gives less than one. */
  lemma DivBelowOne(a: real, d: real)
    requires 0.0 < d && a < d
    ensures a / d < 1.0
  {
    assert a / d * d == a;
    if a / d >= 1.0 {
      MulLeft(d, 1.0, a / d);
    }
  }

  /** Squaring is strictly increasing on the non-negative reals. */
  lemma SquareLess(s: real, t: real)
    requires 0.0 <= s < t
    ensures s * s < t * t
  {
    MulPos(t - s, t + s);
    assert (t - s) * (t + s) == t * t - s * s;
  }

  /** The square root is order-preserving, hence unique. */
  lemma SqrtOrder(s: real, x: real, t: real, y: real)
    requires IsSqrt(s, x) && IsSqrt(t, y)
    ensures s <= t <==> x <= y
    ensures s == t <==> x == y
  {
    if s < t {
      SquareLess(s, t);
    } else if t < s {
      SquareLess(t, s);
    }
  }

  /** The central identity: 2s/(1 + s^2) - 1 == -(s - 1)^2 / (1 + s^2). */
  lemma KeyIdentity(s: real)
    ensures 2.0 * (s / (1.0 + s * s)) - 1.0 == -((s - 1.0) * (s - 1.0)) / (1.0 + s * s)
  {
    var d := 1.0 + s * s;
    assert d > 0.0;
    calc {
      2.0 * (s / d) - 1.0;
      (2.0 * s) / d - d / d;
      (2.0 * s - d) / d;
      { assert 2.0 * s - d == -((s - 1.0) * (s - 1.0)); }
      -((s - 1.0) * (s - 1.0)) / d;
    }
  }

  /** AM-GM for a square root: 2s <= 1 + s^2, so 2s/(1 + s^2) lies in [0, 1];
      it is 1 only at s = 1 and 0 only at s = 0. */
  lemma AmGm(s: real)
    requires s >= 0.0
    ensures 0.0 <= 2.0 * (s / (1.0 + s * s)) <= 1.0
    ensures 2.0 * (s / (1.0 + s * s)) == 1.0 <==> s == 1.0
    ensures 2.0 * (s / (1.0 + s * s)) == 0.0 <==> s == 0.0
  {
    var d := 1.0 + s * s;
    // e = |s - 1|, the square root of d - 2s.
    var e := if s >= 1.0 then s - 1.0 else 1.0 - s;
    assert d - 2.0 * s == e * e;
    SqrtOrder(e, e * e, 0.0, 0.0);
    assert 2.0 * s <= d;
    assert 2.0 * (s / d) == (2.0 * s) / d;
    if s != 1.0 {
      assert 2.0 * s < d;
      DivBelowOne(2.0 * s, d);
    }
    assert s / d >= 0.0;
    assert s / d == 0.0 ==> s == 0.0;
  }

  /**
   * Impermanent loss for the price ratio `ratio`, the relative move of asset A
   * against asset B: the fraction by which a pooled position trails simply
   * holding both assets. It is never positive, vanishes exactly when the
   * ratio is 1, and reaches -1 only when asset A has become worthless.
   */
  function ILoss(ratio: real, root: real): (il: real)
    requires IsSqrt(root, ratio)
    ensures -1.0 <= il <= 0.0
    ensures il == 0.0 <==> ratio == 1.0
    ensures il == -1.0 <==> ratio == 0.0
  {
    AmGm(root);
    SqrtOrder(root, ratio, 1.0, 1.0);
    SqrtOrder(root, ratio, 0.0, 0.0);
    2.0 * (root / (1.0 + ratio)) - 1.0
  }

  /** Equivalent closed form: IL(r) == -(sqrt(r) - 1)^2 / (1 + r). */
  lemma ILossClosedForm(ratio: real, root: real)
    requires IsSqrt(root, ratio)
    ensures ILoss(ratio, root) == -((root - 1.0) * (root - 1.0)) / (1.0 + ratio)
  {
    KeyIdentity(root);
  }

  /** Symmetry: a move of A against B by the factor r costs the same as a move
      by the factor 1/r, whichever square root of 1/r is used. */
  lemma ILossSymmetric(ratio: real, root: real, invRoot: real)
    requires ratio > 0.0 && IsSqrt(root, ratio) && IsSqrt(invRoot, 1.0 / ratio)
    ensures ILoss(1.0 / ratio, invRoot) == ILoss(ratio, root)
  {
    assert root > 0.0;
    var t := 1.0 / root;
    assert t * t == 1.0 / ratio by {
      assert t * t == 1.0 / (root * root);
    }
    SqrtOrder(invRoot, 1.0 / ratio, t, 1.0 / ratio);
    assert invRoot == t;
    calc {
      2.0 * (t / (1.0 + 1.0 / ratio));
      { assert 1.0 + 1.0 / ratio == (ratio + 1.0) / ratio; }
      2.0 * (t * ratio / (ratio + 1.0));
      { assert t * ratio == root * root / root == root; }
      2.0 * (root / (1.0 + ratio));
    }
  }

  /** For ratios r1 <= r2 with square roots s1 <= s2, the difference of
      2s/(1 + s^2) factors as 2 (s2 - s1)(s1 s2 - 1) over a positive number. */
  lemma GainDifference(s1: real, s2: real)
    requires 0.0 <= s1 && 0.0 <= s2
    ensures 2.0 * (s1 / (1.0 + s1 * s1)) - 2.0 * (s2 / (1.0 + s2 * s2))
         == 2.0 * (s2 - s1) * (s1 * s2 - 1.0) / ((1.0 + s1 * s1) * (1.0 + s2 * s2))
  {
    var d1 := 1.0 + s1 * s1;
    var d2 := 1.0 + s2 * s2;
    assert d1 > 0.0 && d2 > 0.0;
    calc {
      2.0 * (s1 / d1) - 2.0 * (s2 / d2);
      (2.0 * s1 * d2 - 2.0 * s2 * d1) / (d1 * d2);
      { assert 2.0 * s1 * d2 - 2.0 * s2 * d1 == 2.0 * (s2 - s1) * (s1 * s2 - 1.0); }
      2.0 * (s2 - s1) * (s1 * s2 - 1.0) / (d1 * d2);
    }
  }

  /** The difference of two losses, with the sign of the numerator made explicit. */
  lemma ILossDifference(r1: real, s1: real, r2: real, s2: real)
    requires IsSqrt(s1, r1) && IsSqrt(s2, r2)
    ensures ILoss(r1, s1) - ILoss(r2, s2)
         == 2.0 * ((s2 - s1) * (s1 * s2 - 1.0)) / ((1.0 + r1) * (1.0 + r2))
  {
    GainDifference(s1, s2);
  }

  /** A quotient by a positive number has the sign of its numerator. */
  lemma QuotientSign(n: real, d: real)
    requires d > 0.0
    ensures n >= 0.0 ==> n / d >= 0.0
    ensures n <= 0.0 ==> n / d <= 0.0
  {
  }

  /** The numerator of `ILossDifference` is non-negative when both roots are at least 1. */
  lemma NumeratorAboveOne(s1: real, s2: real)
    requires 1.0 <= s1 <= s2
    ensures (s2 - s1) * (s1 * s2 - 1.0) >= 0.0
  {
    MulLeft(s1, 1.0, s2);
    assert 1.0 <= s1 == s1 * 1.0 <= s1 * s2;
    assert 0.0 <= s1 * s2 - 1.0;
    MulLeft(s2 - s1, 0.0, s1 * s2 - 1.0);
  }

  /** The numerator of `ILossDifference` is non-positive when both roots are at most 1. */
  lemma NumeratorBelowOne(s1: real, s2: real)
    requires 0.0 <= s1 <= s2 <= 1.0
    ensures (s2 - s1) * (s1 * s2 - 1.0) <= 0.0
  {
    MulLeft(s1, s2, 1.0);
    assert s1 * s2 <= s1 * 1.0 == s1 <= 1.0;
    assert s1 * s2 - 1.0 <= 0.0;
    MulLeft(s2 - s1, s1 * s2 - 1.0, 0.0);
  }

  /** Above a ratio of 1 the loss deepens as the ratio grows. */
  lemma ILossDecreasingAboveOne(r1: real, s1: real, r2: real, s2: real)
    requires IsSqrt(s1, r1) && IsSqrt(s2, r2) && 1.0 <= r1 <= r2
    ensures ILoss(r2, s2) <= ILoss(r1, s1)
  {
    SqrtOrder(s1, r1, s2, r2);
    SqrtOrder(1.0, 1.0, s1, r1);
    NumeratorAboveOne(s1, s2);
    MulPos(1.0 + r1, 1.0 + r2);
    QuotientSign(2.0 * ((s2 - s1) * (s1 * s2 - 1.0)), (1.0 + r1) * (1.0 + r2));
    ILossDifference(r1, s1, r2, s2);
  }

  /** Below a ratio of 1 the loss deepens as the ratio shrinks. */
  lemma ILossIncreasingBelowOne(r1: real, s1: real, r2: real, s2: real)
    requires IsSqrt(s1, r1) && IsSqrt(s2, r2) && r1 <= r2 <= 1.0
    ensures ILoss(r1, s1) <= ILoss(r2, s2)
  {
    SqrtOrder(s1, r1, s2, r2);
    SqrtOrder(s2, r2, 1.0, 1.0);
    NumeratorBelowOne(s1, s2);
    MulPos(1.0 + r1, 1.0 + r2);
    ILossDifference(r1, s1, r2, s2);
    NonPositiveQuotient(ILoss(r1, s1), ILoss(r2, s2),
      2.0 * ((s2 - s1) * (s1 * s2 - 1.0)), (1.0 + r1) * (1.0 + r2));
  }

  /** Two numbers whose difference is a non-positive quotient are in order. */
  lemma NonPositiveQuotient(a: real, b: real, n: real, d: real)
    requires d > 0.0 && n <= 0.0 && a - b == n / d
    ensures a <= b
  {
    QuotientSign(n, d);
  }

  /**
   * What the formula means. A constant-product pool holding x units of A and
   * y units of B quotes A at y/x units of B. When the market price of A in B
   * moves by the factor `ratio`, arbitrage re-balances the pool to reserves
   * x', y' with the same product x * y and the new price y'/x'. Valued at the
   * new price, the re-balanced reserves are worth exactly (1 + IL) times what
   * the original x and y would be worth had they been held.
   */
  lemma ConstantProductLoss(x: real, y: real, x': real, y': real, ratio: real, root: real)
    requires x > 0.0 && y > 0.0 && x' > 0.0 && y' > 0.0
    requires x' * y' == x * y
    requires y' / x' == ratio * (y / x)
    requires IsSqrt(root, ratio)
    ensures ratio > 0.0
    ensures x' * (ratio * (y / x)) + y' == (1.0 + ILoss(ratio, root)) * (x * (ratio * (y / x)) + y)
  {
    var p := ratio * (y / x);
    assert p == y' / x';
    assert p > 0.0;
    assert ratio == p * x / y;
    assert ratio > 0.0;
    assert root > 0.0;
    // x'^2 * ratio == x^2, so x' * root == x.
    assert y' == p * x';
    assert x' * x' * p == x * y;
    assert x' * x' * ratio == x * x by {
      assert x' * x' * ratio == x' * x' * p * x / y;
    }
    assert (x' * root) * (x' * root) == x * x by {
      assert (x' * root) * (x' * root) == x' * x' * (root * root);
    }
    SqrtOrder(x' * root, x * x, x, x * x);
    assert x' * root == x;
    assert y' == y * root by {
      assert y' * x' == x * y;
      assert y * root * x' == y * x;
    }
    // Pool value 2 y root, hold value y (1 + ratio).
    assert x' * p + y' == 2.0 * y * root by {
      assert x' * p == y';
    }
    assert x * p + y == y * (1.0 + ratio) by {
      assert x * p == ratio * y;
    }
    assert 1.0 + ILoss(ratio, root) == 2.0 * (root / (1.0 + ratio));
  }
}
