/**
 * The ordinary (unweighted) least-squares polynomial fit of lib/inversion.py;
 * omega enters only the standard errors. The abscissae are first
 * made dimensionless (centred on their mean, divided by their range), the
 * coefficients are the ordinary least-squares solution in those units, their
 * standard errors come from the sandwich (X^t X)^-1 X^t Omega X (X^t X)^-1,
 * and both are finally scaled back by range^-i.
 */
module Inversion {
  import opened Linear
  import opened Numerics

  // ---------------------------------------------------------------------------
  // Normalisation

  /** `np.max` */
  function Max(s: Vector): (r: real)
    requires |s| > 0
    ensures forall k :: 0 <= k < |s| ==> s[k] <= r
    ensures exists k :: 0 <= k < |s| && s[k] == r
    decreases |s|
  {
    if |s| == 1 then s[0]
    else
      var front := Max(s[..|s| - 1]);
      if s[|s| - 1] > front then s[|s| - 1] else front
  }

  /** `np.min` */
  function Min(s: Vector): (r: real)
    requires |s| > 0
    ensures forall k :: 0 <= k < |s| ==> r <= s[k]
    ensures exists k :: 0 <= k < |s| && s[k] == r
    decreases |s|
  {
    if |s| == 1 then s[0]
    else
      var front := Min(s[..|s| - 1]);
      if s[|s| - 1] < front then s[|s| - 1] else front
  }

  /** `np.max(x) - np.min(x)`: never negative, and zero exactly when all abscissae coincide. */
  function Range(x: Vector): (r: real)
    requires |x| > 0
    ensures r >= 0.0
  {
    var hi, lo := Max(x), Min(x);
    assert lo <= hi by {
      assert lo <= x[0] <= hi;
    }
    hi - lo
  }

  /** The range is zero exactly when all abscissae coincide, the case the fit cannot handle. */
  lemma RangeZero(x: Vector)
    requires |x| > 0
    ensures Range(x) == 0.0 <==> forall i, j :: 0 <= i < |x| && 0 <= j < |x| ==> x[i] == x[j]
  {
    var hi, lo := Max(x), Min(x);
    if Range(x) != 0.0 {
      var a :| 0 <= a < |x| && x[a] == hi;
      var b :| 0 <= b < |x| && x[b] == lo;
      assert x[a] != x[b];
    }
  }

  /** The mean of entries that all lie in [lo, hi] lies in [lo, hi] too. */
  lemma MeanBetween(x: Vector, lo: real, hi: real)
    requires |x| > 0 && forall k :: 0 <= k < |x| ==> lo <= x[k] <= hi
    ensures lo <= Mean(x) <= hi
  {
    var n := |x| as real;
    var m := Mean(x);
    SumBounded(x, lo, hi);
    MeanTimesCount(x);
    if m > hi {
      StrictScale(hi, m, n);
    }
    if m < lo {
      StrictScale(m, lo, n);
    }
  }

  lemma StrictScale(a: real, b: real, n: real)
    requires a < b && n > 0.0
    ensures a * n < b * n
  {
  }

  /** `x_adim = (x - x_mean) / x_range` */
  function Normalise(x: Vector): (u: Vector)
    requires |x| > 0 && Range(x) != 0.0
    ensures |u| == |x|
  {
    var m, r := Mean(x), Range(x);
    seq(|x|, k requires 0 <= k < |x| => (x[k] - m) / r)
  }

  /** Scaling back by the range and adding the mean recovers the abscissae. */
  lemma NormaliseRoundTrip(x: Vector)
    requires |x| > 0 && Range(x) != 0.0
    ensures forall k :: 0 <= k < |x| ==> Normalise(x)[k] * Range(x) + Mean(x) == x[k]
  {
  }

  /** The normalised abscissae are centred: they sum to zero. */
  lemma NormaliseCentred(x: Vector)
    requires |x| > 0 && Range(x) != 0.0
    ensures Sum(Normalise(x)) == 0.0
  {
    MeanTimesCount(x);
    CentredSum(Normalise(x), x, Mean(x), Range(x));
  }

  lemma CentredSum(u: Vector, x: Vector, m: real, r: real)
    requires |u| == |x| && r != 0.0 && m * |x| as real == Sum(x)
    requires forall k :: 0 <= k < |x| ==> u[k] == (x[k] - m) / r
    ensures Sum(u) == 0.0
  {
    var d := seq(|x|, k requires 0 <= k < |x| => x[k] - m);
    SumShift(d, x, m);
    SumDivide(u, d, r);
  }

  /** The normalised abscissae lie in [-1, 1] and span an interval of length exactly one. */
  lemma NormaliseBounded(x: Vector)
    requires |x| > 0 && Range(x) != 0.0
    ensures forall k :: 0 <= k < |x| ==> -1.0 <= Normalise(x)[k] <= 1.0
    ensures Max(Normalise(x)) - Min(Normalise(x)) == 1.0
  {
    var lo, hi := Min(x), Max(x);
    MeanBetween(x, lo, hi);
    var a :| 0 <= a < |x| && x[a] == lo;
    var b :| 0 <= b < |x| && x[b] == hi;
    var u := Normalise(x);
    ScaledEntries(u, x, Mean(x), lo, hi, a, b);
    MaxAt(u, b);
    MinAt(u, a);
  }

  lemma ScaledEntries(u: Vector, x: Vector, m: real, lo: real, hi: real, a: nat, b: nat)
    requires |u| == |x| && a < |x| && b < |x| && x[a] == lo && x[b] == hi && lo < hi
    requires forall k :: 0 <= k < |x| ==> lo <= x[k] <= hi
    requires lo <= m <= hi
    requires forall k :: 0 <= k < |x| ==> u[k] == (x[k] - m) / (hi - lo)
    ensures forall k :: 0 <= k < |u| ==> -1.0 <= u[k] <= 1.0 && u[a] <= u[k] <= u[b]
    ensures u[b] - u[a] == 1.0
  {
    forall k | 0 <= k < |x|
      ensures -1.0 <= u[k] <= 1.0 && u[a] <= u[k] <= u[b]
    {
      ScaledEntry(x[k], m, lo, hi);
    }
    ScaledSpan(m, lo, hi);
  }

  lemma MaxAt(u: Vector, b: nat)
    requires b < |u| && forall k :: 0 <= k < |u| ==> u[k] <= u[b]
    ensures Max(u) == u[b]
  {
  }

  lemma MinAt(u: Vector, a: nat)
    requires a < |u| && forall k :: 0 <= k < |u| ==> u[a] <= u[k]
    ensures Min(u) == u[a]
  {
  }

  lemma ScaledEntry(t: real, m: real, lo: real, hi: real)
    requires lo <= t <= hi && lo <= m <= hi && lo < hi
    ensures -1.0 <= (t - m) / (hi - lo) <= 1.0
    ensures (lo - m) / (hi - lo) <= (t - m) / (hi - lo) <= (hi - m) / (hi - lo)
  {
    var r := hi - lo;
    QuotientBounded(t - m, r);
    QuotientMonotone(lo - m, t - m, r);
    QuotientMonotone(t - m, hi - m, r);
  }

  lemma ScaledSpan(m: real, lo: real, hi: real)
    requires lo < hi
    ensures (hi - m) / (hi - lo) - (lo - m) / (hi - lo) == 1.0
  {
    var r := hi - lo;
    assert (hi - m) / r - (lo - m) / r == ((hi - m) - (lo - m)) / r;
  }

  lemma QuotientBounded(a: real, r: real)
    requires r > 0.0 && -r <= a <= r
    ensures -1.0 <= a / r <= 1.0
  {
  }

  lemma QuotientMonotone(a: real, b: real, r: real)
    requires r > 0.0 && a <= b
    ensures a / r <= b / r
  {
  }

  // ---------------------------------------------------------------------------
  // Powers and polynomials

  /** `t ** i` for a non-negative integer exponent; `t ** 0` is 1, also for t = 0. */
  function Pow(t: real, i: nat): real
    decreases i
  {
    if i == 0 then 1.0 else t * Pow(t, i - 1)
  }

  lemma {:induction false} PowNonzero(r: real, i: nat)
    requires r != 0.0
    ensures Pow(r, i) != 0.0
    decreases i
  {
    if i > 0 {
      PowNonzero(r, i - 1);
      NonzeroProduct(r, Pow(r, i - 1));
    }
  }

  lemma NonzeroProduct(a: real, b: real)
    requires a != 0.0 && b != 0.0
    ensures a * b != 0.0
  {
  }

  /** (t / r)^i == t^i / r^i */
  lemma {:induction false} PowQuotient(t: real, r: real, i: nat)
    requires r != 0.0
    ensures Pow(r, i) != 0.0 && Pow(t / r, i) == Pow(t, i) / Pow(r, i)
    decreases i
  {
    PowNonzero(r, i);
    if i > 0 {
      PowQuotient(t, r, i - 1);
      PowNonzero(r, i - 1);
      QuotientProduct(t, r, Pow(t, i - 1), Pow(r, i - 1));
    }
  }

  lemma QuotientProduct(a: real, b: real, c: real, d: real)
    requires b != 0.0 && d != 0.0
    ensures b * d != 0.0 && (a / b) * (c / d) == (a * c) / (b * d)
  {
    NonzeroProduct(b, d);
  }

  /** The terms c_i t^i of a polynomial with coefficients `c`. */
  function PolyTerms(c: Vector, t: real): (s: Vector)
    ensures |s| == |c|
  {
    seq(|c|, i requires 0 <= i < |c| => c[i] * Pow(t, i))
  }

  /** The polynomial with coefficients `c` (constant term first) evaluated at `t`. */
  function Poly(c: Vector, t: real): real {
    Sum(PolyTerms(c, t))
  }

  // ---------------------------------------------------------------------------
  // Design matrix, estimate and covariance of the estimate

  /** `X[:, i] = x_adim ** i`: one row per sample, one column per power 0..deg. */
  function Design(u: Vector, deg: nat): (d: Matrix)
    ensures IsMatrix(d, |u|, deg + 1)
    ensures forall k :: 0 <= k < |u| ==> d[k][0] == 1.0
  {
    seq(|u|, k requires 0 <= k < |u| => seq(deg + 1, i requires 0 <= i <= deg => Pow(u[k], i)))
  }

  /** Row k of the design matrix applied to coefficients `c` is the polynomial at u_k. */
  lemma DesignEvaluates(u: Vector, deg: nat, c: Vector)
    requires |c| == deg + 1
    ensures forall k :: 0 <= k < |u| ==> MatVec(Design(u, deg), c)[k] == Poly(c, u[k])
  {
    var d := Design(u, deg);
    forall k | 0 <= k < |u|
      ensures MatVec(d, c)[k] == Poly(c, u[k])
    {
      var a, b := Products(d[k], c), PolyTerms(c, u[k]);
      assert forall i :: 0 <= i < |c| ==> a[i] == b[i];
      assert a == b;
    }
  }

  /** `np.dot(np.transpose(X), X)`, symmetric. */
  function Gram(d: Matrix, p: nat): (g: Matrix)
    requires IsMatrix(d, |d|, p)
    ensures Symmetric(g, p)
  {
    GramSymmetric(d, |d|, p);
    Mul(Transpose(d, p), d, p)
  }

  /** `np.dot(XtX_inv, np.dot(np.transpose(X), y))`: the estimate in dimensionless units. */
  function Estimate(d: Matrix, y: Vector, inv: Matrix, p: nat): (c: Vector)
    requires IsMatrix(d, |y|, p) && IsMatrix(inv, p, p)
    ensures |c| == p
  {
    MatVec(inv, MatVec(Transpose(d, p), y))
  }

  /**
   * `XtX_inv X^t omega X XtX_inv`, multiplied from the left as the source does:
   * the covariance of the dimensionless estimate under error covariance `omega`.
   */
  function Sandwich(d: Matrix, omega: Matrix, inv: Matrix, p: nat): (v: Matrix)
    requires IsMatrix(d, |d|, p) && IsMatrix(omega, |d|, |d|) && IsMatrix(inv, p, p)
    ensures IsMatrix(v, p, p)
  {
    var n := |d|;
    var dt := Transpose(d, p);
    Mul(Mul(Mul(Mul(inv, dt, n), omega, n), d, p), inv, p)
  }

  /** `np.sqrt(np.diag(v))` */
  function RootDiagonal(v: Matrix, p: nat, nm: Numerics): (s: Vector)
    requires IsMatrix(v, p, p)
    ensures |s| == p
  {
    seq(p, i requires 0 <= i < p => nm.sqrt(v[i][i]))
  }

  /** `v[i] *= x_range ** (-i)`: back from dimensionless to dimensional units. */
  function Rescale(v: Vector, r: real): (w: Vector)
    requires r != 0.0
    ensures |w| == |v|
  {
    seq(|v|, i requires 0 <= i < |v| => (PowNonzero(r, i); v[i] / Pow(r, i)))
  }

  /** The inverse of `Rescale`: multiply entry i by r^i, which is the
      term vector of a polynomial evaluated at r. */
  function Unscale(w: Vector, r: real): (v: Vector)
    ensures |v| == |w|
  {
    PolyTerms(w, r)
  }

  lemma RescaleRoundTrip(v: Vector, r: real)
    requires r != 0.0
    ensures Unscale(Rescale(v, r), r) == v
    ensures Rescale(Unscale(v, r), r) == v
  {
    forall i | 0 <= i < |v|
      ensures Unscale(Rescale(v, r), r)[i] == v[i] && Rescale(Unscale(v, r), r)[i] == v[i]
    {
      PowNonzero(r, i);
      QuotientTimes(v[i], Pow(r, i));
    }
  }

  lemma QuotientTimes(a: real, b: real)
    requires b != 0.0
    ensures (a / b) * b == a && (a * b) / b == a
  {
  }

  /** What `inversion_ols_any_degree` returns. */
  datatype Fit = Fit(bh: Vector, vbh: Vector)

  /** The abscissae with at least two distinct values, as the normalisation needs. */
  ghost predicate Spread(x: Vector) {
    |x| > 0 && Range(x) != 0.0
  }

  /** The design matrix of the normalised abscissae. */
  function AdimDesign(x: Vector, deg: nat): (d: Matrix)
    requires Spread(x)
    ensures IsMatrix(d, |x|, deg + 1)
  {
    Design(Normalise(x), deg)
  }

  /**
   * `inversion_ols_any_degree(x, y, omega, deg)`. `inv` is what `np.linalg.inv`
   * returns for X^t X; `nm` supplies the square root.
   */
  function InversionOls(x: Vector, y: Vector, omega: Matrix, deg: nat, inv: Matrix, nm: Numerics): (f: Fit)
    requires Spread(x) && |y| == |x| && IsMatrix(omega, |x|, |x|)
    requires IsInverse(inv, Gram(AdimDesign(x, deg), deg + 1), deg + 1)
    ensures |f.bh| == deg + 1 && |f.vbh| == deg + 1
  {
    var p := deg + 1;
    var d := AdimDesign(x, deg);
    var r := Range(x);
    Fit(Rescale(Estimate(d, y, inv, p), r),
        Rescale(RootDiagonal(Sandwich(d, omega, inv, p), p, nm), r))
  }

  // ---------------------------------------------------------------------------
  // What the fit satisfies

  /**
   * With a two-sided inverse of G, inv t solves G c = t, and it is the only
   * solution.
   */
  lemma SolvesUniquely(g: Matrix, inv: Matrix, t: Vector, c: Vector)
    requires IsInverse(inv, g, |t|) && |c| == |t|
    ensures MatVec(g, MatVec(inv, t)) == t
    ensures MatVec(g, c) == t <==> c == MatVec(inv, t)
  {
    MatVecMul(g, inv, t);
    IdentityMatVec(t);
    MatVecMul(inv, g, c);
    IdentityMatVec(c);
  }

  /**
   * The coefficients solve the normal equations X^t X c = X^t y of the
   * dimensionless problem once scaled back by range^i, and every solution of
   * those equations scales to the returned coefficients.
   */
  lemma FitSolvesNormalEquations(x: Vector, y: Vector, omega: Matrix, deg: nat, inv: Matrix, nm: Numerics, c: Vector)
    requires Spread(x) && |y| == |x| && IsMatrix(omega, |x|, |x|)
    requires IsInverse(inv, Gram(AdimDesign(x, deg), deg + 1), deg + 1)
    requires |c| == deg + 1
    ensures var d := AdimDesign(x, deg);
            var bh := InversionOls(x, y, omega, deg, inv, nm).bh;
            && MatVec(Gram(d, deg + 1), Unscale(bh, Range(x))) == MatVec(Transpose(d, deg + 1), y)
            && (MatVec(Gram(d, deg + 1), c) == MatVec(Transpose(d, deg + 1), y) <==> Rescale(c, Range(x)) == bh)
  {
    var p := deg + 1;
    var d := AdimDesign(x, deg);
    var r := Range(x);
    var t := MatVec(Transpose(d, p), y);
    var e := Estimate(d, y, inv, p);
    RescaleRoundTrip(e, r);
    RescaleRoundTrip(c, r);
    SolvesUniquely(Gram(d, p), inv, t, c);
  }

  /** The coefficients do not depend on the error covariance; only their errors do. */
  lemma EstimateIgnoresOmega(x: Vector, y: Vector, omega1: Matrix, omega2: Matrix, deg: nat, inv: Matrix, nm: Numerics)
    requires Spread(x) && |y| == |x| && IsMatrix(omega1, |x|, |x|) && IsMatrix(omega2, |x|, |x|)
    requires IsInverse(inv, Gram(AdimDesign(x, deg), deg + 1), deg + 1)
    ensures InversionOls(x, y, omega1, deg, inv, nm).bh == InversionOls(x, y, omega2, deg, inv, nm).bh
  {
  }

  /** Rescaling the coefficients by r^-i is the same as evaluating at t / r. */
  lemma RescaledPolynomial(c: Vector, r: real, t: real)
    requires r != 0.0
    ensures Poly(Rescale(c, r), t) == Poly(c, t / r)
  {
    var a, b := PolyTerms(Rescale(c, r), t), PolyTerms(c, t / r);
    forall i | 0 <= i < |c|
      ensures a[i] == b[i]
    {
      PowQuotient(t, r, i);
      QuotientSwap(c[i], Pow(r, i), Pow(t, i));
    }
    assert a == b;
  }

  lemma QuotientSwap(a: real, b: real, c: real)
    requires b != 0.0
    ensures (a / b) * c == a * (c / b)
  {
  }

  /**
   * The returned coefficients describe the same fitted curve as the
   * dimensionless ones, in offsets from the mean abscissa: at every sample,
   * bh evaluated at x_k - mean(x) is the fitted value (X c)_k.
   */
  lemma FitCurve(x: Vector, y: Vector, omega: Matrix, deg: nat, inv: Matrix, nm: Numerics)
    requires Spread(x) && |y| == |x| && IsMatrix(omega, |x|, |x|)
    requires IsInverse(inv, Gram(AdimDesign(x, deg), deg + 1), deg + 1)
    ensures forall k :: 0 <= k < |x| ==>
              Poly(InversionOls(x, y, omega, deg, inv, nm).bh, x[k] - Mean(x))
              == MatVec(AdimDesign(x, deg), Estimate(AdimDesign(x, deg), y, inv, deg + 1))[k]
  {
    var p := deg + 1;
    var d := AdimDesign(x, deg);
    var e := Estimate(d, y, inv, p);
    var u := Normalise(x);
    DesignEvaluates(u, deg, e);
    forall k | 0 <= k < |x|
      ensures Poly(Rescale(e, Range(x)), x[k] - Mean(x)) == MatVec(d, e)[k]
    {
      RescaledPolynomial(e, Range(x), x[k] - Mean(x));
    }
  }

  /**
   * `vbh` holds standard errors, not variances: scaled back to dimensionless
   * units, each entry is the non-negative square root of the matching diagonal
   * entry of the sandwich covariance, wherever that entry is non-negative.
   */
  lemma StandardErrors(x: Vector, y: Vector, omega: Matrix, deg: nat, inv: Matrix, nm: Numerics)
    requires Spread(x) && |y| == |x| && IsMatrix(omega, |x|, |x|)
    requires IsInverse(inv, Gram(AdimDesign(x, deg), deg + 1), deg + 1)
    requires Lawful(nm)
    ensures var se := Unscale(InversionOls(x, y, omega, deg, inv, nm).vbh, Range(x));
            var v := Sandwich(AdimDesign(x, deg), omega, inv, deg + 1);
            forall i :: 0 <= i <= deg && v[i][i] >= 0.0 ==> se[i] >= 0.0 && Square(se[i]) == v[i][i]
  {
    var v := Sandwich(AdimDesign(x, deg), omega, inv, deg + 1);
    var s := RootDiagonal(v, deg + 1, nm);
    RescaleRoundTrip(s, Range(x));
    RootsSquare(v, deg + 1, nm);
  }

  lemma RootsSquare(v: Matrix, p: nat, nm: Numerics)
    requires IsMatrix(v, p, p) && Lawful(nm)
    ensures var s := RootDiagonal(v, p, nm);
            forall i :: 0 <= i < p && v[i][i] >= 0.0 ==> s[i] >= 0.0 && Square(s[i]) == v[i][i]
  {
  }

  /** An error-free series (omega = 0) gives zero standard errors. */
  lemma ZeroCovariance(x: Vector, y: Vector, omega: Matrix, deg: nat, inv: Matrix, nm: Numerics)
    requires Spread(x) && |y| == |x| && IsMatrix(omega, |x|, |x|)
    requires IsInverse(inv, Gram(AdimDesign(x, deg), deg + 1), deg + 1)
    requires Lawful(nm)
    requires forall i, j :: 0 <= i < |x| && 0 <= j < |x| ==> omega[i][j] == 0.0
    ensures forall i :: 0 <= i <= deg ==> InversionOls(x, y, omega, deg, inv, nm).vbh[i] == 0.0
  {
    var v := Sandwich(AdimDesign(x, deg), omega, inv, deg + 1);
    ZeroSandwich(AdimDesign(x, deg), omega, inv, deg + 1);
    ZeroRoots(v, deg + 1, nm, Range(x));
  }

  lemma ZeroSandwich(d: Matrix, omega: Matrix, inv: Matrix, p: nat)
    requires IsMatrix(d, |d|, p) && IsMatrix(omega, |d|, |d|) && IsMatrix(inv, p, p)
    requires forall i, j :: 0 <= i < |d| && 0 <= j < |d| ==> omega[i][j] == 0.0
    ensures forall i, j :: 0 <= i < p && 0 <= j < p ==> Sandwich(d, omega, inv, p)[i][j] == 0.0
  {
    var n := |d|;
    var a1 := Mul(inv, Transpose(d, p), n);
    var a2 := Mul(a1, omega, n);
    MulZero(a1, omega, n);
    var a3 := Mul(a2, d, p);
    MulZero(a2, d, p);
    MulZero(a3, inv, p);
  }

  lemma ZeroRoots(v: Matrix, p: nat, nm: Numerics, r: real)
    requires IsMatrix(v, p, p) && Lawful(nm) && r != 0.0
    requires forall i, j :: 0 <= i < p && 0 <= j < p ==> v[i][j] == 0.0
    ensures forall i :: 0 <= i < p ==> Rescale(RootDiagonal(v, p, nm), r)[i] == 0.0
  {
    SqrtZero(nm);
    var s := RootDiagonal(v, p, nm);
    forall i | 0 <= i < p
      ensures Rescale(s, r)[i] == 0.0
    {
      assert s[i] == nm.sqrt(0.0);
      PowNonzero(r, i);
    }
  }

  // ---------------------------------------------------------------------------
  // The straight-line fit (deg = 1)

  lemma DotPair(a: Vector, b: Vector)
    requires |a| == |b| == 2
    ensures Dot(a, b) == a[0] * b[0] + a[1] * b[1]
  {
    var s := Products(a, b);
    assert Sum(s[..1]) == Sum(s[..1][..0]) + s[0];
    assert Sum(s) == Sum(s[..1]) + s[1];
  }

  lemma DotOnes(ones: Vector, v: Vector)
    requires |ones| == |v| && forall k :: 0 <= k < |v| ==> ones[k] == 1.0
    ensures Dot(ones, v) == Sum(v)
  {
    assert Products(ones, v) == v;
  }

  /**
   * For a straight line on centred abscissae u, X^t X is diag(n, u.u) and
   * X^t y is (sum y, u.y).
   */
  lemma LineNormalEquations(u: Vector, y: Vector)
    requires |u| > 0 && |y| == |u| && Sum(u) == 0.0
    ensures Gram(Design(u, 1), 2) == [[|u| as real, 0.0], [0.0, Dot(u, u)]]
    ensures MatVec(Transpose(Design(u, 1), 2), y) == [Sum(y), Dot(u, y)]
  {
    var d := Design(u, 1);
    assert forall k :: 0 <= k < |u| ==> d[k][0] == 1.0 && d[k][1] == u[k];
    TwoColumnGram(d, u);
    TwoColumnMoments(d, u, y);
  }

  /** The Gram matrix of the columns (1, u) with u summing to zero. */
  lemma TwoColumnGram(d: Matrix, u: Vector)
    requires |u| > 0 && IsMatrix(d, |u|, 2) && Sum(u) == 0.0
    requires forall k :: 0 <= k < |u| ==> d[k][0] == 1.0 && d[k][1] == u[k]
    ensures Mul(Transpose(d, 2), d, 2) == [[|u| as real, 0.0], [0.0, Dot(u, u)]]
  {
    var ones := Col(d, 0);
    assert Col(d, 1) == u;
    GramEntry(d, |u|, 2, 0, 0);
    GramEntry(d, |u|, 2, 0, 1);
    GramEntry(d, |u|, 2, 1, 0);
    GramEntry(d, |u|, 2, 1, 1);
    DotOnes(ones, ones);
    SumConstant(ones, 1.0);
    DotOnes(ones, u);
    DotCommutes(u, ones);
    var g := Mul(Transpose(d, 2), d, 2);
    assert g[0] == [|u| as real, 0.0];
    assert g[1] == [0.0, Dot(u, u)];
  }

  /** X^t y for the columns (1, u): the sum of y and the moment u.y. */
  lemma TwoColumnMoments(d: Matrix, u: Vector, y: Vector)
    requires |y| == |u| && IsMatrix(d, |u|, 2)
    requires forall k :: 0 <= k < |u| ==> d[k][0] == 1.0 && d[k][1] == u[k]
    ensures MatVec(Transpose(d, 2), y) == [Sum(y), Dot(u, y)]
  {
    assert Col(d, 1) == u;
    DotOnes(Col(d, 0), y);
  }

  /** A sum of non-negative terms one of which is positive is positive. */
  lemma {:induction false} SumPositive(s: Vector, k: nat)
    requires k < |s| && s[k] > 0.0 && forall j :: 0 <= j < |s| ==> s[j] >= 0.0
    ensures Sum(s) > 0.0
    decreases |s|
  {
    var n := |s| - 1;
    if k == n {
      SumNonnegative(s[..n]);
    } else {
      SumPositive(s[..n], k);
    }
  }

  /** u.u > 0 as soon as some u_k is non-zero. */
  lemma DotSelfPositive(u: Vector, k: nat)
    requires k < |u| && u[k] != 0.0
    ensures Dot(u, u) > 0.0
  {
    var s := Products(u, u);
    forall j | 0 <= j < |u|
      ensures s[j] >= 0.0
    {
      SquareNonnegative(u[j]);
    }
    if u[k] > 0.0 {
      SquareMonotone(0.0, u[k]);
    } else {
      SquareMonotone(0.0, -u[k]);
      assert s[k] == (-u[k]) * (-u[k]);
    }
    SumPositive(s, k);
  }

  /** Normalised abscissae are not all zero, since they span an interval of length one. */
  lemma NormaliseNonzero(x: Vector) returns (k: nat)
    requires Spread(x)
    ensures k < |x| && Normalise(x)[k] != 0.0
  {
    var u := Normalise(x);
    NormaliseBounded(x);
    var a :| 0 <= a < |u| && u[a] == Max(u);
    var b :| 0 <= b < |u| && u[b] == Min(u);
    k := if u[a] != 0.0 then a else b;
  }

  /** (mean of y, u.y / u.u) solves the straight-line normal equations on centred abscissae. */
  lemma LineSolves(u: Vector, y: Vector)
    requires |u| > 0 && |y| == |u| && Sum(u) == 0.0 && Dot(u, u) != 0.0
    ensures MatVec(Gram(Design(u, 1), 2), [Mean(y), Dot(u, y) / Dot(u, u)])
         == MatVec(Transpose(Design(u, 1), 2), y)
  {
    LineNormalEquations(u, y);
    MeanTimesCount(y);
    DiagonalSolves(Gram(Design(u, 1), 2), |u| as real, Dot(u, u), Mean(y), Sum(y), Dot(u, y));
  }

  /** diag(n, s) (m, b / s) == (n m, b) */
  lemma DiagonalSolves(g: Matrix, n: real, s: real, m: real, a: real, b: real)
    requires g == [[n, 0.0], [0.0, s]] && s != 0.0 && m * n == a
    ensures MatVec(g, [m, b / s]) == [a, b]
  {
    var c := [m, b / s];
    var r := MatVec(g, c);
    DotPair(g[0], c);
    DotPair(g[1], c);
    QuotientTimes(b, s);
    assert r[0] == n * m + 0.0 * (b / s);
    assert r[1] == 0.0 * m + s * (b / s);
    assert r == [a, b];
  }

  /** The dimensionless straight-line estimate: (mean of y, u.y / u.u). */
  lemma LineEstimate(x: Vector, y: Vector, inv: Matrix)
    requires Spread(x) && |y| == |x|
    requires IsInverse(inv, Gram(AdimDesign(x, 1), 2), 2)
    ensures var u := Normalise(x);
            && Dot(u, u) > 0.0
            && Estimate(AdimDesign(x, 1), y, inv, 2) == [Mean(y), Dot(u, y) / Dot(u, u)]
  {
    var u := Normalise(x);
    NormaliseCentred(x);
    var k := NormaliseNonzero(x);
    DotSelfPositive(u, k);
    LineSolves(u, y);
    var d := AdimDesign(x, 1);
    SolvesUniquely(Gram(d, 2), inv, MatVec(Transpose(d, 2), y), [Mean(y), Dot(u, y) / Dot(u, u)]);
  }

  /** `x - mean(x)`: the offsets in which the returned coefficients are expressed. */
  function Offsets(x: Vector): (dx: Vector)
    requires |x| > 0
    ensures |dx| == |x|
  {
    seq(|x|, k requires 0 <= k < |x| => x[k] - Mean(x))
  }

  /** u.v and u.u in terms of the offsets: u = dx / range. */
  lemma NormalisedDots(x: Vector, y: Vector)
    requires Spread(x) && |y| == |x|
    ensures var u, dx, r := Normalise(x), Offsets(x), Range(x);
            && Dot(u, y) == Dot(dx, y) / r
            && Dot(u, u) == Dot(dx, dx) / r / r
  {
    var u, dx, r := Normalise(x), Offsets(x), Range(x);
    assert forall k :: 0 <= k < |u| ==> u[k] == dx[k] / r by {
      forall k | 0 <= k < |u|
        ensures u[k] == dx[k] / r
      {
      }
    }
    ScaledDots(u, dx, y, r);
  }

  lemma ScaledDots(u: Vector, dx: Vector, y: Vector, r: real)
    requires |u| == |dx| == |y| && r != 0.0
    requires forall k :: 0 <= k < |u| ==> u[k] == dx[k] / r
    ensures Dot(u, y) == Dot(dx, y) / r
    ensures Dot(u, u) == Dot(dx, dx) / r / r
  {
    ScaledProducts(u, dx, y, r);
    ScaledSquares(u, dx, r);
  }

  lemma ScaledProducts(u: Vector, dx: Vector, y: Vector, r: real)
    requires |u| == |dx| == |y| && r != 0.0
    requires forall k :: 0 <= k < |u| ==> u[k] == dx[k] / r
    ensures Dot(u, y) == Dot(dx, y) / r
  {
    var uy, dy := Products(u, y), Products(dx, y);
    forall k | 0 <= k < |u|
      ensures uy[k] == dy[k] / r
    {
      ProductOfQuotient(dx[k], y[k], r);
    }
    SumDivide(uy, dy, r);
  }

  lemma ScaledSquares(u: Vector, dx: Vector, r: real)
    requires |u| == |dx| && r != 0.0
    requires forall k :: 0 <= k < |u| ==> u[k] == dx[k] / r
    ensures Dot(u, u) == Dot(dx, dx) / r / r
  {
    var uu, dd := Products(u, u), Products(dx, dx);
    var rr := r * r;
    NonzeroSquare(r, rr);
    forall k | 0 <= k < |u|
      ensures uu[k] == dd[k] / rr
    {
      var a, q := dx[k], u[k];
      QuotientProduct(a, r, a, r);
      assert q == a / r;
      assert uu[k] == q * q;
      assert dd[k] == a * a;
    }
    SumDivide(uu, dd, rr);
    QuotientTwice(Dot(dx, dx), r, rr);
  }

  lemma QuotientTwice(a: real, r: real, rr: real)
    requires r != 0.0 && rr == r * r
    ensures rr != 0.0 && a / rr == a / r / r
  {
    NonzeroSquare(r, rr);
  }

  lemma NonzeroSquare(r: real, rr: real)
    requires r != 0.0 && rr == r * r
    ensures rr > 0.0
  {
    var s := if r > 0.0 then r else -r;
    SquareMonotone(0.0, s);
    assert s * s == rr;
  }

  lemma SlopeAlgebra(a: real, b: real, r: real)
    requires b != 0.0 && r != 0.0
    ensures b / r / r != 0.0
    ensures (a / r) / (b / r / r) / r == a / b
  {
    var s := b / r / r;
    assert s * r * r == b;
    var q := (a / r) / s;
    assert q * s == a / r;
    assert q * s * r * r == a * r;
  }

  /**
   * With deg = 1 the fit is the textbook least-squares line, written about the
   * mean abscissa: bh[0] is the mean of y (the fitted value at mean(x), not the
   * intercept at x = 0) and bh[1] is sum((x - m) y) / sum((x - m)^2).
   */
  lemma LineFit(x: Vector, y: Vector, omega: Matrix, inv: Matrix, nm: Numerics)
    requires Spread(x) && |y| == |x| && IsMatrix(omega, |x|, |x|)
    requires IsInverse(inv, Gram(AdimDesign(x, 1), 2), 2)
    ensures var dx := Offsets(x);
            && Dot(dx, dx) > 0.0
            && InversionOls(x, y, omega, 1, inv, nm).bh == [Mean(y), Dot(dx, y) / Dot(dx, dx)]
  {
    var u, dx, r := Normalise(x), Offsets(x), Range(x);
    LineEstimate(x, y, inv);
    NormalisedDots(x, y);
    var e := Estimate(AdimDesign(x, 1), y, inv, 2);
    RescalePair(e, r);
    SlopeFromOffsets(Dot(u, y), Dot(u, u), Dot(dx, y), Dot(dx, dx), r);
  }

  lemma RescalePair(e: Vector, r: real)
    requires |e| == 2 && r != 0.0
    ensures Rescale(e, r) == [e[0], e[1] / r]
  {
    assert Pow(r, 1) == r;
  }

  /** From u.y = dx.y / r and u.u = dx.dx / r^2 > 0: the slope in units of x is dx.y / dx.dx. */
  lemma SlopeFromOffsets(uy: real, uu: real, a: real, b: real, r: real)
    requires r != 0.0 && uu > 0.0 && uy == a / r && uu == b / r / r
    ensures b > 0.0 && uy / uu / r == a / b
  {
    if b <= 0.0 {
      NonpositiveQuotient(b, r);
    }
    SlopeAlgebra(a, b, r);
  }

  lemma NonpositiveQuotient(b: real, r: real)
    requires b <= 0.0 && r != 0.0
    ensures b / r / r <= 0.0
  {
    var q := b / r / r;
    var rr := r * r;
    NonzeroSquare(r, rr);
    assert q * rr == b;
  }

  /** Ordinates on an exact line a + c x have mean a + c mean(x). */
  lemma MeanOfLine(x: Vector, y: Vector, a: real, c: real)
    requires |x| > 0 && |y| == |x|
    requires forall k :: 0 <= k < |x| ==> y[k] == a + c * x[k]
    ensures Mean(y) == a + c * Mean(x)
  {
    var n := |x|;
    var p := seq(n, k requires 0 <= k < n => a);
    var q := seq(n, k requires 0 <= k < n => c * x[k]);
    SumPlus(y, p, q);
    SumConstant(p, a);
    SumScale(q, c, x);
    MeanLinear(Sum(x), n as real, a, c);
  }

  lemma MeanLinear(s: real, n: real, a: real, c: real)
    requires n > 0.0
    ensures (n * a + c * s) / n == a + c * (s / n)
  {
    var m := s / n;
    assert s == m * n;
    assert n * a + c * s == (a + c * m) * n;
  }

  /** On centred offsets, ordinates b0 + c dx_k give dx.y == c dx.dx. */
  lemma SlopeOfLine(dx: Vector, y: Vector, b0: real, c: real)
    requires |y| == |dx| && Sum(dx) == 0.0
    requires forall k :: 0 <= k < |dx| ==> y[k] == b0 + c * dx[k]
    ensures Dot(dx, y) == c * Dot(dx, dx)
  {
    LineProducts(dx, y, b0, c);
    SlopeSums(Products(dx, y), dx, Products(dx, dx), b0, c);
  }

  lemma SlopeSums(s: Vector, dx: Vector, dd: Vector, b0: real, c: real)
    requires |s| == |dx| == |dd| && Sum(dx) == 0.0
    requires forall k :: 0 <= k < |s| ==> s[k] == Scaled(dx, b0)[k] + Scaled(dd, c)[k]
    ensures Sum(s) == c * Sum(dd)
  {
    ScaledSum(dx, b0);
    ScaledSum(dd, c);
    SumPlus(s, Scaled(dx, b0), Scaled(dd, c));
  }

  lemma ScaledSum(v: Vector, c: real)
    ensures Sum(Scaled(v, c)) == c * Sum(v)
    ensures Sum(v) == 0.0 ==> Sum(Scaled(v, c)) == 0.0
  {
    SumScale(Scaled(v, c), c, v);
  }

  /** Every entry multiplied by c. */
  function Scaled(v: Vector, c: real): (w: Vector)
    ensures |w| == |v|
    ensures forall k :: 0 <= k < |v| ==> w[k] == c * v[k]
  {
    seq(|v|, k requires 0 <= k < |v| => c * v[k])
  }

  lemma LineProducts(dx: Vector, y: Vector, b0: real, c: real)
    requires |y| == |dx|
    requires forall k :: 0 <= k < |dx| ==> y[k] == b0 + c * dx[k]
    ensures forall k :: 0 <= k < |dx| ==>
              Products(dx, y)[k] == Scaled(dx, b0)[k] + Scaled(Products(dx, dx), c)[k]
  {
    forall k | 0 <= k < |dx|
      ensures Products(dx, y)[k] == Scaled(dx, b0)[k] + Scaled(Products(dx, dx), c)[k]
    {
      LineTerm(dx[k], y[k], b0, c);
    }
  }

  lemma LineTerm(d: real, e: real, b0: real, c: real)
    requires e == b0 + c * d
    ensures d * e == b0 * d + c * (d * d)
  {
  }

  lemma LineShift(t: real, m: real, a: real, c: real)
    ensures a + c * t == (a + c * m) + c * (t - m)
  {
  }

  /** A line a + c x rewritten about the abscissa m: (a + c m) + c (x - m). */
  lemma LineAbout(x: Vector, y: Vector, dx: Vector, m: real, a: real, c: real)
    requires |y| == |x| == |dx|
    requires forall k :: 0 <= k < |x| ==> y[k] == a + c * x[k]
    requires forall k :: 0 <= k < |x| ==> dx[k] == x[k] - m
    ensures forall k :: 0 <= k < |x| ==> y[k] == (a + c * m) + c * dx[k]
  {
    forall k | 0 <= k < |x|
      ensures y[k] == (a + c * m) + c * dx[k]
    {
      LineShift(x[k], m, a, c);
    }
  }

  /** The offsets sum to zero. */
  lemma OffsetsCentred(x: Vector)
    requires |x| > 0
    ensures Sum(Offsets(x)) == 0.0
  {
    SumShift(Offsets(x), x, Mean(x));
    MeanTimesCount(x);
  }

  /**
   * Data lying exactly on y = a + c x are fitted exactly: the slope is c and
   * bh[0] is a + c mean(x), the line's value at the mean abscissa.
   */
  lemma ExactLine(x: Vector, y: Vector, a: real, c: real, omega: Matrix, inv: Matrix, nm: Numerics)
    requires Spread(x) && |y| == |x| && IsMatrix(omega, |x|, |x|)
    requires IsInverse(inv, Gram(AdimDesign(x, 1), 2), 2)
    requires forall k :: 0 <= k < |x| ==> y[k] == a + c * x[k]
    ensures InversionOls(x, y, omega, 1, inv, nm).bh == [a + c * Mean(x), c]
  {
    LineFit(x, y, omega, inv, nm);
    LineCoefficients(x, y, a, c);
  }

  /** The least-squares line through points on y = a + c x: (a + c mean(x), c). */
  lemma LineCoefficients(x: Vector, y: Vector, a: real, c: real)
    requires |x| > 0 && |y| == |x| && Dot(Offsets(x), Offsets(x)) > 0.0
    requires forall k :: 0 <= k < |x| ==> y[k] == a + c * x[k]
    ensures [Mean(y), Dot(Offsets(x), y) / Dot(Offsets(x), Offsets(x))] == [a + c * Mean(x), c]
  {
    var dx := Offsets(x);
    var b0 := a + c * Mean(x);
    assert forall k :: 0 <= k < |x| ==> dx[k] == x[k] - Mean(x);
    LineAbout(x, y, dx, Mean(x), a, c);
    OffsetsCentred(x);
    SlopeOfLine(dx, y, b0, c);
    MeanOfLine(x, y, a, c);
    var s := Dot(dx, dx);
    QuotientTimes(c, s);
    assert Dot(dx, y) / s == c;
  }

  // ---------------------------------------------------------------------------
  // A worked case

  /** Five yearly samples 0, 1, 2, 3, 4: mean 2, range 4. */
  function FiveSamples(): (x: Vector)
    ensures |x| == 5 && Spread(x) && Mean(x) == 2.0
  {
    var x := [0.0, 1.0, 2.0, 3.0, 4.0];
    FiveSamplesRange(x);
    FiveSamplesMean(x);
    x
  }

  lemma FiveSamplesRange(x: Vector)
    requires x == [0.0, 1.0, 2.0, 3.0, 4.0]
    ensures Range(x) == 4.0
  {
    MaxAt(x, 4);
    MinAt(x, 0);
  }

  lemma FiveSamplesMean(x: Vector)
    requires x == [0.0, 1.0, 2.0, 3.0, 4.0]
    ensures Mean(x) == 2.0
  {
    SumFirstIntegers(x, 5);
  }

  /** 0 + 1 + ... + (n - 1) == n (n - 1) / 2 */
  lemma {:induction false} SumFirstIntegers(x: Vector, n: nat)
    requires |x| == n && forall k :: 0 <= k < n ==> x[k] == k as real
    ensures Sum(x) == (n * (n - 1)) as real / 2.0
    decreases n
  {
    if n > 0 {
      SumFirstIntegers(x[..n - 1], n - 1);
      assert (n * (n - 1)) == ((n - 1) * (n - 2)) + 2 * (n - 1);
    }
  }

  /**
   * Ordinates 1, 3, 5, 7, 9 on those samples (the line 1 + 2x) without error:
   * the fit returns bh = (5, 2), the line's value at the mean abscissa 2 and
   * its slope, and zero standard errors.
   */
  lemma FiveSampleLine(inv: Matrix, nm: Numerics)
    requires IsInverse(inv, Gram(AdimDesign(FiveSamples(), 1), 2), 2)
    requires Lawful(nm)
    ensures InversionOls(FiveSamples(), [1.0, 3.0, 5.0, 7.0, 9.0], Zero(5, 5), 1, inv, nm)
         == Fit([5.0, 2.0], [0.0, 0.0])
  {
    var x, y := FiveSamples(), [1.0, 3.0, 5.0, 7.0, 9.0];
    assert x == [0.0, 1.0, 2.0, 3.0, 4.0];
    assert forall k :: 0 <= k < 5 ==> y[k] == 1.0 + 2.0 * x[k];
    ExactLine(x, y, 1.0, 2.0, Zero(5, 5), inv, nm);
    ZeroCovariance(x, y, Zero(5, 5), 1, inv, nm);
    var f := InversionOls(x, y, Zero(5, 5), 1, inv, nm);
    assert f.vbh == [0.0, 0.0];
  }
}
