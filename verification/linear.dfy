/**
 * Exact real linear algebra over `seq<seq<real>>`: the numpy operations the core
 * uses (sum, mean, transpose, dot products, matrix products, element-wise
 * addition) and the facts about them the covariance and inversion proofs need.
 * A matrix is a sequence of rows; `IsMatrix(m, r, c)` fixes its shape.
 */
module Linear {

  type Vector = seq<real>
  type Matrix = seq<seq<real>>

  /** Sum of the entries, accumulated from the front (`np.sum`). */
  function Sum(s: Vector): real
    decreases |s|
  {
    if |s| == 0 then 0.0 else Sum(s[..|s| - 1]) + s[|s| - 1]
  }

  function Square(t: real): real {
    t * t
  }

  function Abs(t: real): real {
    if t < 0.0 then -t else t
  }

  /** Arithmetic mean (`np.mean`). */
  function Mean(s: Vector): real
    requires |s| > 0
  {
    Sum(s) / |s| as real
  }

  /** The mean times the count gives back the sum. */
  lemma MeanTimesCount(s: Vector)
    requires |s| > 0
    ensures |s| as real * Mean(s) == Sum(s)
    ensures Mean(s) * |s| as real == Sum(s)
  {
  }

  lemma NonzeroQuotient(a: real, b: real)
    requires a != 0.0 && b != 0.0
    ensures a / b != 0.0
  {
    assert (a / b) * b == a;
  }

  ghost predicate IsMatrix(m: Matrix, rows: nat, cols: nat) {
    |m| == rows && forall i :: 0 <= i < rows ==> |m[i]| == cols
  }

  ghost predicate Symmetric(m: Matrix, n: nat) {
    IsMatrix(m, n, n) && forall i, j :: 0 <= i < n && 0 <= j < n ==> m[i][j] == m[j][i]
  }

  /** `np.zeros((rows, cols))` */
  function Zero(rows: nat, cols: nat): (z: Matrix)
    ensures IsMatrix(z, rows, cols)
  {
    seq(rows, i => seq(cols, j => 0.0))
  }

  /** Element-wise sum, the `+=` by which the covariance accumulates. */
  function Add(a: Matrix, b: Matrix, rows: nat, cols: nat): (c: Matrix)
    requires IsMatrix(a, rows, cols) && IsMatrix(b, rows, cols)
    ensures IsMatrix(c, rows, cols)
  {
    seq(rows, i requires 0 <= i < rows =>
      seq(cols, j requires 0 <= j < cols => a[i][j] + b[i][j]))
  }

  /** Entry-wise products, `u * v`. */
  function Products(u: Vector, v: Vector): (p: Vector)
    requires |u| == |v|
    ensures |p| == |u|
  {
    seq(|u|, k requires 0 <= k < |u| => u[k] * v[k])
  }

  /** `np.dot` of two vectors. */
  function Dot(u: Vector, v: Vector): real
    requires |u| == |v|
  {
    Sum(Products(u, v))
  }

  /** Column `j` of `m`, `m[:, j]`. */
  function Col(m: Matrix, j: nat): (c: Vector)
    requires forall i :: 0 <= i < |m| ==> j < |m[i]|
    ensures |c| == |m|
  {
    seq(|m|, i requires 0 <= i < |m| => m[i][j])
  }

  /** `np.transpose` of a matrix whose rows have `cols` entries. */
  function Transpose(m: Matrix, cols: nat): (t: Matrix)
    requires IsMatrix(m, |m|, cols)
    ensures IsMatrix(t, cols, |m|)
  {
    seq(cols, j requires 0 <= j < cols => Col(m, j))
  }

  /** `np.dot` of two matrices; `b` has `cols` columns. */
  function Mul(a: Matrix, b: Matrix, cols: nat): (c: Matrix)
    requires IsMatrix(a, |a|, |b|) && IsMatrix(b, |b|, cols)
    ensures IsMatrix(c, |a|, cols)
  {
    seq(|a|, i requires 0 <= i < |a| =>
      seq(cols, j requires 0 <= j < cols => Dot(a[i], Col(b, j))))
  }

  /** `np.dot` of a matrix and a vector. */
  function MatVec(m: Matrix, v: Vector): (w: Vector)
    requires IsMatrix(m, |m|, |v|)
    ensures |w| == |m|
  {
    seq(|m|, i requires 0 <= i < |m| => Dot(m[i], v))
  }

  /** Every entry divided by `c`, as `matrix / c` does. */
  function DivideBy(m: Matrix, c: real, rows: nat, cols: nat): (d: Matrix)
    requires IsMatrix(m, rows, cols) && c != 0.0
    ensures IsMatrix(d, rows, cols)
  {
    seq(rows, i requires 0 <= i < rows =>
      seq(cols, j requires 0 <= j < cols => m[i][j] / c))
  }

  /** The sum of each row. */
  function RowSums(m: Matrix): (r: Vector)
    ensures |r| == |m|
  {
    seq(|m|, i requires 0 <= i < |m| => Sum(m[i]))
  }

  /** The sum of each column, `np.sum(m, axis=0)`. */
  function ColSums(m: Matrix, cols: nat): (c: Vector)
    requires IsMatrix(m, |m|, cols)
    ensures |c| == cols
  {
    seq(cols, j requires 0 <= j < cols => Sum(Col(m, j)))
  }

  /** Sum of all entries of a matrix. */
  function Total(m: Matrix): real {
    Sum(RowSums(m))
  }

  /** The quadratic form v^t M v. */
  function QuadForm(m: Matrix, v: Vector): real
    requires IsMatrix(m, |v|, |v|)
  {
    Dot(v, MatVec(m, v))
  }

  ghost predicate PositiveSemidefinite(m: Matrix, n: nat) {
    IsMatrix(m, n, n) && forall v: Vector | |v| == n :: QuadForm(m, v) >= 0.0
  }

  /** `np.eye(n)` */
  function Identity(n: nat): (e: Matrix)
    ensures IsMatrix(e, n, n)
  {
    seq(n, i requires 0 <= i < n => seq(n, j requires 0 <= j < n => if i == j then 1.0 else 0.0))
  }

  /** `inv` is a two-sided inverse of the n-by-n matrix `g`, as `np.linalg.inv` returns. */
  ghost predicate IsInverse(inv: Matrix, g: Matrix, n: nat) {
    && IsMatrix(inv, n, n) && IsMatrix(g, n, n)
    && Mul(inv, g, n) == Identity(n)
    && Mul(g, inv, n) == Identity(n)
  }

  // ---------------------------------------------------------------------------
  // Sums. Each lemma relates sums of vectors that agree entry by entry, so that
  // callers state the entry-wise relation and never have to match lambdas.

  lemma {:induction false} SumPlus(s: Vector, a: Vector, b: Vector)
    requires |s| == |a| == |b|
    requires forall k :: 0 <= k < |s| ==> s[k] == a[k] + b[k]
    ensures Sum(s) == Sum(a) + Sum(b)
    decreases |s|
  {
    if |s| > 0 {
      var n := |s| - 1;
      SumPlus(s[..n], a[..n], b[..n]);
    }
  }

  lemma {:induction false} SumScale(s: Vector, c: real, a: Vector)
    requires |s| == |a|
    requires forall k :: 0 <= k < |s| ==> s[k] == c * a[k]
    ensures Sum(s) == c * Sum(a)
    decreases |s|
  {
    if |s| > 0 {
      var n := |s| - 1;
      SumScale(s[..n], c, a[..n]);
    }
  }

  lemma {:induction false} SumDivide(s: Vector, a: Vector, c: real)
    requires |s| == |a| && c != 0.0
    requires forall k :: 0 <= k < |s| ==> s[k] == a[k] / c
    ensures Sum(s) == Sum(a) / c
    decreases |s|
  {
    if |s| > 0 {
      var n := |s| - 1;
      SumDivide(s[..n], a[..n], c);
    }
  }

  lemma {:induction false} SumShift(s: Vector, a: Vector, c: real)
    requires |s| == |a|
    requires forall k :: 0 <= k < |s| ==> s[k] == a[k] - c
    ensures Sum(s) == Sum(a) - |a| as real * c
    decreases |s|
  {
    if |s| > 0 {
      var n := |s| - 1;
      SumShift(s[..n], a[..n], c);
    }
  }

  lemma {:induction false} SumNonnegative(a: Vector)
    requires forall k :: 0 <= k < |a| ==> a[k] >= 0.0
    ensures Sum(a) >= 0.0
    decreases |a|
  {
    if |a| > 0 {
      SumNonnegative(a[..|a| - 1]);
    }
  }

  lemma {:induction false} SumZero(a: Vector)
    requires forall k :: 0 <= k < |a| ==> a[k] == 0.0
    ensures Sum(a) == 0.0
    decreases |a|
  {
    if |a| > 0 {
      SumZero(a[..|a| - 1]);
    }
  }

  /** A vector equal to `a` on its first `k` entries and to `b` on the rest sums to k*a + (n-k)*b. */
  lemma {:induction false} SumTwoBlocks(s: Vector, k: nat, a: real, b: real)
    requires k <= |s|
    requires forall j :: 0 <= j < |s| ==> s[j] == if j < k then a else b
    ensures Sum(s) == k as real * a + (|s| - k) as real * b
    decreases |s|
  {
    var n := |s|;
    if n > 0 {
      if k == n {
        SumTwoBlocks(s[..n - 1], k - 1, a, b);
        assert Sum(s) == (k - 1) as real * a + a;
      } else {
        SumTwoBlocks(s[..n - 1], k, a, b);
        assert Sum(s) == k as real * a + (n - 1 - k) as real * b + b;
      }
    }
  }

  /** Summing a rectangular array by rows or by columns gives the same total. */
  lemma {:induction false} SumSwap(t: Matrix, rows: nat, cols: nat)
    requires IsMatrix(t, rows, cols)
    ensures Sum(RowSums(t)) == Sum(ColSums(t, cols))
    decreases rows
  {
    if rows > 0 {
      var n := rows - 1;
      var front := t[..n];
      SumSwap(front, n, cols);
      var byRows := RowSums(t);
      assert byRows[..n] == RowSums(front);
      assert Sum(byRows) == Sum(RowSums(front)) + Sum(t[n]);
      var frontCols := ColSums(front, cols);
      var byCols := ColSums(t, cols);
      forall j | 0 <= j < cols
        ensures byCols[j] == frontCols[j] + t[n][j]
      {
        assert Col(t, j)[..n] == Col(front, j);
      }
      SumPlus(byCols, frontCols, t[n]);
      assert Sum(byRows) == Sum(byCols);
    } else {
      SumZero(ColSums(t, cols));
    }
  }

  // ---------------------------------------------------------------------------
  // Products

  lemma DotCommutes(u: Vector, v: Vector)
    requires |u| == |v|
    ensures Dot(u, v) == Dot(v, u)
  {
    assert Products(u, v) == Products(v, u);
  }

  /** The terms y_k * D_kj * x_j whose double sum is the bilinear form y^t D x. */
  function BilinearTerms(d: Matrix, x: Vector, y: Vector): (t: Matrix)
    requires IsMatrix(d, |y|, |x|)
    ensures IsMatrix(t, |y|, |x|)
  {
    seq(|y|, k requires 0 <= k < |y| =>
      seq(|x|, j requires 0 <= j < |x| => y[k] * (d[k][j] * x[j])))
  }

  lemma BilinearRows(d: Matrix, x: Vector, y: Vector)
    requires IsMatrix(d, |y|, |x|)
    ensures Sum(RowSums(BilinearTerms(d, x, y))) == Dot(y, MatVec(d, x))
  {
    var t := BilinearTerms(d, x, y);
    var dx := MatVec(d, x);
    forall k | 0 <= k < |y|
      ensures RowSums(t)[k] == Products(y, dx)[k]
    {
      SumScale(t[k], y[k], Products(d[k], x));
    }
    assert RowSums(t) == Products(y, dx);
  }

  lemma BilinearColumn(d: Matrix, x: Vector, y: Vector, j: nat)
    requires IsMatrix(d, |y|, |x|) && j < |x|
    ensures Sum(Col(BilinearTerms(d, x, y), j)) == x[j] * Dot(Col(d, j), y)
  {
    var t := BilinearTerms(d, x, y);
    var c := Col(t, j);
    var p := Products(Col(d, j), y);
    forall k | 0 <= k < |y|
      ensures c[k] == x[j] * p[k]
    {
      var a, b, e := y[k], d[k][j], x[j];
      assert a * (b * e) == e * (b * a);
    }
    SumScale(c, x[j], p);
  }

  lemma BilinearCols(d: Matrix, x: Vector, y: Vector)
    requires IsMatrix(d, |y|, |x|)
    ensures Sum(ColSums(BilinearTerms(d, x, y), |x|)) == Dot(x, MatVec(Transpose(d, |x|), y))
  {
    var t := BilinearTerms(d, x, y);
    var dty := MatVec(Transpose(d, |x|), y);
    forall j | 0 <= j < |x|
      ensures ColSums(t, |x|)[j] == Products(x, dty)[j]
    {
      BilinearColumn(d, x, y, j);
    }
    assert ColSums(t, |x|) == Products(x, dty);
  }

  /** y^t (D x) == x^t (D^t y): moving a matrix across a bilinear form. */
  lemma BilinearSwap(d: Matrix, x: Vector, y: Vector)
    requires IsMatrix(d, |y|, |x|)
    ensures Dot(y, MatVec(d, x)) == Dot(x, MatVec(Transpose(d, |x|), y))
  {
    SumSwap(BilinearTerms(d, x, y), |y|, |x|);
    BilinearRows(d, x, y);
    BilinearCols(d, x, y);
  }

  /** Entry (i, j) of D^t D is the dot product of columns i and j of D. */
  lemma GramEntry(d: Matrix, rows: nat, cols: nat, i: nat, j: nat)
    requires IsMatrix(d, rows, cols) && i < cols && j < cols
    ensures Mul(Transpose(d, cols), d, cols)[i][j] == Dot(Col(d, i), Col(d, j))
  {
  }

  /** D^t D is symmetric. */
  lemma GramSymmetric(d: Matrix, rows: nat, cols: nat)
    requires IsMatrix(d, rows, cols)
    ensures Symmetric(Mul(Transpose(d, cols), d, cols), cols)
  {
    var g := Mul(Transpose(d, cols), d, cols);
    forall i, j | 0 <= i < cols && 0 <= j < cols
      ensures g[i][j] == g[j][i]
    {
      GramEntry(d, rows, cols, i, j);
      GramEntry(d, rows, cols, j, i);
      DotCommutes(Col(d, i), Col(d, j));
    }
  }

  /** Row i of D^t D is D^t applied to column i of D. */
  lemma GramRow(d: Matrix, rows: nat, cols: nat, i: nat)
    requires IsMatrix(d, rows, cols) && i < cols
    ensures Mul(Transpose(d, cols), d, cols)[i] == MatVec(Transpose(d, cols), Col(d, i))
  {
    var g := Mul(Transpose(d, cols), d, cols);
    var r := MatVec(Transpose(d, cols), Col(d, i));
    forall j | 0 <= j < cols
      ensures g[i][j] == r[j]
    {
      GramEntry(d, rows, cols, i, j);
      DotCommutes(Col(d, i), Col(d, j));
    }
  }

  /** v^t (D^t D) v == |D v|^2. */
  lemma GramQuadForm(d: Matrix, rows: nat, cols: nat, v: Vector)
    requires IsMatrix(d, rows, cols) && |v| == cols
    ensures QuadForm(Mul(Transpose(d, cols), d, cols), v) == Dot(MatVec(d, v), MatVec(d, v))
  {
    var g := Mul(Transpose(d, cols), d, cols);
    var dt := Transpose(d, cols);
    var w := MatVec(d, v);
    forall i | 0 <= i < cols
      ensures MatVec(g, v)[i] == MatVec(dt, w)[i]
    {
      GramRow(d, rows, cols, i);
      BilinearSwap(d, v, Col(d, i));
      DotCommutes(g[i], v);
    }
    assert MatVec(g, v) == MatVec(dt, w);
    BilinearSwap(d, v, w);
    DotCommutes(w, MatVec(d, v));
  }

  lemma SquareNonnegative(s: real)
    ensures s * s >= 0.0
  {
  }

  lemma DotSelfNonnegative(w: Vector)
    ensures Dot(w, w) >= 0.0
  {
    var squares := Products(w, w);
    forall k | 0 <= k < |w|
      ensures squares[k] >= 0.0
    {
      SquareNonnegative(w[k]);
    }
    SumNonnegative(squares);
  }

  lemma ProductOfQuotient(a: real, b: real, c: real)
    requires c != 0.0
    ensures (a / c) * b == (a * b) / c && b * (a / c) == (b * a) / c
  {
  }

  /** Dividing every entry by c divides each entry of M v by c. */
  lemma MatVecDivide(m: Matrix, c: real, v: Vector, i: nat)
    requires IsMatrix(m, |v|, |v|) && c != 0.0 && i < |v|
    ensures MatVec(DivideBy(m, c, |v|, |v|), v)[i] == MatVec(m, v)[i] / c
  {
    var n := |v|;
    var q := DivideBy(m, c, n, n);
    var terms := Products(m[i], v);
    var scaled := Products(q[i], v);
    forall k | 0 <= k < n
      ensures scaled[k] == terms[k] / c
    {
      ProductOfQuotient(m[i][k], v[k], c);
    }
    SumDivide(scaled, terms, c);
  }

  /** Dividing every entry by c divides the quadratic form by c. */
  lemma QuadFormDivide(m: Matrix, c: real, v: Vector)
    requires IsMatrix(m, |v|, |v|) && c != 0.0
    ensures QuadForm(DivideBy(m, c, |v|, |v|), v) == QuadForm(m, v) / c
  {
    var n := |v|;
    var mv := MatVec(m, v);
    var qv := MatVec(DivideBy(m, c, n, n), v);
    var vm := Products(v, mv);
    var vq := Products(v, qv);
    forall k | 0 <= k < n
      ensures vq[k] == vm[k] / c
    {
      MatVecDivide(m, c, v, k);
      ProductOfQuotient(mv[k], v[k], c);
    }
    SumDivide(vq, vm, c);
  }

  lemma NonnegativeQuotient(a: real, c: real)
    requires a >= 0.0 && c > 0.0
    ensures a / c >= 0.0
  {
  }

  /** D^t D / c is positive semidefinite for every c > 0. */
  lemma GramPositiveSemidefinite(d: Matrix, rows: nat, cols: nat, c: real)
    requires IsMatrix(d, rows, cols) && c > 0.0
    ensures PositiveSemidefinite(DivideBy(Mul(Transpose(d, cols), d, cols), c, cols, cols), cols)
  {
    var g := Mul(Transpose(d, cols), d, cols);
    forall v: Vector | |v| == cols
      ensures QuadForm(DivideBy(g, c, cols, cols), v) >= 0.0
    {
      GramQuadForm(d, rows, cols, v);
      DotSelfNonnegative(MatVec(d, v));
      QuadFormDivide(g, c, v);
      NonnegativeQuotient(QuadForm(g, v), c);
    }
  }

  // ---------------------------------------------------------------------------
  // Symmetry

  lemma AddSymmetric(a: Matrix, b: Matrix, n: nat)
    requires Symmetric(a, n) && Symmetric(b, n)
    ensures Symmetric(Add(a, b, n, n), n)
  {
  }

  /** Adding two matrices to a third gives the same result in either order. */
  lemma AddSwap(m: Matrix, a: Matrix, b: Matrix, rows: nat, cols: nat)
    requires IsMatrix(m, rows, cols) && IsMatrix(a, rows, cols) && IsMatrix(b, rows, cols)
    ensures Add(Add(m, a, rows, cols), b, rows, cols) == Add(Add(m, b, rows, cols), a, rows, cols)
  {
    var left := Add(Add(m, a, rows, cols), b, rows, cols);
    var right := Add(Add(m, b, rows, cols), a, rows, cols);
    forall i | 0 <= i < rows
      ensures left[i] == right[i]
    {
      assert forall j :: 0 <= j < cols ==> left[i][j] == right[i][j];
    }
  }

  lemma DivideSymmetric(m: Matrix, c: real, n: nat)
    requires Symmetric(m, n) && c != 0.0
    ensures Symmetric(DivideBy(m, c, n, n), n)
  {
  }

  // ---------------------------------------------------------------------------
  // Totals of whole matrices

  /** Subtracting c from every entry of an n-by-n matrix lowers every row sum by n*c. */
  lemma RowSumsShift(s: Matrix, m: Matrix, n: nat, c: real)
    requires IsMatrix(s, n, n) && IsMatrix(m, n, n)
    requires forall i, j :: 0 <= i < n && 0 <= j < n ==> s[i][j] == m[i][j] - c
    ensures forall i :: 0 <= i < n ==> RowSums(s)[i] == RowSums(m)[i] - n as real * c
  {
    forall i | 0 <= i < n
      ensures RowSums(s)[i] == RowSums(m)[i] - n as real * c
    {
      SumShift(s[i], m[i], c);
    }
  }

  /** Subtracting c from every entry of an n-by-n matrix lowers its total by n*n*c. */
  lemma TotalShift(s: Matrix, m: Matrix, n: nat, c: real)
    requires IsMatrix(s, n, n) && IsMatrix(m, n, n)
    requires forall i, j :: 0 <= i < n && 0 <= j < n ==> s[i][j] == m[i][j] - c
    ensures Total(s) == Total(m) - n as real * (n as real * c)
  {
    RowSumsShift(s, m, n, c);
    TotalFromRows(s, m, n, n as real * c);
  }

  lemma TotalFromRows(s: Matrix, m: Matrix, n: nat, d: real)
    requires |s| == |m| == n
    requires forall i :: 0 <= i < n ==> RowSums(s)[i] == RowSums(m)[i] - d
    ensures Total(s) == Total(m) - n as real * d
  {
    SumShift(RowSums(s), RowSums(m), d);
  }

  // ---------------------------------------------------------------------------
  // Bounds, unit vectors and products with vectors

  /** Entries between lo and hi sum to between n*lo and n*hi. */
  lemma {:induction false} SumBounded(s: Vector, lo: real, hi: real)
    requires forall k :: 0 <= k < |s| ==> lo <= s[k] <= hi
    ensures |s| as real * lo <= Sum(s) <= |s| as real * hi
    decreases |s|
  {
    if |s| > 0 {
      var n := |s| - 1;
      SumBounded(s[..n], lo, hi);
      assert (n + 1) as real * lo == n as real * lo + lo;
      assert (n + 1) as real * hi == n as real * hi + hi;
    }
  }

  /** A vector that is zero except for `a` at position `k` sums to `a`. */
  lemma {:induction false} SumSingle(s: Vector, k: nat, a: real)
    requires k < |s|
    requires forall j :: 0 <= j < |s| ==> s[j] == if j == k then a else 0.0
    ensures Sum(s) == a
    decreases |s|
  {
    var n := |s| - 1;
    if k == n {
      SumZero(s[..n]);
    } else {
      SumSingle(s[..n], k, a);
    }
  }

  /** Every entry equal to `a`: the sum is n*a. */
  lemma SumConstant(s: Vector, a: real)
    requires forall j :: 0 <= j < |s| ==> s[j] == a
    ensures Sum(s) == |s| as real * a
  {
    SumTwoBlocks(s, |s|, a, a);
  }

  /** The identity leaves every vector unchanged. */
  lemma IdentityMatVec(w: Vector)
    ensures MatVec(Identity(|w|), w) == w
  {
    var n := |w|;
    var e := Identity(n);
    forall i | 0 <= i < n
      ensures MatVec(e, w)[i] == w[i]
    {
      SumSingle(Products(e[i], w), i, w[i]);
    }
  }

  /** (A B) v == A (B v). */
  lemma MatVecMul(a: Matrix, b: Matrix, v: Vector)
    requires IsMatrix(a, |a|, |b|) && IsMatrix(b, |b|, |v|)
    ensures MatVec(Mul(a, b, |v|), v) == MatVec(a, MatVec(b, v))
  {
    var ab := Mul(a, b, |v|);
    var bt := Transpose(b, |v|);
    forall i | 0 <= i < |a|
      ensures MatVec(ab, v)[i] == MatVec(a, MatVec(b, v))[i]
    {
      assert MatVec(bt, a[i]) == ab[i] by {
        forall j | 0 <= j < |v|
          ensures MatVec(bt, a[i])[j] == ab[i][j]
        {
          DotCommutes(bt[j], a[i]);
        }
      }
      BilinearSwap(b, v, a[i]);
      DotCommutes(v, ab[i]);
    }
  }

  /** The dot product with a zero vector is zero. */
  lemma DotZero(u: Vector, z: Vector)
    requires |u| == |z| && forall k :: 0 <= k < |z| ==> z[k] == 0.0
    ensures Dot(u, z) == 0.0
  {
    SumZero(Products(u, z));
  }

  /** A product with a zero factor on either side is zero. */
  lemma MulZero(a: Matrix, b: Matrix, cols: nat)
    requires IsMatrix(a, |a|, |b|) && IsMatrix(b, |b|, cols)
    requires (forall i, j :: 0 <= i < |a| && 0 <= j < |b| ==> a[i][j] == 0.0)
          || (forall i, j :: 0 <= i < |b| && 0 <= j < cols ==> b[i][j] == 0.0)
    ensures forall i, j :: 0 <= i < |a| && 0 <= j < cols ==> Mul(a, b, cols)[i][j] == 0.0
  {
    forall i, j | 0 <= i < |a| && 0 <= j < cols
      ensures Mul(a, b, cols)[i][j] == 0.0
    {
      if forall k :: 0 <= k < |b| ==> a[i][k] == 0.0 {
        DotCommutes(a[i], Col(b, j));
        DotZero(Col(b, j), a[i]);
      } else {
        DotZero(a[i], Col(b, j));
      }
    }
  }
}
