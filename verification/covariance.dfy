/**
 * The covariance builder of lib/covariance.py. A builder owns one n-by-n matrix,
 * zero at construction, and each `add_*` operation adds one symmetric
 * contribution to it:
 *   - correlated noise: a Gaussian kernel over sample-index distance;
 *   - drift: the Gram matrix of the column-demeaned absolute time differences;
 *   - bias: a two-block step matrix with its overall mean removed.
 * The builder is modelled as a value (`Builder`) and every operation as a pure
 * function from the old value to the new one; the in-place `+=` of the Python
 * object becomes a new value with the sum as its matrix.
 */
module Covariance {
  import opened Linear
  import opened Numerics
  import opened Results

  /** The state of one `Covariance` object: its time axis, size, timestep and accumulated matrix. */
  datatype Builder = Builder(x: seq<real>, size: nat, timestep: real, matrix: Matrix)

  /** The invariant every builder keeps from construction on. */
  ghost predicate Valid(b: Builder) {
    && b.size == |b.x|
    && b.size >= 2
    && b.timestep == b.x[1] - b.x[0]
    && IsMatrix(b.matrix, b.size, b.size)
  }

  /** `Covariance(x)`: the time axis needs at least two samples, since `x[1]` is read. */
  function New(x: seq<real>): (b: Builder)
    requires |x| >= 2
    ensures Valid(b) && b.x == x && b.timestep == x[1] - x[0]
    ensures forall i, j :: 0 <= i < |x| && 0 <= j < |x| ==> b.matrix[i][j] == 0.0
  {
    Builder(x, |x|, x[1] - x[0], Zero(|x|, |x|))
  }

  /** The `omega` property: the accumulated matrix. */
  function Omega(b: Builder): (m: Matrix)
    requires Valid(b)
    ensures IsMatrix(m, b.size, b.size)
  {
    b.matrix
  }

  /** Adding a symmetric increment keeps a symmetric matrix symmetric. */
  lemma PreservesSymmetry(m: Matrix, inc: Matrix, n: nat)
    requires IsMatrix(m, n, n) && Symmetric(inc, n)
    ensures Symmetric(m, n) ==> Symmetric(Add(m, inc, n, n), n)
  {
    if Symmetric(m, n) {
      AddSymmetric(m, inc, n);
    }
  }

  // ---------------------------------------------------------------------------
  // Correlated noise

  /** The noise kernel at signed index distance `d`: variance * exp(-0.5 * (d / period)^2). */
  function NoiseKernel(variance: real, period: real, d: int, nm: Numerics): real
    requires period != 0.0
  {
    variance * nm.exp(-0.5 * Square(d as real / period))
  }

  lemma KernelEven(variance: real, period: real, d: int, nm: Numerics)
    requires period != 0.0
    ensures NoiseKernel(variance, period, d, nm) == NoiseKernel(variance, period, -d, nm)
  {
    var t := d as real / period;
    assert (-d) as real / period == -t;
    assert Square(-t) == Square(t);
  }

  lemma KernelAtZero(variance: real, period: real, nm: Numerics)
    requires period != 0.0 && Lawful(nm)
    ensures NoiseKernel(variance, period, 0, nm) == variance
  {
    var t := 0 as real / period;
    assert t == 0.0;
    assert -0.5 * Square(t) == 0.0;
  }

  /**
   * The matrix `add_noise` adds: entry (i, j) is the kernel at index distance
   * j - i with period length / timestep. It depends only on j - i (Toeplitz)
   * and is symmetric.
   */
  function NoiseIncrement(n: nat, timestep: real, variance: real, length: real, nm: Numerics): (m: Matrix)
    requires timestep != 0.0 && length != 0.0
    ensures Symmetric(m, n)
    ensures forall i, j, k, l ::
              0 <= i < n && 0 <= j < n && 0 <= k < n && 0 <= l < n && j - i == l - k
              ==> m[i][j] == m[k][l]
    ensures Lawful(nm) && variance >= 0.0 ==>
              forall i, j :: 0 <= i < n && 0 <= j < n ==> m[i][j] >= 0.0
  {
    var period := length / timestep;
    assert period != 0.0 by {
      NonzeroQuotient(length, timestep);
    }
    var m := KernelMatrix(n, variance, period, nm);
    KernelMatrixSymmetric(n, variance, period, nm);
    KernelMatrixNonnegative(n, variance, period, nm);
    m
  }

  /** Entry (i, j) is the kernel at index distance j - i. */
  function KernelMatrix(n: nat, variance: real, period: real, nm: Numerics): (m: Matrix)
    requires period != 0.0
    ensures IsMatrix(m, n, n)
  {
    seq(n, i requires 0 <= i < n =>
      seq(n, j requires 0 <= j < n => NoiseKernel(variance, period, j - i, nm)))
  }

  lemma KernelMatrixSymmetric(n: nat, variance: real, period: real, nm: Numerics)
    requires period != 0.0
    ensures Symmetric(KernelMatrix(n, variance, period, nm), n)
  {
    var m := KernelMatrix(n, variance, period, nm);
    forall i, j | 0 <= i < n && 0 <= j < n
      ensures m[i][j] == m[j][i]
    {
      KernelEven(variance, period, j - i, nm);
    }
  }

  lemma KernelMatrixNonnegative(n: nat, variance: real, period: real, nm: Numerics)
    requires period != 0.0
    ensures Lawful(nm) && variance >= 0.0 ==>
              forall i, j :: 0 <= i < n && 0 <= j < n ==> KernelMatrix(n, variance, period, nm)[i][j] >= 0.0
  {
    if Lawful(nm) && variance >= 0.0 {
      var m := KernelMatrix(n, variance, period, nm);
      forall i, j | 0 <= i < n && 0 <= j < n
        ensures m[i][j] >= 0.0
      {
        NonnegativeProduct(variance, nm.exp(-0.5 * Square((j - i) as real / period)));
      }
    }
  }

  lemma NonnegativeProduct(a: real, b: real)
    requires a >= 0.0 && b >= 0.0
    ensures a * b >= 0.0
  {
  }

  /** `add_noise` puts exactly `variance` on every diagonal entry of its increment. */
  lemma NoiseDiagonal(n: nat, timestep: real, variance: real, length: real, nm: Numerics)
    requires timestep != 0.0 && length != 0.0 && Lawful(nm)
    ensures forall i :: 0 <= i < n ==> NoiseIncrement(n, timestep, variance, length, nm)[i][i] == variance
  {
    KernelAtZero(variance, length / timestep, nm);
  }

  /** With unit timestep, length and variance on a three-sample axis, neighbours get exp(-0.5). */
  lemma NoiseExample(nm: Numerics)
    requires Lawful(nm)
    ensures NoiseIncrement(3, 1.0, 1.0, 1.0, nm)[0][0] == 1.0
    ensures NoiseIncrement(3, 1.0, 1.0, 1.0, nm)[0][1] == nm.exp(-0.5)
  {
    NoiseDiagonal(3, 1.0, 1.0, 1.0, nm);
    assert Square(1 as real / 1.0) == 1.0;
  }

  function AddNoise(b: Builder, variance: real, length: real, nm: Numerics): (b': Builder)
    requires Valid(b) && b.timestep != 0.0 && length != 0.0
    ensures Valid(b') && b'.x == b.x && b'.timestep == b.timestep
    ensures Symmetric(b.matrix, b.size) ==> Symmetric(b'.matrix, b.size)
  {
    var inc := NoiseIncrement(b.size, b.timestep, variance, length, nm);
    PreservesSymmetry(b.matrix, inc, b.size);
    b.(matrix := Add(b.matrix, inc, b.size, b.size))
  }

  // ---------------------------------------------------------------------------
  // Drift

  /** |c*x_j - c*x_i| with c = sqrt(2) * drift: the absolute scaled time differences. */
  function DriftDistance(x: seq<real>, drift: real, nm: Numerics): (d: Matrix)
    ensures Symmetric(d, |x|)
    ensures forall i, j :: 0 <= i < |x| && 0 <= j < |x| ==> d[i][j] >= 0.0
    ensures forall i :: 0 <= i < |x| ==> d[i][i] == 0.0
  {
    var v := seq(|x|, j requires 0 <= j < |x| => Root2(nm) * drift * x[j]);
    seq(|x|, i requires 0 <= i < |x| =>
      seq(|x|, j requires 0 <= j < |x| => Abs(v[j] - v[i])))
  }

  /** `d - np.mean(d, axis=0)`: every column with its own mean removed; each column then sums to 0. */
  function ColumnDemeaned(d: Matrix, n: nat): (e: Matrix)
    requires IsMatrix(d, n, n) && n > 0
    ensures IsMatrix(e, n, n)
    ensures forall j :: 0 <= j < n ==> Sum(Col(e, j)) == 0.0
  {
    var means := seq(n, j requires 0 <= j < n => Mean(Col(d, j)));
    var e := seq(n, i requires 0 <= i < n =>
      seq(n, j requires 0 <= j < n => d[i][j] - means[j]));
    DemeanedColumns(d, means, e, n);
    e
  }

  lemma DemeanedColumns(d: Matrix, means: Vector, e: Matrix, n: nat)
    requires IsMatrix(d, n, n) && IsMatrix(e, n, n) && n > 0 && |means| == n
    requires forall j :: 0 <= j < n ==> means[j] == Mean(Col(d, j))
    requires forall i, j :: 0 <= i < n && 0 <= j < n ==> e[i][j] == d[i][j] - means[j]
    ensures forall j :: 0 <= j < n ==> Sum(Col(e, j)) == 0.0
  {
    forall j | 0 <= j < n
      ensures Sum(Col(e, j)) == 0.0
    {
      DemeanedColumn(Col(e, j), Col(d, j), means[j]);
    }
  }

  /** A column minus its own mean sums to zero. */
  lemma DemeanedColumn(c: Vector, a: Vector, m: real)
    requires |c| == |a| > 0 && m == Mean(a)
    requires forall k :: 0 <= k < |c| ==> c[k] == a[k] - m
    ensures Sum(c) == 0.0
  {
    SumShift(c, a, m);
    MeanTimesCount(a);
  }

  /** The matrix `add_drift` adds: E^t E / (n - 1) with E the column-demeaned distances. */
  function DriftIncrement(x: seq<real>, drift: real, nm: Numerics): (m: Matrix)
    requires |x| >= 2
    ensures Symmetric(m, |x|)
  {
    var n := |x|;
    var e := ColumnDemeaned(DriftDistance(x, drift, nm), n);
    var g := Mul(Transpose(e, n), e, n);
    var c := (n - 1) as real;
    GramSymmetric(e, n, n);
    DivideSymmetric(g, c, n);
    DivideBy(g, c, n, n)
  }

  /** The drift increment is positive semidefinite: v^t M v = |E v|^2 / (n - 1) >= 0. */
  lemma DriftPositiveSemidefinite(x: seq<real>, drift: real, nm: Numerics)
    requires |x| >= 2
    ensures PositiveSemidefinite(DriftIncrement(x, drift, nm), |x|)
  {
    var n := |x|;
    var e := ColumnDemeaned(DriftDistance(x, drift, nm), n);
    GramPositiveSemidefinite(e, n, n, (n - 1) as real);
  }

  function AddDrift(b: Builder, drift: real, nm: Numerics): (b': Builder)
    requires Valid(b)
    ensures Valid(b') && b'.x == b.x && b'.timestep == b.timestep
    ensures Symmetric(b.matrix, b.size) ==> Symmetric(b'.matrix, b.size)
  {
    var inc := DriftIncrement(b.x, drift, nm);
    PreservesSymmetry(b.matrix, inc, b.size);
    b.(matrix := Add(b.matrix, inc, b.size, b.size))
  }

  // ---------------------------------------------------------------------------
  // Bias

  /** The error raised when a date falls outside the time axis. */
  datatype OutOfBounds = OutOfBounds(date: real)

  /** The first index at or after `from` whose date is at least `date`. */
  function FirstAtLeast(x: seq<real>, date: real, from: nat): (i: nat)
    requires from < |x| && date <= x[|x| - 1]
    ensures from <= i < |x| && x[i] >= date
    ensures forall j :: from <= j < i ==> x[j] < date
    decreases |x| - from
  {
    if x[from] >= date then from else FirstAtLeast(x, date, from + 1)
  }

  /**
   * `__time2Index`: a date outside [x[0], x[-1]] is out of bounds; otherwise the
   * result is the smallest index whose date is at least `date`.
   */
  function Time2Index(x: seq<real>, date: real): (r: Result<nat, OutOfBounds>)
    requires |x| > 0
    ensures r.Failure? <==> date < x[0] || date > x[|x| - 1]
    ensures r.Failure? ==> r.error == OutOfBounds(date)
    ensures r.Success? ==>
              && r.value < |x|
              && x[r.value] >= date
              && forall j :: 0 <= j < r.value ==> x[j] < date
  {
    if date < x[0] || date > x[|x| - 1] then
      Failure(OutOfBounds(date))
    else
      Success(FirstAtLeast(x, date, 0))
  }

  ghost predicate StrictlyIncreasing(x: seq<real>) {
    forall i, j :: 0 <= i < j < |x| ==> x[i] < x[j]
  }

  /** The first date of the axis maps to index 0. */
  lemma Time2IndexFirst(x: seq<real>)
    requires |x| > 0 && x[0] <= x[|x| - 1]
    ensures Time2Index(x, x[0]) == Success(0)
  {
  }

  /** On a strictly increasing axis, the last date maps to the last index. */
  lemma Time2IndexLast(x: seq<real>)
    requires |x| > 0 && StrictlyIncreasing(x)
    ensures Time2Index(x, x[|x| - 1]) == Success(|x| - 1)
  {
    assert forall j :: 0 <= j < |x| - 1 ==> x[j] < x[|x| - 1];
  }

  /** `lead` on the leading index-by-index block, `trail` on the trailing block, 0 elsewhere. */
  function StepMatrix(n: nat, index: nat, lead: real, trail: real): (m: Matrix)
    requires index <= n
    ensures Symmetric(m, n)
  {
    seq(n, i requires 0 <= i < n =>
      seq(n, j requires 0 <= j < n =>
        if i < index && j < index then lead
        else if index <= i && index <= j then trail
        else 0.0))
  }

  /**
   * The step matrix `add_bias` builds before removing its mean: bias * (1 - index/n)
   * on the leading block and bias * index/n on the trailing block.
   */
  function BiasBlocks(n: nat, index: nat, bias: real): (m: Matrix)
    requires 0 < n && index <= n
    ensures Symmetric(m, n)
  {
    var factor := Fraction(index, n);
    StepMatrix(n, index, bias * (1.0 - factor), bias * factor)
  }

  /** `index / n`, the share of the axis before the bias step. */
  function Fraction(index: nat, n: nat): real
    requires 0 < n
  {
    index as real / n as real
  }

  lemma StepMatrixRow(n: nat, index: nat, lead: real, trail: real, i: nat)
    requires index <= n && i < n
    ensures Sum(StepMatrix(n, index, lead, trail)[i])
         == if i < index then index as real * lead else (n - index) as real * trail
  {
    var row := StepMatrix(n, index, lead, trail)[i];
    if i < index {
      assert forall j :: 0 <= j < |row| ==> row[j] == if j < index then lead else 0.0;
      SumTwoBlocks(row, index, lead, 0.0);
    } else {
      assert forall j :: 0 <= j < |row| ==> row[j] == if j < index then 0.0 else trail;
      SumTwoBlocks(row, index, 0.0, trail);
    }
  }

  lemma StepMatrixTotal(n: nat, index: nat, lead: real, trail: real)
    requires index <= n
    ensures Total(StepMatrix(n, index, lead, trail))
         == index as real * (index as real * lead) + (n - index) as real * ((n - index) as real * trail)
  {
    var m := StepMatrix(n, index, lead, trail);
    var leadRow := index as real * lead;
    var trailRow := (n - index) as real * trail;
    var sums := RowSums(m);
    forall i | 0 <= i < n
      ensures sums[i] == if i < index then leadRow else trailRow
    {
      StepMatrixRow(n, index, lead, trail, i);
    }
    SumTwoBlocks(sums, index, leadRow, trailRow);
  }

  /** The entries of the step matrix add up to bias * index * (n - index). */
  lemma BiasBlocksTotal(n: nat, index: nat, bias: real)
    requires 0 < n && index <= n
    ensures Total(BiasBlocks(n, index, bias)) == bias * index as real * (n - index) as real
  {
    StepMatrixTotal(n, index, bias * (1.0 - Fraction(index, n)), bias * Fraction(index, n));
    BiasAlgebra(n as real, index as real, (n - index) as real, bias,
      Fraction(index, n), bias * (1.0 - Fraction(index, n)), bias * Fraction(index, n));
  }

  /** k*k*b*(1 - k/n) + (n-k)*(n-k)*b*k/n == b*k*(n-k). */
  lemma BiasAlgebra(n: real, k: real, rest: real, b: real, f: real, lead: real, trail: real)
    requires n > 0.0 && rest == n - k && f == k / n
    requires lead == b * (1.0 - f) && trail == b * f
    ensures k * (k * lead) + rest * (rest * trail) == b * k * rest
  {
    assert f * n == k;
    var lhs := k * (k * lead) + rest * (rest * trail);
    assert lhs == b * (k * k - k * k * f + rest * rest * f);
    assert rest * rest * f == n * n * f - 2.0 * n * k * f + k * k * f;
    assert n * n * f == n * k;
    assert n * k * f == k * k;
  }

  /** The matrix `add_bias` adds once the timing has been resolved to `index`. */
  function BiasIncrement(n: nat, index: nat, bias: real): (m: Matrix)
    requires 0 < n && index <= n
    ensures Symmetric(m, n)
    ensures Total(m) == 0.0
  {
    var blocks := BiasBlocks(n, index, bias);
    var mean := Total(blocks) / (n * n) as real;
    var m := seq(n, i requires 0 <= i < n =>
      seq(n, j requires 0 <= j < n => blocks[i][j] - mean));
    DemeanedTotal(m, blocks, n, mean);
    m
  }

  /** Removing the mean of all entries leaves a matrix whose entries sum to zero. */
  lemma DemeanedTotal(m: Matrix, blocks: Matrix, n: nat, mean: real)
    requires 0 < n && IsMatrix(m, n, n) && IsMatrix(blocks, n, n)
    requires mean == Total(blocks) / (n * n) as real
    requires forall i, j :: 0 <= i < n && 0 <= j < n ==> m[i][j] == blocks[i][j] - mean
    ensures Total(m) == 0.0
  {
    TotalShift(m, blocks, n, mean);
    SquareMeanTimesCount(Total(blocks), n);
  }

  lemma SquareMeanTimesCount(total: real, n: nat)
    requires n > 0
    ensures n as real * (n as real * (total / (n * n) as real)) == total
  {
    var nn := (n * n) as real;
    assert nn == n as real * n as real;
    assert nn > 0.0;
  }

  /** At index 0 the leading block is empty and the trailing block is bias * 0: nothing is added. */
  lemma BiasIncrementAtZero(n: nat, bias: real)
    requires 0 < n
    ensures forall i, j :: 0 <= i < n && 0 <= j < n ==> BiasIncrement(n, 0, bias)[i][j] == 0.0
  {
    assert Fraction(0, n) == 0.0;
    BiasBlocksTotal(n, 0, bias);
    forall i, j | 0 <= i < n && 0 <= j < n
      ensures BiasIncrement(n, 0, bias)[i][j] == 0.0
    {
      assert BiasBlocks(n, 0, bias)[i][j] == bias * 0.0;
    }
  }

  /** `add_bias`: fails, leaving the builder as it was, when the timing is off the axis. */
  function AddBias(b: Builder, bias: real, timing: real): (r: Result<Builder, OutOfBounds>)
    requires Valid(b)
    ensures r.Failure? <==> timing < b.x[0] || timing > b.x[b.size - 1]
    ensures r.Success? ==> Valid(r.value) && r.value.x == b.x && r.value.timestep == b.timestep
    ensures r.Success? && Symmetric(b.matrix, b.size) ==> Symmetric(r.value.matrix, b.size)
  {
    var index :- Time2Index(b.x, timing);
    var inc := BiasIncrement(b.size, index, bias);
    PreservesSymmetry(b.matrix, inc, b.size);
    Success(b.(matrix := Add(b.matrix, inc, b.size, b.size)))
  }

  // ---------------------------------------------------------------------------
  // Sequences of calls

  /** One call on a builder with its arguments. */
  datatype Contribution =
    | Noise(variance: real, length: real)
    | Drift(drift: real)
    | Bias(bias: real, timing: real)

  /** A call that does not divide by zero on an axis with this timestep. */
  predicate Admissible(timestep: real, c: Contribution) {
    c.Noise? ==> timestep != 0.0 && c.length != 0.0
  }

  /** A bias call whose timing lies outside the axis: the one way a call fails. */
  predicate OffAxis(x: seq<real>, c: Contribution)
    requires |x| > 0
  {
    c.Bias? && (c.timing < x[0] || c.timing > x[|x| - 1])
  }

  /** The matrix one call adds to the builder, or the error it raises. */
  function Increment(b: Builder, c: Contribution, nm: Numerics): (r: Result<Matrix, OutOfBounds>)
    requires Valid(b) && Admissible(b.timestep, c)
    ensures r.Failure? <==> OffAxis(b.x, c)
    ensures r.Success? ==> Symmetric(r.value, b.size)
  {
    match c
    case Noise(variance, length) => Success(NoiseIncrement(b.size, b.timestep, variance, length, nm))
    case Drift(drift) => Success(DriftIncrement(b.x, drift, nm))
    case Bias(bias, timing) =>
      var index :- Time2Index(b.x, timing);
      Success(BiasIncrement(b.size, index, bias))
  }

  /** The builder after one call. */
  function Apply(b: Builder, c: Contribution, nm: Numerics): (r: Result<Builder, OutOfBounds>)
    requires Valid(b) && Admissible(b.timestep, c)
    ensures r.Failure? <==> OffAxis(b.x, c)
    ensures r.Failure? ==> r.error == OutOfBounds(c.timing)
    ensures r.Success? ==> Valid(r.value) && r.value.x == b.x && r.value.timestep == b.timestep
  {
    match c
    case Noise(variance, length) => Success(AddNoise(b, variance, length, nm))
    case Drift(drift) => Success(AddDrift(b, drift, nm))
    case Bias(bias, timing) => AddBias(b, bias, timing)
  }

  /** Every call adds its own increment to the matrix, whatever the matrix held before. */
  lemma ApplyAddsIncrement(b: Builder, c: Contribution, nm: Numerics)
    requires Valid(b) && Admissible(b.timestep, c)
    ensures Apply(b, c, nm).Success? <==> Increment(b, c, nm).Success?
    ensures Apply(b, c, nm).Success? ==>
              Apply(b, c, nm).value.matrix == Add(b.matrix, Increment(b, c, nm).value, b.size, b.size)
  {
  }

  /** The increment of a call depends on the axis only, not on what was accumulated. */
  lemma IncrementIgnoresMatrix(b: Builder, m: Matrix, c: Contribution, nm: Numerics)
    requires Valid(b) && Admissible(b.timestep, c) && IsMatrix(m, b.size, b.size)
    ensures Increment(b.(matrix := m), c, nm) == Increment(b, c, nm)
  {
  }

  /** Two calls in sequence; the second sees the builder the first produced. */
  function Then(b: Builder, c1: Contribution, c2: Contribution, nm: Numerics): (r: Result<Builder, OutOfBounds>)
    requires Valid(b) && Admissible(b.timestep, c1) && Admissible(b.timestep, c2)
    ensures r.Failure? <==> OffAxis(b.x, c1) || OffAxis(b.x, c2)
    ensures r.Failure? ==> r.error == if OffAxis(b.x, c1) then OutOfBounds(c1.timing) else OutOfBounds(c2.timing)
  {
    var b1 :- Apply(b, c1, nm);
    Apply(b1, c2, nm)
  }

  /**
   * The order of two calls does not matter: both orders succeed or fail
   * together and, when they succeed, build the same matrix.
   */
  lemma ThenCommutes(b: Builder, c1: Contribution, c2: Contribution, nm: Numerics)
    requires Valid(b) && Admissible(b.timestep, c1) && Admissible(b.timestep, c2)
    ensures Then(b, c1, c2, nm).Success? <==> Then(b, c2, c1, nm).Success?
    ensures Then(b, c1, c2, nm).Success? ==> Then(b, c1, c2, nm) == Then(b, c2, c1, nm)
  {
    if Then(b, c1, c2, nm).Success? {
      var i1 := Increment(b, c1, nm).value;
      var i2 := Increment(b, c2, nm).value;
      var b1 := Apply(b, c1, nm).value;
      var b2 := Apply(b, c2, nm).value;
      ApplyAddsIncrement(b, c1, nm);
      ApplyAddsIncrement(b, c2, nm);
      ApplyAddsIncrement(b1, c2, nm);
      ApplyAddsIncrement(b2, c1, nm);
      IncrementIgnoresMatrix(b, b1.matrix, c2, nm);
      IncrementIgnoresMatrix(b, b2.matrix, c1, nm);
      assert b1 == b.(matrix := b1.matrix);
      assert b2 == b.(matrix := b2.matrix);
      AddSwap(b.matrix, i1, i2, b.size, b.size);
    }
  }

  /** A whole sequence of calls, stopping at the first one that raises. */
  function Accumulate(b: Builder, cs: seq<Contribution>, nm: Numerics): (r: Result<Builder, OutOfBounds>)
    requires Valid(b) && forall k :: 0 <= k < |cs| ==> Admissible(b.timestep, cs[k])
    ensures r.Success? ==> Valid(r.value) && r.value.x == b.x && r.value.timestep == b.timestep
    ensures r.Failure? <==> exists k :: 0 <= k < |cs| && OffAxis(b.x, cs[k])
    decreases |cs|
  {
    if |cs| == 0 then Success(b)
    else
      var b1 :- Apply(b, cs[0], nm);
      var r := Accumulate(b1, cs[1..], nm);
      assert r.Failure? <==> exists k :: 0 <= k < |cs| && OffAxis(b.x, cs[k]) by {
        assert forall k :: 1 <= k < |cs| ==> cs[1..][k - 1] == cs[k];
        assert forall k :: 0 <= k < |cs| - 1 ==> cs[1..][k] == cs[k + 1];
      }
      r
  }

  /**
   * Every sequence of successful calls keeps the matrix symmetric; in particular
   * `omega` of a freshly built object after any calls is symmetric.
   */
  lemma {:induction false} AccumulateSymmetric(b: Builder, cs: seq<Contribution>, nm: Numerics)
    requires Valid(b) && Symmetric(b.matrix, b.size)
    requires forall k :: 0 <= k < |cs| ==> Admissible(b.timestep, cs[k])
    ensures Accumulate(b, cs, nm).Success? ==> Symmetric(Accumulate(b, cs, nm).value.matrix, b.size)
    decreases |cs|
  {
    if |cs| > 0 && Apply(b, cs[0], nm).Success? {
      var b1 := Apply(b, cs[0], nm).value;
      ApplyAddsIncrement(b, cs[0], nm);
      PreservesSymmetry(b.matrix, Increment(b, cs[0], nm).value, b.size);
      AccumulateSymmetric(b1, cs[1..], nm);
    }
  }

  /** The matrix of a new object after any successful calls is symmetric. */
  lemma OmegaSymmetric(x: seq<real>, cs: seq<Contribution>, nm: Numerics)
    requires |x| >= 2 && forall k :: 0 <= k < |cs| ==> Admissible(x[1] - x[0], cs[k])
    ensures Accumulate(New(x), cs, nm).Success? ==> Symmetric(Omega(Accumulate(New(x), cs, nm).value), |x|)
  {
    AccumulateSymmetric(New(x), cs, nm);
  }

  /** Swapping two neighbouring calls changes neither the outcome nor the matrix built. */
  lemma AccumulateSwap(b: Builder, cs: seq<Contribution>, k: nat, nm: Numerics)
    requires Valid(b) && forall i :: 0 <= i < |cs| ==> Admissible(b.timestep, cs[i])
    requires k + 1 < |cs|
    ensures var swapped := cs[k := cs[k + 1]][k + 1 := cs[k]];
            && (Accumulate(b, cs, nm).Success? <==> Accumulate(b, swapped, nm).Success?)
            && (Accumulate(b, cs, nm).Success? ==> Accumulate(b, cs, nm) == Accumulate(b, swapped, nm))
  {
    var swapped := cs[k := cs[k + 1]][k + 1 := cs[k]];
    assert Accumulate(b, cs, nm).Failure? <==> Accumulate(b, swapped, nm).Failure? by {
      assert forall i :: 0 <= i < |cs| ==> (OffAxis(b.x, cs[i]) <==> OffAxis(b.x, swapped[if i == k then k + 1 else if i == k + 1 then k else i]));
    }
    if Accumulate(b, cs, nm).Success? {
      SwapSuccess(b, cs, k, nm);
    }
  }

  lemma {:induction false} SwapSuccess(b: Builder, cs: seq<Contribution>, k: nat, nm: Numerics)
    requires Valid(b) && forall i :: 0 <= i < |cs| ==> Admissible(b.timestep, cs[i])
    requires k + 1 < |cs| && Accumulate(b, cs, nm).Success?
    ensures Accumulate(b, cs, nm) == Accumulate(b, cs[k := cs[k + 1]][k + 1 := cs[k]], nm)
    decreases k
  {
    if k == 0 {
      SwapFirst(b, cs, nm);
    } else {
      var swapped := cs[k := cs[k + 1]][k + 1 := cs[k]];
      assert swapped[1..] == cs[1..][k - 1 := cs[1..][k]][k := cs[1..][k - 1]];
      SwapSuccess(Apply(b, cs[0], nm).value, cs[1..], k - 1, nm);
    }
  }

  /** The base case: swapping the first two calls. */
  lemma SwapFirst(b: Builder, cs: seq<Contribution>, nm: Numerics)
    requires Valid(b) && forall i :: 0 <= i < |cs| ==> Admissible(b.timestep, cs[i])
    requires 1 < |cs| && Accumulate(b, cs, nm).Success?
    ensures Accumulate(b, cs, nm) == Accumulate(b, cs[0 := cs[1]][1 := cs[0]], nm)
  {
    var swapped := cs[0 := cs[1]][1 := cs[0]];
    var b1 := Apply(b, cs[0], nm).value;
    var b2 := Apply(b1, cs[1], nm).value;
    var c1 := Apply(b, cs[1], nm).value;
    var c2 := Apply(c1, cs[0], nm).value;
    ThenCommutes(b, cs[0], cs[1], nm);
    assert cs[1..][1..] == cs[2..] == swapped[1..][1..];
    assert Accumulate(b, cs, nm) == Accumulate(b2, cs[2..], nm);
    assert Accumulate(b, swapped, nm) == Accumulate(c2, cs[2..], nm);
  }
}
