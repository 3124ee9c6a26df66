# Covariance, fit and error sources of rsl, in Dafny

This project models the numerical core of rsl, a tool that fits a polynomial
trend to a sea-level time series and propagates a covariance of the
measurement errors into the uncertainty of the fitted coefficients. Three
source files form the core:

- `lib/covariance.py`: the `Covariance` object. It starts from a zero n-by-n
  matrix over a time axis `x`. Each `add_noise`, `add_drift` and `add_bias`
  call adds one symmetric contribution: a Gaussian noise kernel over the index
  distance, the Gram matrix of the column-demeaned time differences, or a
  two-block step with its mean removed at the sample a date maps to.
  (`covariance.dfy`, module `Covariance`)
- `lib/inversion.py`: `inversion_ols_any_degree`, the ordinary least-squares
  fit. It normalises the abscissae, builds the design matrix, solves the normal
  equations and applies the sandwich covariance, then rescales both returned
  arrays to dimensional units. (`inversion.dfy`, module `Inversion`)
- `lib/error.py`: the `Error` constructor. It validates a configuration
  dictionary in a fixed order and reads a constant or gridded error level.
  `value` returns the level. (`error.dfy`, module `ErrorSources`)

Supporting modules:

- `Linear` (`linear.dfy`): exact real linear algebra over `seq<seq<real>>`.
- `Numerics` (`numerics.dfy`): `exp` and `sqrt` passed as a value, with the
  laws the proofs use.
- `Results` (`results.dfy`): the `Result`/`Option` types that stand in for
  exceptions.

Python's in-place updates become values. A `Builder` holds what a
`Covariance` object holds, and each `add_*` returns the next builder. An
exception becomes the `Failure` of a `Result`.

Where the docstring of `inversion_ols_any_degree` and the code differ, the
model follows the code:

- The docstring says "deg=1 will fit y=a0+a1*x" (`lib/inversion.py:16`),
  reading `bh[0]` as the intercept a0 at x = 0. It is not the intercept. The
  abscissae are centred before the fit, and `bh[i]` is only divided by
  `range^i`. So `bh[0]` is the fitted value at `mean(x)`. For y = 1 + 2x on
  the float abscissae 0.0 ... 4.0 the code returns (5, 2), not (1, 2); see
  `Inversion.ExactLine` and `Inversion.FiveSampleLine`.

The docstring of `inversion_ols_any_degree` (`lib/inversion.py:19`) describes
`vbh` as the standard errors of the fitted coefficients, and the code agrees:
the square root of the sandwich diagonal is taken before rescaling
(`lib/inversion.py:35`), so dividing `vbh[i]` by `range^i`, the same factor as
`bh[i]`, is the consistent rescaling; see `Inversion.StandardErrors`.

## Model

| member | source | states |
|---|---|---|
| Covariance.New | lib/covariance.py:16-20 | a new object has size len(x), timestep x[1] - x[0] and an all-zero n-by-n matrix |
| Covariance.Omega | lib/covariance.py:72-74 | `omega` is the accumulated n-by-n matrix |
| Covariance.NoiseIncrement | lib/covariance.py:28-33 | the noise matrix is symmetric, Toeplitz (entry (i, j) depends only on j - i) and non-negative for a non-negative variance |
| Covariance.NoiseDiagonal | lib/covariance.py:28-33 | every diagonal entry of the noise matrix equals the variance |
| Covariance.NoiseExample | lib/covariance.py:28-33 | with unit timestep, length and variance, the diagonal is 1 and neighbours get exp(-0.5) |
| Covariance.AddNoise | lib/covariance.py:22-34 | `add_noise` keeps the axis and timestep and keeps a symmetric matrix symmetric |
| Covariance.DriftDistance | lib/covariance.py:41-44 | the scaled absolute time differences are symmetric, non-negative and zero on the diagonal |
| Covariance.ColumnDemeaned | lib/covariance.py:45 | after removing each column's mean, every column sums to zero |
| Covariance.DriftIncrement | lib/covariance.py:45-46 | the drift matrix E^t E / (n - 1) is symmetric |
| Covariance.DriftPositiveSemidefinite | lib/covariance.py:41-46 | the drift matrix is positive semidefinite: v^t M v >= 0 for every v |
| Covariance.AddDrift | lib/covariance.py:36-47 | `add_drift` keeps the axis and timestep and keeps a symmetric matrix symmetric |
| Covariance.Time2Index | lib/covariance.py:63-70 | a date outside [x[0], x[-1]] raises; otherwise the result is the first index whose date is at least the given date |
| Covariance.Time2IndexFirst | lib/covariance.py:67-70 | the first date of the axis maps to index 0 |
| Covariance.Time2IndexLast | lib/covariance.py:67-70 | on a strictly increasing axis the last date maps to the last index |
| Covariance.BiasBlocksTotal | lib/covariance.py:57-59 | the two blocks bias*(1 - k/n) and bias*k/n add up to bias * k * (n - k) |
| Covariance.BiasIncrement | lib/covariance.py:55-60 | the bias matrix is symmetric and, once its mean is removed, its entries sum to zero |
| Covariance.BiasIncrementAtZero | lib/covariance.py:56-60 | a bias dated at the first sample adds nothing |
| Covariance.AddBias | lib/covariance.py:49-61 | `add_bias` fails exactly when the timing is off the axis; on success it keeps the axis and timestep and preserves symmetry |
| Covariance.Increment | lib/covariance.py:22-61 | the matrix one call adds is symmetric, and only an off-axis bias fails |
| Covariance.Apply | lib/covariance.py:22-61 | one call fails exactly when it is an off-axis bias, with that date as the error; otherwise the builder stays valid on the same axis |
| Covariance.ApplyAddsIncrement | lib/covariance.py:22-61 | every call adds its own increment to the matrix it finds (the `+=`) |
| Covariance.IncrementIgnoresMatrix | lib/covariance.py:22-61 | the increment of a call depends on the axis only, not on what was accumulated before |
| Covariance.Then | lib/covariance.py:22-61 | two calls in sequence fail exactly when either one is off-axis, reporting the first failing date |
| Covariance.ThenCommutes | lib/covariance.py:22-61 | two calls in either order succeed or fail together and build the same matrix |
| Covariance.Accumulate | lib/covariance.py:22-61 | a sequence of calls fails exactly when some call is an off-axis bias; otherwise the builder stays valid on the same axis |
| Covariance.AccumulateSymmetric | lib/covariance.py:22-61 | any sequence of successful calls keeps a symmetric matrix symmetric |
| Covariance.OmegaSymmetric | lib/covariance.py:16-74 | `omega` of a new object after any successful calls is symmetric |
| Covariance.AccumulateSwap | lib/covariance.py:22-61 | swapping two neighbouring calls changes neither the outcome nor the matrix |
| Inversion.Max | lib/inversion.py:27 | `np.max` bounds every entry from above and is one of the entries |
| Inversion.Min | lib/inversion.py:27 | `np.min` bounds every entry from below and is one of the entries |
| Inversion.RangeZero | lib/inversion.py:27 | the range is zero exactly when all abscissae coincide |
| Inversion.NormaliseRoundTrip | lib/inversion.py:26-28 | scaling the normalised abscissae by the range and adding the mean gives back x |
| Inversion.NormaliseCentred | lib/inversion.py:26-28 | the normalised abscissae sum to zero |
| Inversion.NormaliseBounded | lib/inversion.py:26-28 | the normalised abscissae lie in [-1, 1], and their max minus their min is exactly 1 |
| Inversion.DesignEvaluates | lib/inversion.py:29-30 | row k of the design matrix times c is the polynomial c evaluated at the k-th normalised abscissa |
| Inversion.SolvesUniquely | lib/inversion.py:33-34 | with a two-sided inverse of X^t X, inv X^t y solves the normal equations, and no other vector does |
| Inversion.InversionOls | lib/inversion.py:10-42 | both returned arrays have deg + 1 entries |
| Inversion.FitSolvesNormalEquations | lib/inversion.py:33-40 | bh times range^i solves the dimensionless normal equations, and every solution rescales to bh |
| Inversion.EstimateIgnoresOmega | lib/inversion.py:34 | the coefficients do not depend on the error covariance |
| Inversion.RescaleRoundTrip | lib/inversion.py:38-40 | dividing entry i by range^i and multiplying it back are inverse operations |
| Inversion.RescaledPolynomial | lib/inversion.py:38-39 | rescaled coefficients evaluated at t equal the original coefficients evaluated at t / range |
| Inversion.FitCurve | lib/inversion.py:26-39 | bh evaluated at x_k - mean(x) is the fitted value of the dimensionless fit at sample k |
| Inversion.StandardErrors | lib/inversion.py:35-40 | vbh times range^i is the non-negative square root of each non-negative diagonal entry of the sandwich covariance |
| Inversion.ZeroCovariance | lib/inversion.py:35-40 | an all-zero error covariance gives all-zero standard errors |
| Inversion.LineNormalEquations | lib/inversion.py:29-34 | for deg = 1 on centred abscissae, X^t X = diag(n, u.u) and X^t y = (sum y, u.y) |
| Inversion.LineEstimate | lib/inversion.py:33-34 | for deg = 1 the dimensionless estimate is (mean(y), u.y / u.u) |
| Inversion.LineFit | lib/inversion.py:22-42 | for deg = 1, bh = (mean(y), sum (x - mean x) y / sum (x - mean x)^2), the classical slope |
| Inversion.ExactLine | lib/inversion.py:22-42 | data on y = a + c x give bh = (a + c mean(x), c): the slope, and the line's value at the mean abscissa |
| Inversion.FiveSampleLine | lib/inversion.py:10-42 | y = 1, 3, 5, 7, 9 on x = 0..4 with zero covariance gives bh = (5, 2) and vbh = (0, 0) |
| ErrorSources.KindOf | lib/error.py:18-20 | a type is accepted exactly when it is one of the strings bias, noise, drift |
| ErrorSources.FirstMissing | lib/error.py:67-69 | the keyword loop reports the first required keyword that is missing, and none when all are present |
| ErrorSources.CheckKeys | lib/error.py:51-69 | `__check_keys` passes exactly when a source or value is present and the kind's keywords are; a missing level is reported first |
| ErrorSources.ReadLevel | lib/error.py:26-43 | a source needs a variable and then a factor, and gives a gridded level; otherwise the value is the constant level |
| ErrorSources.Parse | lib/error.py:15-49 | the constructor's key checks accept exactly the well-formed configurations (with a `source`, a `Success` means the key checks passed; grid loading can still raise, see "## Left out"); a missing type raises KeyError, an unknown type raises before anything else, and a missing level comes next |
| ErrorSources.ParseEncode | lib/error.py:15-49 | every consistent error source is accepted back from its own configuration |
| ErrorSources.EncodeParse | lib/error.py:15-49 | an accepted configuration holds every key of what it was accepted as, with the values read from it |
| ErrorSources.IgnoresUnknownKeys | lib/error.py:15-49 | keys the constructor never reads do not change its outcome |
| ErrorSources.SourceShadowsValue | lib/error.py:26-39 | when a source is given, a value beside it changes nothing and the level is gridded |
| ErrorSources.TypeCheckedFirst | lib/error.py:18-23 | a missing or unknown type is the error whatever other keys are present |
| ErrorSources.KindKeywordBeforeGridKeys | lib/error.py:23-31 | a missing timing or timescale is reported before a missing variable or factor |
| ErrorSources.VariableBeforeFactor | lib/error.py:28-31 | with a source, a missing variable is reported before a missing factor |
| ErrorSources.StoresKindParameters | lib/error.py:46-49 | a bias keeps its timing, a noise its timescale, and a drift neither |
| ErrorSources.ConstantEverywhere | lib/error.py:86-91 | with a constant level, `value` returns the configured value at every position |
| ErrorSources.Value | lib/error.py:86-91 | `value` returns the stored constant, whatever the position, when the level is unique (also stated for every accepted configuration by `ErrorSources.ConstantEverywhere`); otherwise it returns the grid interpolated at the position, with the interpolation a parameter because grid loading and interpolation are listed under "## Left out" |

## Left out

- `np.exp` and `np.sqrt` are parameters (`Numerics`). Statements that need their values assume only exp(0) = 1, exp > 0, and that sqrt of a non-negative number is its non-negative square root (`Lawful`).
- Floating point is modelled as exact reals. Rounding, overflow, inf and NaN are not modelled.
- Inversion.InversionOls: covers real (float) abscissae only. With an integer-typed `x`, `x_range` (`lib/inversion.py:27`) is an integer scalar and `x_range**(-i)` (`lib/inversion.py:39`) raises ValueError (integers to negative integer powers) for every deg >= 1; the model has no integer dtype and returns the fit instead.
- Covariance.AddNoise: requires a non-zero timestep and length. With length 0 the code computes 0/0 on the diagonal (`lib/covariance.py:28-33`) and the diagonal entries are NaN, which exact reals cannot express. A zero timestep cannot occur on a strictly increasing axis; numpy would then make `period` infinite, `distanceM/period` zero everywhere and every entry equal to `variance`, a finite fully correlated matrix that the model excludes rather than returns.
- Covariance.NoiseIncrement: does not state that the noise matrix is positive semidefinite, nor its limits in `length` (every entry tends to `variance` as length grows, and off-diagonal entries tend to 0 as length tends to 0 from above). Both need properties of exp beyond exp(0) = 1 and exp > 0 (the Gaussian kernel being positive definite, continuity and limits of exp), which `Numerics.Lawful` does not provide.
- Covariance.New: requires at least two samples. With fewer, the code fails with an IndexError on `x[1]`.
- Inversion.InversionOls: requires abscissae that are not all equal. Otherwise `x_range` is zero and `x_adim` is NaN; for deg >= 1 the result is NaN. For deg = 0 the code still returns finite values, because `x_adim**0` and `x_range**(-0)` are both 1.0 (`lib/inversion.py:30`, `lib/inversion.py:39-40`): bh = [mean(y)] and vbh = [sqrt(sum of omega) / n]. The model excludes this finite deg = 0 case along with the others.
- Inversion.InversionOls: requires `inv` to be a two-sided inverse of X^t X. `np.linalg.inv` itself is not modelled, and a singular X^t X (LinAlgError) is excluded rather than returned as an error.
- Inversion.InversionOls: its own contract states only the lengths of the returned arrays. The lemmas listed under it in the table state what the arrays hold.
- Inversion.StandardErrors: speaks only of non-negative diagonal entries, where `np.sqrt` is defined. A positive semidefinite `omega` making the whole sandwich diagonal non-negative is not proved.
- Grid loading, interpolator building and interpolation at a position (`lib/error.py:71-107`) wrap netCDF4 and pyinterp. They are not modelled: a gridded level keeps only its source, variable and factor entries, and `Value` takes the interpolation as a parameter. The `factor**2` scaling of the loaded grid is part of that left-out loading. The failures that loading can still raise after the key checks have passed are therefore not reported, for example: a missing file at `Dataset(filename)` (`lib/error.py:76`), an unknown variable name (`lib/error.py:79`), a missing `longitude` or `latitude` variable (`lib/error.py:77-78`), a text factor in `factor**2` (`lib/error.py:84`), and any error from building the interpolator (`lib/error.py:100-107`). For a configuration with a `source`, `Parse` returning `Success` with a `Gridded` level means only that the key checks of `lib/error.py:18-31` passed.
- The read-only properties `type`, `timing`, `timescale` (`lib/error.py:110-120`) are the fields of `ErrorSource`. `data` belongs to the grid loading and is left out.
- Logging, and the command-line driver and file input/output around the core (`rsl.py`, `lib/io.py`), are not part of this model.
