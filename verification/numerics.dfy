/**
 * The two library functions the core calls that are not exact real arithmetic:
 * `np.exp` (noise kernel) and `np.sqrt` (the drift factor sqrt(2.0) and the
 * standard errors of the fit). They are carried as a value so that every
 * statement about them is conditioned on the laws below rather than on a
 * particular implementation.
 */
module Numerics {

  datatype Numerics = Numerics(exp: real -> real, sqrt: real -> real)

  /** The laws of exp and sqrt that the model relies on. */
  ghost predicate Lawful(nm: Numerics) {
    && nm.exp(0.0) == 1.0
    && (forall t :: nm.exp(t) > 0.0)
    && (forall a :: a >= 0.0 ==> nm.sqrt(a) >= 0.0 && nm.sqrt(a) * nm.sqrt(a) == a)
  }

  /** The square root of two, as `np.sqrt(2.0)` computes it. */
  function Root2(nm: Numerics): real {
    nm.sqrt(2.0)
  }

  /** Squaring is strictly increasing on the non-negative reals. */
  lemma SquareMonotone(s: real, t: real)
    requires 0.0 <= s < t
    ensures s * s < t * t
  {
    var a, b, c := s * s, s * t, t * t;
    assert a <= b;
    assert b < c;
  }

  /** A non-negative number is determined by its square. */
  lemma SquareInjective(s: real, t: real)
    requires 0.0 <= s && 0.0 <= t && s * s == t * t
    ensures s == t
  {
    if s < t {
      SquareMonotone(s, t);
    } else if t < s {
      SquareMonotone(t, s);
    }
  }

  lemma SqrtZero(nm: Numerics)
    requires Lawful(nm)
    ensures nm.sqrt(0.0) == 0.0
  {
    SquareInjective(nm.sqrt(0.0), 0.0);
  }
}
