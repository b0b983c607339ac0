/**
 The engine calls `math.sqrt` and `math.log`; the model takes them as
 function parameters and states, here, the laws that some of its lemmas
 rely on. Nothing beyond these laws is assumed about them: the model
 reasons about their arguments, not about their numeric values.
 */
module MathLaws {

  /** `sqrt` is a square root: zero at zero, and on the positive reals a
      positive number whose square is its argument. */
  ghost predicate IsSqrt(sqrt: real -> real)
  {
    && sqrt(0.0) == 0.0
    && forall x :: 0.0 < x ==> 0.0 < sqrt(x) && sqrt(x) * sqrt(x) == x
  }

  /** `log` is a logarithm: zero at one and strictly increasing on the
      positive reals (true of the natural logarithm and of base 10). */
  ghost predicate IsLog(log: real -> real)
  {
    && log(1.0) == 0.0
    && forall x, y :: 0.0 < x < y ==> log(x) < log(y)
  }

  /** A logarithm is negative exactly below one and positive exactly above it. */
  lemma LogSign(log: real -> real, x: real)
    requires IsLog(log)
    requires x > 0.0
    ensures log(x) < 0.0 <==> x < 1.0
    ensures log(x) > 0.0 <==> x > 1.0
    ensures log(x) == 0.0 <==> x == 1.0
  {
    if x < 1.0 {
      assert log(x) < log(1.0);
    } else if x > 1.0 {
      assert log(1.0) < log(x);
    }
  }
}
