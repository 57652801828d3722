/** `Math.sqrt` is a library call the model cannot see: it is passed in as a
    function and characterised by the properties of the square root that the
    analysis and the search rely on. */
module SquareRoot {

  /** `sqrt` maps 0 to 0 and is strictly increasing on the non-negative reals,
      as the square root is. */
  ghost predicate IsSqrt(sqrt: real -> real)
  {
    && sqrt(0.0) == 0.0
    && forall x: real, y: real :: 0.0 <= x < y ==> sqrt(x) < sqrt(y)
  }

  /** The root of a non-negative number is non-negative. */
  lemma SqrtNonNegative(sqrt: real -> real, x: real)
    requires IsSqrt(sqrt)
    requires 0.0 <= x
    ensures 0.0 <= sqrt(x)
  {
    if x > 0.0 {
      assert sqrt(0.0) < sqrt(x);
    }
  }

  /** Comparing roots is comparing radicands. */
  lemma SqrtMonotone(sqrt: real -> real, a: real, b: real)
    requires IsSqrt(sqrt)
    requires 0.0 <= a && 0.0 <= b
    ensures sqrt(a) < sqrt(b) <==> a < b
  {
    if b < a {
      assert sqrt(b) < sqrt(a);
    }
  }
}
