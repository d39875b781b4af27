/**
 * Numeric vocabulary shared by the model: the "undefined" sentinel of a Java
 * double (NaN) as an Option, the two infinities as an extended real, the
 * square root of the Java library as a parameter, and a few constants.
 */
module Numerics {

  /** A value that may be undefined; the model's counterpart of a NaN double. */
  datatype Option<+T> = None | Some(value: T)

  /** A non-NaN Java double: a finite real or one of the two infinities. */
  datatype ExtReal = NegInf | Finite(value: real) | PosInf

  /** Java's `a < b` between a non-NaN double and a finite one. */
  predicate LessThan(a: ExtReal, b: real)
  {
    match a
    case NegInf => true
    case Finite(v) => v < b
    case PosInf => false
  }

  /** The order of the extended reals (Java's `<=` on non-NaN doubles). */
  predicate AtMost(a: ExtReal, b: ExtReal)
  {
    match (a, b)
    case (NegInf, _) => true
    case (_, PosInf) => true
    case (Finite(u), Finite(v)) => u <= v
    case _ => false
  }

  function Min(a: real, b: real): (r: real)
    ensures r <= a && r <= b && (r == a || r == b)
  {
    if a <= b then a else b
  }

  function Max(a: real, b: real): (r: real)
    ensures r >= a && r >= b && (r == a || r == b)
  {
    if a >= b then a else b
  }

  /** `Math.abs` on doubles. */
  function Abs(a: real): (r: real)
    ensures r >= 0.0 && (r == a || r == -a)
  {
    if a < 0.0 then -a else a
  }

  /** `Math.sqrt`, a library routine outside the model, is passed in as a function. */
  type SqrtFn = real -> real

  /** What the model relies on of `Math.sqrt`: the non-negative root of a non-negative argument. */
  ghost predicate IsSqrt(sqrt: SqrtFn)
  {
    forall x :: 0.0 <= x ==> 0.0 <= sqrt(x) && sqrt(x) * sqrt(x) == x
  }

  function Pow2(n: nat): (r: nat)
    ensures r >= 1
  {
    if n == 0 then 1 else 2 * Pow2(n - 1)
  }

  /** `Math.PI`, the double nearest to pi. */
  const PI: real := 3.141592653589793

  /** `Double.MIN_NORMAL`, the smallest positive normal double, 2^-1022. */
  const MIN_NORMAL: real := 1.0 / (Pow2(1022) as real)

  lemma MinNormalPositive()
    ensures MIN_NORMAL > 0.0
  {
  }
}
