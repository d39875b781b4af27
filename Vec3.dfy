/**
 * The immutable three-component vector every other component computes with.
 * Every operation builds a new value; a datatype cannot be mutated, so no
 * operation can change its receiver.
 */
module Vectors {
  import opened Numerics

  datatype Vec3 = Vec3(x: real, y: real, z: real)

  /** `new Vec3()`: the zero vector. */
  function Zero(): (r: Vec3)
    ensures r.x == 0.0 && r.y == 0.0 && r.z == 0.0
  {
    Vec3(0.0, 0.0, 0.0)
  }

  /** `new Vec3(double[] ds)`: reads the first three entries; a shorter array throws. */
  function FromArray(ds: seq<real>): (r: Option<Vec3>)
    ensures r.Some? <==> |ds| >= 3
    ensures r.Some? ==> r.value.x == ds[0] && r.value.y == ds[1] && r.value.z == ds[2]
  {
    if |ds| < 3 then None else Some(Vec3(ds[0], ds[1], ds[2]))
  }

  /** `new Vec3(Vec3 v)`: a duplicate, equal to the original in every component. */
  function Copy(v: Vec3): (r: Vec3)
    ensures r == v
  {
    Vec3(v.x, v.y, v.z)
  }

  function Add(a: Vec3, b: Vec3): Vec3
  {
    Vec3(a.x + b.x, a.y + b.y, a.z + b.z)
  }

  function Scale(a: Vec3, d: real): Vec3
  {
    Vec3(a.x * d, a.y * d, a.z * d)
  }

  /** `a.scaleAdd(v, s)`, computed in one pass; it agrees with adding the scaled vector. */
  function ScaleAdd(a: Vec3, v: Vec3, s: real): (r: Vec3)
    ensures r == Add(a, Scale(v, s))
  {
    assert Add(a, Scale(v, s)) == Vec3(a.x + v.x * s, a.y + v.y * s, a.z + v.z * s);
    Vec3(a.x + v.x * s, a.y + v.y * s, a.z + v.z * s)
  }

  function Dot(a: Vec3, b: Vec3): real
  {
    a.x * b.x + a.y * b.y + a.z * b.z
  }

  /** The squared length: the vector dotted with itself (sign facts in LengthSquaredSign). */
  function LengthSquared(v: Vec3): (r: real)
    ensures r == Dot(v, v)
  {
    v.x * v.x + v.y * v.y + v.z * v.z
  }

  /** The cross product, orthogonal to both of its operands. */
  function Cross(a: Vec3, v: Vec3): (r: Vec3)
    ensures Dot(a, r) == 0.0 && Dot(v, r) == 0.0
  {
    Vec3(a.y * v.z - a.z * v.y, a.z * v.x - a.x * v.z, a.x * v.y - a.y * v.x)
  }

  function Length(v: Vec3, sqrt: SqrtFn): real
  {
    sqrt(LengthSquared(v))
  }

  /**
   * `withLength`: `scale(targetLength / length())`. With a zero length Java
   * divides by zero and every component becomes NaN; here that is None.
   */
  function WithLength(v: Vec3, targetLength: real, sqrt: SqrtFn): (r: Option<Vec3>)
    ensures r.None? <==> Length(v, sqrt) == 0.0
  {
    var len := Length(v, sqrt);
    if len == 0.0 then None else Some(Scale(v, targetLength / len))
  }

  /** `withLengthSafe`: below `Double.MIN_NORMAL` it falls back to `(0, 0, targetLength)`. */
  function WithLengthSafe(v: Vec3, targetLength: real, sqrt: SqrtFn): (r: Vec3)
    ensures Length(v, sqrt) < MIN_NORMAL ==> r == Vec3(0.0, 0.0, targetLength)
    ensures Length(v, sqrt) >= MIN_NORMAL ==> WithLength(v, targetLength, sqrt) == Some(r)
  {
    MinNormalPositive();
    var len := Length(v, sqrt);
    if len < MIN_NORMAL then Vec3(0.0, 0.0, targetLength) else Scale(v, targetLength / len)
  }

  /**
   * `projectOnto`: the target scaled by `dot / lengthSquared`; a target of zero
   * squared length divides by zero (NaN components), here None.
   */
  function ProjectOnto(v: Vec3, target: Vec3): (r: Option<Vec3>)
    ensures r.None? <==> LengthSquared(target) == 0.0
  {
    var l2 := LengthSquared(target);
    if l2 == 0.0 then None else Some(Scale(target, Dot(v, target) / l2))
  }

  // ---------------------------------------------------------------------
  // Algebraic facts about the operations.

  /** `lengthSquared` is never negative; the zero vector has squared length zero. */
  lemma LengthSquaredNonNegative(v: Vec3)
    ensures LengthSquared(v) >= 0.0
    ensures v == Zero() ==> LengthSquared(v) == 0.0
  {
  }

  /** The default-constructed vector is the identity of `add`. */
  lemma ZeroIsAddIdentity(v: Vec3)
    ensures Add(v, Zero()) == v && Add(Zero(), v) == v
  {
  }

  lemma CrossAntiCommutative(a: Vec3, b: Vec3)
    ensures Cross(a, b) == Scale(Cross(b, a), -1.0)
    ensures Cross(a, a) == Zero()
  {
  }

  lemma DotScale(a: Vec3, b: Vec3, k: real)
    ensures Dot(Scale(a, k), b) == k * Dot(a, b)
    ensures Dot(b, Scale(a, k)) == k * Dot(a, b)
  {
  }

  lemma LengthSquaredScale(a: Vec3, k: real)
    ensures LengthSquared(Scale(a, k)) == k * k * LengthSquared(a)
  {
  }

  /** With a true square root, `length` is the non-negative root of `lengthSquared`. */
  lemma LengthIsRoot(v: Vec3, sqrt: SqrtFn)
    requires IsSqrt(sqrt)
    ensures Length(v, sqrt) >= 0.0
    ensures Length(v, sqrt) * Length(v, sqrt) == LengthSquared(v)
  {
    LengthSquaredNonNegative(v);
  }

  /**
   * `withLength` of a vector of nonzero length is a multiple of it whose
   * squared length is the target squared; the factor is positive for a
   * positive target.
   */
  lemma {:induction false} WithLengthResult(v: Vec3, targetLength: real, sqrt: SqrtFn)
    requires IsSqrt(sqrt)
    requires Length(v, sqrt) != 0.0
    ensures WithLength(v, targetLength, sqrt) == Some(Scale(v, targetLength / Length(v, sqrt)))
    ensures targetLength > 0.0 ==> targetLength / Length(v, sqrt) > 0.0
    ensures LengthSquared(WithLength(v, targetLength, sqrt).value) == targetLength * targetLength
  {
    LengthIsRoot(v, sqrt);
    var len := Length(v, sqrt);
    var s := targetLength / len;
    assert s * len == targetLength;
    LengthSquaredScale(v, s);
    ProductSquare(s, len, targetLength, LengthSquared(v));
  }

  /** If `s * l == t` and `l * l == q` then `s * s * q == t * t`. */
  lemma ProductSquare(s: real, l: real, t: real, q: real)
    requires s * l == t && l * l == q
    ensures s * s * q == t * t
  {
    calc {
      s * s * q;
      s * s * (l * l);
      (s * l) * (s * l);
      t * t;
    }
  }

  /** `withLengthSafe` never fails: its result always has squared length `targetLength^2`. */
  lemma {:induction false} WithLengthSafeLength(v: Vec3, targetLength: real, sqrt: SqrtFn)
    requires IsSqrt(sqrt)
    ensures LengthSquared(WithLengthSafe(v, targetLength, sqrt)) == targetLength * targetLength
  {
    MinNormalPositive();
    if Length(v, sqrt) >= MIN_NORMAL {
      WithLengthResult(v, targetLength, sqrt);
    }
  }

  /**
   * For a target of nonzero squared length, the projection is a multiple of
   * the target and the residual `v - projection` is orthogonal to the target.
   */
  lemma {:induction false} ProjectionResidualOrthogonal(v: Vec3, target: Vec3)
    requires LengthSquared(target) != 0.0
    ensures ProjectOnto(v, target) == Some(Scale(target, Dot(v, target) / LengthSquared(target)))
    ensures Dot(ScaleAdd(v, ProjectOnto(v, target).value, -1.0), target) == 0.0
  {
    var l2 := LengthSquared(target);
    var k := Dot(v, target) / l2;
    var p := Scale(target, k);
    assert k * l2 == Dot(v, target);
    DotScale(target, target, k);
    assert Dot(p, target) == Dot(v, target);
    assert Dot(ScaleAdd(v, p, -1.0), target) == Dot(v, target) - Dot(p, target);
  }
}
