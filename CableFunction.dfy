/**
 * The orientation functions that choose the cable vector from a state, and
 * the fixed list of them the user picks from.
 */
module CableFunctions {
  import opened Numerics
  import opened Vectors

  /** The two rules the list offers. */
  datatype Orientation = TowardsGravity | AcrossField

  /** A named orientation function; it keeps no state of its own. */
  datatype CableFunction = CableFunction(name: string, orientation: Orientation)

  /** The length every listed function gives the cable vector, in metres. */
  const CABLE_LENGTH: real := 5.0

  /**
   * `apply(state)`, over the three parts of the state the functions read.
   * It is undefined (every component NaN in Java) when the vector to be
   * rescaled has length zero.
   */
  function Apply(f: CableFunction, velocity: Vec3, magneticField: Vec3, gravity: Vec3, sqrt: SqrtFn): (r: Option<Vec3>)
    ensures f.orientation == TowardsGravity ==> (r.None? <==> Length(gravity, sqrt) == 0.0)
    ensures f.orientation == AcrossField ==> (r.None? <==> Length(Cross(magneticField, velocity), sqrt) == 0.0)
  {
    match f.orientation
    case TowardsGravity => WithLength(gravity, CABLE_LENGTH, sqrt)
    case AcrossField => WithLength(Cross(magneticField, velocity), CABLE_LENGTH, sqrt)
  }

  /** `toString`: the name given at construction. */
  function ToString(f: CableFunction): string
  {
    f.name
  }

  /** The unmodifiable `CABLE_FUNCTIONS` list, in its order. */
  const CABLE_FUNCTIONS: seq<CableFunction> := [
    CableFunction("Towards gravity - 5m", TowardsGravity),
    CableFunction("Across field - 5m", AcrossField)
  ]

  lemma CableFunctionsList()
    ensures |CABLE_FUNCTIONS| == 2
    ensures ToString(CABLE_FUNCTIONS[0]) == "Towards gravity - 5m" && CABLE_FUNCTIONS[0].orientation == TowardsGravity
    ensures ToString(CABLE_FUNCTIONS[1]) == "Across field - 5m" && CABLE_FUNCTIONS[1].orientation == AcrossField
  {
  }

  /**
   * "Towards gravity", for gravity of nonzero length, gives a positive
   * multiple of gravity of squared length 25.
   */
  lemma {:induction false} TowardsGravityResult(f: CableFunction, velocity: Vec3, magneticField: Vec3, gravity: Vec3, sqrt: SqrtFn)
    requires IsSqrt(sqrt) && f.orientation == TowardsGravity
    requires Length(gravity, sqrt) != 0.0
    ensures Apply(f, velocity, magneticField, gravity, sqrt).Some?
    ensures exists k :: k > 0.0 && Apply(f, velocity, magneticField, gravity, sqrt).value == Scale(gravity, k)
    ensures LengthSquared(Apply(f, velocity, magneticField, gravity, sqrt).value) == CABLE_LENGTH * CABLE_LENGTH
  {
    WithLengthResult(gravity, CABLE_LENGTH, sqrt);
    var k := CABLE_LENGTH / Length(gravity, sqrt);
    assert k > 0.0 && Apply(f, velocity, magneticField, gravity, sqrt).value == Scale(gravity, k);
  }

  /**
   * "Across field", when `B x v` has nonzero length, gives a vector
   * orthogonal to both the field and the velocity, of squared length 25.
   */
  lemma {:induction false} AcrossFieldResult(f: CableFunction, velocity: Vec3, magneticField: Vec3, gravity: Vec3, sqrt: SqrtFn)
    requires IsSqrt(sqrt) && f.orientation == AcrossField
    requires Length(Cross(magneticField, velocity), sqrt) != 0.0
    ensures Apply(f, velocity, magneticField, gravity, sqrt).Some?
    ensures Dot(magneticField, Apply(f, velocity, magneticField, gravity, sqrt).value) == 0.0
    ensures Dot(velocity, Apply(f, velocity, magneticField, gravity, sqrt).value) == 0.0
    ensures LengthSquared(Apply(f, velocity, magneticField, gravity, sqrt).value) == CABLE_LENGTH * CABLE_LENGTH
  {
    var c := Cross(magneticField, velocity);
    WithLengthResult(c, CABLE_LENGTH, sqrt);
    var k := CABLE_LENGTH / Length(c, sqrt);
    DotScale(c, magneticField, k);
    DotScale(c, velocity, k);
  }
}
