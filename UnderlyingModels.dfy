/**
 * The physical environment the simulator queries. The field, plasma and
 * gravity models are native and cross-process libraries outside the model,
 * so they are passed in as functions of the position; only the two electron
 * constants are kept.
 */
module UnderlyingModels {
  import opened Vectors

  /** The charge of one electron in coulombs (negative). */
  const E: real := -1.6021766208e-19
  /** The mass of one electron in kilograms. */
  const ME: real := 9.10938356e-31

  /** The three environment queries made when a state is built. */
  datatype Environment = Environment(
    magneticField: Vec3 -> Vec3,
    plasmaDensity: Vec3 -> real,
    gravity: Vec3 -> Vec3)

  /** The argument of the square root in Eq (3), `-2e / me`, is positive. */
  lemma ChargeToMassPositive()
    ensures E < 0.0 && ME > 0.0
    ensures -2.0 * E / ME > 0.0
  {
  }
}
