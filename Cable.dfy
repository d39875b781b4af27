/**
 * The tether and its orbit: a cable whose shape is a straight segment given
 * by a direction vector, hanging from the satellite.
 */
module Cables {
  import opened Vectors

  /** The orbital position and velocity of the satellite end. */
  datatype OrbitCharacteristics = OrbitCharacteristics(position: Vec3, velocity: Vec3)

  /**
   * A function-driven cable: the material constants of a cable together
   * with the orbit it moves on and the vector from the free end's side
   * towards the satellite it was built from.
   */
  datatype Cable = Cable(
    length: real,
    diameter: real,
    conductivity: real,
    density: real,
    youngsModulus: real,
    dampeningConstant: real,
    orbit: OrbitCharacteristics,
    vector: Vec3)

  /**
   * The `FunctionDrivenCable` constructor. The length and the direction are
   * read from members of the cable function that its class does not declare,
   * so they are given here as the values those members would yield.
   */
  function FunctionDrivenCable(cableLength: real, cableDirection: Vec3, orbit: OrbitCharacteristics,
                               diameter: real, conductivity: real, density: real,
                               youngsModulus: real, dampingConstant: real): (c: Cable)
    ensures c.length == cableLength && c.vector == cableDirection && c.orbit == orbit
    ensures c.diameter == diameter && c.conductivity == conductivity && c.density == density
    ensures c.youngsModulus == youngsModulus && c.dampeningConstant == dampingConstant
  {
    Cable(cableLength, diameter, conductivity, density, youngsModulus, dampingConstant, orbit, cableDirection)
  }

  /** `getDirection(m)`: the reversed cable vector, whatever the distance `m`. */
  function GetDirection(c: Cable, m: real): Vec3
  {
    Scale(c.vector, -1.0)
  }

  /** `getPosition(m)`: the point at distance `m` from the free end. */
  function GetPosition(c: Cable, m: real): Vec3
  {
    Add(c.orbit.position, Scale(c.vector, c.length - m))
  }

  /** `getVelocity(m)`: every point moves with the orbit. */
  function GetVelocity(c: Cable, m: real): Vec3
  {
    c.orbit.velocity
  }

  // ---------------------------------------------------------------------
  // Geometry of the straight cable.

  /** The direction is the same at every point and opposite to the cable vector. */
  lemma DirectionIsConstant(c: Cable, m1: real, m2: real)
    ensures GetDirection(c, m1) == GetDirection(c, m2)
    ensures Add(GetDirection(c, m1), c.vector) == Zero()
  {
  }

  /** The far end (`m == length`) is the satellite; `m == 0` is the free end. */
  lemma EndPoints(c: Cable)
    ensures GetPosition(c, c.length) == c.orbit.position
    ensures GetPosition(c, 0.0) == Add(c.orbit.position, Scale(c.vector, c.length))
  {
  }

  /** Moving `d` further along the cable moves the point `d` along the direction. */
  lemma PositionMovesAlongDirection(c: Cable, m: real, d: real)
    ensures GetPosition(c, m + d) == ScaleAdd(GetPosition(c, m), GetDirection(c, m), d)
  {
  }

  /** Every point of the cable has the orbit's velocity. */
  lemma VelocityIsOrbitVelocity(c: Cable, m: real)
    ensures GetVelocity(c, m) == c.orbit.velocity
  {
  }
}
