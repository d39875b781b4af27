/** The satellite the newer simulation flies: its cable rule and physical constants. */
module Satellites {
  import CableFunctions

  /**
   * The newer satellite record. The simulation also reads a `bias` from it,
   * which the record's class does not declare; it is carried here as a field.
   */
  datatype Satellite = Satellite(
    cableVector: CableFunctions.CableFunction,
    cubeSatDimension: real,
    mass: real,
    cableDiameter: real,
    cableConductivity: real,
    bias: real)

  /** The constructor stores every argument unchanged (and the bias read elsewhere). */
  function NewSatellite(cableVector: CableFunctions.CableFunction, cubeSatDimension: real, mass: real,
                        cableDiameter: real, cableConductivity: real, bias: real): (s: Satellite)
    ensures s.cableVector == cableVector && s.cubeSatDimension == cubeSatDimension && s.mass == mass
    ensures s.cableDiameter == cableDiameter && s.cableConductivity == cableConductivity && s.bias == bias
  {
    Satellite(cableVector, cubeSatDimension, mass, cableDiameter, cableConductivity, bias)
  }
}
