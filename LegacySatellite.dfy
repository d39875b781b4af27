/**
 * The earlier revision's satellite: a cable function and a mass, and its
 * own copy of the list of cable functions.
 */
module LegacySatellite {
  import CableFunctions

  datatype Satellite = Satellite(cableVector: CableFunctions.CableFunction, mass: real)

  /** The constructor stores both arguments unchanged. */
  function NewSatellite(cableVector: CableFunctions.CableFunction, mass: real): (s: Satellite)
    ensures s.cableVector == cableVector && s.mass == mass
  {
    Satellite(cableVector, mass)
  }

  /** The earlier `CABLE_FUNCTIONS`: the same two named rules, in the same order. */
  const CABLE_FUNCTIONS: seq<CableFunctions.CableFunction> := [
    CableFunctions.CableFunction("Towards gravity - 5m", CableFunctions.TowardsGravity),
    CableFunctions.CableFunction("Across field - 5m", CableFunctions.AcrossField)
  ]

  lemma SameListAsNewerRevision()
    ensures CABLE_FUNCTIONS == CableFunctions.CABLE_FUNCTIONS
    ensures forall i :: 0 <= i < |CABLE_FUNCTIONS| ==>
              CableFunctions.ToString(CABLE_FUNCTIONS[i]) == CABLE_FUNCTIONS[i].name
  {
  }
}
