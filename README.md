# Electrodynamic tether simulator — a verified model of its core

This project models the numerical core of a simulator for a CubeSat that
trails an electrodynamic tether. Moving through the Earth's magnetic field,
the tether collects current from the plasma. The current is emitted again at
the satellite end, and the Lorentz force on the current-carrying tether
changes the orbit. The model covers these parts of the Java sources:

- **Vector algebra** (`Vectors`, from `Vec3.java`): an immutable 3-vector
  with add, scale, scale-add, dot and cross products, length, rescaling (with
  its safe fallback) and projection. The identities are proved over the
  reals: cross products are orthogonal and anti-commutative, and the
  projection residual is orthogonal to the target.
- **Emitter boundary condition** (`Emitters`, from `Emitter.java`): how much
  voltage drop an emitted current needs. The rule has a current limit, a
  power limit, a fixed bias, a bias cap of 200 V, and ±infinity results. It
  also computes the final operating point. Every branch is stated exactly.
- **Cable geometry** (`Cables`, `CableFunctions`, `Satellites`,
  `LegacySatellite`): the straight function-driven cable, and the list of the
  two named cable-orientation rules in both revisions.
- **RK4 integration and time bookkeeping** (`Integration`, `Orbital`,
  `LegacyOrbital`): the RK4 weights, Java's truncating `nanos / 2`, and the
  split of `step(nanos)` into full time steps plus a last partial step. The
  simulator object of both revisions is a class with the clock, the time
  step and the state as fields.
- **The newer shooting method** (`ShootingMethod`, from `State.lorentzForce`
  in the newer `OrbitalSimulation.java`): a forward-Euler loop along the
  cable nested inside an iteration-capped bisection on the starting voltage.
  It has two early exits and bracket invariants.
- **The second-revision tether solver** (`LorentzCalculation`, from
  `LorentzForceCalculation.java`): a class whose `GuessVoltage` fills a
  100-entry force array with an Euler loop. Its `Solve` first doubles one
  end of a bracket, then runs exactly 250 bisection steps.

## Modelling choices

- Java `double` is `real`. Rounding is not modelled.
- Values Java represents as NaN ("undefined") are `Option`. The ±infinity
  results of the emitter rule are the datatype `ExtReal`, and `LessThan`
  compares one with a real as Java's `<` does.
- `Math.sqrt` is a parameter of type `real -> real`. Lemmas that need it to
  be a true square root require `IsSqrt(sqrt)`: non-negative, and squaring
  back to its argument on non-negative inputs.
- The environment models are parameters of the type `Environment`: the
  magnetic field, the gravitational acceleration and the plasma density as
  functions of position. In the source these are native and cross-process
  calls.
- Java `long` arithmetic is `int`. `nanos / 2` is `Half`, which truncates
  toward zero as Java does.
- The newer `OrbitalSimulation.java` builds every state in a constructor
  that divides by the cable vector's length and by the mass. If either is
  zero, the Java state carries NaN. Here that state is `None`, and every
  later step keeps it `None`. The earlier revision divides only by the mass.
- The cable's diameter and conductivity are read only once the shooting
  search runs (Eq (3) and Eq (4)). At a negative EMF gradient `lorentzForce`
  returns before that, so a zero diameter or conductivity there gives a
  state with no force and no current, as in Java
  (`NegativeGradientBuildsFreeFall`). When the search runs, a zero value
  makes the state `None` (see "Left out").
- `LorentzForceCalculation.java` works on the abstract `Cable`. The model
  fixes that cable to the straight, function-driven one, the only cable of
  the repository with a behaviour (`PythonSimulatedCable` returns null).
  `GradientIsUniform` depends on this choice: on a curved cable the EMF per
  metre would vary along it.
- Where the code and its documentation disagree, the code is followed:
  - The newer state constructor reads `satelite.bias`, which `Satellite.java`
    does not declare. The model gives the satellite record a `bias` field.
  - `FunctionDrivenCable` reads `vector.cableLength` and
    `vector.getCableDirection(orbit)`, which `CableFunction.java` does not
    declare. The model's constructor takes the length and direction those
    members would yield.
  - The first state's `time` is the time step, not 0 (newer
    `OrbitalSimulation.java:176`). A state built by a step carries the time
    at the start of that step (line 161).
- The downward doubling loop of `solve` (`LorentzForceCalculation.java:58-62`)
  exits on the same test as the upward one. So the bracket it builds fails
  the test at both ends. `StartBracketEnds` proves exactly this, as the
  code reads.

## Model

| member | source | states |
|---|---|---|
| Vectors.Zero | src/java/brownshome/apss/Vec3.java:14-16 | the default vector has all three components zero |
| Vectors.FromArray | src/java/brownshome/apss/Vec3.java:18-20 | defined exactly when the array has at least three entries, and then its components are the first three |
| Vectors.Copy | src/java/brownshome/apss/Vec3.java:32-34 | the copy equals the original |
| Vectors.ScaleAdd | src/java/brownshome/apss/Vec3.java:36-46 | `a.scaleAdd(v, s)` equals `a.add(v.scale(s))` |
| Vectors.LengthSquared | src/java/brownshome/apss/Vec3.java:75-77 | the squared length is the vector dotted with itself |
| Vectors.Cross | src/java/brownshome/apss/Vec3.java:79-81 | the cross product is orthogonal to both operands |
| Vectors.WithLength | src/java/brownshome/apss/Vec3.java:48-51 | undefined (Java's division by a zero length) exactly when the length is zero |
| Vectors.WithLengthSafe | src/java/brownshome/apss/Vec3.java:62-69 | below the smallest normal length it is `(0, 0, target)`; otherwise it is the defined `withLength` result |
| Vectors.ProjectOnto | src/java/brownshome/apss/Vec3.java:143-145 | undefined exactly when the target's squared length is zero |
| Vectors.LengthSquaredNonNegative | src/java/brownshome/apss/Vec3.java:75-77 | the squared length is non-negative, and zero for the zero vector |
| Vectors.ZeroIsAddIdentity | src/java/brownshome/apss/Vec3.java:40-42 | the default vector is a two-sided identity for `add` |
| Vectors.CrossAntiCommutative | src/java/brownshome/apss/Vec3.java:79-81 | `a x b = -(b x a)` and `a x a` is the zero vector |
| Vectors.DotScale | src/java/brownshome/apss/Vec3.java:88-90 | scaling an operand by `k` scales the dot product by `k`, on either side |
| Vectors.LengthSquaredScale | src/java/brownshome/apss/Vec3.java:44-46 | scaling by `k` multiplies the squared length by `k * k` |
| Vectors.LengthIsRoot | src/java/brownshome/apss/Vec3.java:71-73 | with a true square root the length is non-negative and squares to the squared length |
| Vectors.WithLengthResult | src/java/brownshome/apss/Vec3.java:48-51 | for a nonzero vector the result is the vector scaled by `target / length`: a positive multiple when the target is positive, with squared length `target^2` |
| Vectors.WithLengthSafeLength | src/java/brownshome/apss/Vec3.java:62-69 | the safe rescaling always has squared length `target^2`, in both branches |
| Vectors.ProjectionResidualOrthogonal | src/java/brownshome/apss/Vec3.java:143-145 | for a nonzero target the projection is a multiple of the target, and `v - projection` is orthogonal to the target |
| Numerics.MinNormalPositive | src/java/brownshome/apss/Vec3.java:64 | the threshold of the safe rescaling is positive |
| Emitters.AdjustableBias | src/java/brownshome/apss/Emitter.java:18-26 | keeps both limits and the technology drop, and leaves the set bias undefined; at least one limit must be defined |
| Emitters.FixedBias | src/java/brownshome/apss/Emitter.java:29-36 | keeps both limits, the set bias and the technology drop |
| Emitters.ThermionicCathode | src/java/brownshome/apss/Emitter.java:38-40 | the default limits of 1.5 W and 12 mA, an adjustable bias and a 200 V drop |
| Emitters.ThermionicCathodeBiased | src/java/brownshome/apss/Emitter.java:42-44 | a set bias and a 200 V drop; with limits both defaults are set, without them neither is |
| Emitters.ThermionicCathodeLimited | src/java/brownshome/apss/Emitter.java:47-49 | the given limits, an adjustable bias and a 200 V drop |
| Emitters.ThermionicCathodeLimitedBiased | src/java/brownshome/apss/Emitter.java:51-53 | the given limits, the given bias and a 200 V drop |
| Emitters.DefaultResult | src/java/brownshome/apss/Emitter.java:70-74 | the default result is all zeros |
| Emitters.FinalResult | src/java/brownshome/apss/Emitter.java:56-65 | the chosen bias is `max(0, technologyDrop - voltageDrop)`, so never negative; the power is bias times current; the voltage drop is returned unchanged |
| Emitters.RequiredVoltageDrop | src/java/brownshome/apss/Emitter.java:89-114 | +infinity exactly over a defined current limit; -infinity exactly for zero current within the limit; otherwise finite, for a nonzero current, and at least `technologyDrop - 200` |
| Emitters.OverLimitIsInfinite | src/java/brownshome/apss/Emitter.java:91-93 | a current over a defined limit needs +infinity, whatever else holds (the test runs first) |
| Emitters.ZeroCurrentIsNegInfinite | src/java/brownshome/apss/Emitter.java:95-97 | zero current within the limit needs -infinity |
| Emitters.FixedBiasDrop | src/java/brownshome/apss/Emitter.java:102-113 | with a set bias the drop is `technologyDrop - min(setBias, 200)`, whatever the current or the power limit |
| Emitters.PowerLimitedDrop | src/java/brownshome/apss/Emitter.java:104-113 | with no set bias and a power limit the drop is `technologyDrop - min(powerLimit / current, 200)` |
| Emitters.UnlimitedDrop | src/java/brownshome/apss/Emitter.java:106-113 | with neither a set bias nor a power limit the drop is `technologyDrop - 200` |
| Emitters.UnlimitedThermionicNeedsNoVoltage | src/java/brownshome/apss/Emitter.java:107 | so a thermionic cathode with no power limit needs a drop of 0 for any nonzero current within its limit |
| Emitters.PowerLimitedMonotone | src/java/brownshome/apss/Emitter.java:104-113 | under a positive power limit a larger positive current never needs a smaller drop |
| Emitters.PowerLimitRespected | src/java/brownshome/apss/Emitter.java:56-65 | under a power limit, the operating point at the required drop never uses more than the power limit |
| UnderlyingModels.ChargeToMassPositive | src/java/brownshome/apss/UnderlyingModels.java:16-18 | the electron charge is negative, its mass positive, so `-2e/me` is positive |
| Cables.FunctionDrivenCable | src/java/brownshome/apss/FunctionDrivenCable.java:7-12 | the cable keeps its length, direction vector, orbit and material constants |
| Cables.DirectionIsConstant | src/java/brownshome/apss/FunctionDrivenCable.java:15-17 | `getDirection(m)` is `-vector` for every `m` |
| Cables.EndPoints | src/java/brownshome/apss/FunctionDrivenCable.java:20-22 | `getPosition(length)` is the satellite position and `getPosition(0)` is `position + vector * length` |
| Cables.PositionMovesAlongDirection | src/java/brownshome/apss/FunctionDrivenCable.java:15-22 | `getPosition(m + d) = getPosition(m) + getDirection(m) * d` for all `m` and `d` |
| Cables.VelocityIsOrbitVelocity | src/java/brownshome/apss/FunctionDrivenCable.java:25-27 | every point of the cable moves with the orbit velocity |
| CableFunctions.Apply | src/java/brownshome/apss/CableFunction.java:15-27 | each rule is undefined exactly when the vector it rescales (gravity, or `B x v`) has length zero |
| CableFunctions.CableFunctionsList | src/java/brownshome/apss/CableFunction.java:14-38 | exactly two entries, whose `toString` is "Towards gravity - 5m", then "Across field - 5m" |
| CableFunctions.TowardsGravityResult | src/java/brownshome/apss/CableFunction.java:15-19 | for nonzero gravity the vector is a positive multiple of gravity of length 5 |
| CableFunctions.AcrossFieldResult | src/java/brownshome/apss/CableFunction.java:22-26 | for nonzero `B x v` the vector is orthogonal to the field and to the velocity, of length 5 |
| Satellites.NewSatellite | src/java/brownshome/apss/Satellite.java:15-22 | the constructor stores every argument unchanged |
| LegacySatellite.NewSatellite | src/brownshome/apss/Satellite.java:32-35 | the constructor stores the cable rule and the mass unchanged |
| LegacySatellite.SameListAsNewerRevision | src/brownshome/apss/Satellite.java:12-26 | the earlier list is the newer one: the same two rules, names and order |
| Integration.Combine | src/java/brownshome/apss/OrbitalSimulation.java:28-31 | both components of the combination are the RK4 mean `(a + 2b + 2c + d) / 6` |
| Integration.CombineConstant | src/java/brownshome/apss/OrbitalSimulation.java:28-31 | four equal stage derivatives combine to that same derivative |
| Integration.Half | src/java/brownshome/apss/OrbitalSimulation.java:217-218 | `nanos / 2` truncates toward zero: its remainder is 0 or 1 for non-negative `nanos`, 0 or -1 otherwise |
| Integration.HalfIsOdd | src/java/brownshome/apss/OrbitalSimulation.java:217-218 | halving `-n` gives minus the half of `n` |
| Integration.SumAppend | src/java/brownshome/apss/OrbitalSimulation.java:202-208 | the total of two lists of step durations is the sum of their totals |
| Integration.SubSteps | src/java/brownshome/apss/OrbitalSimulation.java:202-208 | the durations `step(nanos)` runs: at least one, totalling `nanos`, every one but the last exactly `timeStep`, the last in `(0, timeStep]` when `nanos > 0`, and `[nanos]` alone (a zero-length step for 0) when no full step is needed |
| Integration.SubStepsFirst | src/java/brownshome/apss/OrbitalSimulation.java:203-205 | with more than one time step to go, a full step comes first |
| ShootingMethod.SegmentLength | src/java/brownshome/apss/OrbitalSimulation.java:90 | `dl * iterations = cableLength` |
| ShootingMethod.Sample | src/java/brownshome/apss/OrbitalSimulation.java:94-102 | one pass of the Euler loop computes `EulerSample`: `deltaV` before the update, the voltage from the old current, the running sum from the new one |
| ShootingMethod.RunProbe | src/java/brownshome/apss/OrbitalSimulation.java:87-107 | `new Result(v, n)` runs the loop from zero current and computes `ProbeSpec` |
| ShootingMethod.NoCurrentWithoutPositiveDeltaV | src/java/brownshome/apss/OrbitalSimulation.java:94-100 | from a non-positive voltage and a non-negative gradient, `deltaV` never becomes positive, so the current stays 0 and nothing else moves |
| ShootingMethod.CurrentNeverDecreases | src/java/brownshome/apss/OrbitalSimulation.java:98-102 | with a true square root and a non-negative `dIdl`, the current never decreases along the loop, and the running sum never decreases once the current is non-negative |
| ShootingMethod.BisectWidth | src/java/brownshome/apss/OrbitalSimulation.java:125-140 | the loop runs between once and 1000 times, and the final width is the initial width over `2^(iterations)`, as each pass replaces one end by the midpoint |
| ShootingMethod.BisectStops | src/java/brownshome/apss/OrbitalSimulation.java:140 | the loop stops only once the width is within `1e-7` or the count reaches 1000 |
| ShootingMethod.BisectOrder | src/java/brownshome/apss/OrbitalSimulation.java:125-140 | a bracket in order stays in order and inside the initial one |
| ShootingMethod.BisectBracket | src/java/brownshome/apss/OrbitalSimulation.java:125-140 | the count, width, stopping and ordering facts together |
| ShootingMethod.BisectLoop | src/java/brownshome/apss/OrbitalSimulation.java:125-140 | the do-while loop computes `Bisect` from a count of zero, with 10 segments per probe, or 100 once the width is below 10 |
| ShootingMethod.LorentzForce | src/java/brownshome/apss/OrbitalSimulation.java:62-148 | `lorentzForce` computes the specified force and leaves the specified `current` |
| ShootingMethod.EarlyExits | src/java/brownshome/apss/OrbitalSimulation.java:69-70 | a negative EMF gradient exits without a search; either early exit gives zero force and zero current |
| ShootingMethod.NegativeGradientIgnoresCable | src/java/brownshome/apss/OrbitalSimulation.java:62-78 | at a negative gradient the input is defined whatever the diameter and conductivity, and gives zero force and zero current |
| ShootingMethod.LorentzBracket | src/java/brownshome/apss/OrbitalSimulation.java:110-140 | with a true square root, the final bracket lies inside `[-1000, target + 1000]`, and is within the tolerance unless the cap of 1000 was hit |
| ShootingMethod.BracketFromTarget | src/java/brownshome/apss/OrbitalSimulation.java:110-112 | the same bracket facts, from a non-negative target alone |
| ShootingMethod.TargetNonNegative | src/java/brownshome/apss/OrbitalSimulation.java:110 | with a true square root and a non-negative gradient, the target `gradient * length` is non-negative |
| ShootingMethod.ForcePerpendicularToField | src/java/brownshome/apss/OrbitalSimulation.java:147 | the Lorentz force is perpendicular to the magnetic field |
| Orbital.InputAt | src/java/brownshome/apss/OrbitalSimulation.java:50-53 | the inputs of `lorentzForce` are the field, density and velocity at the position; they are undefined exactly when the cable rule is |
| Orbital.NewStateSpec | src/java/brownshome/apss/OrbitalSimulation.java:46-56 | defined exactly when the cable rule applies, the cable vector's length and the mass are nonzero, and, if the search runs, the diameter and conductivity are nonzero; then it keeps position, velocity and time, takes field, density and gravity from the environment, the force and current from the shooting method, and sets the acceleration to `gravity + (force + drag) / mass` |
| Orbital.NewState | src/java/brownshome/apss/OrbitalSimulation.java:46-56 | the constructor builds `NewStateSpec` |
| Orbital.StateDerivative | src/java/brownshome/apss/OrbitalSimulation.java:23-26 | the derivative of a state is its velocity and its acceleration |
| Orbital.ScaleAddState | src/java/brownshome/apss/OrbitalSimulation.java:160-162 | `scaleAdd` builds the state at the advanced position and velocity, stamped with the current time |
| Orbital.StepState | src/java/brownshome/apss/OrbitalSimulation.java:212-222 | the RK4 state update computes `StepSpec`: stages at `nanos / 2`, `nanos / 2` and `nanos` |
| Orbital.AccelerationIsGravityPlusForce | src/java/brownshome/apss/OrbitalSimulation.java:55 | the acceleration is gravity plus the Lorentz force over the mass; drag adds nothing |
| Orbital.AccelerationAlongFieldIsGravity | src/java/brownshome/apss/OrbitalSimulation.java:55 | along the magnetic field the satellite accelerates exactly as gravity pulls it |
| Orbital.FieldComponentOfAcceleration | src/java/brownshome/apss/OrbitalSimulation.java:156-158 | a force perpendicular to the field, plus the zero drag, adds nothing along the field |
| Orbital.EarlyExitIsFreeFall | src/java/brownshome/apss/OrbitalSimulation.java:118-123 | after an early exit the state has no force and no current, and accelerates with gravity alone |
| Orbital.NegativeGradientBuildsFreeFall | src/java/brownshome/apss/OrbitalSimulation.java:46-70 | at a negative gradient, with a nonzero mass and cable length, the state is built whatever the diameter and conductivity, and falls freely |
| Orbital.StepTime | src/java/brownshome/apss/OrbitalSimulation.java:161 | the state a step builds carries the time before the clock advances |
| Orbital.ZeroStepKeepsPlace | src/java/brownshome/apss/OrbitalSimulation.java:212-222 | a zero-length step rebuilds the state at the same position and velocity |
| Orbital.RunFromTime | src/java/brownshome/apss/OrbitalSimulation.java:202-223 | after a run of steps the state carries the start time of its last step |
| Orbital.UndefinedStaysUndefined | src/java/brownshome/apss/OrbitalSimulation.java:212-222 | once undefined, the state stays undefined through any run |
| Orbital.RunFromCons | src/java/brownshome/apss/OrbitalSimulation.java:203-205 | the first step of a run is taken first |
| Orbital.RunFromSingle | src/java/brownshome/apss/OrbitalSimulation.java:208 | a run of one step is that step |
| Orbital.OrbitalSimulation.constructor | src/java/brownshome/apss/OrbitalSimulation.java:171-177 | clock at 0, the given time step, and the state built from the starting orbit with time equal to the time step |
| Orbital.OrbitalSimulation.SetTimeStep | src/java/brownshome/apss/OrbitalSimulation.java:187-189 | only the time step changes |
| Orbital.OrbitalSimulation.StepImpl | src/java/brownshome/apss/OrbitalSimulation.java:212-224 | the state becomes one RK4 step of the old state, and the clock advances by exactly `nanos` |
| Orbital.OrbitalSimulation.Step | src/java/brownshome/apss/OrbitalSimulation.java:194-196 | one step of the time step; the clock advances by exactly that |
| Orbital.OrbitalSimulation.StepFor | src/java/brownshome/apss/OrbitalSimulation.java:202-209 | the state becomes the run of `SubSteps(nanos, timeStep)` and the clock advances by exactly `nanos` |
| LegacyOrbital.LorentzForce | src/brownshome/apss/OrbitalSimulation.java:58-60 | the Lorentz force of the earlier revision is the zero vector |
| LegacyOrbital.NewState | src/brownshome/apss/OrbitalSimulation.java:45-52 | defined exactly for a nonzero mass; keeps position and velocity, takes field, density and gravity from the environment; the acceleration equals gravity |
| LegacyOrbital.StateDerivative | src/brownshome/apss/OrbitalSimulation.java:26-29 | the derivative of a state is its velocity and its acceleration |
| LegacyOrbital.StepDefinedIffMass | src/brownshome/apss/OrbitalSimulation.java:114-124 | a step of a defined state is defined exactly for a nonzero mass, and its state is in free fall |
| LegacyOrbital.RunKeepsFreeFall | src/brownshome/apss/OrbitalSimulation.java:104-111 | every state of a run accelerates exactly with gravity, and with a nonzero mass no state becomes undefined |
| LegacyOrbital.ZeroMassUndefined | src/brownshome/apss/OrbitalSimulation.java:51 | with a zero mass every run of at least one step ends undefined |
| LegacyOrbital.ZeroStepKeepsPlace | src/brownshome/apss/OrbitalSimulation.java:114-124 | a zero-length step keeps the position and the velocity |
| LegacyOrbital.RunFromCons | src/brownshome/apss/OrbitalSimulation.java:105-107 | the first step of a run is taken first |
| LegacyOrbital.RunFromSingle | src/brownshome/apss/OrbitalSimulation.java:110 | a run of one step is that step |
| LegacyOrbital.OrbitalSimulation.constructor | src/brownshome/apss/OrbitalSimulation.java:73-79 | clock at 0, the given time step, the state built from the starting orbit, in free fall |
| LegacyOrbital.OrbitalSimulation.SetTimeStep | src/brownshome/apss/OrbitalSimulation.java:89-91 | only the time step changes |
| LegacyOrbital.OrbitalSimulation.StepImpl | src/brownshome/apss/OrbitalSimulation.java:114-126 | the state becomes one RK4 step of the old state, and the clock advances by exactly `nanos` |
| LegacyOrbital.OrbitalSimulation.Step | src/brownshome/apss/OrbitalSimulation.java:96-98 | one step of the time step; the clock advances by exactly one time step |
| LegacyOrbital.OrbitalSimulation.StepFor | src/brownshome/apss/OrbitalSimulation.java:104-111 | the state becomes the run of `SubSteps(nanos, timeStep)` and the clock advances by exactly `nanos` |
| LorentzCalculation.Dl | src/java/brownshome/apss/LorentzForceCalculation.java:96 | the 99 segments between the 100 samples span the cable |
| LorentzCalculation.NextVoltage | src/java/brownshome/apss/LorentzForceCalculation.java:111 | the voltage moves by the EMF over a segment plus the resistive drop of the current so far |
| LorentzCalculation.GuessStep | src/java/brownshome/apss/LorentzForceCalculation.java:103-115 | one sample updates the voltage with the current from before the sample; the current changes only when that new voltage is positive |
| LorentzCalculation.GuessUpToStep | src/java/brownshome/apss/LorentzForceCalculation.java:94-115 | the loop starts from zero current at the starting voltage, and each pass is one `GuessStep` |
| LorentzCalculation.SamplesSpanCable | src/java/brownshome/apss/LorentzForceCalculation.java:96-103 | the samples are `dl` apart, from the free end (0) to the satellite end (`length`) inclusive |
| LorentzCalculation.GradientIsUniform | src/java/brownshome/apss/LorentzForceCalculation.java:105-108 | on the straight cable every sample sees the same EMF per metre |
| LorentzCalculation.DIdlNonNegative | src/java/brownshome/apss/LorentzForceCalculation.java:27 | with a true square root and non-negative density and diameter, `dIdlConstant` is non-negative |
| LorentzCalculation.CurrentStep | src/java/brownshome/apss/LorentzForceCalculation.java:113-115 | no sample lowers the current |
| LorentzCalculation.CurrentNeverDecreases | src/java/brownshome/apss/LorentzForceCalculation.java:94-115 | the current starts at 0 and never decreases from one sample to a later one |
| LorentzCalculation.NoCurrentWithoutPositiveVoltage | src/java/brownshome/apss/LorentzForceCalculation.java:113-115 | if the voltage is never positive after a sample, the current stays 0 |
| LorentzCalculation.Doubled | src/java/brownshome/apss/LorentzForceCalculation.java:50 | doubling moves a positive end up and a negative end down |
| LorentzCalculation.DoubledAgain | src/java/brownshome/apss/LorentzForceCalculation.java:50 | no doubling leaves the start value; one more doubling multiplies by two |
| LorentzCalculation.FirstExitUnfold | src/java/brownshome/apss/LorentzForceCalculation.java:49-53 | the doubling loop goes on exactly while the test passes, and gives up past the fuel |
| LorentzCalculation.FirstExitIsFirst | src/java/brownshome/apss/LorentzForceCalculation.java:49-53 | the loop stops at the first doubling that fails the test, every earlier one passed it, and running out of fuel means every doubling passed |
| LorentzCalculation.StartBracketEnds | src/java/brownshome/apss/LorentzForceCalculation.java:45-63 | upward, low is 0 and high is `10 * 2^k` with `k >= 1`, failing the test; downward, high is 0 and low is `-10 * 2^k`, and both ends fail the test |
| LorentzCalculation.Halve | src/java/brownshome/apss/LorentzForceCalculation.java:66-75 | each bisection step replaces one end by the midpoint and halves the width |
| LorentzCalculation.BisectInvariant | src/java/brownshome/apss/LorentzForceCalculation.java:65-76 | after `n` steps the bracket is in order, inside the first, `2^n` times narrower, and keeps a passing low end passing and a failing high end failing |
| LorentzCalculation.HalveOfQuotient | src/java/brownshome/apss/LorentzForceCalculation.java:66 | halving a width over `2^n` gives the width over `2^(n+1)` |
| LorentzCalculation.LastGuessIsAnEnd | src/java/brownshome/apss/LorentzForceCalculation.java:65-76 | the last midpoint is an end of the final bracket |
| LorentzCalculation.LorentzForceCalculation.constructor | src/java/brownshome/apss/LorentzForceCalculation.java:20-32 | stores the state, emitter and cable, computes Eq (3) and Eq (4), and has no results yet |
| LorentzCalculation.LorentzForceCalculation.GuessVoltage | src/java/brownshome/apss/LorentzForceCalculation.java:92-123 | a fresh array of exactly 100 forces, entry `i` the force at sample `i` for the current after that sample, and the working variables set to the reading at the satellite end |
| LorentzCalculation.LorentzForceCalculation.TestIsBelow | src/java/brownshome/apss/LorentzForceCalculation.java:43-45 | after a guess, the test `solve` makes on the working variables is the test of that guess |
| LorentzCalculation.LorentzForceCalculation.Double | src/java/brownshome/apss/LorentzForceCalculation.java:49-53 | the number of doublings is the first that fails the test, with the guess of that doubling left in place |
| LorentzCalculation.LorentzForceCalculation.Solve | src/java/brownshome/apss/LorentzForceCalculation.java:34-79 | finishes exactly when the bracket search does; then the array and the working variables come from the last midpoint guess of the 250 steps, and the emitter result is `calculateFinalResult(satCurrent, -satVoltage)` |

## Left out

- The user interface (`Display.java`, both revisions), the command-line driver and CSV output (`APSSSimulator.java`), and `main`: rendering and I/O.
- The native environment models: the magnetic field, gravity and plasma density behind `UnderlyingModels.java`, its JNI and C/C++ glue, and the Python plasma process. They are the parameter `Environment`. Only the constants `e` and `me` are kept.
- `ExternalInterlink.java`, `PythonInterlink.java`, `PythonSimulatedCable.java`, `GridCell.java` and `LorentzForceCalculator.java`: process pipes, a native-sample cache, getters that return null, and a fragment that does not compile.
- `OrbitCharacteristics.java`'s conversion from Keplerian elements, which is trigonometry. Only the orbit's position and velocity are kept.
- `Vec3.angleBetween`, `rotateX`, `rotateY`, `rotateAbout` and `toString`: trigonometry and formatting.
- `step(Duration)` and the getters: a unit conversion and plain field reads.
- IEEE rounding and NaN propagation beyond the `Option` and `ExtReal` cases above. The same goes for floating-point overflow of the doubling loops, and the exact value of `Double.MIN_NORMAL` beyond its being positive.
- `Math.sqrt` is a parameter. Properties that need a true root assume `IsSqrt` of it.
- Vectors.LengthSquaredNonNegative: proves that the zero vector has squared length zero, but not the converse. Dafny's nonlinear arithmetic cannot tie `a*a > 0` back to `a != 0` once the product comes from a definition.
- The 64-bit wrap-around of `currentTime` and of `nanos`: the clocks are unbounded integers.
- The "Failed to converge" message printed when the newer bisection reaches its cap.
- Orbital.OrbitalSimulation.StepFor and LegacyOrbital.OrbitalSimulation.StepFor: require a positive time step or at most one step. Otherwise the Java loop never ends.
- LorentzCalculation.LorentzForceCalculation.Solve: takes a `fuel` bound on each doubling loop and reports `false` when it runs out. The Java loops need not end.
- LorentzCalculation.LorentzForceCalculation.Double: is bounded by the same `fuel`.
- ShootingMethod.LorentzForce: requires a nonzero diameter and conductivity when the search runs (a non-negative gradient). There Java's resistivity is infinite and each probe's voltage turns NaN after its first sample. Java reaches zero force and zero current only through comparisons with NaN, which drive the bracket down to -1000. The model leaves that state `None` instead (`Orbital.NewStateSpec`).
- LorentzCalculation.LorentzForceCalculation.constructor: requires a nonzero cable length, diameter and conductivity. Java divides by diameter and conductivity (Eq (4)) and later by `dl`, which would produce infinities and NaN.
- LorentzCalculation.LorentzForceCalculation.GuessVoltage: requires a nonzero cable length, because Java's `current / dl` would otherwise be NaN or infinite.
- The physical convergence of either shooting method to the emitter's boundary condition. The code promises only the bracket invariants proved here.
