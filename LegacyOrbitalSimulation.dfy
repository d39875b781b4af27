/**
 * The earlier revision of the orbital simulator. Its state holds the
 * position, the velocity and what the environment gives at that position;
 * the Lorentz force is a zero placeholder, so the satellite falls freely
 * under gravity. The RK4 step and the clock in whole nanoseconds are the
 * same as in the newer revision.
 *
 * With a zero mass Java divides by zero and the acceleration becomes NaN
 * (`0 * Infinity`); here that state is `None`.
 */
module LegacyOrbital {
  import opened Numerics
  import opened Vectors
  import opened UnderlyingModels
  import opened Cables
  import opened LegacySatellite
  import opened Integration

  /** What the simulator is built over: the satellite and the environment models. */
  datatype Config = Config(satellite: Satellite, env: Environment)

  /** The state of the satellite at one instant. */
  datatype State = State(
    position: Vec3,
    velocity: Vec3,
    magneticField: Vec3,
    acceleration: Vec3,
    gravity: Vec3,
    plasmaDensity: real)

  /** `State.lorentzForce`: a placeholder that is always the zero vector. */
  function LorentzForce(): (f: Vec3)
    ensures f == Zero()
  {
    Vec3(0.0, 0.0, 0.0)
  }

  /**
   * `new State(position, velocity)`: field, density and gravity from the
   * environment and the acceleration `gravity + lorentzForce / mass`, which
   * is gravity itself whenever the mass is nonzero.
   */
  function NewState(cfg: Config, position: Vec3, velocity: Vec3): (r: Option<State>)
    ensures r.Some? <==> cfg.satellite.mass != 0.0
    ensures r.Some? ==> r.value.position == position && r.value.velocity == velocity
    ensures r.Some? ==> r.value.magneticField == cfg.env.magneticField(position)
    ensures r.Some? ==> r.value.plasmaDensity == cfg.env.plasmaDensity(position)
    ensures r.Some? ==> r.value.gravity == cfg.env.gravity(position)
    ensures r.Some? ==> r.value.acceleration == r.value.gravity
  {
    if cfg.satellite.mass == 0.0 then None
    else
      var g := cfg.env.gravity(position);
      ZeroIsAddIdentity(g);
      Some(State(position, velocity, cfg.env.magneticField(position),
                 ScaleAdd(g, LorentzForce(), 1.0 / cfg.satellite.mass), g, cfg.env.plasmaDensity(position)))
  }

  /** `new Derivative(state)`: position changes with the velocity, velocity with the acceleration. */
  function StateDerivative(s: State): (d: Derivative)
    ensures d.dp == s.velocity && d.dv == s.acceleration
  {
    Derivative(s.velocity, s.acceleration)
  }

  /** `State.scaleAdd(dSdt, nanos)`: the state advanced by `nanos` nanoseconds along `dSdt`. */
  function ScaleAddSpec(cfg: Config, s: State, d: Derivative, nanos: int): Option<State>
  {
    NewState(cfg, ScaleAdd(s.position, d.dp, Seconds(nanos)), ScaleAdd(s.velocity, d.dv, Seconds(nanos)))
  }

  /**
   * `stepImpl(nanos)` on a defined state: stages at `nanos / 2` (Java's
   * truncating division), `nanos / 2` and `nanos`, combined with the RK4
   * weights.
   */
  function StepSpec(cfg: Config, s: State, nanos: int): Option<State>
  {
    var a := StateDerivative(s);
    match ScaleAddSpec(cfg, s, a, Half(nanos))
    case None => None
    case Some(sb) =>
      var b := StateDerivative(sb);
      match ScaleAddSpec(cfg, s, b, Half(nanos))
      case None => None
      case Some(sc) =>
        var c := StateDerivative(sc);
        match ScaleAddSpec(cfg, s, c, nanos)
        case None => None
        case Some(sd) => ScaleAddSpec(cfg, s, Combine(a, b, c, StateDerivative(sd)), nanos)
  }

  /** A step of a possibly undefined state: an undefined state stays undefined. */
  function StepOpt(cfg: Config, s: Option<State>, nanos: int): Option<State>
  {
    match s
    case None => None
    case Some(st) => StepSpec(cfg, st, nanos)
  }

  /** The state after steps of the given durations, taken in order. */
  function RunFrom(cfg: Config, state: Option<State>, steps: seq<int>): Option<State>
    decreases |steps|
  {
    if |steps| == 0 then state
    else RunFrom(cfg, StepOpt(cfg, state, steps[0]), steps[1..])
  }

  /** Every state satisfies this: defined states accelerate exactly as gravity pulls them. */
  predicate FreeFall(s: Option<State>)
  {
    s.Some? ==> s.value.acceleration == s.value.gravity
  }

  // ---------------------------------------------------------------------
  // Properties of a step and of a run.

  /**
   * A step of a defined state is defined exactly when the mass is nonzero,
   * and then its new state is again in free fall.
   */
  lemma {:induction false} StepDefinedIffMass(cfg: Config, s: State, nanos: int)
    ensures StepSpec(cfg, s, nanos).Some? <==> cfg.satellite.mass != 0.0
    ensures FreeFall(StepSpec(cfg, s, nanos))
  {
    var a := StateDerivative(s);
    if cfg.satellite.mass != 0.0 {
      var sb := ScaleAddSpec(cfg, s, a, Half(nanos)).value;
      var sc := ScaleAddSpec(cfg, s, StateDerivative(sb), Half(nanos)).value;
      var sd := ScaleAddSpec(cfg, s, StateDerivative(sc), nanos).value;
      assert StepSpec(cfg, s, nanos)
          == ScaleAddSpec(cfg, s, Combine(a, StateDerivative(sb), StateDerivative(sc), StateDerivative(sd)), nanos);
    } else {
      assert ScaleAddSpec(cfg, s, a, Half(nanos)).None?;
    }
  }

  /**
   * With a nonzero mass a defined state stays defined through any run of
   * steps; in every case the state a run ends in is in free fall as long as
   * the one it started from was.
   */
  lemma {:induction false} RunKeepsFreeFall(cfg: Config, state: Option<State>, steps: seq<int>)
    requires FreeFall(state)
    ensures FreeFall(RunFrom(cfg, state, steps))
    ensures cfg.satellite.mass != 0.0 && state.Some? ==> RunFrom(cfg, state, steps).Some?
    decreases |steps|
  {
    if |steps| > 0 {
      var next := StepOpt(cfg, state, steps[0]);
      if state.Some? {
        StepDefinedIffMass(cfg, state.value, steps[0]);
      }
      RunKeepsFreeFall(cfg, next, steps[1..]);
    }
  }

  /** With a zero mass every step of a defined state is undefined. */
  lemma {:induction false} ZeroMassUndefined(cfg: Config, state: Option<State>, steps: seq<int>)
    requires cfg.satellite.mass == 0.0 && |steps| > 0
    ensures RunFrom(cfg, state, steps) == None
    decreases |steps|
  {
    if state.Some? {
      StepDefinedIffMass(cfg, state.value, steps[0]);
    }
    if |steps| > 1 {
      ZeroMassUndefined(cfg, StepOpt(cfg, state, steps[0]), steps[1..]);
    } else {
      assert steps[1..] == [];
    }
  }

  /** A zero-length step rebuilds the state at the same position and velocity. */
  lemma {:induction false} ZeroStepKeepsPlace(cfg: Config, s: State)
    requires StepSpec(cfg, s, 0).Some?
    ensures StepSpec(cfg, s, 0).value.position == s.position
    ensures StepSpec(cfg, s, 0).value.velocity == s.velocity
  {
    assert Seconds(0) == 0.0;
    assert Half(0) == 0;
    forall d: Derivative
      ensures ScaleAdd(s.position, d.dp, 0.0) == s.position && ScaleAdd(s.velocity, d.dv, 0.0) == s.velocity
    {
    }
  }

  /** The first of a list of steps is taken first. */
  lemma RunFromCons(cfg: Config, state: Option<State>, n: int, rest: seq<int>)
    ensures RunFrom(cfg, state, [n] + rest) == RunFrom(cfg, StepOpt(cfg, state, n), rest)
  {
    assert ([n] + rest)[1..] == rest;
  }

  /** A run of one step is that step. */
  lemma RunFromSingle(cfg: Config, state: Option<State>, n: int)
    ensures RunFrom(cfg, state, [n]) == StepOpt(cfg, state, n)
  {
    assert [n][1..] == [];
  }

  // ---------------------------------------------------------------------
  // The simulator object.

  /** `OrbitalSimulation`: a clock in whole nanoseconds, the time step and the current state. */
  class OrbitalSimulation {
    const config: Config
    var timeStep: int
    var currentTime: int
    var state: Option<State>

    /** The clock starts at zero with the state built from the starting orbit. */
    constructor(startingOrbit: OrbitCharacteristics, satellite: Satellite, env: Environment, timeStep: int)
      ensures config == Config(satellite, env)
      ensures this.timeStep == timeStep && currentTime == 0
      ensures state == NewState(config, startingOrbit.position, startingOrbit.velocity)
      ensures FreeFall(state)
    {
      config := Config(satellite, env);
      this.timeStep := timeStep;
      currentTime := 0;
      state := NewState(Config(satellite, env), startingOrbit.position, startingOrbit.velocity);
    }

    /** `setTimeStep`: only the time step changes. */
    method SetTimeStep(timeStep: int)
      modifies this
      ensures this.timeStep == timeStep
      ensures currentTime == old(currentTime) && state == old(state)
    {
      this.timeStep := timeStep;
    }

    /** `stepImpl(nanos)`: one RK4 step of `nanos`, then the clock advances by `nanos`. */
    method StepImpl(nanos: int)
      modifies this
      ensures state == StepOpt(config, old(state), nanos)
      ensures currentTime == old(currentTime) + nanos
      ensures timeStep == old(timeStep)
    {
      var next: Option<State> := None;
      if state.Some? {
        var s := state.value;
        var a := StateDerivative(s);
        var sb := ScaleAddSpec(config, s, a, Half(nanos));
        if sb.Some? {
          var b := StateDerivative(sb.value);
          var sc := ScaleAddSpec(config, s, b, Half(nanos));
          if sc.Some? {
            var c := StateDerivative(sc.value);
            var sd := ScaleAddSpec(config, s, c, nanos);
            if sd.Some? {
              var dSdt := Combine(a, b, c, StateDerivative(sd.value));
              next := ScaleAddSpec(config, s, dSdt, nanos);
            }
          }
        }
      }
      state := next;
      currentTime := currentTime + nanos;
    }

    /** `step()`: one step of the current time step; the clock advances by exactly that step. */
    method Step()
      modifies this
      ensures state == StepOpt(config, old(state), old(timeStep))
      ensures currentTime == old(currentTime) + old(timeStep)
      ensures timeStep == old(timeStep)
    {
      StepImpl(timeStep);
    }

    /**
     * `step(nanos)`: full time steps while more than one remains, then the
     * rest, so the clock advances by exactly `nanos`. The loop would never
     * end with a non-positive time step and `nanos` above it.
     */
    method StepFor(nanos: int)
      requires timeStep > 0 || nanos <= timeStep
      modifies this
      ensures state == RunFrom(config, old(state), SubSteps(nanos, old(timeStep)))
      ensures currentTime == old(currentTime) + nanos
      ensures timeStep == old(timeStep)
    {
      // The loop needs only the contracts of the step and of the run, not
      // their definitions.
      hide *;
      var remaining := nanos;
      ghost var goal := RunFrom(config, state, SubSteps(nanos, timeStep));
      while remaining > timeStep
        invariant timeStep == old(timeStep)
        invariant timeStep > 0 || remaining <= timeStep
        invariant currentTime + remaining == old(currentTime) + nanos
        invariant RunFrom(config, state, SubSteps(remaining, timeStep)) == goal
        decreases remaining
      {
        SubStepsFirst(remaining, timeStep);
        RunFromCons(config, state, timeStep, SubSteps(remaining - timeStep, timeStep));
        remaining := remaining - timeStep;
        StepImpl(timeStep);
      }
      assert SubSteps(remaining, timeStep) == [remaining];
      RunFromSingle(config, state, remaining);
      StepImpl(remaining);
    }
  }
}
