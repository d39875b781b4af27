/**
 * The newer revision of the orbital simulator: the state of the satellite
 * at one instant (built from the environment, the cable rule and the
 * Lorentz force on the tether), the RK4 step over it, and the simulator
 * object whose clock and state the steps advance.
 *
 * A state whose construction divides by zero (a cable vector of zero
 * length, or a zero mass) carries NaN components in Java; here it is
 * `None`, and every later step of an undefined state is undefined too. A
 * zero cable diameter or conductivity is never read when the gradient is
 * negative, and the state is built as in Java. When the search runs, Java
 * divides by zero for the resistivity and reaches zero force only through
 * comparisons with NaN; that state is `None` here as well.
 */
module Orbital {
  import opened Numerics
  import opened Vectors
  import opened UnderlyingModels
  import opened Cables
  import opened CableFunctions
  import opened Satellites
  import opened Integration
  import SM = ShootingMethod

  /** What the simulator is built over: the satellite, the environment models and `Math.sqrt`. */
  datatype Config = Config(satellite: Satellite, env: Environment, sqrt: SqrtFn)

  /** The state of the satellite at one instant, with the quantities derived from its position. */
  datatype State = State(
    position: Vec3,
    velocity: Vec3,
    magneticField: Vec3,
    acceleration: Vec3,
    gravity: Vec3,
    cableVector: Vec3,
    lorentzForce: Vec3,
    plasmaDensity: real,
    current: real,
    time: int)

  /** `dragForce`: no drag is modelled by the source either. */
  function DragForce(): Vec3
  {
    Zero()
  }

  /**
   * What `lorentzForce` reads, once the environment has been queried at the
   * position and the cable rule applied; undefined when the cable rule is.
   */
  function InputAt(cfg: Config, position: Vec3, velocity: Vec3): (r: Option<SM.LorentzInput>)
    ensures r.Some? ==> r.value.magneticField == cfg.env.magneticField(position)
    ensures r.Some? ==> r.value.plasmaDensity == cfg.env.plasmaDensity(position)
    ensures r.Some? ==> r.value.velocity == velocity && r.value.satellite == cfg.satellite
    ensures r.None? <==> Apply(cfg.satellite.cableVector, velocity, cfg.env.magneticField(position),
                               cfg.env.gravity(position), cfg.sqrt).None?
  {
    var b := cfg.env.magneticField(position);
    var n := cfg.env.plasmaDensity(position);
    var g := cfg.env.gravity(position);
    match Apply(cfg.satellite.cableVector, velocity, b, g, cfg.sqrt)
    case None => None
    case Some(cv) => Some(SM.LorentzInput(velocity, b, n, cv, cfg.satellite, cfg.sqrt))
  }

  /** The state constructor is defined exactly when none of its divisions is by zero. */
  predicate Buildable(cfg: Config, position: Vec3, velocity: Vec3)
  {
    InputAt(cfg, position, velocity).Some? && SM.Defined(InputAt(cfg, position, velocity).value)
    && cfg.satellite.mass != 0.0
  }

  /**
   * `new State(position, velocity, time)`: field, density and gravity from
   * the environment, the cable vector from the satellite's cable rule, the
   * Lorentz force and current from the shooting method, and the
   * acceleration `gravity + (lorentzForce + dragForce) / mass`.
   */
  function NewStateSpec(cfg: Config, position: Vec3, velocity: Vec3, time: int): (r: Option<State>)
    ensures r.Some? <==> Buildable(cfg, position, velocity)
    ensures r.Some? ==> r.value.position == position && r.value.velocity == velocity && r.value.time == time
    ensures r.Some? ==> r.value.gravity == cfg.env.gravity(position)
    ensures r.Some? ==> r.value.magneticField == cfg.env.magneticField(position)
    ensures r.Some? ==> r.value.plasmaDensity == cfg.env.plasmaDensity(position)
    ensures r.Some? ==> r.value.lorentzForce == SM.LorentzForceSpec(InputAt(cfg, position, velocity).value)
    ensures r.Some? ==> r.value.current == SM.LorentzCurrentSpec(InputAt(cfg, position, velocity).value)
    ensures r.Some? ==>
              r.value.acceleration == ScaleAdd(r.value.gravity, Add(r.value.lorentzForce, DragForce()), 1.0 / cfg.satellite.mass)
  {
    if !Buildable(cfg, position, velocity) then None
    else
      var p := InputAt(cfg, position, velocity).value;
      var force := SM.LorentzForceSpec(p);
      var g := cfg.env.gravity(position);
      Some(State(position, velocity, p.magneticField, ScaleAdd(g, Add(force, DragForce()), 1.0 / cfg.satellite.mass),
                 g, p.cableVector, force, p.plasmaDensity, SM.LorentzCurrentSpec(p), time))
  }

  /** The state constructor, running the shooting method; it builds `NewStateSpec`. */
  method NewState(cfg: Config, position: Vec3, velocity: Vec3, time: int) returns (r: Option<State>)
    ensures r == NewStateSpec(cfg, position, velocity, time)
  {
    var b := cfg.env.magneticField(position);
    var n := cfg.env.plasmaDensity(position);
    var g := cfg.env.gravity(position);
    var cv := Apply(cfg.satellite.cableVector, velocity, b, g, cfg.sqrt);
    if cv.None? {
      return None;
    }
    var p := SM.LorentzInput(velocity, b, n, cv.value, cfg.satellite, cfg.sqrt);
    assert InputAt(cfg, position, velocity) == Some(p);
    if !SM.Defined(p) || cfg.satellite.mass == 0.0 {
      return None;
    }
    var force, current := SM.LorentzForce(p);
    var acceleration := ScaleAdd(g, Add(force, DragForce()), 1.0 / cfg.satellite.mass);
    r := Some(State(position, velocity, b, acceleration, g, cv.value, force, n, current, time));
  }

  /** `new Derivative(state)`: position changes with the velocity, velocity with the acceleration. */
  function StateDerivative(s: State): (d: Derivative)
    ensures d.dp == s.velocity && d.dv == s.acceleration
  {
    Derivative(s.velocity, s.acceleration)
  }

  /**
   * `State.scaleAdd(dSdt, nanos)`: a new state at the position and velocity
   * advanced by `nanos` nanoseconds along `dSdt`, stamped with the
   * simulator's current time.
   */
  function ScaleAddSpec(cfg: Config, s: State, d: Derivative, nanos: int, currentTime: int): Option<State>
  {
    NewStateSpec(cfg, ScaleAdd(s.position, d.dp, Seconds(nanos)), ScaleAdd(s.velocity, d.dv, Seconds(nanos)), currentTime)
  }

  /**
   * `stepImpl(nanos)` on a defined state: stages at `nanos / 2` (Java's
   * truncating division), `nanos / 2` and `nanos`, combined with the RK4
   * weights; any undefined stage leaves the step undefined.
   */
  function StepSpec(cfg: Config, s: State, nanos: int, currentTime: int): Option<State>
  {
    var a := StateDerivative(s);
    match ScaleAddSpec(cfg, s, a, Half(nanos), currentTime)
    case None => None
    case Some(sb) =>
      var b := StateDerivative(sb);
      match ScaleAddSpec(cfg, s, b, Half(nanos), currentTime)
      case None => None
      case Some(sc) =>
        var c := StateDerivative(sc);
        match ScaleAddSpec(cfg, s, c, nanos, currentTime)
        case None => None
        case Some(sd) => ScaleAddSpec(cfg, s, Combine(a, b, c, StateDerivative(sd)), nanos, currentTime)
  }

  /** `State.scaleAdd`, building the new state with the shooting method. */
  method ScaleAddState(cfg: Config, s: State, d: Derivative, nanos: int, currentTime: int) returns (r: Option<State>)
    ensures r == ScaleAddSpec(cfg, s, d, nanos, currentTime)
  {
    r := NewState(cfg, ScaleAdd(s.position, d.dp, Seconds(nanos)), ScaleAdd(s.velocity, d.dv, Seconds(nanos)), currentTime);
  }

  /** The RK4 stages of `stepImpl` on a defined state, proved to compute `StepSpec`. */
  method StepState(cfg: Config, s: State, nanos: int, currentTime: int) returns (r: Option<State>)
    ensures r == StepSpec(cfg, s, nanos, currentTime)
  {
    var a := StateDerivative(s);
    var sb := ScaleAddState(cfg, s, a, Half(nanos), currentTime);
    if sb.None? {
      return None;
    }
    var b := StateDerivative(sb.value);
    var sc := ScaleAddState(cfg, s, b, Half(nanos), currentTime);
    if sc.None? {
      return None;
    }
    var c := StateDerivative(sc.value);
    var sd := ScaleAddState(cfg, s, c, nanos, currentTime);
    if sd.None? {
      return None;
    }
    var dSdt := Combine(a, b, c, StateDerivative(sd.value));
    r := ScaleAddState(cfg, s, dSdt, nanos, currentTime);
  }

  /** A step of a possibly undefined state: an undefined state stays undefined. */
  function StepOpt(cfg: Config, s: Option<State>, nanos: int, currentTime: int): Option<State>
  {
    match s
    case None => None
    case Some(st) => StepSpec(cfg, st, nanos, currentTime)
  }

  /**
   * The state after steps of the given durations from `state` at
   * `currentTime`, each step starting at the time the previous ones reached.
   */
  function RunFrom(cfg: Config, state: Option<State>, currentTime: int, steps: seq<int>): Option<State>
    decreases |steps|
  {
    if |steps| == 0 then state
    else RunFrom(cfg, StepOpt(cfg, state, steps[0], currentTime), currentTime + steps[0], steps[1..])
  }

  // ---------------------------------------------------------------------
  // Properties of a single state and of a single step.

  /**
   * The acceleration of a state is its gravity plus the Lorentz force over
   * the mass: the drag contributes nothing.
   */
  lemma {:induction false} AccelerationIsGravityPlusForce(cfg: Config, position: Vec3, velocity: Vec3, time: int)
    requires NewStateSpec(cfg, position, velocity, time).Some?
    ensures var s := NewStateSpec(cfg, position, velocity, time).value;
      s.acceleration == Add(s.gravity, Scale(s.lorentzForce, 1.0 / cfg.satellite.mass))
  {
    var s := NewStateSpec(cfg, position, velocity, time).value;
    ZeroIsAddIdentity(s.lorentzForce);
  }

  /**
   * The Lorentz force is perpendicular to the magnetic field, so along the
   * field the satellite accelerates exactly as gravity pulls it.
   */
  lemma {:induction false} AccelerationAlongFieldIsGravity(cfg: Config, position: Vec3, velocity: Vec3, time: int)
    requires NewStateSpec(cfg, position, velocity, time).Some?
    ensures var s := NewStateSpec(cfg, position, velocity, time).value;
      Dot(s.magneticField, s.acceleration) == Dot(s.magneticField, s.gravity)
      && Dot(s.magneticField, s.lorentzForce) == 0.0
  {
    var s := NewStateSpec(cfg, position, velocity, time).value;
    var p := InputAt(cfg, position, velocity).value;
    SM.ForcePerpendicularToField(p);
    assert Dot(s.magneticField, s.lorentzForce) == 0.0;
    FieldComponentOfAcceleration(s.magneticField, s.gravity, s.lorentzForce, 1.0 / cfg.satellite.mass);
  }

  /** A force perpendicular to `b` adds nothing to the component along `b`. */
  lemma FieldComponentOfAcceleration(b: Vec3, g: Vec3, f: Vec3, k: real)
    requires Dot(b, f) == 0.0
    ensures Dot(b, ScaleAdd(g, Add(f, DragForce()), k)) == Dot(b, g)
  {
    ZeroIsAddIdentity(f);
    DotScale(f, b, k);
    assert Dot(b, Add(g, Scale(f, k))) == Dot(b, g) + Dot(b, Scale(f, k));
  }

  /**
   * When the shooting method exits early (negative EMF gradient, or a first
   * probe already above the target) the state has no Lorentz force, no
   * current, and accelerates with gravity alone.
   */
  lemma {:induction false} EarlyExitIsFreeFall(cfg: Config, position: Vec3, velocity: Vec3, time: int)
    requires NewStateSpec(cfg, position, velocity, time).Some?
    requires !SM.LorentzSearch(InputAt(cfg, position, velocity).value).Bisected?
    ensures var s := NewStateSpec(cfg, position, velocity, time).value;
      s.lorentzForce == Zero() && s.current == 0.0 && s.acceleration == s.gravity
  {
    var s := NewStateSpec(cfg, position, velocity, time).value;
    var p := InputAt(cfg, position, velocity).value;
    SM.EarlyExits(p);
    AccelerationIsGravityPlusForce(cfg, position, velocity, time);
    assert Scale(Zero(), 1.0 / cfg.satellite.mass) == Zero();
    ZeroIsAddIdentity(s.gravity);
  }

  /**
   * At a negative gradient the state is built whatever the cable's diameter
   * and conductivity, zero included, and the satellite falls freely.
   */
  lemma NegativeGradientBuildsFreeFall(cfg: Config, position: Vec3, velocity: Vec3, time: int)
    requires InputAt(cfg, position, velocity).Some? && cfg.satellite.mass != 0.0
    requires var p := InputAt(cfg, position, velocity).value;
      Length(p.cableVector, p.sqrt) != 0.0 && SM.VoltageGradient(p) < 0.0
    ensures NewStateSpec(cfg, position, velocity, time).Some?
    ensures var s := NewStateSpec(cfg, position, velocity, time).value;
      s.lorentzForce == Zero() && s.current == 0.0 && s.acceleration == s.gravity
  {
    SM.NegativeGradientIgnoresCable(InputAt(cfg, position, velocity).value);
    EarlyExitIsFreeFall(cfg, position, velocity, time);
  }

  /** Every state a step produces is stamped with the time the step started at. */
  lemma StepTime(cfg: Config, s: State, nanos: int, currentTime: int)
    requires StepSpec(cfg, s, nanos, currentTime).Some?
    ensures StepSpec(cfg, s, nanos, currentTime).value.time == currentTime
  {
  }

  /**
   * A zero-length step still runs all four stages and rebuilds the state,
   * but at the same position and velocity.
   */
  lemma {:induction false} ZeroStepKeepsPlace(cfg: Config, s: State, currentTime: int)
    requires StepSpec(cfg, s, 0, currentTime).Some?
    ensures var s' := StepSpec(cfg, s, 0, currentTime).value;
      s'.position == s.position && s'.velocity == s.velocity && s'.time == currentTime
  {
    assert Seconds(0) == 0.0;
    assert Half(0) == 0;
    forall d: Derivative
      ensures ScaleAdd(s.position, d.dp, 0.0) == s.position && ScaleAdd(s.velocity, d.dv, 0.0) == s.velocity
    {
    }
  }

  /** After at least one step, the state carries the time its last step started at. */
  lemma {:induction false} RunFromTime(cfg: Config, state: Option<State>, currentTime: int, steps: seq<int>)
    requires |steps| > 0 && RunFrom(cfg, state, currentTime, steps).Some?
    ensures RunFrom(cfg, state, currentTime, steps).value.time == currentTime + Sum(steps[..|steps| - 1])
    decreases |steps|
  {
    // The time a step sets is all that matters here; StepTime states it.
    hide StepSpec;
    var next := StepOpt(cfg, state, steps[0], currentTime);
    if |steps| == 1 {
      assert next.Some?;
      StepTime(cfg, state.value, steps[0], currentTime);
      assert steps[..0] == [];
    } else {
      RunFromTime(cfg, next, currentTime + steps[0], steps[1..]);
      assert steps[..|steps| - 1] == [steps[0]] + steps[1..][..|steps| - 2];
      SumAppend([steps[0]], steps[1..][..|steps| - 2]);
      assert Sum([steps[0]]) == steps[0];
    }
  }

  /** Once undefined, the state stays undefined whatever is stepped. */
  lemma {:induction false} UndefinedStaysUndefined(cfg: Config, currentTime: int, steps: seq<int>)
    ensures RunFrom(cfg, None, currentTime, steps) == None
    decreases |steps|
  {
    if |steps| > 0 {
      UndefinedStaysUndefined(cfg, currentTime + steps[0], steps[1..]);
    }
  }

  /** The first of a list of steps is taken first. */
  lemma RunFromCons(cfg: Config, state: Option<State>, currentTime: int, n: int, rest: seq<int>)
    ensures RunFrom(cfg, state, currentTime, [n] + rest)
         == RunFrom(cfg, StepOpt(cfg, state, n, currentTime), currentTime + n, rest)
  {
    assert ([n] + rest)[1..] == rest;
  }

  /** A run of one step is that step. */
  lemma RunFromSingle(cfg: Config, state: Option<State>, currentTime: int, n: int)
    ensures RunFrom(cfg, state, currentTime, [n]) == StepOpt(cfg, state, n, currentTime)
  {
    assert [n][1..] == [];
  }

  // ---------------------------------------------------------------------
  // The simulator object.

  /** `OrbitalSimulation`: a clock in whole nanoseconds, the time step and the current state. */
  class OrbitalSimulation {
    const config: Config
    var timeStep: int
    var currentTime: int
    var state: Option<State>

    /** The clock starts at zero; the first state is stamped with the time step. */
    constructor(startingOrbit: OrbitCharacteristics, satellite: Satellite, env: Environment, sqrt: SqrtFn, timeStep: int)
      ensures config == Config(satellite, env, sqrt)
      ensures this.timeStep == timeStep && currentTime == 0
      ensures state == NewStateSpec(config, startingOrbit.position, startingOrbit.velocity, timeStep)
    {
      config := Config(satellite, env, sqrt);
      this.timeStep := timeStep;
      currentTime := 0;
      var s := NewState(Config(satellite, env, sqrt), startingOrbit.position, startingOrbit.velocity, timeStep);
      state := s;
    }

    /** `setTimeStep`: only the time step changes. */
    method SetTimeStep(timeStep: int)
      modifies this
      ensures this.timeStep == timeStep
      ensures currentTime == old(currentTime) && state == old(state)
    {
      this.timeStep := timeStep;
    }

    /** `stepImpl(nanos)`: one RK4 step of `nanos`, then the clock advances by `nanos`. */
    method StepImpl(nanos: int)
      modifies this
      ensures state == StepOpt(config, old(state), nanos, old(currentTime))
      ensures currentTime == old(currentTime) + nanos
      ensures timeStep == old(timeStep)
    {
      var next: Option<State> := None;
      if state.Some? {
        next := StepState(config, state.value, nanos, currentTime);
      }
      state := next;
      currentTime := currentTime + nanos;
    }

    /** `step()`: one step of the current time step. */
    method Step()
      modifies this
      ensures state == StepOpt(config, old(state), old(timeStep), old(currentTime))
      ensures currentTime == old(currentTime) + old(timeStep)
      ensures timeStep == old(timeStep)
    {
      StepImpl(timeStep);
    }

    /**
     * `step(nanos)`: full time steps while more than one remains, then the
     * rest, so the clock advances by exactly `nanos`. The loop would never
     * end with a non-positive time step and `nanos` above it.
     */
    method StepFor(nanos: int)
      requires timeStep > 0 || nanos <= timeStep
      modifies this
      ensures state == RunFrom(config, old(state), old(currentTime), SubSteps(nanos, old(timeStep)))
      ensures currentTime == old(currentTime) + nanos
      ensures timeStep == old(timeStep)
    {
      // The loop needs only the contracts of the step and of the run, not
      // their definitions.
      hide *;
      var remaining := nanos;
      ghost var goal := RunFrom(config, state, currentTime, SubSteps(nanos, timeStep));
      while remaining > timeStep
        invariant timeStep == old(timeStep)
        invariant timeStep > 0 || remaining <= timeStep
        invariant currentTime + remaining == old(currentTime) + nanos
        invariant RunFrom(config, state, currentTime, SubSteps(remaining, timeStep)) == goal
        decreases remaining
      {
        SubStepsFirst(remaining, timeStep);
        RunFromCons(config, state, currentTime, timeStep, SubSteps(remaining - timeStep, timeStep));
        remaining := remaining - timeStep;
        StepImpl(timeStep);
      }
      assert SubSteps(remaining, timeStep) == [remaining];
      RunFromSingle(config, state, currentTime, remaining);
      StepImpl(remaining);
    }
  }
}
