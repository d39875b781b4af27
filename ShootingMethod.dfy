/**
 * The newer revision's Lorentz force on the tether (`State.lorentzForce`):
 * a shooting method that integrates current and voltage along the cable with
 * forward Euler steps (the local `Result` class) from a guessed starting
 * voltage, and bisects on that guess until the voltage at the emitter end
 * matches the EMF across the cable.
 */
module ShootingMethod {
  import opened Numerics
  import opened Vectors
  import opened Satellites
  import UnderlyingModels

  // ---------------------------------------------------------------------
  // The Euler loop of `Result`.

  /** The constants the Euler loop reads. */
  datatype Tether = Tether(gradient: real, dIdl: real, resistivity: real, cableLength: real, sqrt: SqrtFn)

  /** The loop's accumulators: current, voltage and the running sum of `current * dl`. */
  datatype Probe = Probe(current: real, voltage: real, currentLength: real)

  /** `dl = cableLength / iterations`: the segments together span the cable. */
  function SegmentLength(cableLength: real, iterations: int): (dl: real)
    requires iterations > 0
    ensures dl * iterations as real == cableLength
  {
    cableLength / iterations as real
  }

  /** The probe's voltage against the plasma at sample `i`, before the sample's voltage update. */
  function DeltaV(t: Tether, dl: real, voltage: real, i: int): real
  {
    voltage - dl * i as real * t.gradient
  }

  /**
   * One pass of the loop at sample `i`. `deltaV` is taken before the voltage
   * update, and the voltage update uses the current before this sample's
   * increment; the running sum uses the current after it.
   */
  function EulerSample(t: Tether, dl: real, current: real, voltage: real, currentLength: real, i: int): Probe
  {
    var deltaV := DeltaV(t, dl, voltage, i);
    var voltage' := voltage + current * t.resistivity * dl;
    var current' := if deltaV > 0.0 then current + t.sqrt(deltaV) * t.dIdl * dl else current;
    Probe(current', voltage', currentLength + current' * dl)
  }

  /** Samples `i` to `n - 1`, applied in order. */
  function EulerFrom(t: Tether, dl: real, acc: Probe, i: int, n: int): Probe
    decreases n - i
  {
    if i >= n then acc
    else EulerFrom(t, dl, EulerSample(t, dl, acc.current, acc.voltage, acc.currentLength, i), i + 1, n)
  }

  /** `new Result(startingVoltage, iterations)`: the loop from zero current. */
  function ProbeSpec(t: Tether, startingVoltage: real, iterations: int): Probe
    requires iterations > 0
  {
    EulerFrom(t, SegmentLength(t.cableLength, iterations), Probe(0.0, startingVoltage, 0.0), 0, iterations)
  }

  /** The body of the `Result` loop at sample `i`, proved to be `EulerSample`. */
  method Sample(t: Tether, dl: real, current0: real, voltage0: real, currentLength0: real, i: int)
    returns (current: real, voltage: real, currentLength: real)
    ensures Probe(current, voltage, currentLength) == EulerSample(t, dl, current0, voltage0, currentLength0, i)
  {
    current, voltage, currentLength := current0, voltage0, currentLength0;
    var deltaV := DeltaV(t, dl, voltage, i);
    voltage := voltage + current * t.resistivity * dl;
    if deltaV > 0.0 {
      current := current + t.sqrt(deltaV) * t.dIdl * dl;
    }
    currentLength := currentLength + current * dl;
  }

  /** The `Result` constructor: its for-loop, proved to compute `ProbeSpec`. */
  method RunProbe(t: Tether, startingVoltage: real, iterations: int) returns (r: Probe)
    requires iterations > 0
    ensures r == ProbeSpec(t, startingVoltage, iterations)
  {
    var current := 0.0;
    var voltage := startingVoltage;
    var currentLength := 0.0;
    var dl := t.cableLength / iterations as real;
    ghost var goal := EulerFrom(t, dl, Probe(current, voltage, currentLength), 0, iterations);
    assert goal == ProbeSpec(t, startingVoltage, iterations);
    var i := 0;
    while i < iterations
      invariant 0 <= i <= iterations
      invariant EulerFrom(t, dl, Probe(current, voltage, currentLength), i, iterations) == goal
    {
      current, voltage, currentLength := Sample(t, dl, current, voltage, currentLength, i);
      i := i + 1;
    }
    r := Probe(current, voltage, currentLength);
  }

  /**
   * A starting voltage of at most zero with a non-negative EMF gradient never
   * makes `deltaV` positive, so no current flows: current and current sum
   * stay where they were and the voltage never moves.
   */
  lemma {:induction false} NoCurrentWithoutPositiveDeltaV(t: Tether, dl: real, voltage: real, currentLength: real, i: int, n: int)
    requires voltage <= 0.0 && t.gradient >= 0.0 && dl >= 0.0 && i >= 0
    ensures EulerFrom(t, dl, Probe(0.0, voltage, currentLength), i, n) == Probe(0.0, voltage, currentLength)
    decreases n - i
  {
    if i < n {
      NonNegativeProduct3(dl, i as real, t.gradient);
      assert EulerSample(t, dl, 0.0, voltage, currentLength, i) == Probe(0.0, voltage, currentLength);
      NoCurrentWithoutPositiveDeltaV(t, dl, voltage, currentLength, i + 1, n);
    }
  }

  lemma NonNegativeProduct3(a: real, b: real, c: real)
    requires a >= 0.0 && b >= 0.0 && c >= 0.0
    ensures a * b * c >= 0.0
  {
    assert a * b >= 0.0;
  }

  /**
   * With a true square root and non-negative `dIdl` and `dl`, the current
   * only ever grows, and the current sum with it once the current is
   * non-negative.
   */
  lemma {:induction false} CurrentNeverDecreases(t: Tether, dl: real, acc: Probe, i: int, n: int)
    requires IsSqrt(t.sqrt) && t.dIdl >= 0.0 && dl >= 0.0
    ensures EulerFrom(t, dl, acc, i, n).current >= acc.current
    ensures acc.current >= 0.0 ==> EulerFrom(t, dl, acc, i, n).currentLength >= acc.currentLength
    decreases n - i
  {
    if i < n {
      var next := EulerSample(t, dl, acc.current, acc.voltage, acc.currentLength, i);
      var deltaV := DeltaV(t, dl, acc.voltage, i);
      if deltaV > 0.0 {
        NonNegativeProduct3(t.sqrt(deltaV), t.dIdl, dl);
      }
      assert next.current >= acc.current;
      if acc.current >= 0.0 {
        assert next.current * dl >= 0.0;
      }
      CurrentNeverDecreases(t, dl, next, i + 1, n);
    }
  }

  // ---------------------------------------------------------------------
  // The bisection on the starting voltage.

  const TOLERANCE: real := 0.0000001
  const MAX_ITERATIONS: int := 1000

  /** What the bisection compares: the tether, the satellite's bias and the EMF target. */
  datatype Search = Search(tether: Tether, bias: real, target: real)

  /** `emitterVoltageDrop`: a fixed estimate, `35 - bias`, whatever the end current. */
  function EmitterVoltageDrop(bias: real, endCurrent: real): real
  {
    35.0 - bias
  }

  /** The voltage the emitter end reaches after a probe. */
  function EndVoltage(s: Search, r: Probe): real
  {
    EmitterVoltageDrop(s.bias, r.current) + r.voltage
  }

  /** Ten segments per probe, a hundred once the bracket is narrower than 10. */
  function Segments(width: real): int
  {
    if width < 10.0 then 100 else 10
  }

  /** The bracket, the last probe and the iteration count when the loop stops. */
  datatype Outcome = Outcome(low: real, high: real, last: Probe, count: int)

  /**
   * The do-while loop from iteration count `i`: probe at the midpoint,
   * replace one end with it, and stop once the bracket is within the
   * tolerance or the count reaches the cap.
   */
  function Bisect(s: Search, low: real, high: real, i: int): Outcome
    requires 0 <= i < MAX_ITERATIONS
    decreases MAX_ITERATIONS - i
  {
    var count := i + 1;
    var mid := low / 2.0 + high / 2.0;
    var r := ProbeSpec(s.tether, mid, Segments(high - low));
    var low' := if EndVoltage(s, r) < s.target then mid else low;
    var high' := if EndVoltage(s, r) < s.target then high else mid;
    if Abs(high' - low') > TOLERANCE && count < MAX_ITERATIONS then Bisect(s, low', high', count)
    else Outcome(low', high', r, count)
  }

  /**
   * Every iteration halves the bracket, so the final width is the initial
   * one over `2^(iterations run)`, and the loop runs at least once and at
   * most up to the cap.
   */
  lemma {:induction false} BisectWidth(s: Search, low: real, high: real, i: int)
    requires 0 <= i < MAX_ITERATIONS
    ensures var o := Bisect(s, low, high, i);
      i < o.count <= MAX_ITERATIONS &&
      o.high - o.low == (high - low) / Pow2(o.count - i) as real
    decreases MAX_ITERATIONS - i
  {
    // Only the comparison of the probe with the target matters here, not how the probe is computed.
    hide ProbeSpec;
    var mid := low / 2.0 + high / 2.0;
    var r := ProbeSpec(s.tether, mid, Segments(high - low));
    var low' := if EndVoltage(s, r) < s.target then mid else low;
    var high' := if EndVoltage(s, r) < s.target then high else mid;
    assert high' - low' == (high - low) / 2.0;
    if Abs(high' - low') > TOLERANCE && i + 1 < MAX_ITERATIONS {
      BisectWidth(s, low', high', i + 1);
      var o := Bisect(s, low', high', i + 1);
      HalveTwice(high - low, Pow2(o.count - (i + 1)) as real);
      assert Pow2(o.count - i) == 2 * Pow2(o.count - (i + 1));
    } else {
      assert Pow2(1) == 2;
    }
  }

  /** The loop stops only once the bracket is within the tolerance or the count is at the cap. */
  lemma {:induction false} BisectStops(s: Search, low: real, high: real, i: int)
    requires 0 <= i < MAX_ITERATIONS
    ensures var o := Bisect(s, low, high, i);
      Abs(o.high - o.low) <= TOLERANCE || o.count == MAX_ITERATIONS
    decreases MAX_ITERATIONS - i
  {
    hide ProbeSpec;
    var mid := low / 2.0 + high / 2.0;
    var r := ProbeSpec(s.tether, mid, Segments(high - low));
    var low' := if EndVoltage(s, r) < s.target then mid else low;
    var high' := if EndVoltage(s, r) < s.target then high else mid;
    if Abs(high' - low') > TOLERANCE && i + 1 < MAX_ITERATIONS {
      BisectStops(s, low', high', i + 1);
    }
  }

  /** A bracket in order stays in order and inside the initial one. */
  lemma {:induction false} BisectOrder(s: Search, low: real, high: real, i: int)
    requires 0 <= i < MAX_ITERATIONS && low <= high
    ensures var o := Bisect(s, low, high, i);
      low <= o.low <= o.high <= high
    decreases MAX_ITERATIONS - i
  {
    hide ProbeSpec;
    var mid := low / 2.0 + high / 2.0;
    var r := ProbeSpec(s.tether, mid, Segments(high - low));
    var low' := if EndVoltage(s, r) < s.target then mid else low;
    var high' := if EndVoltage(s, r) < s.target then high else mid;
    if Abs(high' - low') > TOLERANCE && i + 1 < MAX_ITERATIONS {
      BisectOrder(s, low', high', i + 1);
    }
  }

  /** The three bracket facts together. */
  lemma BisectBracket(s: Search, low: real, high: real, i: int)
    requires 0 <= i < MAX_ITERATIONS
    ensures var o := Bisect(s, low, high, i);
      i < o.count <= MAX_ITERATIONS &&
      o.high - o.low == (high - low) / Pow2(o.count - i) as real &&
      (Abs(o.high - o.low) <= TOLERANCE || o.count == MAX_ITERATIONS) &&
      (low <= high ==> low <= o.low <= o.high <= high)
  {
    BisectWidth(s, low, high, i);
    BisectStops(s, low, high, i);
    if low <= high {
      BisectOrder(s, low, high, i);
    }
  }

  /** Halving once and then dividing by `p` is dividing by `2p`. */
  lemma HalveTwice(w: real, p: real)
    requires p >= 1.0
    ensures (w / 2.0) / p == w / (2.0 * p)
  {
    var q := w / (2.0 * p);
    assert q * (2.0 * p) == w;
    assert (q * p) * 2.0 == w;
  }

  // ---------------------------------------------------------------------
  // `lorentzForce` as a whole.

  /** What `lorentzForce` reads from the state under construction and the satellite. */
  datatype LorentzInput = LorentzInput(
    velocity: Vec3,
    magneticField: Vec3,
    plasmaDensity: real,
    cableVector: Vec3,
    satellite: Satellite,
    sqrt: SqrtFn)

  /**
   * Defined for a cable vector of nonzero length and, when the search runs
   * (the gradient is not negative), a nonzero diameter and conductivity; at a
   * negative gradient the diameter and conductivity are never read.
   */
  predicate Defined(p: LorentzInput)
  {
    Length(p.cableVector, p.sqrt) != 0.0 && (VoltageGradient(p) < 0.0 || Conducting(p.satellite))
  }

  /** The cable has the nonzero diameter and conductivity Eq (3) and Eq (4) need. */
  predicate Conducting(s: Satellite)
  {
    s.cableDiameter != 0.0 && s.cableConductivity != 0.0
  }

  function CableUnitVector(p: LorentzInput): Vec3
    requires Length(p.cableVector, p.sqrt) != 0.0
  {
    Scale(p.cableVector, 1.0 / Length(p.cableVector, p.sqrt))
  }

  /** The EMF per metre, `(v x B) . dl`. */
  function VoltageGradient(p: LorentzInput): real
    requires Length(p.cableVector, p.sqrt) != 0.0
  {
    Dot(Cross(p.velocity, p.magneticField), CableUnitVector(p))
  }

  /** Eq (3): the factor turning the voltage against the plasma into `dI/dl`. */
  function DIdlConstant(plasmaDensity: real, diameter: real, sqrt: SqrtFn): real
  {
    -UnderlyingModels.E * plasmaDensity * diameter * sqrt(-2.0 * UnderlyingModels.E / UnderlyingModels.ME)
  }

  /** Eq (4): the resistance of the cable per metre. */
  function Resistivity(diameter: real, conductivity: real): real
    requires diameter != 0.0 && conductivity != 0.0
  {
    NonZeroProduct(diameter, conductivity);
    1.0 / (PI * diameter * diameter / 4.0 * conductivity)
  }

  lemma NonZeroProduct(d: real, c: real)
    requires d != 0.0 && c != 0.0
    ensures PI * d * d / 4.0 * c != 0.0
  {
  }

  function SearchOf(p: LorentzInput): Search
    requires Length(p.cableVector, p.sqrt) != 0.0 && Conducting(p.satellite)
  {
    var len := Length(p.cableVector, p.sqrt);
    var g := VoltageGradient(p);
    Search(Tether(g, DIdlConstant(p.plasmaDensity, p.satellite.cableDiameter, p.sqrt),
                  Resistivity(p.satellite.cableDiameter, p.satellite.cableConductivity), len, p.sqrt),
           p.satellite.bias, g * len)
  }

  /** How the computation ends: two early exits, or a finished bisection. */
  datatype LorentzOutcome = NegativeGradient | AboveTarget | Bisected(outcome: Outcome)

  const FIRST_PROBE: real := -1000.0

  function LorentzSearch(p: LorentzInput): LorentzOutcome
    requires Defined(p)
  {
    if VoltageGradient(p) < 0.0 then NegativeGradient
    else
      var s := SearchOf(p);
      if EndVoltage(s, ProbeSpec(s.tether, FIRST_PROBE, 10)) > s.target then AboveTarget
      else Bisected(Bisect(s, FIRST_PROBE, s.target + 1000.0, 0))
  }

  /** The force: zero on either early exit, else `unit x B` times the last probe's current sum. */
  function LorentzForceSpec(p: LorentzInput): Vec3
    requires Defined(p)
  {
    match LorentzSearch(p)
    case Bisected(o) => Scale(Cross(CableUnitVector(p), p.magneticField), o.last.currentLength)
    case _ => Zero()
  }

  /** The `current` field it leaves: zero on either early exit, else the last probe's end current. */
  function LorentzCurrentSpec(p: LorentzInput): real
    requires Defined(p)
  {
    match LorentzSearch(p)
    case Bisected(o) => o.last.current
    case _ => 0.0
  }

  /** The do-while loop of `lorentzForce`, proved to compute `Bisect` from count zero. */
  method BisectLoop(s: Search, low0: real, high0: real) returns (o: Outcome)
    ensures o == Bisect(s, low0, high0, 0)
  {
    var low, high := low0, high0;
    var i := 0;
    var r: Probe;
    ghost var goal := Bisect(s, low, high, 0);
    while true
      invariant 0 <= i < MAX_ITERATIONS
      invariant Bisect(s, low, high, i) == goal
      decreases MAX_ITERATIONS - i
    {
      i := i + 1;
      var iterations := 10;
      if high - low < 10.0 {
        iterations := 100;
      }
      var mid := low / 2.0 + high / 2.0;
      r := RunProbe(s.tether, mid, iterations);
      var endVoltage := EmitterVoltageDrop(s.bias, r.current) + r.voltage;
      if endVoltage < s.target {
        low := mid;
      } else {
        high := mid;
      }
      if !(Abs(high - low) > TOLERANCE && i < MAX_ITERATIONS) {
        assert goal == Outcome(low, high, r, i);
        break;
      }
    }
    o := Outcome(low, high, r, i);
  }

  /**
   * `lorentzForce`, with its early exits, its first probe and its do-while
   * loop, proved to compute the force and current specified above.
   */
  method LorentzForce(p: LorentzInput) returns (force: Vec3, current: real)
    requires Defined(p)
    ensures force == LorentzForceSpec(p) && current == LorentzCurrentSpec(p)
  {
    var cableUnitVector := CableUnitVector(p);
    var voltageGradient := VoltageGradient(p);
    if voltageGradient < 0.0 {
      return Zero(), 0.0;
    }
    var s := SearchOf(p);
    var r := RunProbe(s.tether, FIRST_PROBE, 10);
    if EmitterVoltageDrop(s.bias, r.current) + r.voltage > s.target {
      return Zero(), 0.0;
    }
    var o := BisectLoop(s, FIRST_PROBE, s.target + 1000.0);
    current := o.last.current;
    force := Scale(Cross(cableUnitVector, p.magneticField), o.last.currentLength);
  }

  /**
   * At a negative gradient the diameter and conductivity play no part: with
   * any values, zero included, the input is defined and gives no force and
   * no current.
   */
  lemma NegativeGradientIgnoresCable(p: LorentzInput)
    requires Length(p.cableVector, p.sqrt) != 0.0 && VoltageGradient(p) < 0.0
    ensures Defined(p)
    ensures LorentzSearch(p) == NegativeGradient
    ensures LorentzForceSpec(p) == Zero() && LorentzCurrentSpec(p) == 0.0
  {
  }

  /** Both early exits give no force and no current, without any bisection. */
  lemma EarlyExits(p: LorentzInput)
    requires Defined(p)
    ensures VoltageGradient(p) < 0.0 ==> LorentzSearch(p) == NegativeGradient
    ensures !LorentzSearch(p).Bisected? ==> LorentzForceSpec(p) == Zero() && LorentzCurrentSpec(p) == 0.0
  {
  }

  /**
   * With a true square root the EMF target is non-negative when the search
   * runs, so the initial bracket `[-1000, target + 1000]` is in order; the
   * final bracket lies inside it and is at most the tolerance wide unless the
   * cap of 1000 iterations was hit.
   */
  lemma {:induction false} LorentzBracket(p: LorentzInput)
    requires Defined(p) && IsSqrt(p.sqrt)
    requires LorentzSearch(p).Bisected?
    ensures var o := LorentzSearch(p).outcome;
      FIRST_PROBE <= o.low <= o.high <= SearchOf(p).target + 1000.0 &&
      (o.high - o.low <= TOLERANCE || o.count == MAX_ITERATIONS)
  {
    assert VoltageGradient(p) >= 0.0;
    TargetNonNegative(p);
    BracketFromTarget(p);
  }

  /** The bracket facts, from a non-negative target alone. */
  lemma {:induction false} BracketFromTarget(p: LorentzInput)
    requires Defined(p) && LorentzSearch(p).Bisected? && SearchOf(p).target >= 0.0
    ensures var o := LorentzSearch(p).outcome;
      FIRST_PROBE <= o.low <= o.high <= SearchOf(p).target + 1000.0 &&
      (o.high - o.low <= TOLERANCE || o.count == MAX_ITERATIONS)
  {
    hide ProbeSpec;
    var s := SearchOf(p);
    assert LorentzSearch(p).outcome == Bisect(s, FIRST_PROBE, s.target + 1000.0, 0);
    BisectStops(s, FIRST_PROBE, s.target + 1000.0, 0);
    BisectOrder(s, FIRST_PROBE, s.target + 1000.0, 0);
  }

  /** With a true square root and a non-negative gradient, the EMF target `g * len` is non-negative. */
  lemma TargetNonNegative(p: LorentzInput)
    requires Defined(p) && IsSqrt(p.sqrt) && VoltageGradient(p) >= 0.0
    ensures SearchOf(p).target >= 0.0
  {
    LengthIsRoot(p.cableVector, p.sqrt);
    var len := Length(p.cableVector, p.sqrt);
    var g := VoltageGradient(p);
    assert SearchOf(p).target == g * len;
    assert g * len >= 0.0;
  }

  /** The force is perpendicular to the magnetic field. */
  lemma ForcePerpendicularToField(p: LorentzInput)
    requires Defined(p)
    ensures Dot(p.magneticField, LorentzForceSpec(p)) == 0.0
  {
    var c := Cross(CableUnitVector(p), p.magneticField);
    if LorentzSearch(p).Bisected? {
      DotScale(c, p.magneticField, LorentzSearch(p).outcome.last.currentLength);
    }
  }
}
