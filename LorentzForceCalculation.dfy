/**
 * The second revision of the tether solver. `guessVoltage` integrates the
 * tether from the free end with a fixed 100-sample Euler loop, filling an
 * array with the force on each sample; `solve` looks for the starting
 * voltage at which the emitter's boundary condition is met, first by
 * doubling a bracket end and then by 250 halvings of the bracket, and keeps
 * the emitter's operating point for the last guess.
 *
 * The doubling loops of `solve` need not end, so `Solve` is given a `fuel`
 * bound on their iterations and reports whether it was enough.
 */
module LorentzCalculation {
  import opened Numerics
  import opened Vectors
  import opened Emitters
  import opened Cables
  import SM = ShootingMethod
  import Orbital
  import UnderlyingModels

  const GUESS_ITERATIONS: int := 100
  const BISECTION_STEPS: int := 250

  /** The constants of one calculation: the field at the state, the emitter, the cable and Eq (3), Eq (4). */
  datatype Solver = Solver(
    magneticField: Vec3,
    emitter: Emitter,
    cable: Cable,
    resistivity: real,
    dIdlConstant: real,
    sqrt: SqrtFn)

  /** The spacing of the samples, `length / (GUESS_ITERATIONS - 1)`: the first sample is the free end, the last the satellite. */
  function Dl(s: Solver): (dl: real)
    ensures dl * (GUESS_ITERATIONS - 1) as real == s.cable.length
  {
    s.cable.length / (GUESS_ITERATIONS - 1) as real
  }

  /** The distance of sample `i` from the free end. */
  function SamplePoint(s: Solver, i: int): real
  {
    i as real * Dl(s)
  }

  /** The EMF per metre at sample `i`: `(v x B) . direction` at that point of the cable. */
  function SampleGradient(s: Solver, i: int): real
  {
    Dot(Cross(GetVelocity(s.cable, SamplePoint(s, i)), s.magneticField), GetDirection(s.cable, SamplePoint(s, i)))
  }

  /** The loop's voltage update: the EMF over a segment plus its resistive drop at the current so far. */
  function NextVoltage(voltage: real, voltageGradient: real, current: real, resistivity: real, dl: real): (v: real)
    ensures v - voltage == (voltageGradient + current * resistivity) * dl
  {
    voltage + voltageGradient * dl + current * resistivity * dl
  }

  /** The current and the voltage against the plasma the Euler loop carries. */
  datatype Reading = Reading(current: real, voltage: real)

  /**
   * One pass of the loop at sample `i`: the voltage moves by the EMF and
   * by the resistive drop of the current so far, and only then, if the
   * voltage is positive, does the tether collect more current.
   */
  function GuessStep(s: Solver, r: Reading, i: int): (r': Reading)
    ensures r'.voltage == NextVoltage(r.voltage, SampleGradient(s, i), r.current, s.resistivity, Dl(s))
    ensures r'.current != r.current ==> r'.voltage > 0.0
  {
    var voltage := NextVoltage(r.voltage, SampleGradient(s, i), r.current, s.resistivity, Dl(s));
    var current := if voltage > 0.0 then r.current + s.sqrt(voltage) * s.dIdlConstant * Dl(s) else r.current;
    Reading(current, voltage)
  }

  /** The reading after the first `n` samples, starting with no current at `startingVoltage`. */
  function GuessUpTo(s: Solver, startingVoltage: real, n: nat): Reading
  {
    if n == 0 then Reading(0.0, startingVoltage)
    else GuessStep(s, GuessUpTo(s, startingVoltage, n - 1), n - 1)
  }

  /** The reading before any sample, and one sample more. */
  lemma GuessUpToStep(s: Solver, startingVoltage: real, n: nat)
    ensures GuessUpTo(s, startingVoltage, 0) == Reading(0.0, startingVoltage)
    ensures GuessUpTo(s, startingVoltage, n + 1) == GuessStep(s, GuessUpTo(s, startingVoltage, n), n)
  {
  }

  /** The reading at the satellite end: what `guessVoltage` stores in `satCurrent` and `satVoltage`. */
  function GuessResult(s: Solver, startingVoltage: real): Reading
  {
    GuessUpTo(s, startingVoltage, GUESS_ITERATIONS)
  }

  /** The force per unit length at sample `i` once the current there is `current`. */
  function ForceAt(s: Solver, i: int, current: real): Vec3
    requires s.cable.length != 0.0
  {
    Scale(Cross(GetDirection(s.cable, SamplePoint(s, i)), s.magneticField), current / Dl(s))
  }

  /**
   * The test of `solve`: the drop the emitter needs for the end current is
   * below the negated end voltage (Java's `<` against an infinity included).
   */
  predicate Below(s: Solver, startingVoltage: real)
  {
    LessThan(RequiredVoltageDrop(s.emitter, GuessResult(s, startingVoltage).current), -GuessResult(s, startingVoltage).voltage)
  }

  // ---------------------------------------------------------------------
  // The doubling search and the bisection, as functions.

  /** `start` doubled `k` times. */
  function Doubled(start: real, k: nat): (r: real)
    ensures start > 0.0 ==> r >= start
    ensures start < 0.0 ==> r <= start
  {
    start * (Pow2(k) as real)
  }

  /**
   * The first `k` from `j` up to `fuel` at which `Doubled(start, k)` fails the
   * test: the number of doublings the do-while loop makes, or None if it
   * would need more than `fuel`.
   */
  function FirstExit(s: Solver, start: real, j: nat, fuel: nat): Option<nat>
    decreases fuel + 1 - j
  {
    if j > fuel then None
    else if !Below(s, Doubled(start, j)) then Some(j)
    else FirstExit(s, start, j + 1, fuel)
  }

  /** One unfolding of `FirstExit`. */
  lemma FirstExitUnfold(s: Solver, start: real, j: nat, fuel: nat)
    ensures FirstExit(s, start, j, fuel)
         == if j > fuel then None else if !Below(s, Doubled(start, j)) then Some(j) else FirstExit(s, start, j + 1, fuel)
  {
  }

  /** Doubling zero times leaves `start`; doubling once more is multiplying by two. */
  lemma DoubledAgain(start: real, k: nat)
    ensures Doubled(start, 0) == start
    ensures Doubled(start, k + 1) == Doubled(start, k) * 2.0
  {
    assert Pow2(k + 1) == 2 * Pow2(k);
  }

  datatype Bracket = Bracket(low: real, high: real)

  function Mid(b: Bracket): real
  {
    (b.low + b.high) * 0.5
  }

  /** One bisection step: the midpoint replaces the low end if it passes the test, else the high end. */
  function Halve(s: Solver, b: Bracket): (r: Bracket)
    ensures r.low == Mid(b) || r.high == Mid(b)
    ensures r.high - r.low == (b.high - b.low) / 2.0
  {
    if Below(s, Mid(b)) then Bracket(Mid(b), b.high) else Bracket(b.low, Mid(b))
  }

  /** The bracket after `n` bisection steps from `b`. */
  function BisectUpTo(s: Solver, b: Bracket, n: nat): Bracket
  {
    if n == 0 then b else Halve(s, BisectUpTo(s, b, n - 1))
  }

  /**
   * The bracket the bisection starts from: from `[0, 10]` doubling the high
   * end when zero passes the test, else from `[-10, 0]` doubling the low
   * end; None when the doubling would need more than `fuel` iterations.
   */
  function StartBracket(s: Solver, fuel: nat): Option<Bracket>
  {
    if Below(s, 0.0) then
      match FirstExit(s, 10.0, 1, fuel)
      case None => None
      case Some(k) => Some(Bracket(0.0, Doubled(10.0, k)))
    else
      match FirstExit(s, -10.0, 1, fuel)
      case None => None
      case Some(k) => Some(Bracket(Doubled(-10.0, k), 0.0))
  }

  /** The starting voltage of the last guess `solve` makes: the midpoint of the last bisection step. */
  function LastGuess(s: Solver, start: Bracket): real
  {
    Mid(BisectUpTo(s, start, BISECTION_STEPS - 1))
  }

  // ---------------------------------------------------------------------
  // Properties of the Euler loop.

  /** The samples run from the free end (0) to the satellite end (`length`), evenly spaced. */
  lemma SamplesSpanCable(s: Solver, i: int)
    ensures SamplePoint(s, 0) == 0.0
    ensures SamplePoint(s, GUESS_ITERATIONS - 1) == s.cable.length
    ensures SamplePoint(s, i + 1) - SamplePoint(s, i) == Dl(s)
  {
  }

  /** On the straight cable every sample sees the same EMF per metre, `-(v x B) . vector`. */
  lemma GradientIsUniform(s: Solver, i: int)
    ensures SampleGradient(s, i) == -Dot(Cross(s.cable.orbit.velocity, s.magneticField), s.cable.vector)
  {
    var c := Cross(s.cable.orbit.velocity, s.magneticField);
    DotScale(s.cable.vector, c, -1.0);
  }

  /** `dIdlConstant` is never negative: the electron charge is negative and densities and diameters are not. */
  lemma {:induction false} DIdlNonNegative(plasmaDensity: real, diameter: real, sqrt: SqrtFn)
    requires IsSqrt(sqrt) && plasmaDensity >= 0.0 && diameter >= 0.0
    ensures SM.DIdlConstant(plasmaDensity, diameter, sqrt) >= 0.0
  {
    UnderlyingModels.ChargeToMassPositive();
    var root := sqrt(-2.0 * UnderlyingModels.E / UnderlyingModels.ME);
    assert root >= 0.0;
    var k := -UnderlyingModels.E * plasmaDensity;
    assert k >= 0.0;
    assert k * diameter >= 0.0;
    assert (k * diameter) * root >= 0.0;
  }

  /**
   * With a true square root, a non-negative `dIdlConstant` and a cable of
   * non-negative length, one sample never lowers the current.
   */
  lemma {:induction false} CurrentStep(s: Solver, r: Reading, i: int)
    requires IsSqrt(s.sqrt) && s.dIdlConstant >= 0.0 && s.cable.length >= 0.0
    ensures r.current <= GuessStep(s, r, i).current
  {
    var v := NextVoltage(r.voltage, SampleGradient(s, i), r.current, s.resistivity, Dl(s));
    if v > 0.0 {
      assert s.sqrt(v) >= 0.0;
      SM.NonNegativeProduct3(s.sqrt(v), s.dIdlConstant, Dl(s));
    }
  }

  /**
   * Under the same conditions the current starts at zero and never
   * decreases from one sample to the next.
   */
  lemma {:induction false} CurrentNeverDecreases(s: Solver, startingVoltage: real, i: nat, j: nat)
    requires IsSqrt(s.sqrt) && s.dIdlConstant >= 0.0 && s.cable.length >= 0.0
    requires i <= j
    ensures 0.0 <= GuessUpTo(s, startingVoltage, i).current <= GuessUpTo(s, startingVoltage, j).current
    decreases j, if i == j then 1 else 0
  {
    if i < j {
      CurrentNeverDecreases(s, startingVoltage, i, j - 1);
      CurrentStep(s, GuessUpTo(s, startingVoltage, j - 1), j - 1);
    } else if i > 0 {
      CurrentNeverDecreases(s, startingVoltage, 0, i);
    }
  }

  /** If the voltage is never positive after a sample, no current is ever collected. */
  lemma {:induction false} NoCurrentWithoutPositiveVoltage(s: Solver, startingVoltage: real, n: nat)
    requires forall i :: 1 <= i <= n ==> GuessUpTo(s, startingVoltage, i).voltage <= 0.0
    ensures GuessUpTo(s, startingVoltage, n).current == 0.0
    decreases n
  {
    if n > 0 {
      NoCurrentWithoutPositiveVoltage(s, startingVoltage, n - 1);
      assert GuessUpTo(s, startingVoltage, n).voltage <= 0.0;
    }
  }

  // ---------------------------------------------------------------------
  // Properties of the doubling search and of the bisection. None of them
  // depends on how a guess is computed, only on the outcome of the test.

  /**
   * The doubling loop stops at the first doubling that fails the test:
   * every doubling before it passed; and if the fuel runs out, every
   * doubling up to the fuel passed.
   */
  lemma {:induction false} FirstExitIsFirst(s: Solver, start: real, j: nat, fuel: nat)
    ensures FirstExit(s, start, j, fuel).Some? ==>
              var k := FirstExit(s, start, j, fuel).value;
              j <= k <= fuel && !Below(s, Doubled(start, k))
              && forall m :: j <= m < k ==> Below(s, Doubled(start, m))
    ensures FirstExit(s, start, j, fuel).None? ==>
              forall m :: j <= m <= fuel ==> Below(s, Doubled(start, m))
    decreases fuel + 1 - j
  {
    hide Below;
    if j <= fuel && Below(s, Doubled(start, j)) {
      FirstExitIsFirst(s, start, j + 1, fuel);
    }
  }

  /**
   * The bracket the bisection starts from. Upward, zero passes the test
   * and the high end, `10 * 2^k`, fails it. Downward, zero fails the test
   * and so does the low end `-10 * 2^k`, since that loop exits on the same
   * test as the upward one.
   */
  lemma {:induction false} StartBracketEnds(s: Solver, fuel: nat)
    requires StartBracket(s, fuel).Some?
    ensures var b := StartBracket(s, fuel).value;
      b.low < b.high && !Below(s, b.high)
      && (Below(s, 0.0) ==> b.low == 0.0 && exists k: nat :: 1 <= k <= fuel && b.high == Doubled(10.0, k))
      && (!Below(s, 0.0) ==> b.high == 0.0 && !Below(s, b.low)
                             && exists k: nat :: 1 <= k <= fuel && b.low == Doubled(-10.0, k))
  {
    hide Below;
    if Below(s, 0.0) {
      FirstExitIsFirst(s, 10.0, 1, fuel);
      var k := FirstExit(s, 10.0, 1, fuel).value;
      assert StartBracket(s, fuel).value.high == Doubled(10.0, k);
    } else {
      FirstExitIsFirst(s, -10.0, 1, fuel);
      var k := FirstExit(s, -10.0, 1, fuel).value;
      assert StartBracket(s, fuel).value.low == Doubled(-10.0, k);
    }
  }

  /**
   * Each of the bisection steps halves the bracket, keeps it in order and
   * inside the one before, keeps a low end that passes the test passing
   * and a high end that fails it failing.
   */
  lemma {:induction false} BisectInvariant(s: Solver, b: Bracket, n: nat)
    requires b.low <= b.high
    ensures var r := BisectUpTo(s, b, n);
      b.low <= r.low <= r.high <= b.high
      && r.high - r.low == (b.high - b.low) / Pow2(n) as real
      && (Below(s, b.low) ==> Below(s, r.low))
      && (!Below(s, b.high) ==> !Below(s, r.high))
    decreases n
  {
    hide Below;
    if n == 0 {
      assert Pow2(0) == 1;
    } else {
      BisectInvariant(s, b, n - 1);
      var r := BisectUpTo(s, b, n - 1);
      HalveOfQuotient(b.high - b.low, Pow2(n - 1) as real);
      assert Pow2(n) == 2 * Pow2(n - 1);
    }
  }

  /** Halving a quotient by `p` is dividing by `2p`. */
  lemma HalveOfQuotient(w: real, p: real)
    requires p >= 1.0
    ensures (w / p) / 2.0 == w / (2.0 * p)
  {
    var q := w / (2.0 * p);
    assert q * (2.0 * p) == w;
    assert (q * 2.0) * p == w;
  }

  /** The last guess is an end of the final bracket. */
  lemma LastGuessIsAnEnd(s: Solver, start: Bracket)
    ensures var r := BisectUpTo(s, start, BISECTION_STEPS);
      r.low == LastGuess(s, start) || r.high == LastGuess(s, start)
  {
  }

  // ---------------------------------------------------------------------
  // The calculation object.

  /** `LorentzForceCalculation`: the constants of the calculation, its working variables and its results. */
  class LorentzForceCalculation {
    const state: Orbital.State
    const emitter: Emitter
    const cable: Cable
    const sqrt: SqrtFn
    const resistivity: real
    const dIdlConstant: real

    var satVoltage: real
    var satCurrent: real
    var emitterResult: Option<EmitterResult>
    var forcePerUnitLength: array?<Vec3>

    /** The constants of this calculation, as the functions above take them. */
    function Config(): Solver
    {
      Solver(state.magneticField, emitter, cable, resistivity, dIdlConstant, sqrt)
    }

    /** What the last `guessVoltage(startingVoltage)` left in the working variables and the force array. */
    predicate Guessed(startingVoltage: real)
      requires cable.length != 0.0
      reads `satCurrent, `satVoltage, `forcePerUnitLength, forcePerUnitLength
    {
      satCurrent == GuessResult(Config(), startingVoltage).current
      && satVoltage == GuessResult(Config(), startingVoltage).voltage
      && forcePerUnitLength != null && forcePerUnitLength.Length == GUESS_ITERATIONS
      && forall i :: 0 <= i < GUESS_ITERATIONS ==>
           forcePerUnitLength[i] == ForceAt(Config(), i, GuessUpTo(Config(), startingVoltage, i + 1).current)
    }

    /** Eq (3) and Eq (4) from the state and the cable; no result yet. */
    constructor(state: Orbital.State, emitter: Emitter, cable: Cable, sqrt: SqrtFn)
      requires cable.length != 0.0 && cable.diameter != 0.0 && cable.conductivity != 0.0
      ensures this.state == state && this.emitter == emitter && this.cable == cable && this.sqrt == sqrt
      ensures dIdlConstant == SM.DIdlConstant(state.plasmaDensity, cable.diameter, sqrt)
      ensures resistivity == SM.Resistivity(cable.diameter, cable.conductivity)
      ensures emitterResult.None? && forcePerUnitLength == null
    {
      this.state := state;
      this.emitter := emitter;
      this.cable := cable;
      this.sqrt := sqrt;
      dIdlConstant := SM.DIdlConstant(state.plasmaDensity, cable.diameter, sqrt);
      resistivity := SM.Resistivity(cable.diameter, cable.conductivity);
      emitterResult := None;
      forcePerUnitLength := null;
    }

    /**
     * `guessVoltage(startingVoltage)`: a fresh array of `GUESS_ITERATIONS`
     * forces, one per sample, and the reading at the satellite end.
     */
    method GuessVoltage(startingVoltage: real)
      requires cable.length != 0.0
      modifies this
      ensures fresh(forcePerUnitLength)
      ensures Guessed(startingVoltage)
      ensures emitterResult == old(emitterResult)
    {
      // Each pass needs one unfolding of the readings, no more.
      hide GuessUpTo;
      GuessUpToStep(Config(), startingVoltage, 0);
      var current := 0.0;
      var voltage := startingVoltage;
      var dl := cable.length / (GUESS_ITERATIONS - 1) as real;
      forcePerUnitLength := new Vec3[GUESS_ITERATIONS];
      for i := 0 to GUESS_ITERATIONS
        invariant fresh(forcePerUnitLength) && forcePerUnitLength.Length == GUESS_ITERATIONS
        invariant Reading(current, voltage) == GuessUpTo(Config(), startingVoltage, i)
        invariant forall j :: 0 <= j < i ==>
                    forcePerUnitLength[j] == ForceAt(Config(), j, GuessUpTo(Config(), startingVoltage, j + 1).current)
        invariant emitterResult == old(emitterResult)
      {
        var distanceFromFreeEnd := i as real * dl;
        var direction := GetDirection(cable, distanceFromFreeEnd);
        var voltageGradient := Dot(Cross(GetVelocity(cable, distanceFromFreeEnd), state.magneticField), direction);
        assert dl == Dl(Config()) && distanceFromFreeEnd == SamplePoint(Config(), i);
        assert voltageGradient == SampleGradient(Config(), i);
        GuessUpToStep(Config(), startingVoltage, i);
        voltage := NextVoltage(voltage, voltageGradient, current, resistivity, dl);
        if voltage > 0.0 {
          current := current + sqrt(voltage) * dIdlConstant * dl;
        }
        assert Reading(current, voltage) == GuessUpTo(Config(), startingVoltage, i + 1);
        forcePerUnitLength[i] := Scale(Cross(direction, state.magneticField), current / dl);
      }
      satVoltage := voltage;
      satCurrent := current;
    }

    /** Once a guess is made, the test `solve` applies to the working variables is `Below` of that guess. */
    lemma TestIsBelow(startingVoltage: real)
      requires cable.length != 0.0 && Guessed(startingVoltage)
      ensures LessThan(RequiredVoltageDrop(emitter, satCurrent), -satVoltage) == Below(Config(), startingVoltage)
    {
    }

    /**
     * One of the do-while doubling loops of `solve`, from `start` (10 or
     * -10): it doubles and guesses until the test fails, and reports how
     * many doublings that took, or None once `fuel` doublings have passed.
     */
    method Double(start: real, fuel: nat) returns (doublings: Option<nat>)
      requires cable.length != 0.0
      modifies this
      ensures doublings == FirstExit(Config(), start, 1, fuel)
      ensures doublings.Some? ==> fresh(forcePerUnitLength) && Guessed(Doubled(start, doublings.value))
      ensures emitterResult == old(emitterResult)
    {
      // The loop needs the contracts of the guess and the helpers below, not
      // the definitions behind them.
      hide *;
      DoubledAgain(start, 0);
      var end := start;
      var k := 0;
      var below := true;
      while below
        invariant 0 <= k <= fuel
        invariant end == Doubled(start, k)
        invariant below ==> FirstExit(Config(), start, 1, fuel) == FirstExit(Config(), start, k + 1, fuel)
        invariant !below ==> k >= 1 && FirstExit(Config(), start, 1, fuel) == Some(k)
        invariant !below ==> fresh(forcePerUnitLength) && Guessed(end)
        invariant emitterResult == old(emitterResult)
        decreases fuel - k, below
      {
        if k == fuel {
          FirstExitUnfold(Config(), start, k + 1, fuel);
          return None;
        }
        DoubledAgain(start, k);
        end := end * 2.0;
        k := k + 1;
        GuessVoltage(end);
        below := LessThan(RequiredVoltageDrop(emitter, satCurrent), -satVoltage);
        TestIsBelow(end);
        FirstExitUnfold(Config(), start, k, fuel);
      }
      doublings := Some(k);
    }


    /**
     * `solve()`: the bracket search and then `BISECTION_STEPS` halvings,
     * ending with the working variables and the force array of the last
     * midpoint guess and the emitter's operating point for it. It is
     * `false`, with the search unfinished, when a doubling loop needs more
     * than `fuel` iterations.
     */
    method Solve(fuel: nat) returns (finished: bool)
      requires cable.length != 0.0
      modifies this
      ensures finished <==> StartBracket(Config(), fuel).Some?
      ensures finished ==> fresh(forcePerUnitLength) && Guessed(LastGuess(Config(), StartBracket(Config(), fuel).value))
      ensures finished ==> emitterResult == Some(FinalResult(emitter, satCurrent, -satVoltage))
    {
      // What a guess computes does not matter here, only how it is tested.
      hide Guessed;
      hide Below;
      GuessVoltage(0.0);
      TestIsBelow(0.0);
      var low, high;
      if LessThan(RequiredVoltageDrop(emitter, satCurrent), -satVoltage) {
        var doublings := Double(10.0, fuel);
        if doublings.None? {
          return false;
        }
        low, high := 0.0, Doubled(10.0, doublings.value);
      } else {
        var doublings := Double(-10.0, fuel);
        if doublings.None? {
          return false;
        }
        low, high := Doubled(-10.0, doublings.value), 0.0;
      }
      ghost var start := Bracket(low, high);
      assert StartBracket(Config(), fuel) == Some(start);
      for i := 0 to BISECTION_STEPS
        invariant Bracket(low, high) == BisectUpTo(Config(), start, i)
        invariant i > 0 ==> fresh(forcePerUnitLength) && Guessed(Mid(BisectUpTo(Config(), start, i - 1)))
      {
        var mid := (low + high) * 0.5;
        GuessVoltage(mid);
        TestIsBelow(mid);
        if LessThan(RequiredVoltageDrop(emitter, satCurrent), -satVoltage) {
          low := mid;
        } else {
          high := mid;
        }
      }
      emitterResult := Some(FinalResult(emitter, satCurrent, -satVoltage));
      finished := true;
    }
  }
}
