/**
 * The electron emitter at the end of the tether and its controlling
 * circuitry: the boundary condition that says how far below ground the
 * emitter has to sit to emit a given current, and the operating point that
 * results once a current and a voltage drop are fixed.
 *
 * A limit that Java keeps as NaN ("undefined") is `None` here; the two
 * infinities the boundary condition can return are `NegInf` and `PosInf`.
 */
module Emitters {
  import opened Numerics

  const POWER_LIMIT: real := 1.5
  const CURRENT_LIMIT: real := 0.012
  const BIAS_MAX: real := 200.0
  const THERMAL_CATHODE_DROP: real := 200.0

  datatype Emitter = Emitter(
    powerLimit: Option<real>,
    currentLimit: Option<real>,
    technologyVoltageDrop: real,
    setBias: Option<real>)

  /**
   * The adjustable-bias constructor: at least one of the two limits must be
   * defined, and the bias is left undefined so that it follows the power limit.
   */
  function AdjustableBias(powerLimit: Option<real>, currentLimit: Option<real>, technologyVoltageDrop: real): (e: Emitter)
    requires powerLimit.Some? || currentLimit.Some?
    ensures e.setBias.None?
    ensures e.powerLimit == powerLimit && e.currentLimit == currentLimit
    ensures e.technologyVoltageDrop == technologyVoltageDrop
  {
    Emitter(powerLimit, currentLimit, technologyVoltageDrop, None)
  }

  /** The fixed-bias constructor: the bias is defined; either limit may be undefined. */
  function FixedBias(powerLimit: Option<real>, currentLimit: Option<real>, setBias: real, technologyVoltageDrop: real): (e: Emitter)
    ensures e.setBias == Some(setBias)
    ensures e.powerLimit == powerLimit && e.currentLimit == currentLimit
    ensures e.technologyVoltageDrop == technologyVoltageDrop
  {
    Emitter(powerLimit, currentLimit, technologyVoltageDrop, Some(setBias))
  }

  /** `createThermionicCathode()`: both default limits, adjustable bias, a 200 V drop. */
  function ThermionicCathode(): (e: Emitter)
    ensures e.powerLimit == Some(POWER_LIMIT) && e.currentLimit == Some(CURRENT_LIMIT)
    ensures e.setBias.None? && e.technologyVoltageDrop == THERMAL_CATHODE_DROP
  {
    AdjustableBias(Some(POWER_LIMIT), Some(CURRENT_LIMIT), THERMAL_CATHODE_DROP)
  }

  /** `createThermionicCathode(bias, withLimits)`: a set bias, with both default limits or none. */
  function ThermionicCathodeBiased(bias: real, withLimits: bool): (e: Emitter)
    ensures e.setBias == Some(bias) && e.technologyVoltageDrop == THERMAL_CATHODE_DROP
    ensures withLimits ==> e.powerLimit == Some(POWER_LIMIT) && e.currentLimit == Some(CURRENT_LIMIT)
    ensures !withLimits ==> e.powerLimit.None? && e.currentLimit.None?
  {
    FixedBias(if withLimits then Some(POWER_LIMIT) else None,
              if withLimits then Some(CURRENT_LIMIT) else None,
              bias, THERMAL_CATHODE_DROP)
  }

  /** `createThermionicCathode(powerLimit, currentLimit)`: given limits, adjustable bias. */
  function ThermionicCathodeLimited(powerLimit: Option<real>, currentLimit: Option<real>): (e: Emitter)
    requires powerLimit.Some? || currentLimit.Some?
    ensures e.powerLimit == powerLimit && e.currentLimit == currentLimit
    ensures e.setBias.None? && e.technologyVoltageDrop == THERMAL_CATHODE_DROP
  {
    AdjustableBias(powerLimit, currentLimit, THERMAL_CATHODE_DROP)
  }

  /** `createThermionicCathode(powerLimit, currentLimit, bias)`: given limits and a set bias. */
  function ThermionicCathodeLimitedBiased(powerLimit: Option<real>, currentLimit: Option<real>, bias: real): (e: Emitter)
    ensures e.powerLimit == powerLimit && e.currentLimit == currentLimit
    ensures e.setBias == Some(bias) && e.technologyVoltageDrop == THERMAL_CATHODE_DROP
  {
    FixedBias(powerLimit, currentLimit, bias, THERMAL_CATHODE_DROP)
  }

  /** The operating point of the emitter: power drawn, bias applied and the voltage drop. */
  datatype EmitterResult = EmitterResult(powerUsage: real, chosenBias: real, voltageDrop: real)

  /** The public no-argument `EmitterResult()`. */
  function DefaultResult(): (r: EmitterResult)
    ensures r.powerUsage == 0.0 && r.chosenBias == 0.0 && r.voltageDrop == 0.0
  {
    EmitterResult(0.0, 0.0, 0.0)
  }

  /**
   * `calculateFinalResult`: the bias is what the technology drop leaves over
   * the voltage drop, never negative; the power is that bias times the current.
   */
  function FinalResult(e: Emitter, current: real, voltageDrop: real): (r: EmitterResult)
    ensures r.chosenBias >= 0.0
    ensures r.chosenBias >= e.technologyVoltageDrop - voltageDrop
    ensures r.chosenBias == 0.0 || r.chosenBias == e.technologyVoltageDrop - voltageDrop
    ensures r.powerUsage == r.chosenBias * current
    ensures r.voltageDrop == voltageDrop
  {
    var bias := e.technologyVoltageDrop - voltageDrop;
    var bias := if bias < 0.0 then 0.0 else bias;
    EmitterResult(bias * current, bias, voltageDrop)
  }

  /** The bias the circuitry would like to apply, before the cap at `BIAS_MAX`. */
  function WantedBias(e: Emitter, current: real): ExtReal
    requires current != 0.0
  {
    match (e.setBias, e.powerLimit)
    case (Some(b), _) => Finite(b)
    case (None, Some(p)) => Finite(p / current)
    case (None, None) => PosInf
  }

  /** Java's `Math.min(bias, BIAS_MAX)` on a bias that may be +infinity. */
  function CapBias(bias: ExtReal): real
    requires !bias.NegInf?
  {
    match bias
    case Finite(b) => Min(b, BIAS_MAX)
    case PosInf => BIAS_MAX
  }

  predicate OverCurrentLimit(e: Emitter, current: real)
  {
    e.currentLimit.Some? && current > e.currentLimit.value
  }

  /**
   * `calculateRequiredVoltageDrop`: +infinity over a defined current limit
   * (tested first), -infinity for no current, and otherwise the technology
   * drop less the wanted bias capped at `BIAS_MAX`.
   */
  function RequiredVoltageDrop(e: Emitter, current: real): (r: ExtReal)
    ensures r.PosInf? <==> OverCurrentLimit(e, current)
    ensures r.NegInf? <==> !OverCurrentLimit(e, current) && current == 0.0
    ensures r.Finite? ==> current != 0.0 && r.value >= e.technologyVoltageDrop - BIAS_MAX
  {
    if OverCurrentLimit(e, current) then PosInf
    else if current == 0.0 then NegInf
    else Finite(e.technologyVoltageDrop - CapBias(WantedBias(e, current)))
  }

  // ---------------------------------------------------------------------
  // The branches of the boundary condition, each stated exactly.

  /** A defined current limit is checked before the zero-current test. */
  lemma OverLimitIsInfinite(e: Emitter, current: real)
    requires e.currentLimit.Some? && current > e.currentLimit.value
    ensures RequiredVoltageDrop(e, current) == PosInf
  {
  }

  /** No current within the limit needs an infinitely negative drop. */
  lemma ZeroCurrentIsNegInfinite(e: Emitter)
    requires e.currentLimit.None? || e.currentLimit.value >= 0.0
    ensures RequiredVoltageDrop(e, 0.0) == NegInf
  {
  }

  /** A set bias gives a drop independent of the current and of the power limit. */
  lemma FixedBiasDrop(e: Emitter, current: real)
    requires e.setBias.Some? && current != 0.0 && !OverCurrentLimit(e, current)
    ensures RequiredVoltageDrop(e, current) == Finite(e.technologyVoltageDrop - Min(e.setBias.value, BIAS_MAX))
  {
  }

  /** Without a set bias, the bias is the power limit over the current, capped. */
  lemma PowerLimitedDrop(e: Emitter, current: real)
    requires e.setBias.None? && e.powerLimit.Some?
    requires current != 0.0 && !OverCurrentLimit(e, current)
    ensures RequiredVoltageDrop(e, current) == Finite(e.technologyVoltageDrop - Min(e.powerLimit.value / current, BIAS_MAX))
  {
  }

  /** With neither a set bias nor a power limit the full `BIAS_MAX` is applied. */
  lemma UnlimitedDrop(e: Emitter, current: real)
    requires e.setBias.None? && e.powerLimit.None?
    requires current != 0.0 && !OverCurrentLimit(e, current)
    ensures RequiredVoltageDrop(e, current) == Finite(e.technologyVoltageDrop - BIAS_MAX)
  {
  }

  /**
   * So a thermionic cathode with only a current limit (its drop equals the
   * cap) needs no voltage at all for any current within that limit.
   */
  lemma UnlimitedThermionicNeedsNoVoltage(currentLimit: real, current: real)
    requires current != 0.0 && current <= currentLimit
    ensures RequiredVoltageDrop(ThermionicCathodeLimited(None, Some(currentLimit)), current) == Finite(0.0)
  {
  }

  /**
   * With a positive power limit, a larger current never needs a smaller drop
   * (less power per unit of current means less bias), as long as both
   * currents are positive and within the limit.
   */
  lemma {:induction false} PowerLimitedMonotone(e: Emitter, c1: real, c2: real)
    requires e.setBias.None? && e.powerLimit.Some? && e.powerLimit.value > 0.0
    requires 0.0 < c1 <= c2 && !OverCurrentLimit(e, c2)
    ensures RequiredVoltageDrop(e, c1).Finite? && RequiredVoltageDrop(e, c2).Finite?
    ensures RequiredVoltageDrop(e, c1).value <= RequiredVoltageDrop(e, c2).value
  {
    var p := e.powerLimit.value;
    DivideMonotone(p, c1, c2);
    assert !OverCurrentLimit(e, c1);
  }

  lemma DivideMonotone(p: real, c1: real, c2: real)
    requires p > 0.0 && 0.0 < c1 <= c2
    ensures p / c2 <= p / c1
  {
    var q1 := p / c1;
    var q2 := p / c2;
    assert q1 * c1 == p;
    assert q2 * c2 == p;
    if q2 > q1 {
      assert q2 * c2 > q1 * c2;
      assert q1 * c2 >= q1 * c1;
    }
  }

  /**
   * Under a power limit and with no set bias, the final operating point at
   * the required drop never draws more than the power limit.
   */
  lemma {:induction false} PowerLimitRespected(e: Emitter, current: real)
    requires e.setBias.None? && e.powerLimit.Some? && e.powerLimit.value >= 0.0
    requires current > 0.0 && !OverCurrentLimit(e, current)
    ensures RequiredVoltageDrop(e, current).Finite?
    ensures FinalResult(e, current, RequiredVoltageDrop(e, current).value).powerUsage <= e.powerLimit.value
  {
    var p := e.powerLimit.value;
    var b := Min(p / current, BIAS_MAX);
    assert b >= 0.0;
    assert (p / current) * current == p;
    assert b * current <= (p / current) * current;
  }
}
