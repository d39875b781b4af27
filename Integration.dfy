/**
 * The pieces of the fourth-order Runge-Kutta integrator that both revisions
 * of the orbital simulation share: the stage derivative, the weighted
 * combination of four stages, and the bookkeeping of time in whole
 * nanoseconds (Java `long`s).
 */
module Integration {
  import opened Vectors

  /** The rate of change of a state: position changes by `dp`, velocity by `dv`. */
  datatype Derivative = Derivative(dp: Vec3, dv: Vec3)

  /** The reference RK4 weighting `(a + 2b + 2c + d) / 6`, written out componentwise. */
  function WeightedMean(a: Vec3, b: Vec3, c: Vec3, d: Vec3): Vec3
  {
    Vec3((a.x + 2.0 * b.x + 2.0 * c.x + d.x) / 6.0,
         (a.y + 2.0 * b.y + 2.0 * c.y + d.y) / 6.0,
         (a.z + 2.0 * b.z + 2.0 * c.z + d.z) / 6.0)
  }

  /**
   * The four-stage `Derivative` constructor, computed as the source chains
   * it (`scaleAdd`, `scaleAdd`, `add`, `scale`); it is the RK4 weighting
   * of both the position and the velocity rates.
   */
  function Combine(a: Derivative, b: Derivative, c: Derivative, d: Derivative): (r: Derivative)
    ensures r.dp == WeightedMean(a.dp, b.dp, c.dp, d.dp)
    ensures r.dv == WeightedMean(a.dv, b.dv, c.dv, d.dv)
  {
    Derivative(Scale(Add(ScaleAdd(ScaleAdd(a.dp, b.dp, 2.0), c.dp, 2.0), d.dp), 1.0 / 6.0),
               Scale(Add(ScaleAdd(ScaleAdd(a.dv, b.dv, 2.0), c.dv, 2.0), d.dv), 1.0 / 6.0))
  }

  /** Four equal stage derivatives combine to that same derivative. */
  lemma CombineConstant(d: Derivative)
    ensures Combine(d, d, d, d) == d
  {
    assert WeightedMean(d.dp, d.dp, d.dp, d.dp) == d.dp;
    assert WeightedMean(d.dv, d.dv, d.dv, d.dv) == d.dv;
  }

  /** Nanoseconds as the seconds the state update scales by (`nanos / 1e9`). */
  function Seconds(nanos: int): real
  {
    nanos as real / 1000000000.0
  }

  /**
   * Java's `nanos / 2` on a `long`, which rounds toward zero (Dafny's own
   * division on `int` rounds toward negative infinity).
   */
  function Half(n: int): (r: int)
    ensures n >= 0 ==> 0 <= n - 2 * r <= 1
    ensures n < 0 ==> -1 <= n - 2 * r <= 0
  {
    if n >= 0 then n / 2 else -((-n) / 2)
  }

  /** Halving is symmetric: truncation toward zero treats `n` and `-n` alike. */
  lemma HalfIsOdd(n: int)
    ensures Half(-n) == -Half(n)
  {
  }

  function Sum(s: seq<int>): int
  {
    if |s| == 0 then 0 else Sum(s[..|s| - 1]) + s[|s| - 1]
  }

  lemma {:induction false} SumAppend(s: seq<int>, t: seq<int>)
    ensures Sum(s + t) == Sum(s) + Sum(t)
    decreases |t|
  {
    if |t| == 0 {
      assert s + t == s;
    } else {
      var t' := t[..|t| - 1];
      assert (s + t)[..|s + t| - 1] == s + t';
      SumAppend(s, t');
    }
  }

  /**
   * The durations of the `stepImpl` calls `step(nanos)` makes: full time
   * steps while more than one time step remains, then the remainder. The
   * loop ends only if the time step is positive or no full step is needed.
   */
  function SubSteps(nanos: int, timeStep: int): (r: seq<int>)
    requires timeStep > 0 || nanos <= timeStep
    ensures |r| >= 1
    ensures Sum(r) == nanos
    ensures forall i :: 0 <= i < |r| - 1 ==> r[i] == timeStep
    ensures nanos > 0 ==> 0 < r[|r| - 1] <= timeStep
    ensures nanos <= timeStep ==> r == [nanos]
    decreases if nanos > timeStep then nanos else 0
  {
    if nanos > timeStep then
      var rest := SubSteps(nanos - timeStep, timeStep);
      SumAppend([timeStep], rest);
      assert Sum([timeStep]) == timeStep;
      [timeStep] + rest
    else
      assert Sum([nanos]) == Sum([]) + nanos;
      [nanos]
  }

  /** With more than one time step to go, a full step comes first, then the steps for the rest. */
  lemma SubStepsFirst(nanos: int, timeStep: int)
    requires timeStep > 0 && nanos > timeStep
    ensures SubSteps(nanos, timeStep) == [timeStep] + SubSteps(nanos - timeStep, timeStep)
  {
  }
}
