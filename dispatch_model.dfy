/** The mixed-integer program of app/milp_solver.py, lines 78-130: decision
    variables with their bounds, the charge/discharge indicators, the energy
    balance and the state-of-charge recurrence, stated as a predicate over a
    candidate schedule, and the objective the solver minimises. */
module DispatchModel {
  import opened DispatchInputs
  import opened DispatchHorizon

  /** The battery scalars every interval shares. */
  datatype Battery = Battery(capacity: real, socStart: real, maxCharge: real, maxDischarge: real)

  function BatteryOf(p: Plant): (b: Battery)
    requires ValidPlant(p)
    ensures ValidBattery(b)
    ensures b.socStart == SocStart(p)
  {
    SocStartInRange(p);
    Battery(p.capacity, SocStart(p), p.maxCharge, p.maxDischarge)
  }

  predicate ValidBattery(b: Battery)
  {
    0.0 <= b.socStart <= b.capacity && b.maxCharge >= 0.0 && b.maxDischarge >= 0.0
  }

  /** The values of `export_mw_k`, `charge_mw_k`, `discharge_mw_k`, `curtailment_mw_k`. */
  datatype Decision = Decision(exportMw: real, charge: real, discharge: real, curtailment: real)

  /** A candidate assignment: one decision per interval and `soc_mwh_0 .. soc_mwh_N`. */
  datatype Schedule = Schedule(steps: seq<Decision>, soc: seq<real>)

  /** The value of a `BoolVar`. */
  function Indicator(y: bool): real
  {
    if y then 1.0 else 0.0
  }

  /** Lines 105-109 for one interval, given values for `y_charge` and `y_discharge`. */
  predicate Gated(d: Decision, b: Battery, yCharge: bool, yDischarge: bool)
  {
    && Indicator(yCharge) + Indicator(yDischarge) <= 1.0
    && d.charge <= b.maxCharge * Indicator(yCharge)
    && d.discharge <= b.maxDischarge * Indicator(yDischarge)
  }

  /** Some choice of the two indicators satisfies lines 107-109. */
  ghost predicate Exclusive(d: Decision, b: Battery)
  {
    exists yc, yd :: Gated(d, b, yc, yd)
  }

  /** The `NumVar` bounds of lines 85-98 for one interval. */
  predicate WithinBounds(s: Step, b: Battery, d: Decision)
  {
    && 0.0 <= d.charge <= b.maxCharge
    && 0.0 <= d.discharge <= b.maxDischarge
    && 0.0 <= d.exportMw <= s.gridLimitMw
    && 0.0 <= d.curtailment
  }

  /** Lines 116-119. */
  predicate Balanced(s: Step, d: Decision)
  {
    d.exportMw + d.charge + d.curtailment == s.mwForecast + d.discharge
  }

  /** Every constraint the program adds (lines 85-122); the indicators are chosen existentially. */
  ghost predicate Feasible(h: seq<Step>, b: Battery, s: Schedule)
  {
    && |s.steps| == |h|
    && |s.soc| == |h| + 1
    && (forall k :: 0 <= k < |h| ==> WithinBounds(h[k], b, s.steps[k]))
    && (forall k :: 0 <= k < |s.soc| ==> 0.0 <= s.soc[k] <= b.capacity)
    && (forall k :: 0 <= k < |h| ==> Exclusive(s.steps[k], b))
    && s.soc[0] == b.socStart
    && (forall k :: 0 <= k < |h| ==> Balanced(h[k], s.steps[k]))
    && (forall k :: 0 <= k < |h| ==> s.soc[k + 1] == s.soc[k] + s.steps[k].charge - s.steps[k].discharge)
  }

  /** The indicator constraints allow exactly the rates that are within their limits and
      of which at least one is zero. */
  lemma GatingIsMutualExclusion(d: Decision, b: Battery)
    requires d.charge >= 0.0 && d.discharge >= 0.0
    requires b.maxCharge >= 0.0 && b.maxDischarge >= 0.0
    ensures Exclusive(d, b) <==>
              (d.charge <= b.maxCharge && d.discharge <= b.maxDischarge
               && (d.charge == 0.0 || d.discharge == 0.0))
  {
    if d.charge <= b.maxCharge && d.discharge <= b.maxDischarge {
      if d.charge == 0.0 {
        assert Gated(d, b, false, true);
      } else if d.discharge == 0.0 {
        assert Gated(d, b, true, false);
      }
    }
  }

  /** What every feasible schedule satisfies in each interval: the variable bounds,
      mutual exclusion of charging and discharging, the energy balance, and the
      state-of-charge bounds at both ends of the interval. */
  lemma FeasibleInterval(h: seq<Step>, b: Battery, s: Schedule, k: nat)
    requires Feasible(h, b, s)
    requires k < |h|
    ensures 0.0 <= s.steps[k].exportMw <= h[k].gridLimitMw
    ensures 0.0 <= s.steps[k].charge <= b.maxCharge
    ensures 0.0 <= s.steps[k].discharge <= b.maxDischarge
    ensures s.steps[k].curtailment >= 0.0
    ensures s.steps[k].charge == 0.0 || s.steps[k].discharge == 0.0
    ensures s.steps[k].exportMw + s.steps[k].charge + s.steps[k].curtailment
              == h[k].mwForecast + s.steps[k].discharge
    ensures 0.0 <= s.soc[k] <= b.capacity && 0.0 <= s.soc[k + 1] <= b.capacity
    ensures s.soc[0] == b.socStart
  {
    assert WithinBounds(h[k], b, s.steps[k]) && Balanced(h[k], s.steps[k]);
    GatingIsMutualExclusion(s.steps[k], b);
  }

  /** Net energy moved into the battery over the first `k` intervals. */
  function NetCharge(steps: seq<Decision>, k: nat): real
    requires k <= |steps|
  {
    if k == 0 then 0.0 else NetCharge(steps, k - 1) + steps[k - 1].charge - steps[k - 1].discharge
  }

  /** The state-of-charge recurrence telescopes: `soc[k]` is the initial energy plus
      everything charged minus everything discharged before interval `k`. */
  lemma {:induction false} SocTelescopes(h: seq<Step>, b: Battery, s: Schedule, k: nat)
    requires Feasible(h, b, s)
    requires k <= |h|
    ensures s.soc[k] == b.socStart + NetCharge(s.steps, k)
  {
    if k > 0 {
      SocTelescopes(h, b, s, k - 1);
    }
  }

  /** Every variable of a feasible schedule is bounded; curtailment, whose own bound is
      infinite, is held by the balance row to at most forecast plus discharge limit.
      So the feasible region is bounded and the objective cannot be unbounded. */
  lemma FeasibleRegionBounded(h: seq<Step>, b: Battery, s: Schedule, k: nat)
    requires Feasible(h, b, s)
    requires k < |h|
    ensures s.steps[k].curtailment <= h[k].mwForecast + b.maxDischarge
  {
    assert WithinBounds(h[k], b, s.steps[k]) && Balanced(h[k], s.steps[k]);
  }

  function Min(x: real, y: real): real
  {
    if x <= y then x else y
  }

  /** The schedule that never cycles the battery, exports what the cap allows and
      curtails the rest, holding the state of charge at its initial value. */
  function NoCycling(h: seq<Step>, b: Battery): (s: Schedule)
    ensures |s.steps| == |h| && |s.soc| == |h| + 1
  {
    Schedule(
      seq(|h|, k requires 0 <= k < |h| =>
        Decision(Min(h[k].mwForecast, h[k].gridLimitMw), 0.0, 0.0,
                 h[k].mwForecast - Min(h[k].mwForecast, h[k].gridLimitMw))),
      seq(|h| + 1, k => b.socStart))
  }

  /** The program is never infeasible for a well-formed horizon and a valid battery:
      the no-cycling schedule satisfies every constraint. */
  lemma NoCyclingFeasible(h: seq<Step>, b: Battery)
    requires WellFormed(h)
    requires ValidBattery(b)
    ensures Feasible(h, b, NoCycling(h, b))
  {
    var s := NoCycling(h, b);
    forall k | 0 <= k < |h|
      ensures WithinBounds(h[k], b, s.steps[k]) && Balanced(h[k], s.steps[k])
      ensures Exclusive(s.steps[k], b)
    {
      assert Gated(s.steps[k], b, false, false);
    }
  }

  /** The objective of lines 125-130. */
  function Objective(h: seq<Step>, steps: seq<Decision>): real
    requires |steps| == |h|
  {
    if h == [] then 0.0
    else
      var last := |h| - 1;
      Objective(h[..last], steps[..last])
        + h[last].curtailmentWeight * steps[last].curtailment
        + h[last].cyclePenalty * steps[last].charge
        + h[last].cyclePenalty * steps[last].discharge
  }

  /** With non-negative weights the objective of a feasible schedule is non-negative. */
  lemma ObjectiveNonNegative(h: seq<Step>, b: Battery, s: Schedule)
    requires Feasible(h, b, s)
    requires forall k :: 0 <= k < |h| ==> h[k].curtailmentWeight >= 0.0 && h[k].cyclePenalty >= 0.0
    ensures Objective(h, s.steps) >= 0.0
  {
    assert forall k :: 0 <= k < |h| ==> WithinBounds(h[k], b, s.steps[k]);
    WeightedSumNonNegative(h, s.steps);
  }

  lemma {:induction false} WeightedSumNonNegative(h: seq<Step>, steps: seq<Decision>)
    requires |steps| == |h|
    requires forall k :: 0 <= k < |h| ==> h[k].curtailmentWeight >= 0.0 && h[k].cyclePenalty >= 0.0
    requires forall k :: 0 <= k < |h| ==>
               steps[k].curtailment >= 0.0 && steps[k].charge >= 0.0 && steps[k].discharge >= 0.0
    ensures Objective(h, steps) >= 0.0
  {
    if h != [] {
      var last := |h| - 1;
      WeightedSumNonNegative(h[..last], steps[..last]);
      var w, c := h[last].curtailmentWeight, steps[last].curtailment;
      assert w * c >= 0.0;
      var q := h[last].cyclePenalty;
      assert q * steps[last].charge >= 0.0 && q * steps[last].discharge >= 0.0;
    }
  }
}
