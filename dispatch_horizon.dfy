/** Horizon building (app/milp_solver.py, lines 44-76): `dispatch_intervals`
    becomes a list of normalised steps, or a single step "t0" built from the
    top-level scalars when no intervals are given. */
module DispatchHorizon {
  import opened Wrappers
  import opened Text
  import opened DispatchInputs

  /** One normalised entry of `horizon`. */
  datatype Step = Step(
    mwForecast: real,
    gridLimitMw: real,
    curtailmentWeight: real,
    cyclePenalty: real,
    labelText: string,
    irradianceFactor: Option<real>,
    forecastConfidence: Option<real>)

  /** The `TypeError` raised by `float(None)` for interval `index` and dictionary key `key`. */
  datatype FieldError = NullValue(index: nat, key: string)

  /** Every forecast and every grid cap is non-negative. */
  predicate WellFormed(h: seq<Step>)
  {
    forall k :: 0 <= k < |h| ==> h[k].mwForecast >= 0.0 && h[k].gridLimitMw >= 0.0
  }

  /** `f"t{idx}"`. */
  function DefaultLabel(idx: nat): string
  {
    "t" + Decimal(idx)
  }

  /** `d.get(key, default)` followed by `float(...)`: `None` when `float(None)` would raise. */
  function Lookup(f: Field<real>, default: real): (r: Option<real>)
    ensures r.None? <==> f.Null?
    ensures f.Absent? ==> r == Some(default)
    ensures f.Given? ==> r == Some(f.value)
  {
    match f
    case Absent => Some(default)
    case Null => None
    case Given(v) => Some(v)
  }

  /** One iteration of the loop at lines 46-62, for interval `idx`: it fails exactly when
      one of the three converted entries is an explicit `None`, and otherwise yields a
      step with a non-negative forecast and a non-negative grid cap. */
  function StepOf(p: Plant, iv: IntervalInput, idx: nat): (r: Result<Step, FieldError>)
    requires ValidPlant(p)
    ensures r.Ok? <==> !iv.mwForecast.Null? && !iv.curtailmentWeight.Null? && !iv.cyclePenalty.Null?
    ensures r.Ok? ==> r.value.mwForecast >= 0.0 && r.value.gridLimitMw >= 0.0
  {
    match Lookup(iv.mwForecast, p.mwForecast)
    case None => Err(NullValue(idx, "mw_forecast"))
    case Some(forecast) =>
      var mw := NonNeg(forecast);
      var cap := NonNeg(if iv.gridLimitMw.Some? then iv.gridLimitMw.value else 0.9 * mw);
      match Lookup(iv.curtailmentWeight, p.curtailmentWeight)
      case None => Err(NullValue(idx, "curtailment_weight"))
      case Some(weight) =>
        match Lookup(iv.cyclePenalty, p.cyclePenalty)
        case None => Err(NullValue(idx, "cycle_penalty"))
        case Some(penalty) =>
          var name := if iv.labelText.Some? then iv.labelText.value else DefaultLabel(idx);
          Ok(Step(mw, cap, weight, penalty, name, iv.irradianceFactor, iv.forecastConfidence))
  }

  /** How a converted step is filled in: a missing forecast, weight or penalty takes the
      top-level value, a given forecast or cap is floored at zero, a missing cap is 90% of
      the interval's own clamped forecast, a missing label is `t{idx}`, and the two
      diagnostic fields are passed through. */
  lemma StepOfDefaults(p: Plant, iv: IntervalInput, idx: nat)
    requires ValidPlant(p)
    requires StepOf(p, iv, idx).Ok?
    ensures var s := StepOf(p, iv, idx).value;
            && (iv.mwForecast.Absent? ==> s.mwForecast == p.mwForecast)
            && (iv.mwForecast.Given? ==> s.mwForecast == NonNeg(iv.mwForecast.value))
            && (iv.gridLimitMw.None? ==> s.gridLimitMw == 0.9 * s.mwForecast)
            && (iv.gridLimitMw.Some? ==> s.gridLimitMw == NonNeg(iv.gridLimitMw.value))
            && (iv.curtailmentWeight.Absent? ==> s.curtailmentWeight == p.curtailmentWeight)
            && (iv.curtailmentWeight.Given? ==> s.curtailmentWeight == iv.curtailmentWeight.value)
            && (iv.cyclePenalty.Absent? ==> s.cyclePenalty == p.cyclePenalty)
            && (iv.cyclePenalty.Given? ==> s.cyclePenalty == iv.cyclePenalty.value)
            && s.labelText == (if iv.labelText.Some? then iv.labelText.value else DefaultLabel(idx))
            && s.irradianceFactor == iv.irradianceFactor
            && s.forecastConfidence == iv.forecastConfidence
  {
  }

  /** A failing conversion names its interval and the first explicit `None` in the order
      the source converts them: forecast, then curtailment weight, then cycle penalty. */
  lemma StepOfError(p: Plant, iv: IntervalInput, idx: nat)
    requires ValidPlant(p)
    requires StepOf(p, iv, idx).Err?
    ensures StepOf(p, iv, idx).error ==
              if iv.mwForecast.Null? then NullValue(idx, "mw_forecast")
              else if iv.curtailmentWeight.Null? then NullValue(idx, "curtailment_weight")
              else NullValue(idx, "cycle_penalty")
  {
  }

  /** The per-interval path ignores the top-level `grid_limit_mw`. */
  lemma StepIgnoresTopLevelGrid(p: Plant, q: Plant, iv: IntervalInput, idx: nat)
    requires ValidPlant(p) && ValidPlant(q)
    requires p.(defaultGridLimit := q.defaultGridLimit) == q
    ensures StepOf(p, iv, idx) == StepOf(q, iv, idx)
  {
  }

  /** The horizon built from the first `n` intervals; the first failing interval's error otherwise. */
  function Steps(p: Plant, ivs: seq<IntervalInput>, n: nat): Result<seq<Step>, FieldError>
    requires ValidPlant(p)
    requires n <= |ivs|
  {
    if n == 0 then Ok([])
    else
      match Steps(p, ivs, n - 1)
      case Err(e) => Err(e)
      case Ok(h) =>
        match StepOf(p, ivs[n - 1], n - 1)
        case Err(e) => Err(e)
        case Ok(s) => Ok(h + [s])
  }

  /** The step of the single-interval path (lines 64-72). */
  function SingleStep(p: Plant): Step
  {
    Step(p.mwForecast, p.defaultGridLimit, p.curtailmentWeight, p.cyclePenalty, "t0", None, None)
  }

  /** `horizon` as built at lines 44-72: `if dispatch_intervals:` is false for `None` and for `[]`. */
  function Horizon(p: Plant, intervals: Option<seq<IntervalInput>>): Result<seq<Step>, FieldError>
    requires ValidPlant(p)
  {
    if intervals.None? || intervals.value == [] then Ok([SingleStep(p)])
    else Steps(p, intervals.value, |intervals.value|)
  }

  /** Once an interval fails, later intervals are not looked at: the error stays the first one. */
  lemma {:induction false} StepsErrorSticks(p: Plant, ivs: seq<IntervalInput>, n: nat, m: nat)
    requires ValidPlant(p)
    requires n <= m <= |ivs|
    requires Steps(p, ivs, n).Err?
    ensures Steps(p, ivs, m) == Steps(p, ivs, n)
  {
    if m > n {
      StepsErrorSticks(p, ivs, n, m - 1);
    }
  }

  /** Steps succeeds exactly when every interval converts, and then holds one step per
      interval in input order. */
  lemma {:induction false} StepsOk(p: Plant, ivs: seq<IntervalInput>, n: nat)
    requires ValidPlant(p)
    requires n <= |ivs|
    ensures Steps(p, ivs, n).Ok? <==> forall k :: 0 <= k < n ==> StepOf(p, ivs[k], k).Ok?
    ensures Steps(p, ivs, n).Ok? ==>
              && |Steps(p, ivs, n).value| == n
              && forall k :: 0 <= k < n ==> StepOf(p, ivs[k], k) == Ok(Steps(p, ivs, n).value[k])
  {
    if n > 0 {
      StepsOk(p, ivs, n - 1);
      var before := Steps(p, ivs, n - 1);
      var last := StepOf(p, ivs[n - 1], n - 1);
      if before.Ok? && last.Ok? {
        assert Steps(p, ivs, n).value == before.value + [last.value];
      }
    }
  }

  /** A failing Steps reports the error of the first interval that does not convert. */
  lemma {:induction false} StepsFirstError(p: Plant, ivs: seq<IntervalInput>, n: nat)
    requires ValidPlant(p)
    requires n <= |ivs|
    requires Steps(p, ivs, n).Err?
    ensures exists k :: 0 <= k < n && StepOf(p, ivs[k], k) == Err(Steps(p, ivs, n).error)
                        && forall j :: 0 <= j < k ==> StepOf(p, ivs[j], j).Ok?
  {
    var e := Steps(p, ivs, n).error;
    if Steps(p, ivs, n - 1).Err? {
      StepsFirstError(p, ivs, n - 1);
    } else {
      StepsOk(p, ivs, n - 1);
      assert StepOf(p, ivs[n - 1], n - 1) == Err(e);
    }
  }

  /** The horizon is never empty: no input reaches the `ValueError` of line 76. With no
      intervals it is the single step "t0"; otherwise it has one step per input interval,
      each converted by StepOf at its own index, and every step is well formed. */
  lemma HorizonShape(p: Plant, intervals: Option<seq<IntervalInput>>)
    requires ValidPlant(p)
    ensures Horizon(p, intervals).Ok? ==> |Horizon(p, intervals).value| >= 1
    ensures Horizon(p, intervals).Ok? ==> WellFormed(Horizon(p, intervals).value)
    ensures intervals.None? || intervals == Some([]) ==>
              Horizon(p, intervals) == Ok([SingleStep(p)])
    ensures intervals.Some? && intervals.value != [] ==>
              && (Horizon(p, intervals).Ok? <==>
                    forall k :: 0 <= k < |intervals.value| ==> StepOf(p, intervals.value[k], k).Ok?)
              && (Horizon(p, intervals).Ok? ==>
                    && |Horizon(p, intervals).value| == |intervals.value|
                    && forall k :: 0 <= k < |intervals.value| ==>
                         StepOf(p, intervals.value[k], k) == Ok(Horizon(p, intervals).value[k]))
  {
    if intervals.Some? && intervals.value != [] {
      StepsOk(p, intervals.value, |intervals.value|);
    }
  }

  /** Intervals without their own label receive pairwise distinct default labels. */
  lemma DefaultLabelsDistinct(i: nat, j: nat)
    requires i != j
    ensures DefaultLabel(i) != DefaultLabel(j)
  {
    assert DefaultLabel(i)[1..] == Decimal(i);
    assert DefaultLabel(j)[1..] == Decimal(j);
  }

  /** The loop of lines 44-72, appending one step per interval to `horizon`. */
  method BuildHorizon(p: Plant, intervals: Option<seq<IntervalInput>>)
    returns (r: Result<seq<Step>, FieldError>)
    requires ValidPlant(p)
    ensures r == Horizon(p, intervals)
    ensures r.Ok? ==> |r.value| >= 1 && WellFormed(r.value)
  {
    HorizonShape(p, intervals);
    if intervals.None? || intervals.value == [] {
      r := Ok([SingleStep(p)]);
      return;
    }
    var ivs := intervals.value;
    var horizon: seq<Step> := [];
    var idx := 0;
    while idx < |ivs|
      invariant 0 <= idx <= |ivs|
      invariant Steps(p, ivs, idx) == Ok(horizon)
    {
      var step := StepOf(p, ivs[idx], idx);
      if step.Err? {
        StepsErrorSticks(p, ivs, idx + 1, |ivs|);
        r := Err(step.error);
        return;
      }
      horizon := horizon + [step.value];
      idx := idx + 1;
    }
    r := Ok(horizon);
  }
}
