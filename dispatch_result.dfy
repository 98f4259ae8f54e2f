/** Result projection (app/milp_solver.py, lines 136-166): the solved values
    become one row per interval, and the first row and the final state of
    charge become the top-level summary. */
module DispatchResult {
  import opened Wrappers
  import opened DispatchHorizon
  import opened DispatchModel

  /** One element of `interval_results`. */
  datatype Row = Row(
    interval: nat,
    labelText: string,
    mwForecast: real,
    gridLimitMw: real,
    curtailmentWeight: real,
    cyclePenalty: real,
    irradianceFactor: Option<real>,
    forecastConfidence: Option<real>,
    dispatchMw: real,
    chargeMw: real,
    dischargeMw: real,
    curtailmentMw: real,
    socMwhEnd: real)

  /** The dictionary `solve_dispatch` returns. */
  datatype Dispatch = Dispatch(
    dispatchMw: real,
    chargeMw: real,
    dischargeMw: real,
    curtailmentMw: real,
    socMwh: real,
    intervals: seq<Row>)

  /** A schedule with one decision per step and one more state of charge. */
  predicate Shaped(h: seq<Step>, s: Schedule)
  {
    |s.steps| == |h| && |s.soc| == |h| + 1
  }

  /** The row appended at lines 139-154 for interval `idx`. */
  function RowOf(h: seq<Step>, s: Schedule, idx: nat): Row
    requires Shaped(h, s)
    requires idx < |h|
  {
    var st, d := h[idx], s.steps[idx];
    Row(idx, st.labelText, st.mwForecast, st.gridLimitMw, st.curtailmentWeight, st.cyclePenalty,
        st.irradianceFactor, st.forecastConfidence,
        d.exportMw, d.charge, d.discharge, d.curtailment, s.soc[idx + 1])
  }

  /** Lines 136-166 as a value: one row per step, in order, with the inputs passed
      through; the summary is interval 0 (zeros for an empty list) and the state of
      charge is the final one, `soc_vars[-1]`. */
  function Projection(h: seq<Step>, s: Schedule): (out: Dispatch)
    requires Shaped(h, s)
    ensures |out.intervals| == |h|
    ensures forall k :: 0 <= k < |h| ==>
              && out.intervals[k].interval == k
              && out.intervals[k].labelText == h[k].labelText
              && out.intervals[k].mwForecast == h[k].mwForecast
              && out.intervals[k].gridLimitMw == h[k].gridLimitMw
              && out.intervals[k].curtailmentWeight == h[k].curtailmentWeight
              && out.intervals[k].cyclePenalty == h[k].cyclePenalty
              && out.intervals[k].irradianceFactor == h[k].irradianceFactor
              && out.intervals[k].forecastConfidence == h[k].forecastConfidence
              && out.intervals[k].dispatchMw == s.steps[k].exportMw
              && out.intervals[k].chargeMw == s.steps[k].charge
              && out.intervals[k].dischargeMw == s.steps[k].discharge
              && out.intervals[k].curtailmentMw == s.steps[k].curtailment
              && out.intervals[k].socMwhEnd == s.soc[k + 1]
    ensures |h| > 0 ==>
              && out.dispatchMw == out.intervals[0].dispatchMw
              && out.chargeMw == out.intervals[0].chargeMw
              && out.dischargeMw == out.intervals[0].dischargeMw
              && out.curtailmentMw == out.intervals[0].curtailmentMw
    ensures |h| == 0 ==> out.dispatchMw == out.chargeMw == out.dischargeMw == out.curtailmentMw == 0.0
    ensures out.socMwh == s.soc[|h|]
  {
    var rows := seq(|h|, k requires 0 <= k < |h| => RowOf(h, s, k));
    Summarize(rows, s.soc[|h|])
  }

  /** Lines 157-166: `summary = interval_results[0] if interval_results else {}`,
      each missing summary entry defaulting to 0.0. */
  function Summarize(rows: seq<Row>, finalSoc: real): Dispatch
  {
    if rows == [] then Dispatch(0.0, 0.0, 0.0, 0.0, finalSoc, rows)
    else Dispatch(rows[0].dispatchMw, rows[0].chargeMw, rows[0].dischargeMw, rows[0].curtailmentMw,
                  finalSoc, rows)
  }

  /** The rows of a feasible schedule carry the solution invariants on their own fields:
      export within the row's cap, rates within their limits and never both positive,
      the energy balance, the state of charge within capacity and chained from the
      previous row (from the initial energy for row 0); the summary's state of charge
      is the initial energy plus the net charge over the whole horizon. */
  lemma ProjectionOfFeasible(h: seq<Step>, b: Battery, s: Schedule)
    requires Feasible(h, b, s)
    ensures Shaped(h, s)
    ensures forall k :: 0 <= k < |h| ==>
              var row := Projection(h, s).intervals[k];
              && 0.0 <= row.dispatchMw <= row.gridLimitMw
              && 0.0 <= row.chargeMw <= b.maxCharge
              && 0.0 <= row.dischargeMw <= b.maxDischarge
              && (row.chargeMw == 0.0 || row.dischargeMw == 0.0)
              && row.curtailmentMw >= 0.0
              && row.dispatchMw + row.chargeMw + row.curtailmentMw == row.mwForecast + row.dischargeMw
              && 0.0 <= row.socMwhEnd <= b.capacity
              && row.socMwhEnd
                   == (if k == 0 then b.socStart else Projection(h, s).intervals[k - 1].socMwhEnd)
                      + row.chargeMw - row.dischargeMw
    ensures Projection(h, s).socMwh == b.socStart + NetCharge(s.steps, |h|)
  {
    forall k | 0 <= k < |h|
      ensures s.steps[k].charge == 0.0 || s.steps[k].discharge == 0.0
      ensures s.steps[k].exportMw + s.steps[k].charge + s.steps[k].curtailment
                == h[k].mwForecast + s.steps[k].discharge
    {
      FeasibleInterval(h, b, s, k);
    }
    SocTelescopes(h, b, s, |h|);
  }

  /** The loop of lines 136-155 followed by the summary of lines 157-166. */
  method ProjectResult(h: seq<Step>, s: Schedule) returns (out: Dispatch)
    requires Shaped(h, s)
    ensures out == Projection(h, s)
  {
    var intervalResults: seq<Row> := [];
    for idx := 0 to |h|
      invariant |intervalResults| == idx
      invariant forall k :: 0 <= k < idx ==> intervalResults[k] == RowOf(h, s, k)
    {
      intervalResults := intervalResults + [RowOf(h, s, idx)];
    }
    out := Summarize(intervalResults, s.soc[|h|]);
  }
}
