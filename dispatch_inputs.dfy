/** The scalar arguments of `solve_dispatch` and the clamps applied to them
    before anything else happens (app/milp_solver.py, lines 14-42). */
module DispatchInputs {
  import opened Wrappers

  /** An optional entry of an interval dictionary read with `float(d.get(key, default))`:
      a missing key falls back to the default, a key present with value `None`
      makes `float` raise `TypeError`. */
  datatype Field<+T> = Absent | Null | Given(value: T)

  /** One element of `dispatch_intervals`. `grid_limit_mw` is read with a bare
      `get`, so a missing key and an explicit `None` both mean "no cap given";
      the two pass-through fields are never converted. */
  datatype IntervalInput = IntervalInput(
    mwForecast: Field<real>,
    gridLimitMw: Option<real>,
    curtailmentWeight: Field<real>,
    cyclePenalty: Field<real>,
    labelText: Option<string>,  // the "label" key
    irradianceFactor: Option<real>,
    forecastConfidence: Option<real>)

  /** The keyword arguments of `solve_dispatch`, as the caller passed them. */
  datatype Request = Request(
    mwForecast: real,
    bessSoc: real,
    bessCapacityMwh: real,
    maxChargeMw: real,
    maxDischargeMw: real,
    gridLimitMw: Option<real>,
    curtailmentWeight: real,
    cyclePenalty: real,
    dispatchIntervals: Option<seq<IntervalInput>>)

  /** A call `solve_dispatch(mw_forecast)` with every other argument left at its default. */
  function DefaultRequest(mwForecast: real): Request
  {
    Request(mwForecast, 0.35, 50.0, 5.0, 5.0, None, 1000.0, 1.0, None)
  }

  /** The scalars after the clamps of lines 36-42. The weights are not clamped. */
  datatype Plant = Plant(
    mwForecast: real,
    bessSoc: real,
    capacity: real,
    maxCharge: real,
    maxDischarge: real,
    defaultGridLimit: real,
    curtailmentWeight: real,
    cyclePenalty: real)

  /** Python's `max(x, 0.0)`. */
  function NonNeg(x: real): (r: real)
    ensures r >= 0.0 && r >= x
    ensures r == x || r == 0.0
  {
    if 0.0 > x then 0.0 else x
  }

  /** Python's `max(min(x, 1.0), 0.0)`. */
  function UnitClamp(x: real): (r: real)
    ensures 0.0 <= r <= 1.0
    ensures 0.0 <= x <= 1.0 ==> r == x
    ensures x < 0.0 ==> r == 0.0
    ensures x > 1.0 ==> r == 1.0
  {
    var upper := if x > 1.0 then 1.0 else x;
    if 0.0 > upper then 0.0 else upper
  }

  /** The invariant every later stage relies on. */
  predicate ValidPlant(p: Plant)
  {
    && p.mwForecast >= 0.0
    && 0.0 <= p.bessSoc <= 1.0
    && p.capacity >= 0.0
    && p.maxCharge >= 0.0
    && p.maxDischarge >= 0.0
    && p.defaultGridLimit >= 0.0
  }

  /** Input normalisation: every scalar is moved into its safe range, values
      already in range are kept, and the single-interval grid cap is the given
      cap floored at zero, or 90% of the clamped forecast when none is given. */
  function Normalize(req: Request): (p: Plant)
    ensures ValidPlant(p)
    ensures req.mwForecast >= 0.0 ==> p.mwForecast == req.mwForecast
    ensures req.mwForecast < 0.0 ==> p.mwForecast == 0.0
    ensures 0.0 <= req.bessSoc <= 1.0 ==> p.bessSoc == req.bessSoc
    ensures req.bessCapacityMwh >= 0.0 ==> p.capacity == req.bessCapacityMwh
    ensures req.maxChargeMw >= 0.0 ==> p.maxCharge == req.maxChargeMw
    ensures req.maxDischargeMw >= 0.0 ==> p.maxDischarge == req.maxDischargeMw
    ensures req.gridLimitMw.Some? ==> p.defaultGridLimit == NonNeg(req.gridLimitMw.value)
    ensures req.gridLimitMw.None? ==> p.defaultGridLimit == 0.9 * p.mwForecast
    ensures p.curtailmentWeight == req.curtailmentWeight && p.cyclePenalty == req.cyclePenalty
  {
    var mw := NonNeg(req.mwForecast);
    Plant(
      mw,
      UnitClamp(req.bessSoc),
      NonNeg(req.bessCapacityMwh),
      NonNeg(req.maxChargeMw),
      NonNeg(req.maxDischargeMw),
      NonNeg(if req.gridLimitMw.Some? then req.gridLimitMw.value else 0.9 * mw),
      req.curtailmentWeight,
      req.cyclePenalty)
  }

  /** `soc_start = bess_soc * bess_capacity_mwh` (line 78). */
  function SocStart(p: Plant): real
  {
    p.bessSoc * p.capacity
  }

  /** The initial energy of a normalised plant lies within the battery's capacity. */
  lemma SocStartInRange(p: Plant)
    requires ValidPlant(p)
    ensures 0.0 <= SocStart(p) <= p.capacity
  {
    assert p.bessSoc * p.capacity <= 1.0 * p.capacity;
  }
}
