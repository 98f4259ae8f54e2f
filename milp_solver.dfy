/** `solve_dispatch` of app/milp_solver.py end to end: clamp the inputs, build
    the horizon, hand the program to CBC, check the status and project the
    answer. CBC is not modelled: what it reports is a parameter, and all the
    model assumes of it is that an OPTIMAL or FEASIBLE answer satisfies the
    constraints it was given. */
module MilpSolver {
  import opened Wrappers
  import opened DispatchInputs
  import opened DispatchHorizon
  import M = DispatchModel
  import opened DispatchResult

  /** `pywraplp.Solver` result statuses. */
  datatype Status = Optimal | Feasible | Infeasible | Unbounded | Abnormal | ModelInvalid | NotSolved

  /** What the environment and CBC contribute to one call: whether `ortools` imported
      (lines 5-11), whether `CreateSolver("CBC")` returned a solver (line 80), the
      status `Solve()` returned (line 132) and the `solution_value()` of every variable. */
  datatype Cbc = Cbc(ortoolsImported: bool, solverCreated: bool, status: Status, answer: M.Schedule)

  /** The exceptions `solve_dispatch` raises. */
  datatype SolveError =
    | MissingOrtools            // ImportError, line 34
    | BadInterval(FieldError)   // TypeError from float(None), lines 47, 56, 57
    | EmptyHorizon              // ValueError, line 76
    | SolverNotCreated          // RuntimeError, line 82
    | SolveFailed(Status)       // RuntimeError, line 134

  /** Line 133. */
  predicate Accepted(st: Status)
  {
    st == Optimal || st == Feasible
  }

  /** The only promise taken from CBC: an accepted answer satisfies the program built for this request. */
  ghost predicate CbcContract(req: Request, cbc: Cbc)
  {
    var p := Normalize(req);
    var h := Horizon(p, req.dispatchIntervals);
    Accepted(cbc.status) && h.Ok? ==> M.Feasible(h.value, M.BatteryOf(p), cbc.answer)
  }

  /** `solve_dispatch`. It succeeds exactly when ortools is present, every interval converts,
      CBC is created and reports OPTIMAL or FEASIBLE; the result is then the projection of a
      schedule that satisfies every constraint. The empty-horizon error is never raised. */
  method SolveDispatch(req: Request, cbc: Cbc) returns (r: Result<Dispatch, SolveError>)
    requires CbcContract(req, cbc)
    ensures !cbc.ortoolsImported ==> r == Err(MissingOrtools)
    ensures r != Err(EmptyHorizon)
    ensures cbc.ortoolsImported && Horizon(Normalize(req), req.dispatchIntervals).Err? ==>
              r == Err(BadInterval(Horizon(Normalize(req), req.dispatchIntervals).error))
    ensures cbc.ortoolsImported && Horizon(Normalize(req), req.dispatchIntervals).Ok? ==>
              if !cbc.solverCreated then r == Err(SolverNotCreated)
              else if !Accepted(cbc.status) then r == Err(SolveFailed(cbc.status))
              else r.Ok?
    ensures r.Ok? ==>
              var p := Normalize(req);
              var h := Horizon(p, req.dispatchIntervals).value;
              && M.Feasible(h, M.BatteryOf(p), cbc.answer)
              && r.value == Projection(h, cbc.answer)
  {
    if !cbc.ortoolsImported {
      return Err(MissingOrtools);
    }
    var p := Normalize(req);
    var built := BuildHorizon(p, req.dispatchIntervals);
    if built.Err? {
      return Err(BadInterval(built.error));
    }
    var horizon := built.value;
    if |horizon| == 0 {
      return Err(EmptyHorizon);
    }
    if !cbc.solverCreated {
      return Err(SolverNotCreated);
    }
    if !Accepted(cbc.status) {
      return Err(SolveFailed(cbc.status));
    }
    var out := ProjectResult(horizon, cbc.answer);
    r := Ok(out);
  }

  /** Whatever the request, once its intervals convert the program has a feasible point
      (the no-cycling schedule), so a status other than OPTIMAL or FEASIBLE at line 133
      never comes from the constraints themselves. */
  lemma NeverInfeasible(req: Request)
    requires Horizon(Normalize(req), req.dispatchIntervals).Ok?
    ensures exists s :: M.Feasible(Horizon(Normalize(req), req.dispatchIntervals).value,
                                   M.BatteryOf(Normalize(req)), s)
  {
    var p := Normalize(req);
    var h := Horizon(p, req.dispatchIntervals).value;
    HorizonShape(p, req.dispatchIntervals);
    M.NoCyclingFeasible(h, M.BatteryOf(p));
  }

  /** `solve_dispatch(100.0, grid_limit_mw=90.0)` with every other argument at its default. */
  function ExampleRequest(): Request
  {
    DefaultRequest(100.0).(gridLimitMw := Some(90.0))
  }

  /** Export the cap, charge at the limit, curtail the remaining 5 MW: 17.5 MWh becomes 22.5 MWh. */
  function ExampleSchedule(): M.Schedule
  {
    M.Schedule([M.Decision(90.0, 5.0, 0.0, 5.0)], [17.5, 22.5])
  }

  /** The normalised plant of the example call. */
  lemma ExamplePlant()
    ensures Normalize(ExampleRequest()) == Plant(100.0, 0.35, 50.0, 5.0, 5.0, 90.0, 1000.0, 1.0)
    ensures M.BatteryOf(Normalize(ExampleRequest())) == M.Battery(50.0, 17.5, 5.0, 5.0)
  {
  }

  /** For the example call the horizon is the single step "t0", and exporting the cap
      while charging at the limit satisfies every constraint at objective 5005. */
  lemma ExampleFeasible()
    ensures Horizon(Normalize(ExampleRequest()), None) == Ok([SingleStep(Normalize(ExampleRequest()))])
    ensures var p := Normalize(ExampleRequest());
            && M.Feasible([SingleStep(p)], M.BatteryOf(p), ExampleSchedule())
            && M.Objective([SingleStep(p)], ExampleSchedule().steps) == 5005.0
  {
    ExamplePlant();
    var p := Normalize(ExampleRequest());
    var h := [SingleStep(p)];
    var b := M.BatteryOf(p);
    assert M.Gated(ExampleSchedule().steps[0], b, true, false);
    assert h[..0] == [];
  }

  /** Every feasible schedule of the example call costs at least 5005, and only the
      schedule that exports the cap and charges at the limit costs exactly that: an
      OPTIMAL answer for this call is that schedule, ending at 22.5 MWh. */
  lemma ExampleOptimum(s: M.Schedule)
    requires var p := Normalize(ExampleRequest()); M.Feasible([SingleStep(p)], M.BatteryOf(p), s)
    ensures var h := [SingleStep(Normalize(ExampleRequest()))];
            && M.Objective(h, s.steps) >= 5005.0
            && (M.Objective(h, s.steps) == 5005.0 ==> s == ExampleSchedule())
  {
    ExamplePlant();
    var p := Normalize(ExampleRequest());
    var h := [SingleStep(p)];
    var b := M.BatteryOf(p);
    M.FeasibleInterval(h, b, s, 0);
    var d := s.steps[0];
    assert h[..0] == [] && s.steps[..0] == [];
    assert M.Objective(h, s.steps) == 1000.0 * d.curtailment + d.charge + d.discharge;
    if M.Objective(h, s.steps) == 5005.0 {
      assert d == ExampleSchedule().steps[0];
      assert s.soc == [17.5, 22.5];
      assert s.steps == [d];
    }
  }
}
