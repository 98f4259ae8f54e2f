# Verified model of the BESS dispatch optimiser and the `.env` converter

This project is a Dafny model of two pieces of a solar-plant assistant:

* `solve_dispatch` in `app/milp_solver.py`. It plans the battery (BESS) dispatch over one or more
  one-hour intervals and tries to keep curtailment low. The model covers:
  * the input clamps (`DispatchInputs`);
  * the horizon builder with its per-interval defaults and its null-value
    errors (`DispatchHorizon`);
  * the mixed-integer constraint system, written as the predicate `Feasible`, and the
    objective (`DispatchModel`);
  * the projection of a solution into the result dictionary (`DispatchResult`);
  * the whole call, including its error cases (`MilpSolver`).

  The CBC solver is a parameter. The only thing assumed about it is that an
  `OPTIMAL` or `FEASIBLE` status comes with an answer that satisfies every constraint the
  code adds. Optimality of that answer is never assumed.
* The line parser of `convert_env_to_yaml.py` (`EnvToYaml`). It folds the lines of a `.env`
  file into a key/value map, with Python's `str.strip` and `str.split("=", 1)` modelled in `Text`.

Quantities are real numbers (`real`). The horizon builder and the result projection are
methods with loops, each proved equal to a recursive specification function. The properties
are proved as lemmas about those functions.

The code and the system's design notes disagree in places. The model follows the code:
* the horizon is not padded to a fixed number of intervals;
* grid limits are not derived from irradiance: a missing limit is `0.9 ×` the interval's
  clamped forecast;
* curtailment weights and cycle penalties are passed through unclamped and unscaled;
* caller overrides are accepted as given;
* invalid numbers are clamped, not rejected;
* there is no aggregate curtailment total;
* the end state of charge is reported as `soc_mwh`.

The design also says a zero-forecast interval curtails nothing. That holds only for an optimal
answer, and the code accepts a merely `FEASIBLE` one, so the model proves only that curtailment
is bounded (`FeasibleRegionBounded`).

## Model

| member | source | states |
|---|---|---|
| DispatchInputs.NonNeg | app/milp_solver.py:36 | `max(x, 0.0)`: the result is non-negative, at least `x`, and equal to `x` or to 0 |
| DispatchInputs.UnitClamp | app/milp_solver.py:37 | the state of charge is clamped into [0, 1]: below 0 gives 0, above 1 gives 1, otherwise unchanged |
| DispatchInputs.Normalize | app/milp_solver.py:36-42 | all clamped plant quantities are non-negative and the SoC fraction is in [0, 1]; in-range inputs are kept; the default grid limit is the clamped caller limit, or 0.9 × the clamped forecast when none is given; weights and penalties pass through unchanged |
| DispatchInputs.SocStartInRange | app/milp_solver.py:78 | the initial energy `bess_soc × capacity` lies between 0 and the capacity |
| DispatchHorizon.StepOf | app/milp_solver.py:46-62 | one interval dictionary yields a step exactly when none of `mw_forecast`, `curtailment_weight`, `cycle_penalty` is an explicit null; the step's forecast and grid cap are then non-negative |
| DispatchHorizon.StepOfDefaults | app/milp_solver.py:47-60 | a missing forecast falls back to the clamped top-level forecast; a missing or null cap becomes 0.9 × the interval's clamped forecast, floored at 0; missing weight/penalty fall back to the top-level values; a missing label becomes `t<idx>`; irradiance and confidence pass through |
| DispatchHorizon.StepOfError | app/milp_solver.py:47-57 | the error names the first null key in evaluation order (`mw_forecast`, then `curtailment_weight`, then `cycle_penalty`) and the interval's index |
| DispatchHorizon.StepIgnoresTopLevelGrid | app/milp_solver.py:42-51 | in the per-interval path, the caller's top-level `grid_limit_mw` has no effect on any step |
| DispatchHorizon.StepsErrorSticks | app/milp_solver.py:46-62 | once one interval fails, every longer prefix of the loop fails with that same error |
| DispatchHorizon.StepsOk | app/milp_solver.py:44-62 | the first `n` intervals build successfully exactly when none of them holds a null field, and then step `i` is the step of interval `i`, in input order |
| DispatchHorizon.StepsFirstError | app/milp_solver.py:46-62 | a failing prefix reports the error of its first failing interval, and all earlier intervals succeed |
| DispatchHorizon.HorizonShape | app/milp_solver.py:44-76 | a built horizon is never empty and well formed; without intervals (absent or empty list) it is the single step `t0` with the default grid limit; with intervals it has one step per interval, in order, and succeeds exactly when none of them has a null field |
| DispatchHorizon.DefaultLabelsDistinct | app/milp_solver.py:58 | the default labels `t<i>` of different intervals are different |
| DispatchHorizon.BuildHorizon | app/milp_solver.py:44-76 | the loop returns exactly the horizon specified by `Horizon`, which on success is non-empty and well formed |
| Text.Decimal | app/milp_solver.py:58 | the decimal rendering used in `f"t{idx}"` is a non-empty digit string with no leading zero whose value is the number |
| DispatchModel.BatteryOf | app/milp_solver.py:78-101 | the battery bounds the constraints use are non-negative, and the starting energy lies within the capacity |
| DispatchModel.GatingIsMutualExclusion | app/milp_solver.py:103-109 | binaries `y_charge + y_discharge <= 1` with `charge <= max_charge·y_charge` and `discharge <= max_discharge·y_discharge` can be satisfied exactly when the interval does not charge and discharge at once (both directions) |
| DispatchModel.FeasibleInterval | app/milp_solver.py:85-122 | in a feasible schedule every interval respects its variable bounds, never charges and discharges at once, balances `export + charge + curtailment = forecast + discharge`, keeps the state of charge within capacity, and starts from the initial energy |
| DispatchModel.SocTelescopes | app/milp_solver.py:111-122 | the state of charge after `k` intervals is the initial energy plus the net charge of the first `k` intervals |
| DispatchModel.FeasibleRegionBounded | app/milp_solver.py:95-98 | although curtailment has no upper bound of its own, every feasible curtailment is at most the forecast plus the discharge limit |
| DispatchModel.NoCyclingFeasible | app/milp_solver.py:85-122 | every horizon the builder produces, with any clamped battery, admits a feasible schedule: export `min(forecast, cap)`, curtail the rest, leave the battery idle |
| DispatchModel.ObjectiveNonNegative | app/milp_solver.py:124-130 | when weights and penalties are non-negative, the objective of a feasible schedule is non-negative |
| DispatchResult.Projection | app/milp_solver.py:136-166 | one row per interval, carrying the step's inputs, the solution's values, and the state of charge at the end of that interval; the summary fields are row 0's, or 0.0 without rows; `soc_mwh` is the final state of charge |
| DispatchResult.ProjectionOfFeasible | app/milp_solver.py:136-166 | for a feasible solution each row balances, never charges and discharges at once, keeps its end state of charge within capacity, and chains from the previous row's end (the initial energy for row 0); `soc_mwh` equals the initial energy plus the horizon's net charge |
| DispatchResult.ProjectResult | app/milp_solver.py:136-166 | the loop builds exactly the dictionary specified by `Projection` |
| MilpSolver.SolveDispatch | app/milp_solver.py:14-166 | missing ortools is reported before anything else; the empty-horizon `ValueError` is unreachable; a null interval field gives its error; a missing CBC, or a status other than `OPTIMAL`/`FEASIBLE`, fails; otherwise the result is the projection of a schedule that satisfies every constraint |
| MilpSolver.NeverInfeasible | app/milp_solver.py:132-134 | every request that passes the horizon builder has a feasible schedule, so an `INFEASIBLE` status is never a property of the model |
| MilpSolver.ExamplePlant | app/milp_solver.py:14-42 | the defaults with forecast 100 MW and grid limit 90 MW clamp to the expected plant (17.5 MWh initial energy, 5 MW limits) |
| MilpSolver.ExampleFeasible | app/milp_solver.py:85-122 | for that request, exporting 90, charging 5 and curtailing 5 satisfies every constraint |
| MilpSolver.ExampleOptimum | app/milp_solver.py:124-130 | for that request every feasible schedule costs at least 5005, and only that schedule costs exactly 5005 |
| Text.Strip | convert_env_to_yaml.py:11 | the stripped text has no surrounding whitespace and is not longer than the input |
| Text.StripFramed | convert_env_to_yaml.py:11 | the stripped text is the input with whitespace-only prefix and suffix removed |
| Text.StripTrimmed | convert_env_to_yaml.py:16 | stripping text without surrounding whitespace leaves it unchanged |
| Text.StripIdempotent | convert_env_to_yaml.py:11-16 | stripping twice is stripping once |
| Text.IndexOf | convert_env_to_yaml.py:15 | the split position is the first occurrence of `=` |
| EnvToYaml.ParseLine | convert_env_to_yaml.py:11-16 | a parsed entry has a key and a value without surrounding whitespace |
| EnvToYaml.ParseLineSpec | convert_env_to_yaml.py:11-16 | a line yields an entry exactly when, stripped, it is non-empty, does not start with `#` and contains `=`; the key and value are then the stripped text before and after the first `=`, and the key contains no `=` |
| EnvToYaml.ParseLineRoundTrip | convert_env_to_yaml.py:11-16 | writing `key=value`, with a stripped key free of `=` and not starting with `#` and a stripped value, parses back to that key and value |
| EnvToYaml.EnvStep | convert_env_to_yaml.py:10-16 | the map after one more line is the map so far updated by that line's entry, if any |
| EnvToYaml.ApplyEntry | convert_env_to_yaml.py:12-16 | a skipped line leaves the map unchanged; an entry sets its key and leaves every other key alone |
| EnvToYaml.EnvHasKey | convert_env_to_yaml.py:7-16 | a key is in the final map exactly when some line parses to an entry with that key |
| EnvToYaml.EnvLastWins | convert_env_to_yaml.py:16 | a key's final value comes from the last line that defines it |
| EnvToYaml.ConvertEnv | convert_env_to_yaml.py:7-16 | no `.env` file gives the empty map; otherwise the loop's map is exactly the fold of the lines' entries |

## Left out

- The CBC branch-and-bound search is not modelled. `SolveDispatch` takes the solver's status and answer as a parameter and assumes only that an accepted answer satisfies the constraints.
- Optimality is not modelled, because the code also accepts `FEASIBLE`. `ExampleOptimum` states the optimum of one request as a property of the objective, not of the solver.
- Floating point, solver tolerances, NaN and infinities are left out. Quantities are exact reals.
- Python's `float()` coercion of strings, and non-dict interval entries, are left out. The model's inputs are numbers, absent or null. A null value is modelled as the `TypeError` it raises.
- A label given explicitly as a non-string or as null is left out. Labels are strings or absent.
- The import check, solver creation and status codes are booleans and an enumeration. The ortools library is not part of this model.
- Opening `.env`, iterating its lines and writing `env.yaml` are left out. These are file I/O. `ConvertEnv` takes the file's lines, or `None` when the file does not exist.
- The YAML serialisation and the final message are left out. These are output.
- `Text.IsSpace` follows Python's `str.isspace` character set. Python's line iteration keeps the newline, and the strip removes it, so lines are modelled as already split.
- The forecasting, chat, retrieval and front-end parts of the repository are not part of this model.
