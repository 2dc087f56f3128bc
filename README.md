# FIRE calculator core in Dafny

This project models the computational core of a financial-independence
("FIRE") planner for Indian investors and proves properties of it.

- **Projection engines.** There are two month-by-month projection engines:
  - `calculateProjection` in `utils/fireMath.js`, used by the scenario
    comparison and by Monte Carlo. It models step-ups, inflation, an
    emergency-fund top-up, accumulation and decumulation, growth, one-time
    and recurring life events, the FIRE month, bankruptcy and yearly
    snapshots.
  - The calculator page's own inline engine in `FireCalcPro.jsx`. It is a
    lighter variant with a different tax drag, unconditional growth and a
    closed-form saving remedy.
- **Supporting pieces:**
  - `solveForRequiredSIP`, the bisection gap solver;
  - the Monte Carlo orchestrator;
  - the comparison tab's per-scenario results and merged chart rows;
  - the numeric text box's change handler and display effect;
  - the currency formatters and the CSV-injection guard;
  - the analytics buckets;
  - the calculator's list edits, headline metrics and CSV export.

JavaScript numbers are modelled as Dafny `real`s, so there is no rounding error and no overflow.

- **`Math.round`.** Written out exactly as `(x + 0.5).Floor`.
- **Injected functions.** These are inputs, not computed by the model; the
  model only assumes `pow(x, y) > 0` for `x > 0`:
  - `Math.pow`;
  - `toFixed`;
  - the `Intl.NumberFormat` grouping;
  - the normal draws of the Box–Muller transform.
- **`NaN` and `Infinity`.** These appear as a `Num` datatype where the
  source tests for them, and JavaScript `null` appears as `Option`.

Each engine's specification is a set of pure phase functions per month:

- `Step` chains the phases, and `Run`/`Month` fold `Step` over the horizon;
- `Project` summarises the final state.

The source's loop is written as imperative methods, one per phase. Custom asset values grow in place in an `array`. `RunProjection` loops with the invariant `st == Run(pow, c, m - 1)`, and `CalculateProjection`/`CalculateResults` are proved equal to `Project`. Properties about whole runs, such as the first month of FIRE, the first depletion and the snapshot schedule, are proved over a ghost `Trace` of monthly states: rule predicates hold of every prefix of the trace.

Some behaviour of the code is easy to misread; the model does what the code does:

- **Affordability cap.** The comments at `fireMath.js:116-121` say the
  SIPs are clamped to the month's surplus, and lines 118-140 compute the
  capped values. The accumulation branch then declares fresh
  `effectiveSipEquity`/`effectiveSipStable` at 160-161 from the uncapped
  SIPs, so the cap has no effect.
  `FireMathIncome.IncomeDoesNotAffectProjection` proves that the whole
  projection is independent of annual income.
- **Growth of negative balances.** `fireMath.js:199-200` grows equity and
  stable only while they are positive, but grows custom assets whatever
  their sign (203-206). The calculator's inline engine grows every balance
  unconditionally (`FireCalcPro.jsx:373-374`).
  `ProEngineProps.NegativeBalancesCompound` proves that the two growth
  rules differ.
- **Retirement-age lookup.** Both engines read the corpus with
  `d.age === effectiveRetireAge` (`fireMath.js:257`,
  `FireCalcPro.jsx:423`). Snapshot ages are floored, so a fractional
  retirement age matches no snapshot, and `|| 0` then makes the corpus and
  the target 0.
- **Spending-cut remedy.** `fireMath.js:276-277` compares the expenses with
  the nominal allowance at retirement. Only the inline engine deflates the
  allowance to today's money (`FireCalcPro.jsx:444`).
- **Success rate.** `monteCarlo.js:42` counts a run as a success exactly
  when its `bankruptcyAge === null`, and line 63 divides by the number of
  iterations. With 0 iterations the rate is 0/0, which is `NaN`
  (`MonteCarlo.SuccessRate`).

## Model

| member | source | states |
|---|---|---|
| JsMath.Round | fire-calc-app/src/utils/fireMath.js:239-250 | `Math.round`: the result is the integer within half a unit of x (ties go up) |
| JsMath.LoopCount | fire-calc-app/src/utils/fireMath.js:12 | the number of iterations of `for (m = 1; m <= bound; m++)` with a real bound: the largest n ≤ bound, or 0 |
| JsMath.SumAppend | fire-calc-app/src/utils/fireMath.js:31-32 | summing balances (`reduce` with +) distributes over concatenation |
| Plan.EffectiveRetireAge | fire-calc-app/src/utils/fireMath.js:51 | the retirement age is clamped to at most 100 and at least one year after the current age; an in-range target age is used unchanged |
| Plan.MonthsToRetire | fire-calc-app/src/utils/fireMath.js:53 | the months to retirement are never negative |
| Plan.SafeMonths | fire-calc-app/src/utils/fireMath.js:52-62 | the projection horizon lies in [0, 1200] and equals the remaining lifetime in months whenever that lies in the range |
| Plan.Horizon | fire-calc-app/src/utils/fireMath.js:62-73 | the loop never runs more than 1200 months |
| Plan.ProRata | fire-calc-app/src/utils/fireMath.js:186-190 | a proportional withdrawal from equity and stable takes exactly the amount out of the combined balance |
| Plan.ProRataKeepsShares | fire-calc-app/src/utils/fireMath.js:186-190 | a proportional withdrawal keeps each class's share of the liquid total |
| Plan.Withdraw | fire-calc-app/src/utils/fireMath.js:209-221 | a withdrawal or event cost reduces the liquid total by exactly the amount; with no positive liquid balance the whole amount comes out of equity |
| GapSolver.FvNextScaled | fire-calc-app/src/utils/fireMath.js:12-17 | one month of the stepped SIP future-value recurrence is linear in the starting SIP |
| GapSolver.FvAfterLinear | fire-calc-app/src/utils/fireMath.js:12-17 | after k months the (fv, sip) pair for SIP x is x times the pair for SIP 1 |
| GapSolver.FutureValueLinear | fire-calc-app/src/utils/fireMath.js:10-17 | the future value of a stepped SIP stream is proportional to the SIP, so the solver's test `fv > gap` is a threshold on mid |
| GapSolver.FutureValue | fire-calc-app/src/utils/fireMath.js:10-17 | the future value after n months of a stepped SIP; no contract of its own, FutureValueLinear states that it is proportional to the SIP and SimulateFutureValue ties the inner loop to it |
| GapSolver.Pow2 | fire-calc-app/src/utils/fireMath.js:8 | 2^k is at least 1 (the bracket width after k halvings) |
| GapSolver.BisectInvariant | fire-calc-app/src/utils/fireMath.js:5-24 | low, high and solution stay between 0 and gap after any number of halvings, and a non-zero solution always has a future value above the gap |
| GapSolver.HalveBracket | fire-calc-app/src/utils/fireMath.js:9-23 | one bisection step keeps the exact SIP gap/FV(1) inside [low, high] and halves the bracket width |
| GapSolver.AboveIff | fire-calc-app/src/utils/fireMath.js:18 | with a positive unit future value, `fv(mid) > gap` holds exactly when mid is above gap/FV(1) |
| GapSolver.BisectBrackets | fire-calc-app/src/utils/fireMath.js:5-24 | for a positive gap and unit future value, after k steps low never passes the exact SIP gap/FV(1), the width is gap/2^k, and the solution is unset with high at the gap or is high itself, above the exact SIP |
| GapSolver.RequiredSipConverges | fire-calc-app/src/utils/fireMath.js:4-26 | a non-zero answer exceeds the exact SIP by at most gap/2^20; a zero answer (no candidate ever passed) means the exact SIP is within gap/2^20 of the gap, or above it |
| GapSolver.RequiredSip | fire-calc-app/src/utils/fireMath.js:4-25 | the solution after 20 halvings of `[0, gap]`; no contract of its own, RequiredSipConverges bounds its distance to the exact SIP and SolveForRequiredSip ties the loops to it |
| GapSolver.ShrinkWidth | fire-calc-app/src/utils/fireMath.js:19-22 | narrowing the bracket from below cannot widen the distance to high |
| GapSolver.SimulateFutureValue | fire-calc-app/src/utils/fireMath.js:10-17 | the inner loop computes the stepped, monthly-compounded future value of the candidate SIP over ⌊months⌋ months |
| GapSolver.SolveForRequiredSip | fire-calc-app/src/utils/fireMath.js:4-26 | the 20-step bisection returns a value between 0 and gap, which is 0 or has future value above the gap; it equals the functional bisection |
| FireMath.Inflator | fire-calc-app/src/utils/fireMath.js:101 | the inflation multiplier is positive, so the deflations at 240-250 are defined |
| FireMath.REquityBase | fire-calc-app/src/utils/fireMath.js:39 | equity return capped at 100% with 75% of the equity tax as drag; no contract of its own (it is unfolded in every month), its range is REquityBaseBounds |
| FireMath.REquityBaseBounds | fire-calc-app/src/utils/fireMath.js:39 | with a tax rate in [0,100] and a non-negative return the taxed equity rate lies in [0,1]; any return of 100% or more gives exactly the capped rate `1 - 0.75 * tax / 100` |
| FireMath.OneTimeEvents | fire-calc-app/src/utils/fireMath.js:65 | every event that is not recurring is kept as often as it occurs in the plan, and no other event is kept (equal multisets on that kind); the order is stated by EventFiltersKeepOrder |
| FireMath.RecurringEvents | fire-calc-app/src/utils/fireMath.js:66 | every recurring event is kept as often as it occurs in the plan, and no other event is kept (equal multisets on that kind); the order is stated by EventFiltersKeepOrder |
| FireMath.EventFiltersKeepOrder | fire-calc-app/src/utils/fireMath.js:65-66 | both `filter` calls keep list order: for a plan `before + [e] + after` each list is the filtered `before`, then `e` when it is of that kind, then the filtered `after` |
| FireMath.FirstEventHitIsFirst | fire-calc-app/src/utils/fireMath.js:209 | `find` yields nothing iff no unprocessed event lies within 0.05 years of the current age; otherwise it is the first such event in list order |
| FireMath.FirstEventHit | fire-calc-app/src/utils/fireMath.js:209 | `oneTimeEvents.find(...)`: no contract of its own (it is unfolded in every month); FirstEventHitIsFirst states that it is the first unprocessed event within 0.05 years, or none exactly when there is none |
| FireMath.AffordabilityCap | fire-calc-app/src/utils/fireMath.js:118-140 | the dead cap leaves SIPs that fit the surplus unchanged; larger positive SIPs are both scaled by surplus/total so that they sum to the surplus; it gives zero when the SIPs are not positive |
| FireMath.TopUpBounds | fire-calc-app/src/utils/fireMath.js:143-156 | no top-up after retirement or when the fund covers the floor; otherwise the top-up is the shortfall capped by the scheduled SIPs, and never more than the shortfall |
| FireMath.TopUp | fire-calc-app/src/utils/fireMath.js:148-156 | the month's top-up `Math.min(shortfall, availableSIP)` before retirement when the fund is below its floor, else 0; no contract of its own (it is unfolded in every month), its bounds are TopUpBounds |
| FireMath.RequiredEmergencyFund | fire-calc-app/src/utils/fireMath.js:143-144 | the emergency floor: the stated fund in months of current expenses times this month's living cost (retirement expenses once retired); no contract of its own, its income independence is FireMathIncome.RequiredIgnoresAnnualIncome |
| FireMath.Divert | fire-calc-app/src/utils/fireMath.js:163-170 | a positive top-up is taken from the SIPs so that they sum to the scheduled SIPs minus the top-up; otherwise the SIPs are unchanged |
| FireMath.Accumulate | fire-calc-app/src/utils/fireMath.js:158-180 | accumulation never marks depletion |
| FireMath.Decumulate | fire-calc-app/src/utils/fireMath.js:181-196 | decumulation records depletion exactly when the liquid balance is not positive |
| FireMath.GrowPositive | fire-calc-app/src/utils/fireMath.js:199-200 | a balance at or below zero is left ungrown |
| FireMath.GrowCustom | fire-calc-app/src/utils/fireMath.js:203-206 | growth keeps one value per custom asset |
| FireMath.MakeSnapshot | fire-calc-app/src/utils/fireMath.js:236-251 | the snapshot's age is the floored age; balance, equity, stable, custom, emergency fund, event and withdrawal are the rounded values and their real counterparts the rounded deflated values; target and real target are null exactly in retirement and otherwise the rounded target and deflated target |
| FireMath.InitialState | fire-calc-app/src/utils/fireMath.js:55-64 | the starting state tracks one value per custom asset |
| FireMath.CustomStart | fire-calc-app/src/utils/fireMath.js:48 | one starting value per custom asset |
| FireMath.CustomStartValues | fire-calc-app/src/utils/fireMath.js:48 | each custom asset starts at its stated value |
| FireMath.CustomMonthlyRates | fire-calc-app/src/utils/fireMath.js:46-49 | one monthly rate per custom asset |
| FireMath.ContributePhase | fire-calc-app/src/utils/fireMath.js:89-99 | the salary and step-up phase changes only income and the two SIPs |
| FireMath.EmergencyPhase | fire-calc-app/src/utils/fireMath.js:142-156 | the emergency phase changes only the fund, which grows at the stable rate and then receives exactly the top-up |
| FireMath.FlowPhase | fire-calc-app/src/utils/fireMath.js:158-196 | the cash-flow phase changes only equity, stable, the yearly withdrawal and the bankruptcy age |
| FireMath.GrowthPhase | fire-calc-app/src/utils/fireMath.js:198-206 | growth changes only equity, stable and the custom values, keeping one value per asset |
| FireMath.EventPhase | fire-calc-app/src/utils/fireMath.js:208-221 | a one-time event changes only equity and stable |
| FireMath.RecordPhase | fire-calc-app/src/utils/fireMath.js:223-253 | recording changes only the FIRE flag and month, the coverage, the snapshot list and the withdrawal accumulator |
| FireMath.Step | fire-calc-app/src/utils/fireMath.js:73-254 | one month keeps one value per custom asset (its effects are stated by FireMathProps) |
| FireMath.Run | fire-calc-app/src/utils/fireMath.js:73-254 | any number of months keeps one value per custom asset |
| FireMath.Month | fire-calc-app/src/utils/fireMath.js:73-254 | month k of the loop keeps one value per custom asset |
| FireMath.FindAge | fire-calc-app/src/utils/fireMath.js:257-260 | `find` by age (used by both engines, also at FireCalcPro.jsx:423-426) returns the FIRST element of the list with exactly that age (no earlier element has it), or nothing when no element has it |
| FireMath.FindSolveYear | fire-calc-app/src/utils/fireMath.js:274 | returns the FIRST snapshot past retirement whose balance is at least its target (null read as 0): it qualifies and no earlier snapshot does; none when no snapshot qualifies. Generic over the snapshot type, so the same search serves FireCalcPro.jsx:441 |
| FireMath.Remedies | fire-calc-app/src/utils/fireMath.js:262-282 | the remediation triple; no contract of its own: FireMathProps.RemediesBounds bounds it (zero unless the gap is positive), FindSolveYear gives the first later qualifying snapshot for work longer, and FireMathIncome.RemediesIgnoreIncome shows it ignores income |
| FireMath.Summarize | fire-calc-app/src/utils/fireMath.js:256-288 | the corpus, target and real gap come from the first snapshot at the effective retirement age (0 when there is none) and the gap is target minus corpus; the FIRE age is present exactly when the target was reached; a recorded bankruptcy age is reported exactly when it is not 0 (JavaScript truthiness); the warning holds iff the SIP step-up exceeds salary growth; the remedies are computed from that gap and corpus |
| FireMath.Project | fire-calc-app/src/utils/fireMath.js:28-289 | calculateProjection as a function of the plan: the summary of the state after the whole horizon; no contract of its own, stated by CalculateProjection and the FireMathProps Project* and SnapshotSchedule lemmas |
| FireMath.SumRecurringOutflow | fire-calc-app/src/utils/fireMath.js:108-114 | the `forEach` accumulation equals the sum of inflated monthly costs of the recurring events active at this age |
| FireMath.RecurringOutflow | fire-calc-app/src/utils/fireMath.js:107-114 | the inflated monthly cost of the recurring events active at this age; no contract of its own (it is unfolded in every month): SumRecurringOutflow ties the `forEach` to it and RecurringOutflowBounds bounds it |
| FireMath.RecurringOutflowBounds | fire-calc-app/src/utils/fireMath.js:107-114 | no active recurring event means no outflow, and non-negative costs under a non-negative inflation multiplier never give a negative outflow |
| FireMath.GrowCustomSnoc | fire-calc-app/src/utils/fireMath.js:203-206 | growing a prefix one asset longer appends that asset's grown value |
| FireMath.GrowCustomValues | fire-calc-app/src/utils/fireMath.js:202-206 | the in-place loop grows each custom value and returns the sum of the grown values |
| FireMath.ContributeMonth | fire-calc-app/src/utils/fireMath.js:89-99 | the imperative salary and step-up update matches the phase function |
| FireMath.TopUpEmergency | fire-calc-app/src/utils/fireMath.js:142-156 | the imperative emergency top-up matches the phase function |
| FireMath.FlowMonth | fire-calc-app/src/utils/fireMath.js:158-196 | the imperative accumulation and decumulation match the phase function |
| FireMath.GrowMonth | fire-calc-app/src/utils/fireMath.js:198-206 | the imperative growth matches the phase function, leaves the grown values in the array and returns their total |
| FireMath.EventMonth | fire-calc-app/src/utils/fireMath.js:208-221 | the imperative event handling matches the phase function |
| FireMath.RecordMonth | fire-calc-app/src/utils/fireMath.js:223-253 | the imperative FIRE check, coverage and snapshot match the phase function |
| FireMath.AdvanceMonth | fire-calc-app/src/utils/fireMath.js:73-254 | one imperative iteration of the loop body equals `Step` |
| FireMath.StartProjection | fire-calc-app/src/utils/fireMath.js:28-70 | the imperative set-up yields the initial state, with the custom values in a fresh array |
| FireMath.RunProjection | fire-calc-app/src/utils/fireMath.js:73-254 | the loop over the safe horizon yields `Run` over `Horizon` months |
| FireMath.CalculateProjection | fire-calc-app/src/utils/fireMath.js:28-289 | the whole imperative engine returns exactly the functional projection `Project` |
| FireMathProps.StepBankruptcy | fire-calc-app/src/utils/fireMath.js:191-194 | the bankruptcy age is set once, to the current age, in the first retired month with no positive liquid balance, and is never overwritten |
| FireMathProps.StepFire | fire-calc-app/src/utils/fireMath.js:226-229 | the FIRE flag becomes set in a pre-retirement month whose total reaches the target, and the FIRE month is recorded only the first time |
| FireMathProps.StepRecords | fire-calc-app/src/utils/fireMath.js:236-253 | a month appends a scheduled snapshot exactly in month 1 and every 12th month, holding the rounded total of the month's state, and then resets the withdrawal accumulator |
| FireMathProps.StepWithdrawalAccrues | fire-calc-app/src/utils/fireMath.js:183-195 | in retirement each month adds that month's expense plus recurring outflow to the yearly withdrawal |
| FireMathProps.AccumulationConserves | fire-calc-app/src/utils/fireMath.js:148-180 | for non-negative SIPs, in accumulation the liquid total rises by the SIPs minus the emergency top-up minus any recurring outflow paid |
| FireMathProps.NegativeSipDebitedTwice | fire-calc-app/src/utils/fireMath.js:148-174 | with negative SIPs and a fund below its floor, the top-up is the negative SIP total, and liquid assets plus the fund fall by twice the SIP total (plus any recurring outflow paid) |
| FireMathProps.DecumulationFloor | fire-calc-app/src/utils/fireMath.js:183-194 | with a positive balance the withdrawal is capped so that the liquid total never drops below -1000; otherwise the whole outflow comes out of equity |
| FireMathProps.StressWindow | fire-calc-app/src/utils/fireMath.js:79-87 | under the stress test the equity rate is -20% in exactly the first 24 retired months, and the base rate otherwise |
| FireMathProps.Trace | fire-calc-app/src/utils/fireMath.js:73-254 | the trace of states holds months 0..k, each keeping one value per custom asset |
| FireMathProps.TraceIsRun | fire-calc-app/src/utils/fireMath.js:73-254 | the last state of the trace is the state after k months |
| FireMathProps.BankruptcyRuleExtends | fire-calc-app/src/utils/fireMath.js:191-194 | the first-depletion rule survives appending a month that follows the bankruptcy update |
| FireMathProps.TraceBankruptcyRule | fire-calc-app/src/utils/fireMath.js:191-194 | every trace satisfies the first-depletion rule |
| FireMathProps.FirstDepletion | fire-calc-app/src/utils/fireMath.js:191-194 | under the rule, bankruptcy is null iff no month depleted, and otherwise is the age at the first depleted month |
| FireMathProps.BankruptcyNullIffNoDepletion | fire-calc-app/src/utils/fireMath.js:191-194 | after k months the bankruptcy age is null iff no retired month started with a non-positive liquid balance |
| FireMathProps.BankruptcyAgeIsFirstDepletion | fire-calc-app/src/utils/fireMath.js:191-194 | a recorded bankruptcy age is the age of the first depleted month |
| FireMathProps.FireRuleExtends | fire-calc-app/src/utils/fireMath.js:226-229 | the first-FIRE-hit rule survives appending a month that follows the FIRE update |
| FireMathProps.TraceFireRule | fire-calc-app/src/utils/fireMath.js:226-229 | every trace satisfies the first-FIRE-hit rule |
| FireMathProps.FirstFireHit | fire-calc-app/src/utils/fireMath.js:226-229 | under the rule `reached` holds iff some month hit the target before retirement, and the FIRE month is the first such month |
| FireMathProps.FireReachedIffHit | fire-calc-app/src/utils/fireMath.js:226-229 | after k months `reached` holds iff some pre-retirement month's total met that month's target |
| FireMathProps.FireMonthIsFirstHit | fire-calc-app/src/utils/fireMath.js:226-229 | the FIRE month is the first hitting month, and stays -1 when no month hits |
| FireMathProps.SnapshotRuleExtends | fire-calc-app/src/utils/fireMath.js:236-253 | the snapshot schedule survives appending a recorded month |
| FireMathProps.TraceSnapshotRule | fire-calc-app/src/utils/fireMath.js:236-253 | every trace follows the snapshot schedule |
| FireMathProps.Schedule | fire-calc-app/src/utils/fireMath.js:236-253 | under the schedule there is one snapshot for month 1 and for each 12th month, each standing for its month and holding the rounded total of that month's state, and no withdrawal is accumulated before retirement |
| FireMathProps.SnapshotSchedule | fire-calc-app/src/utils/fireMath.js:236-253 | after k months the snapshot list has exactly the scheduled length; snapshot i records month 1 or month 12·i, and its balance is the rounded total of the trace's state after that month |
| FireMathProps.ProjectFireAge | fire-calc-app/src/utils/fireMath.js:226-281 | the FIRE age is present iff some month within the horizon hit the target before retirement, and then it is derived from the first such month |
| FireMathProps.ProjectBankruptcyAge | fire-calc-app/src/utils/fireMath.js:191-194 | the bankruptcy age is absent when no month depleted; when present it is non-zero and derived from the first depleted month; and for a non-negative current age it is absent exactly when no month of the horizon depleted |
| FireMathProps.ProjectNullMeansNeverDepleted | fire-calc-app/src/utils/fireMath.js:191-194 | the converse for the reported value: with a non-negative current age a null bankruptcy age (line 287 turns an age of 0 into null as well) means that no month of the horizon depleted the liquid balance, and back |
| FireMathProps.RemediesBounds | fire-calc-app/src/utils/fireMath.js:262-282 | no remedies unless the gap is positive; the extra SIP lies between 0 and the gap, and the spending cut is never negative |
| FireMathIncome.Strip | fire-calc-app/src/utils/fireMath.js:90-92 | erasing the income field changes nothing else in the state |
| FireMathIncome.RatesIgnoreAnnualIncome | fire-calc-app/src/utils/fireMath.js:39-53 | the rates, ages and horizons do not depend on annual income |
| FireMathIncome.ExpensesIgnoreAnnualIncome | fire-calc-app/src/utils/fireMath.js:101-114 | the expenses, target and recurring outflow do not depend on annual income |
| FireMathIncome.ContributeIgnoresAnnualIncome | fire-calc-app/src/utils/fireMath.js:89-99 | the contribution phase does not depend on annual income |
| FireMathIncome.RequiredIgnoresAnnualIncome | fire-calc-app/src/utils/fireMath.js:143-144 | the required emergency floor does not depend on annual income |
| FireMathIncome.EmergencyIgnoresAnnualIncome | fire-calc-app/src/utils/fireMath.js:142-156 | the emergency phase does not depend on annual income |
| FireMathIncome.FlowIgnoresAnnualIncome | fire-calc-app/src/utils/fireMath.js:158-196 | the cash-flow phase does not depend on annual income (the capped SIPs at 122-139 are shadowed at 160-161) |
| FireMathIncome.GrowthIgnoresAnnualIncome | fire-calc-app/src/utils/fireMath.js:198-206 | growth does not depend on annual income |
| FireMathIncome.EventPhaseCongruent | fire-calc-app/src/utils/fireMath.js:208-221 | the event phase depends only on the events, the age and the inflation multiplier |
| FireMathIncome.EventIgnoresAnnualIncome | fire-calc-app/src/utils/fireMath.js:208-221 | the event phase does not depend on annual income |
| FireMathIncome.RecordIgnoresAnnualIncome | fire-calc-app/src/utils/fireMath.js:223-253 | recording does not depend on annual income |
| FireMathIncome.StepIgnoresAnnualIncome | fire-calc-app/src/utils/fireMath.js:73-254 | a month does not depend on annual income |
| FireMathIncome.ContributeIgnoresIncome | fire-calc-app/src/utils/fireMath.js:89-99 | the current monthly income affects only the income field of the contribution phase |
| FireMathIncome.EmergencyIgnoresIncome | fire-calc-app/src/utils/fireMath.js:142-156 | the current monthly income does not affect the top-up |
| FireMathIncome.FlowIgnoresIncome | fire-calc-app/src/utils/fireMath.js:118-196 | the current monthly income does not affect the cash flow |
| FireMathIncome.GrowthIgnoresIncome | fire-calc-app/src/utils/fireMath.js:198-206 | the current monthly income does not affect growth |
| FireMathIncome.EventIgnoresIncome | fire-calc-app/src/utils/fireMath.js:208-221 | the current monthly income does not affect events |
| FireMathIncome.RecordIgnoresIncome | fire-calc-app/src/utils/fireMath.js:223-253 | the current monthly income does not affect recording |
| FireMathIncome.StepIgnoresIncome | fire-calc-app/src/utils/fireMath.js:73-254 | apart from the income field, a month's result does not depend on the current income |
| FireMathIncome.StepIgnoresIncomes | fire-calc-app/src/utils/fireMath.js:73-254 | months from states equal up to income, under plans differing only in annual income, agree up to income |
| FireMathIncome.RunIgnoresIncome | fire-calc-app/src/utils/fireMath.js:73-254 | after any number of months, annual income affects only the income field |
| FireMathIncome.SummarizeIgnoresIncome | fire-calc-app/src/utils/fireMath.js:256-288 | the summary reads neither annual nor current income |
| FireMathIncome.RemediesIgnoreIncome | fire-calc-app/src/utils/fireMath.js:262-282 | the remedies do not read annual income: they are equal for any two incomes |
| FireMathIncome.IncomeDoesNotAffectProjection | fire-calc-app/src/utils/fireMath.js:116-161 | the projection result is the same for every annual income, so the affordability cap has no effect |
| MonteCarlo.TrialAssets | fire-calc-app/src/utils/monteCarlo.js:32-35 | each custom asset keeps all its fields except the return, which is perturbed by 10 points times its own draw |
| MonteCarlo.TrialConfig | fire-calc-app/src/utils/monteCarlo.js:5-36 | a trial state equals the base state except the equity, stable and custom returns, which are perturbed by 15, 4 and 10 points times the trial's draws |
| MonteCarlo.TrialConfigSane | fire-calc-app/src/utils/monteCarlo.js:27-39 | randomising returns keeps the inflation assumption, so each trial is within the engine's domain |
| MonteCarlo.ZeroDrawIsBase | fire-calc-app/src/utils/monteCarlo.js:26-36 | with all draws zero the trial state is the base state |
| MonteCarlo.FinalCorpus | fire-calc-app/src/utils/monteCarlo.js:47 | the final corpus is the last snapshot's balance, or 0 for an empty projection |
| MonteCarlo.Trials | fire-calc-app/src/utils/monteCarlo.js:25-39 | n trials yield n projection results |
| MonteCarlo.TrialsThrough | fire-calc-app/src/utils/monteCarlo.js:25-39 | trials 0..i yield i+1 results |
| MonteCarlo.Successes | fire-calc-app/src/utils/monteCarlo.js:41-44 | the success count never exceeds the number of trials |
| MonteCarlo.SuccessesAll | fire-calc-app/src/utils/monteCarlo.js:41-44 | every trial succeeds (no bankruptcy age) iff the count equals the number of trials |
| MonteCarlo.SuccessesNone | fire-calc-app/src/utils/monteCarlo.js:41-44 | the count is 0 iff every trial went bankrupt |
| MonteCarlo.Finals | fire-calc-app/src/utils/monteCarlo.js:47-48 | entry i is trial i's final corpus |
| MonteCarlo.PercentileIndex | fire-calc-app/src/utils/monteCarlo.js:56-57 | the clamped percentile index is always a valid index |
| MonteCarlo.PercentileIndexMonotone | fire-calc-app/src/utils/monteCarlo.js:56-57 | a higher percentile never picks a lower index |
| MonteCarlo.Pick | fire-calc-app/src/utils/monteCarlo.js:53-57 | the percentile of an empty sample is 0; otherwise it is one of the sample's values |
| MonteCarlo.PickMonotone | fire-calc-app/src/utils/monteCarlo.js:52-58 | on sorted values a higher percentile never yields a smaller value (so the 10th percentile ≤ the median) |
| MonteCarlo.PickFromSample | fire-calc-app/src/utils/monteCarlo.js:52-58 | a percentile of a non-empty sample is one of its values |
| MonteCarlo.PickAt | fire-calc-app/src/utils/monteCarlo.js:56-57 | reading the clamped index of the array yields the percentile of its contents |
| MonteCarlo.GetPercentile | fire-calc-app/src/utils/monteCarlo.js:52-58 | `getPercentile` sorts the array in place and returns the p-th percentile of the sorted contents |
| MonteCarlo.SuccessRate | fire-calc-app/src/utils/monteCarlo.js:60-63 | the rate is NaN exactly for 0 iterations, otherwise lies in [0, 100], and is 100 exactly when all trials succeed |
| MonteCarlo.Aggregate | fire-calc-app/src/utils/monteCarlo.js:60-67 | the result reports the count and the success rate; the worst case is at most the median, and both are actual final corpora |
| MonteCarlo.OneTrial | fire-calc-app/src/utils/monteCarlo.js:26-39 | one iteration extends the trial results by the projection of trial i |
| MonteCarlo.RunTrials | fire-calc-app/src/utils/monteCarlo.js:20-49 | the loop counts the successful trials and fills a fresh array with every trial's final corpus in order |
| MonteCarlo.RecordTrial | fire-calc-app/src/utils/monteCarlo.js:25-49 | one pass of the loop body extends the success count and the stored final corpora from trials 0..i-1 to trials 0..i |
| MonteCarlo.AppendTrial | fire-calc-app/src/utils/monteCarlo.js:41-48 | one more trial raises the success count by one exactly when it never went bankrupt and appends its final corpus |
| MonteCarlo.RunMonteCarloSimulation | fire-calc-app/src/utils/monteCarlo.js:20-68 | the simulation's result is the aggregate of the functional trials |
| Sorting.AscendingIsSortedById | fire-calc-app/src/utils/monteCarlo.js:55 | ascending order of numbers is order by the identity key |
| Sorting.InsertionSort | fire-calc-app/src/components/features/CompareTab.jsx:42 | the in-place sort by key leaves the array sorted by the key and a permutation of its old contents |
| Sorting.Swap | fire-calc-app/src/components/features/CompareTab.jsx:42 | exchanging two neighbours changes only those two cells and keeps the contents as a multiset |
| Sorting.Insert | fire-calc-app/src/utils/monteCarlo.js:55 | inserting into an ascending sequence keeps it ascending and adds exactly one element |
| Sorting.ConsAscending | fire-calc-app/src/utils/monteCarlo.js:55 | a value no larger than every element, put in front of an ascending sequence, keeps it ascending |
| Sorting.SortSeq | fire-calc-app/src/utils/monteCarlo.js:55 | the reference sort is ascending and a permutation of its input |
| Sorting.HeadIsLeast | fire-calc-app/src/utils/monteCarlo.js:55-57 | the head of an ascending sequence is at most any of its elements |
| Sorting.AscendingUnique | fire-calc-app/src/utils/monteCarlo.js:55 | two ascending permutations of the same values are equal, so any correct sort gives the reference result |
| Sorting.SortSeqOfAscending | fire-calc-app/src/utils/monteCarlo.js:55 | sorting sorted values changes nothing |
| Sorting.SortInts | fire-calc-app/src/utils/monteCarlo.js:55 | the numeric in-place `sort` of the typed array leaves exactly the reference sort of its old contents |
| CompareTab.ComparisonData | fire-calc-app/src/components/features/CompareTab.jsx:13-18 | one entry per scenario in order, carrying the scenario's id, name and plan |
| CompareTab.ComparisonDataResults | fire-calc-app/src/components/features/CompareTab.jsx:15 | each entry's results are the projection engine's output for that scenario |
| CompareTab.SurplusMeansCovered | fire-calc-app/src/components/features/CompareTab.jsx:73 | a scenario shows a surplus iff the corpus at retirement covers the target, and then all remedies are zero |
| CompareTab.EntryWrites | fire-calc-app/src/components/features/CompareTab.jsx:29-39 | a scenario writes one value per snapshot |
| CompareTab.EntryWritesAt | fire-calc-app/src/components/features/CompareTab.jsx:29-39 | write k stores snapshot k's balance under the scenario's name at snapshot k's age |
| CompareTab.EntryWritesSnoc | fire-calc-app/src/components/features/CompareTab.jsx:29-39 | visiting one more snapshot appends its write |
| CompareTab.EmptyProjectionAddsNothing | fire-calc-app/src/components/features/CompareTab.jsx:28-29 | a scenario with an empty projection contributes nothing to the chart |
| CompareTab.Apply | fire-calc-app/src/components/features/CompareTab.jsx:34-38 | a write adds its age to the map's keys and touches no other key |
| CompareTab.Merge | fire-calc-app/src/components/features/CompareTab.jsx:34-38 | the age map after a sequence of writes; no contract of its own, MergeKeys states its keys and MergeBalances and MergeAgeField its values |
| CompareTab.Order | fire-calc-app/src/components/features/CompareTab.jsx:34-42 | the map's insertion order of ages; no contract of its own, MergeKeys and OrderListsKeys state that it lists each key once |
| CompareTab.MergeSnoc | fire-calc-app/src/components/features/CompareTab.jsx:27-40 | merging one more write applies it to the map and to the insertion order |
| CompareTab.MergeDomain | fire-calc-app/src/components/features/CompareTab.jsx:34-36 | the chart's ages are exactly the ages of some write |
| CompareTab.ApplyListsKeys | fire-calc-app/src/components/features/CompareTab.jsx:34-36 | a write keeps the order list a duplicate-free listing of the map's keys |
| CompareTab.OrderListsKeys | fire-calc-app/src/components/features/CompareTab.jsx:34-42 | the insertion order lists each map key exactly once |
| CompareTab.MergeKeys | fire-calc-app/src/components/features/CompareTab.jsx:34-42 | the map holds exactly the written ages, and `Array.from(values())` visits each once in insertion order |
| CompareTab.MergeBalances | fire-calc-app/src/components/features/CompareTab.jsx:38 | an age bucket has a scenario's key iff that scenario wrote at that age, and then holds its last write's balance |
| CompareTab.MergeAgeField | fire-calc-app/src/components/features/CompareTab.jsx:35 | when no scenario is named "age", every bucket's "age" field is its own age |
| CompareTab.AgeNamedScenarioOverwritesAge | fire-calc-app/src/components/features/CompareTab.jsx:35-38 | a scenario named "age" overwrites the bucket's age field with a balance |
| CompareTab.ValuesIn | fire-calc-app/src/components/features/CompareTab.jsx:42 | reading the map along the order yields each listed key's bucket in turn |
| CompareTab.MergeSnapshot | fire-calc-app/src/components/features/CompareTab.jsx:30-38 | the imperative per-snapshot update extends the functional merge by that write |
| CompareTab.MergeScenario | fire-calc-app/src/components/features/CompareTab.jsx:27-39 | the imperative per-scenario loop extends the merge by all that scenario's writes |
| CompareTab.SortRows | fire-calc-app/src/components/features/CompareTab.jsx:42 | sorting the rows by age yields a permutation of them sorted by age |
| CompareTab.ChartData | fire-calc-app/src/components/features/CompareTab.jsx:21-43 | the chart rows are the merged buckets, in a permutation sorted by age |
| CompareTab.DistinctCounts | fire-calc-app/src/components/features/CompareTab.jsx:42 | a duplicate-free sequence holds each value at most once |
| CompareTab.RepeatCounts | fire-calc-app/src/components/features/CompareTab.jsx:42 | a value at two positions occurs at least twice |
| CompareTab.RowsOnce | fire-calc-app/src/components/features/CompareTab.jsx:42 | without an "age" scenario, each bucket occurs at most once among the rows |
| CompareTab.ChartRows | fire-calc-app/src/components/features/CompareTab.jsx:42 | for any sorted permutation of the rows, each row is the bucket of its age, and every merged age appears in some row |
| CompareTab.CompareChart | fire-calc-app/src/components/features/CompareTab.jsx:13-43 | the chart has strictly increasing ages, exactly one row per age some scenario reached, and each row is that age's merged bucket |
| CompareTab.NoAgeNameOfEntries | fire-calc-app/src/components/features/CompareTab.jsx:14-38 | if no scenario is named "age", no write uses that key |
| SmartInputModel.StripCommas | fire-calc-app/src/components/ui/SmartInput.jsx:16 | the result has no commas, keeps every other character with its multiplicity, and leaves comma-free text unchanged |
| SmartInputModel.DigitsHaveNoDots | fire-calc-app/src/components/ui/SmartInput.jsx:18 | all digits iff digits and dots with no dot |
| SmartInputModel.FractionScan | fire-calc-app/src/components/ui/SmartInput.jsx:18 | the regex tail `[0-9]*$` matches exactly the all-digit strings |
| SmartInputModel.WholeScan | fire-calc-app/src/components/ui/SmartInput.jsx:18 | `[0-9]*\.?[0-9]*$` matches exactly digits with at most one dot |
| SmartInputModel.Matches | fire-calc-app/src/components/ui/SmartInput.jsx:18 | the scan of `^-?[0-9]*\.?[0-9]*$` from a phase; no contract of its own, RegexMeansNumericShape states what it accepts |
| SmartInputModel.RegexMeansNumericShape | fire-calc-app/src/components/ui/SmartInput.jsx:18 | the full regex `^-?[0-9]*\.?[0-9]*$` matches iff the text is an optional minus, then digits with at most one dot |
| SmartInputModel.DotIndex | fire-calc-app/src/components/ui/SmartInput.jsx:20 | the index of the first dot, or the length when there is none |
| SmartInputModel.ParseFloat | fire-calc-app/src/components/ui/SmartInput.jsx:20 | on accepted shapes `parseFloat` is NaN exactly when there is no digit; otherwise it is finite, ≤ 0 with a leading minus and ≥ 0 without |
| SmartInputModel.DecimalValue | fire-calc-app/src/components/ui/SmartInput.jsx:20 | whole and fraction digits denote a non-negative value |
| SmartInputModel.DigitsFromParts | fire-calc-app/src/components/ui/SmartInput.jsx:20 | the text has a digit iff the parts around the dot do |
| SmartInputModel.DotCountSplit | fire-calc-app/src/components/ui/SmartInput.jsx:18 | dot counts add over a split |
| SmartInputModel.DotCountAtEnd | fire-calc-app/src/components/ui/SmartInput.jsx:18 | text ending in a dot has a dot |
| SmartInputModel.ParseWholeNumber | fire-calc-app/src/components/ui/SmartInput.jsx:18-20 | a non-empty digit string is accepted and parses to its decimal value |
| SmartInputModel.NoDotMeansEnd | fire-calc-app/src/components/ui/SmartInput.jsx:20 | digit-only text has no dot |
| SmartInputModel.ChangeValue | fire-calc-app/src/components/ui/SmartInput.jsx:20-21 | the value sent to `onChange` is 0 for digit-free text, non-positive after a minus, otherwise non-negative |
| SmartInputModel.ChangeValueOfDigits | fire-calc-app/src/components/ui/SmartInput.jsx:16-21 | a digit string of at most 12 characters is accepted and sends its numeric value |
| SmartInputModel.Accepts | fire-calc-app/src/components/ui/SmartInput.jsx:16-18 | the handler accepts text exactly when it has at most 12 characters and is at most one leading minus followed by digits with at most one dot |
| SmartInputModel.GroupedDigitsExample | fire-calc-app/src/components/ui/SmartInput.jsx:16-21 | typing "1,234" sends 1234 |
| SmartInputModel.TooLongIsRefused | fire-calc-app/src/components/ui/SmartInput.jsx:17 | input longer than 12 characters after stripping commas is ignored |
| SmartInputModel.DisplayText | fire-calc-app/src/components/ui/SmartInput.jsx:10-11 | NaN, infinite and zero values display as empty text, and other values in the grouped format |
| SmartInputModel.SmartInput.constructor | fire-calc-app/src/components/ui/SmartInput.jsx:5-6 | the box starts empty and unfocused |
| SmartInputModel.SmartInput.Focus | fire-calc-app/src/components/ui/SmartInput.jsx:33 | focusing sets the flag and keeps the text |
| SmartInputModel.SmartInput.Blur | fire-calc-app/src/components/ui/SmartInput.jsx:34 | blurring clears the flag and keeps the text |
| SmartInputModel.SmartInput.SyncDisplay | fire-calc-app/src/components/ui/SmartInput.jsx:8-13 | while focused the text is untouched; otherwise it becomes the display text of the value |
| SmartInputModel.SmartInput.HandleChange | fire-calc-app/src/components/ui/SmartInput.jsx:15-23 | accepted input is kept verbatim, commas included, and its parsed value is sent; otherwise nothing changes and nothing is sent |
| Formatters.SanitizeCsv | fire-calc-app/src/utils/formatters.js:20-25 | only strings starting with `=`, `+`, `-` or `@` get a leading quote, other values pass unchanged, and the result never starts a formula |
| Formatters.SanitizeCsvIdempotent | fire-calc-app/src/utils/formatters.js:20-25 | sanitising twice equals sanitising once |
| Formatters.SanitizeCsvKeepsNumbers | fire-calc-app/src/utils/formatters.js:21 | numbers, negative ones included, pass through unchanged |
| Formatters.TierOf | fire-calc-app/src/utils/formatters.js:5-16 | the crore, lakh and below tiers partition magnitudes at 1e7 and 1e5 |
| Formatters.TierMonotone | fire-calc-app/src/utils/formatters.js:14-16 | a larger magnitude never falls in a lower tier |
| Formatters.FormatCompact | fire-calc-app/src/utils/formatters.js:10-18 | NaN or infinity shows ₹0; otherwise the rupee sign then the magnitude in Cr (2 decimals), L (1 decimal) or k (0 decimals) |
| Formatters.FormatInr | fire-calc-app/src/utils/formatters.js:1-8 | NaN or infinity shows ₹0; large values show the sign, the rupee sign and Cr or L with 2 decimals; smaller values use the grouping formatter |
| Analytics.Rank | fire-calc-app/src/utils/analytics.js:4-29 | the number of thresholds a value reaches is between 0 and the number of thresholds |
| Analytics.RankMonotone | fire-calc-app/src/utils/analytics.js:4-29 | a larger value never reaches fewer thresholds |
| Analytics.RankOfFive | fire-calc-app/src/utils/analytics.js:6-11 | with five thresholds, the rank is the position of the first threshold above the value |
| Analytics.AgeGroup | fire-calc-app/src/utils/analytics.js:4-12 | "Unknown" exactly for falsy ages (0, NaN); +∞ is "50+" and -∞ is "Under 25" |
| Analytics.IncomeTier | fire-calc-app/src/utils/analytics.js:14-23 | "Unknown" exactly for falsy income; +∞ is "1Cr+" and -∞ is "< 10L" |
| Analytics.AgeGroupByRank | fire-calc-app/src/utils/analytics.js:5-11 | a non-zero age's group is the label at the rank of the age among 25, 30, 35, 40, 50 |
| Analytics.IncomeTierByRank | fire-calc-app/src/utils/analytics.js:15-22 | a non-zero income's tier is the label at the rank of its lakhs among 10, 20, 30, 50, 100 |
| Analytics.RiskProfile | fire-calc-app/src/utils/analytics.js:25-29 | the profile is always one of the three labels, ranked at 75 and 90, and NaN is "Risky" |
| Analytics.AgeGroupMonotone | fire-calc-app/src/utils/analytics.js:5-11 | an older age never falls in a younger group |
| Analytics.IncomeTierMonotone | fire-calc-app/src/utils/analytics.js:15-22 | a larger income never falls in a lower tier |
| Analytics.RiskProfileMonotone | fire-calc-app/src/utils/analytics.js:25-29 | a higher success rate never yields a riskier profile |
| JsMath.Filter | fire-calc-app/src/FireCalcPro.jsx:287-291 | `filter` never lengthens the list |
| JsMath.FilterMembers | fire-calc-app/src/FireCalcPro.jsx:287-291 | `filter` keeps exactly the elements that pass |
| JsMath.FilterKeepsAll | fire-calc-app/src/FireCalcPro.jsx:287-291 | filtering a list whose elements all pass returns it unchanged |
| JsMath.FilterAppend | fire-calc-app/src/FireCalcPro.jsx:287-291 | `filter` keeps the order: filtering a concatenation concatenates the filtered parts |
| JsMath.FilterCounts | fire-calc-app/src/utils/fireMath.js:65-66 | `filter` keeps each passing element exactly as often as it occurs and drops every other one (multiset equality per element) |
| Calculator.MapWhere | fire-calc-app/src/FireCalcPro.jsx:284-292 | the conditional `map` keeps the length |
| Calculator.MapWhereAt | fire-calc-app/src/FireCalcPro.jsx:284-292 | element i is edited iff it matches, and is otherwise unchanged |
| Calculator.MapWhereNoHit | fire-calc-app/src/FireCalcPro.jsx:284-292 | when nothing matches the list is unchanged |
| Calculator.AddCustomAsset | fire-calc-app/src/FireCalcPro.jsx:280-282 | appends one asset with the clock's id, an empty name, value 0, return 10 and tax 20, keeping the others |
| Calculator.SetAssetField | fire-calc-app/src/FireCalcPro.jsx:284 | setting a field never changes the asset's id |
| Calculator.UpdateCustomAsset | fire-calc-app/src/FireCalcPro.jsx:283-285 | updating keeps the number of assets |
| Calculator.UpdateCustomAssetAt | fire-calc-app/src/FireCalcPro.jsx:283-285 | only assets with the given id get the field set; the others are unchanged and every id is kept |
| Calculator.UpdateAbsentAsset | fire-calc-app/src/FireCalcPro.jsx:283-285 | updating an absent id changes nothing |
| Calculator.RemoveCustomAsset | fire-calc-app/src/FireCalcPro.jsx:286-288 | removal leaves exactly the assets with other ids |
| Calculator.RemoveAssetKeepsOrder | fire-calc-app/src/FireCalcPro.jsx:286-288 | removal keeps the other assets in their order, dropping an asset in place exactly when it has the removed id |
| Calculator.RemoveAddedAsset | fire-calc-app/src/FireCalcPro.jsx:280-288 | removing a just-added asset with a fresh id restores the list |
| Calculator.AddEvent | fire-calc-app/src/FireCalcPro.jsx:290 | appends a "New Goal" five years after the current age, costing 1,000,000, one-time, keeping the others |
| Calculator.SetEventField | fire-calc-app/src/FireCalcPro.jsx:292 | setting a field keeps the event's id and processed flag |
| Calculator.UpdateEvent | fire-calc-app/src/FireCalcPro.jsx:292 | updating keeps the number of events |
| Calculator.UpdateEventAt | fire-calc-app/src/FireCalcPro.jsx:292 | only events with the given id get the field set; the others are unchanged |
| Calculator.UpdateAbsentEvent | fire-calc-app/src/FireCalcPro.jsx:292 | updating an absent id changes nothing |
| Calculator.RemoveEvent | fire-calc-app/src/FireCalcPro.jsx:291 | removal leaves exactly the events with other ids |
| Calculator.RemoveEventKeepsOrder | fire-calc-app/src/FireCalcPro.jsx:291 | removal keeps the other events in their order, dropping an event in place exactly when it has the removed id |
| Calculator.RemoveAddedEvent | fire-calc-app/src/FireCalcPro.jsx:290-291 | removing a just-added event with a fresh id restores the list |
| Calculator.ComputeMetrics | fire-calc-app/src/FireCalcPro.jsx:297-306 | net worth is all holdings plus the emergency fund; surplus iff income covers expenses plus 12 months of SIP; coverage is absent iff expenses are not positive, and otherwise is the fund over the monthly expense |
| Calculator.NatText | fire-calc-app/src/FireCalcPro.jsx:459 | a natural number prints as a non-empty string of digits |
| Calculator.IntText | fire-calc-app/src/FireCalcPro.jsx:459 | an integer prints as digits, with only a minus sign besides |
| Calculator.CellText | fire-calc-app/src/FireCalcPro.jsx:459 | a null target joins as the empty cell, and only null does |
| Calculator.EventCellIsNumber | fire-calc-app/src/FireCalcPro.jsx:459 | the sanitised event cell is the plain number, even for a negative amount |
| Calculator.Join | fire-calc-app/src/FireCalcPro.jsx:459 | `parts.join(sep)`; no contract of its own, JoinCount and JoinFree state how many separators it adds and that it adds no other character |
| Calculator.Header | fire-calc-app/src/FireCalcPro.jsx:459 | the header line is exactly `Age,Balance,RealValue,Equity,Stable,Alternative,Target,Event` |
| Calculator.Row | fire-calc-app/src/FireCalcPro.jsx:459 | one snapshot's eight cells joined by commas; no contract of its own, RowShape states its shape |
| Calculator.Csv | fire-calc-app/src/FireCalcPro.jsx:459 | the file: the header line, then one line per snapshot, joined by line breaks; no contract of its own, CsvShape states its shape |
| Calculator.Cells | fire-calc-app/src/FireCalcPro.jsx:459 | a row has one cell per header column |
| Calculator.Rows | fire-calc-app/src/FireCalcPro.jsx:459 | one row per snapshot |
| Calculator.RowsAt | fire-calc-app/src/FireCalcPro.jsx:459 | row i is snapshot i's row |
| Calculator.CountAbsent | fire-calc-app/src/FireCalcPro.jsx:459 | an absent character occurs zero times |
| Calculator.JoinCount | fire-calc-app/src/FireCalcPro.jsx:459 | joining parts that each have n copies of a character gives n per part, plus one per separator when it is the separator |
| Calculator.MulSucc | fire-calc-app/src/FireCalcPro.jsx:459 | the counting step of `JoinCount`: one more part of n copies adds n |
| Calculator.JoinFree | fire-calc-app/src/FireCalcPro.jsx:459 | joining parts free of a character with another separator keeps the result free of it |
| Calculator.NumberFree | fire-calc-app/src/FireCalcPro.jsx:459 | a printed number contains no comma and no newline |
| Calculator.CellFree | fire-calc-app/src/FireCalcPro.jsx:459 | no cell contains a comma or a newline |
| Calculator.RowShape | fire-calc-app/src/FireCalcPro.jsx:459 | each data line has exactly 7 commas and no newline |
| Calculator.HeaderShape | fire-calc-app/src/FireCalcPro.jsx:459 | the header has exactly 7 commas and no newline |
| Calculator.CsvShape | fire-calc-app/src/FireCalcPro.jsx:459 | the export has one newline per snapshot and 8 columns on each of its lines |
| ProEngine.HalfTaxDrag | fire-calc-app/src/FireCalcPro.jsx:316-324 | equity and custom returns are taxed at half the rate (the mean of the pre-tax and post-tax returns); stable is taxed in full |
| ProEngine.EquityRate | fire-calc-app/src/FireCalcPro.jsx:316 | equity return after half the equity tax, not capped; no contract of its own, its meaning is stated by HalfTaxDrag and LighterDragThanFireMath |
| ProEngine.StableRate | fire-calc-app/src/FireCalcPro.jsx:317 | stable return after the full stable tax, not capped; no contract of its own, its meaning is stated by HalfTaxDrag |
| ProEngine.LighterDragThanFireMath | fire-calc-app/src/FireCalcPro.jsx:316 | for non-negative tax and returns in [0, 100], the calculator's equity rate is at least the core engine's; for a tax rate in [0, 100] the core engine's 100% return cap makes it strictly lower above 100 |
| ProEngine.CustomMonthlyRates | fire-calc-app/src/FireCalcPro.jsx:323-326 | one monthly rate per custom asset |
| ProEngine.Inflation | fire-calc-app/src/FireCalcPro.jsx:350-398 | the uncapped inflation multiplier is positive, so the deflation is defined |
| ProEngine.InitialState | fire-calc-app/src/FireCalcPro.jsx:313-338 | the starting state tracks one value per custom asset |
| ProEngine.ContributePhase | fire-calc-app/src/FireCalcPro.jsx:345-348 | the step-up changes only the two SIPs |
| ProEngine.FlowPhase | fire-calc-app/src/FireCalcPro.jsx:355-370 | the cash flow changes only equity, stable and the yearly withdrawal |
| ProEngine.GrowthPhase | fire-calc-app/src/FireCalcPro.jsx:372-380 | growth changes only the balances, keeping one value per asset |
| ProEngine.EventPhase | fire-calc-app/src/FireCalcPro.jsx:382-395 | an event changes only equity and stable |
| ProEngine.MakeSnapshot | fire-calc-app/src/FireCalcPro.jsx:405-418 | every field: the floored age; the rounded balance, real balance, equity, stable and custom total; target and real target null exactly in retirement and otherwise the rounded target and deflated target; the rounded event cost, withdrawal and real withdrawal |
| ProEngine.RecordPhase | fire-calc-app/src/FireCalcPro.jsx:397-420 | recording changes only the FIRE flag and month, the snapshot list and the withdrawal accumulator |
| ProEngine.Step | fire-calc-app/src/FireCalcPro.jsx:340-421 | one month keeps one value per custom asset (its effects are stated by ProEngineProps) |
| ProEngine.Run | fire-calc-app/src/FireCalcPro.jsx:340-421 | any number of months keeps one value per custom asset |
| ProEngine.Month | fire-calc-app/src/FireCalcPro.jsx:340-421 | month k keeps one value per custom asset |
| ProEngine.Divide | fire-calc-app/src/FireCalcPro.jsx:438 | JavaScript division: exact for a non-zero divisor; division by zero is NaN only for 0/0, and infinite otherwise |
| ProEngine.RoundedShare | fire-calc-app/src/FireCalcPro.jsx:439-450 | 85% of the payment rounded to an integer; NaN stays NaN |
| ProEngine.SaveMoreAsWrittenAtZeroRate | fire-calc-app/src/FireCalcPro.jsx:438-439 | with a zero blended rate the closed-form remedy is NaN for any gap |
| ProEngine.SaveMoreAsWritten | fire-calc-app/src/FireCalcPro.jsx:438-450 | the save-more remedy as written, `Math.round(gap * r / ((1 + r)^n - 1) * 0.85)` with JavaScript NaN and Infinity; no contract of its own, SaveMoreAsWrittenAtZeroRate and SaveMoreAgrees state where it is NaN and where it is a number (the as-written half of the finding) |
| ProEngine.Payment | fire-calc-app/src/FireCalcPro.jsx:438 | the payment whose monthly-compounded future value over the months equals the gap, or straight-line gap/months at rate 0 |
| ProEngine.SaveMoreAgrees | fire-calc-app/src/FireCalcPro.jsx:438-439 | the corrected remedy equals the written one wherever the written one is defined, and is the straight-line share where it is NaN |
| ProEngine.SaveMore | fire-calc-app/src/FireCalcPro.jsx:438-439 | the corrected remedy: 85% of the annuity payment, rounded, always a number; no contract of its own, SaveMoreAgrees states that it equals the written formula wherever that is a number (the corrected half of the finding) |
| ProEngine.Remedies | fire-calc-app/src/FireCalcPro.jsx:430-446 | no remedies unless the gap is positive; then: save more is the closed form as written when months remain (0 otherwise), which is the rounded 85% of the annuity payment where the rate compounds and NaN at a zero rate; work longer is the years from retirement to the first later snapshot at or above its target, or "> 30"; spend less is the rounded shortfall of expenses over the deflated safe withdrawal, never negative |
| ProEngine.Summarize | fire-calc-app/src/FireCalcPro.jsx:423-454 | the corpus, target and real gap come from the first snapshot at the effective retirement age (0 when there is none) and the gap is target minus corpus; the FIRE age is present exactly when the target was reached; the warning holds iff the SIP step-up exceeds salary growth; the remedies are computed from that gap and corpus |
| ProEngine.Project | fire-calc-app/src/FireCalcPro.jsx:309-455 | the engine's results as a function of the plan: the summary of the state after the whole horizon; no contract of its own, stated by CalculateResults and the ProEngineProps Project* and SnapshotSchedule lemmas |
| ProEngine.StepUpMonth | fire-calc-app/src/FireCalcPro.jsx:345-348 | the imperative step-up matches the phase function |
| ProEngine.FlowMonth | fire-calc-app/src/FireCalcPro.jsx:355-370 | the imperative cash flow matches the phase function |
| ProEngine.GrowMonth | fire-calc-app/src/FireCalcPro.jsx:372-380 | the imperative growth matches the phase function and returns the custom total |
| ProEngine.EventMonth | fire-calc-app/src/FireCalcPro.jsx:382-395 | the imperative event handling matches the phase function |
| ProEngine.RecordMonth | fire-calc-app/src/FireCalcPro.jsx:397-420 | the imperative FIRE check and snapshot match the phase function |
| ProEngine.AdvanceMonth | fire-calc-app/src/FireCalcPro.jsx:340-421 | one imperative iteration equals `Step` |
| ProEngine.StartProjection | fire-calc-app/src/FireCalcPro.jsx:313-338 | the imperative set-up yields the initial state, with the custom values in a fresh array |
| ProEngine.RunProjection | fire-calc-app/src/FireCalcPro.jsx:336-421 | the loop over the safe horizon yields `Run` over `Horizon` months |
| ProEngine.CalculateResults | fire-calc-app/src/FireCalcPro.jsx:309-455 | the whole inline engine returns exactly the functional `Project`, including a NaN save-more remedy at a zero blended rate |
| ProEngineProps.AccumulationAddsContributions | fire-calc-app/src/FireCalcPro.jsx:355-358 | before retirement the stepped SIPs are added in full (no cap, no top-up) and nothing is withdrawn |
| ProEngineProps.DecumulationWithdrawsExpenses | fire-calc-app/src/FireCalcPro.jsx:359-370 | in retirement exactly the month's expense leaves the liquid total, with no floor, and is added to the yearly withdrawal |
| ProEngineProps.StepUpSchedule | fire-calc-app/src/FireCalcPro.jsx:345-348 | SIPs are multiplied by 1 + step-up at each 12-month boundary before retirement, and are unchanged otherwise |
| ProEngineProps.NegativeBalancesCompound | fire-calc-app/src/FireCalcPro.jsx:373-374 | unconditional growth moves a negative balance, which the core engine's positive-only growth does not |
| ProEngineProps.EventPaysFirstHit | fire-calc-app/src/FireCalcPro.jsx:383-395 | with no event hit nothing changes; otherwise the first hit's inflated cost is charged and reduces the liquid total by exactly that cost |
| ProEngineProps.StepFire | fire-calc-app/src/FireCalcPro.jsx:400-403 | the FIRE flag is set in a pre-retirement month whose total reaches the target, and the month is recorded only the first time |
| ProEngineProps.StepRecords | fire-calc-app/src/FireCalcPro.jsx:405-420 | a snapshot is appended exactly in month 1 and each 12th month, earlier ones are kept, the new one has the month's floored age, the rounded total of the month's closing state as its balance, null targets exactly when retired and, before retirement, the withdrawal total carried in; the accumulator is then reset |
| ProEngineProps.Trace | fire-calc-app/src/FireCalcPro.jsx:340-421 | the trace holds months 0..k, each keeping one value per custom asset |
| ProEngineProps.TraceIsRun | fire-calc-app/src/FireCalcPro.jsx:340-421 | the last state of the trace is the state after k months |
| ProEngineProps.FireRuleExtends | fire-calc-app/src/FireCalcPro.jsx:400-403 | the first-FIRE-hit rule survives appending a month |
| ProEngineProps.TraceFireRule | fire-calc-app/src/FireCalcPro.jsx:400-403 | every trace satisfies the first-FIRE-hit rule |
| ProEngineProps.FirstFireHit | fire-calc-app/src/FireCalcPro.jsx:400-403 | `reached` holds iff some month hit the target before retirement, and the FIRE month is the first such month |
| ProEngineProps.SnapshotRuleExtends | fire-calc-app/src/FireCalcPro.jsx:405-420 | the snapshot schedule survives appending a recorded month |
| ProEngineProps.TraceSnapshotRule | fire-calc-app/src/FireCalcPro.jsx:405-420 | every trace follows the snapshot schedule |
| ProEngineProps.Schedule | fire-calc-app/src/FireCalcPro.jsx:405-420 | over any trace following the snapshot rule: one snapshot for month 1 and each 12th month, each with its month's age and null targets exactly when retired, and with the rounded total of that month's state as its balance |
| ProEngineProps.SnapshotSchedule | fire-calc-app/src/FireCalcPro.jsx:405-420 | after k months the snapshot list has the scheduled length; snapshot i records month 1 or month 12·i, and its balance is the rounded total of the trace's state after that month |
| ProEngineProps.ProjectFireAge | fire-calc-app/src/FireCalcPro.jsx:400-449 | the FIRE age is present iff some month within the horizon hit the target before retirement, and is then derived from the first such month |
| ProEngineProps.ProjectGap | fire-calc-app/src/FireCalcPro.jsx:423-451 | the gap is the target minus the corpus of the snapshot at the retirement age (both 0 when there is none); no remedies unless the gap is positive; the warning holds iff step-up exceeds salary growth |

## Left out

- FireMathProps.AccumulationConserves: conservation holds for non-negative SIPs only (the source's input field accepts a leading minus); for negative SIPs with a fund below its floor the source debits the contribution twice, which NegativeSipDebitedTwice states.
- FireMathProps.ProjectNullMeansNeverDepleted / FireMathProps.ProjectBankruptcyAge: the "null means never depleted" direction is stated for a non-negative current age only; with a negative current age a depletion in the month that reaches age exactly 0 is recorded as 0, which the result's truthiness test (fireMath.js:287) reports as null.
- Rendering, charts, the PDF report, persistence in local storage, Firebase authentication and the web worker (`mcWorker.js`) are outside the computational core. So are `handleReset`/`handleClear` and the generic `updateState`/`updateNested` setters.
- `trackCalculation` only forwards the three analytics buckets to a logging service; the logging call is I/O and is not modelled.
- Floating point is not modelled: reals have no rounding error, no overflow and no `NaN` from arithmetic. `Math.pow`, `toFixed`, `Intl.NumberFormat`, `Math.random` (Box–Muller draws) and `Date.now` are parameters of the model, and the model assumes only `pow(x, y) > 0` for `x > 0`.
- FireMath.Sane / ProEngine requirements: both engines require `pow` to be positive on positive bases and inflation above -100%, so that the deflator is non-zero. For inflation at or below -100% the source's deflator is zero or `NaN`, and its real values are `Infinity` or `NaN`.
- The `b || 0` reads of missing holdings are modelled as plain numbers: holdings are reals and can never be `undefined` or `NaN`.
- The typed `Float64Array` of final corpora holds snapshot balances, which are always integers after rounding. It is modelled as `array<int>`, so its numeric `sort` is integer sorting.
- FireMath.CalculateProjection / ProEngine.CalculateResults: the FIRE age, bankruptcy age and emergency coverage are kept as numbers. The source returns them as strings via `toFixed(1)`.
- `workLonger` is modelled as a number of years, or a "> 30" marker when no snapshot qualifies.
- The sort order of equal keys in `Array.prototype.sort` is not modelled. Chart rows have distinct ages, so the result is unaffected.
- CompareTab.CompareChart: it requires that no scenario is named "age". Such a scenario would overwrite the bucket's age field (`CompareTab.AgeNamedScenarioOverwritesAge` shows it). The `minAge`/`maxAge` locals (lines 25, 31-32) are computed but never used. The `!results?.projection` guard (line 28) never fires, because the engine always returns a projection.
- MonteCarlo.GetPercentile: it requires `p ≥ 0` (the source calls it with 50 and 10 only). The `retirementCorpusValues` array is declared but never used.
- SmartInputModel.ParseFloat: defined only on the text shapes the regex accepts, which is the only place the component calls it.
- `FireCalcPro.jsx` keeps its own copies of `formatCompact` (lines 28-36) and `sanitizeCSV` (lines 38-43). They are identical to `formatters.js` and modelled once there. The CSV export's `Blob` download is I/O.
- FireMath.AffordabilityCap: it models the cap as written; the cap is then discarded by the shadowing at lines 160-161, as `FireMathIncome.IncomeDoesNotAffectProjection` proves.
- MonteCarlo: the default `iterations = 10000` of `runMonteCarloSimulation` (monteCarlo.js:20) is not modelled as a default; the number of iterations is always an explicit parameter.
- Neither engine marks one-time events as `processed`, so the `!e.processed` test only honours a flag set elsewhere. The model keeps the test as written.

## Findings

| source | as written | input that shows it | evidently intended | confidence | as-written member | corrected member |
|---|---|---|---|---|---|---|
| fire-calc-app/src/FireCalcPro.jsx:438-439 | the extra monthly saving is `gap * r / ((1 + r)^n - 1) * 0.85` with the blended monthly rate r | a positive gap with a blended rate of 0 (zero equity and stable returns, or returns cancelled by tax) gives 0/0, so `saveMore` is `NaN` | at a zero rate the annuity payment is the straight-line `gap / n` | not executed | ProEngine.SaveMoreAsWrittenAtZeroRate | ProEngine.SaveMoreAgrees |

The inline engine itself keeps the formula as written: `ProEngine.Remedies`, and so `Project` and `CalculateResults`, report a NaN remedy at a zero blended rate. `ProEngine.SaveMore` is the corrected remedy, and `Remedies` states that the engine's value equals it wherever the written formula is defined.
