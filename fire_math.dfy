// The projection engine (calculateProjection): a month-by-month simulation
// of equity, stable, custom-asset and emergency-fund balances, stated as a
// step function over the simulation state, the run of that step over the
// horizon, the post-loop summary, and the imperative loop that computes it.

module FireMath {
  import opened JsMath
  import opened Plan
  import GapSolver

  /** One yearly sampling point. `target`/`realTarget` are null once retired. */
  datatype Snapshot = Snapshot(
    age: int, balance: int, realBalance: int, equity: int, stable: int, custom: int,
    emergency: int, realEmergency: int, target: Option<int>, realTarget: Option<int>,
    event: int, withdrawal: int, realWithdrawal: int)

  /** "Work longer" is a number of years, or the string "> 30". */
  datatype WorkLonger = Years(years: real) | MoreThan30

  datatype Solutions = Solutions(saveMore: int, workLonger: WorkLonger, spendLess: int)

  /** What calculateProjection returns; the two ages are the numbers that the
      source then formats with toFixed(1), and `emergencyCoverageFuture` is
      the value it formats with toFixed(1) (0 when never set). */
  datatype ProjectionResult = ProjectionResult(
    projection: seq<Snapshot>, gap: int, realGap: int, fireAge: Option<real>,
    solutions: Solutions, salaryVsStepUpWarning: bool, emergencyCoverageFuture: real,
    targetAtRetirement: int, corpusAtRetirement: int, bankruptcyAge: Option<real>)

  /** The loop's mutable variables after some number of months. */
  datatype SimState = SimState(
    equity: real, stable: real, custom: seq<real>, emergency: real,
    sipEquity: real, sipStable: real, income: real, yearlyWithdrawal: real,
    bankruptcyAge: Option<real>, reached: bool, fireMonth: int, coverage: real,
    data: seq<Snapshot>)

  // ---------------------------------------------------------------- rates

  /** Equity return after tax drag (75% of the tax rate), capped at 100%. */
  function REquityBase(c: Config): real
  {
    Min(c.equityReturn, 100.0) * (1.0 - (c.taxEquity / 100.0) * 0.75) / 100.0
  }

  /** With a tax rate in [0, 100] and a non-negative return the taxed
      equity rate lies in [0, 1], and any return of 100% or more is capped
      to the rate of exactly 100%. */
  lemma REquityBaseBounds(c: Config)
    ensures 0.0 <= c.equityReturn && 0.0 <= c.taxEquity <= 100.0 ==> 0.0 <= REquityBase(c) <= 1.0
    ensures c.equityReturn >= 100.0 ==> REquityBase(c) == 1.0 - (c.taxEquity / 100.0) * 0.75
  {
    var keep := 1.0 - (c.taxEquity / 100.0) * 0.75;
    var capped := Min(c.equityReturn, 100.0);
    assert REquityBase(c) == capped * keep / 100.0;
    if 0.0 <= c.equityReturn && 0.0 <= c.taxEquity <= 100.0 {
      assert 0.0 <= capped <= 100.0 && 0.0 <= keep <= 1.0;
      assert capped * keep <= 100.0 * keep;
    }
  }

  /** Stable return after the full tax rate, capped at 100%. */
  function RStable(c: Config): real
  {
    Min(c.stableReturn, 100.0) * (1.0 - c.taxStable / 100.0) / 100.0
  }

  /** Custom asset return after 75% tax drag (no cap). */
  function CustomRate(a: CustomAsset): real
  {
    a.returnRate * (1.0 - (a.taxRate / 100.0) * 0.75) / 100.0
  }

  function EffectiveInflation(c: Config): real
  {
    Min(c.inflationRate, 50.0)
  }

  /** `Math.pow(1 + r, 1/12) - 1`. */
  function MonthlyRate(pow: Pow, r: real): real
  {
    pow(1.0 + r, 1.0 / 12.0) - 1.0
  }

  /** `Math.pow(1 + inflation/100, m/12)`: the cumulative inflation factor
      of month m, also the deflator of real values. */
  function Inflator(pow: Pow, c: Config, m: int): (r: real)
    requires PowPositive(pow) && c.inflationRate > -100.0
    ensures r > 0.0
  {
    pow(1.0 + EffectiveInflation(c) / 100.0, m as real / 12.0)
  }

  function IncomeGrowth(pow: Pow, c: Config): real
  {
    MonthlyRate(pow, c.salaryGrowth / 100.0)
  }

  function CustomMonthlyRates(pow: Pow, assets: seq<CustomAsset>): (r: seq<real>)
    ensures |r| == |assets|
  {
    if assets == [] then []
    else CustomMonthlyRates(pow, assets[..|assets| - 1]) + [MonthlyRate(pow, CustomRate(assets[|assets| - 1]))]
  }

  /** The equity return of month m: -20% a year during the first 24 months
      of retirement when the stress test is on, the base return otherwise. */
  function EquityAnnualRate(c: Config, m: int): real
  {
    if c.stressTest && IsRetired(c, m) && m as real <= MonthsToRetire(c) + 24.0 then -0.20
    else REquityBase(c)
  }

  function StepMultiplier(c: Config): real
  {
    1.0 + c.sipStepUp / 100.0
  }

  /** Corpus that funds `annualExp` at the safe withdrawal rate (floored at 0.1%). */
  function TargetCorpus(c: Config, annualExp: real): real
  {
    annualExp / (Max(0.1, c.safeWithdrawalRate) / 100.0)
  }

  // ---------------------------------------------------------------- events

  /** `e.type !== 'recurring'`. */
  predicate IsOneTime(e: LifeEvent)
  {
    e.kind != Recurring
  }

  /** `e.type === 'recurring'`. */
  predicate IsRecurring(e: LifeEvent)
  {
    e.kind == Recurring
  }

  /** `lifeEvents.filter(e => e.type !== 'recurring')`: each one-time event
      kept as often as it occurs, and no recurring one. */
  function OneTimeEvents(events: seq<LifeEvent>): (r: seq<LifeEvent>)
    ensures forall e :: multiset(r)[e] == if e.kind == OneTime then multiset(events)[e] else 0
  {
    FilterCounts(events, IsOneTime);
    Filter(events, IsOneTime)
  }

  /** `lifeEvents.filter(e => e.type === 'recurring')`: each recurring event
      kept as often as it occurs, and no one-time one. */
  function RecurringEvents(events: seq<LifeEvent>): (r: seq<LifeEvent>)
    ensures forall e :: multiset(r)[e] == if e.kind == Recurring then multiset(events)[e] else 0
  {
    FilterCounts(events, IsRecurring);
    Filter(events, IsRecurring)
  }

  /** Both filters keep the order of the events they keep: an event
      between two stretches of the list lands between the filtered
      stretches, exactly when it is of the filter's kind. */
  lemma EventFiltersKeepOrder(before: seq<LifeEvent>, e: LifeEvent, after: seq<LifeEvent>)
    ensures OneTimeEvents(before + [e] + after)
            == OneTimeEvents(before) + (if e.kind == OneTime then [e] else []) + OneTimeEvents(after)
    ensures RecurringEvents(before + [e] + after)
            == RecurringEvents(before) + (if e.kind == Recurring then [e] else []) + RecurringEvents(after)
  {
    FilterAppend(before + [e], after, IsOneTime);
    FilterAppend(before, [e], IsOneTime);
    FilterAppend(before + [e], after, IsRecurring);
    FilterAppend(before, [e], IsRecurring);
    assert [e][..0] == [];
  }

  /** A recurring event runs to its end age when that is after its start,
      otherwise to life expectancy. */
  function EndAge(lifeExpectancy: real, e: LifeEvent): real
  {
    if e.endAge.Some? && e.endAge.value > e.age then e.endAge.value else lifeExpectancy
  }

  predicate RecurringActive(lifeExpectancy: real, e: LifeEvent, age: real)
  {
    e.age <= age <= EndAge(lifeExpectancy, e)
  }

  /** This month's outflow for the active recurring events, inflated. */
  function RecurringOutflow(lifeExpectancy: real, events: seq<LifeEvent>, age: real, mult: real): real
  {
    if events == [] then 0.0
    else
      var e := events[|events| - 1];
      RecurringOutflow(lifeExpectancy, events[..|events| - 1], age, mult)
        + (if RecurringActive(lifeExpectancy, e, age) then (e.cost * mult) / 12.0 else 0.0)
  }

  /** No active recurring event means no outflow, and non-negative costs
      under a non-negative inflation multiplier never give a negative one. */
  lemma {:induction false} RecurringOutflowBounds(lifeExpectancy: real, events: seq<LifeEvent>, age: real, mult: real)
    ensures (forall i :: 0 <= i < |events| ==> !RecurringActive(lifeExpectancy, events[i], age))
            ==> RecurringOutflow(lifeExpectancy, events, age, mult) == 0.0
    ensures 0.0 <= mult && (forall i :: 0 <= i < |events| ==> 0.0 <= events[i].cost)
            ==> 0.0 <= RecurringOutflow(lifeExpectancy, events, age, mult)
  {
    if events != [] {
      var init := events[..|events| - 1];
      assert forall i :: 0 <= i < |init| ==> init[i] == events[i];
      RecurringOutflowBounds(lifeExpectancy, init, age, mult);
      var e := events[|events| - 1];
      if 0.0 <= mult && 0.0 <= e.cost {
        assert 0.0 <= e.cost * mult;
      }
    }
  }

  predicate EventTriggers(e: LifeEvent, age: real)
  {
    Abs(e.age - age) < 0.05 && !e.processed
  }

  /** `find`: the first event that triggers at this age, if any. */
  function FirstEventHit(events: seq<LifeEvent>, age: real): Option<LifeEvent>
  {
    if events == [] then None
    else if EventTriggers(events[0], age) then Some(events[0])
    else FirstEventHit(events[1..], age)
  }

  /** The hit is the first event that triggers; there is none exactly when
      no event triggers. */
  lemma {:induction false} FirstEventHitIsFirst(events: seq<LifeEvent>, age: real)
    ensures FirstEventHit(events, age).None? <==> forall i :: 0 <= i < |events| ==> !EventTriggers(events[i], age)
    ensures FirstEventHit(events, age).Some? ==>
              exists i :: 0 <= i < |events| && events[i] == FirstEventHit(events, age).value
                          && EventTriggers(events[i], age)
                          && forall j :: 0 <= j < i ==> !EventTriggers(events[j], age)
  {
    if events != [] && !EventTriggers(events[0], age) {
      FirstEventHitIsFirst(events[1..], age);
      assert forall i :: 1 <= i < |events| ==> events[i] == events[1..][i - 1];
      if FirstEventHit(events, age).Some? {
        var i :| 0 <= i < |events[1..]| && events[1..][i] == FirstEventHit(events, age).value
                 && EventTriggers(events[1..][i], age)
                 && forall j :: 0 <= j < i ==> !EventTriggers(events[1..][j], age);
        assert events[i + 1] == events[1..][i];
        assert forall j :: 0 <= j < i + 1 ==> !EventTriggers(events[j], age) by {
          forall j | 0 <= j < i + 1 ensures !EventTriggers(events[j], age) {
            if j > 0 { assert events[j] == events[1..][j - 1]; }
          }
        }
      }
    }
  }

  // ---------------------------------------------------------------- monthly flows

  /** The surplus check's capped contributions. The loop computes them and
      then declares fresh variables of the same name, so these values never
      reach a balance. */
  function AffordabilityCap(sipE: real, sipS: real, surplus: real): (r: (real, real))
    ensures sipE + sipS <= surplus ==> r == (sipE, sipS)
    ensures sipE + sipS > surplus && sipE + sipS > 0.0 ==>
              r.0 + r.1 == surplus && r.0 * (sipE + sipS) == sipE * surplus && r.1 * (sipE + sipS) == sipS * surplus
    ensures sipE + sipS > surplus && sipE + sipS <= 0.0 ==> r == (0.0, 0.0)
  {
    if sipE + sipS > surplus then
      if sipE + sipS > 0.0 then
        var ratio := surplus / (sipE + sipS);
        (sipE * ratio, sipS * ratio)
      else (0.0, 0.0)
    else (sipE, sipS)
  }

  /** The emergency floor factor: the original fund over the original
      monthly expenses (1 when those are zero). */
  function EmergencyMultiple(c: Config): real
  {
    var monthly := c.currentAnnualExpenses / 12.0;
    c.emergencyFund / (if monthly != 0.0 then monthly else 1.0)
  }

  function RequiredEmergencyFund(c: Config, retired: bool, monthlyExp: real, mult: real): real
  {
    var living := if retired then monthlyExp else c.currentAnnualExpenses / 12.0 * mult;
    EmergencyMultiple(c) * living
  }

  /** The month's top-up of the emergency fund, taken from contributions. */
  function TopUp(retired: bool, emergency: real, required: real, sipE: real, sipS: real): real
  {
    if emergency < required && !retired then Min(required - emergency, sipE + sipS) else 0.0
  }

  /** The top-up is zero after retirement or when the fund is at its floor;
      otherwise it never overshoots the floor nor exceeds the contributions. */
  lemma TopUpBounds(retired: bool, emergency: real, required: real, sipE: real, sipS: real)
    ensures retired || emergency >= required ==> TopUp(retired, emergency, required, sipE, sipS) == 0.0
    ensures TopUp(retired, emergency, required, sipE, sipS) <= Max(0.0, required - emergency)
    ensures !retired && emergency < required ==>
              TopUp(retired, emergency, required, sipE, sipS) == required - emergency
              || TopUp(retired, emergency, required, sipE, sipS) == sipE + sipS
    ensures 0.0 <= sipE && 0.0 <= sipS ==> 0.0 <= TopUp(retired, emergency, required, sipE, sipS) <= sipE + sipS
  {
  }

  /** Contributions actually invested after diverting a positive top-up pro rata. */
  function Divert(sipE: real, sipS: real, topUp: real): (r: (real, real))
    ensures topUp > 0.0 && sipE + sipS > 0.0 ==> r.0 + r.1 + topUp == sipE + sipS
    ensures !(topUp > 0.0 && sipE + sipS > 0.0) ==> r == (sipE, sipS)
  {
    if topUp > 0.0 && sipE + sipS > 0.0 then ProRata(sipE, sipS, topUp) else (sipE, sipS)
  }

  datatype Flow = Flow(equity: real, stable: real, depleted: bool)

  /** Accumulation month: invest the diverted contributions, then pay the
      recurring outflow pro rata, but only while liquid assets are positive. */
  function Accumulate(equity: real, stable: real, sipE: real, sipS: real, topUp: real, recurring: real): (r: Flow)
    ensures !r.depleted
  {
    var invested := Divert(sipE, sipS, topUp);
    var e := equity + invested.0;
    var s := stable + invested.1;
    if recurring > 0.0 && e + s > 0.0 then
      var w := ProRata(e, s, recurring);
      Flow(w.0, w.1, false)
    else Flow(e, s, false)
  }

  /** Decumulation month: withdraw the outflow (at most liquid + 1000) pro
      rata when liquid is positive; otherwise take it all from equity and
      flag depletion. */
  function Decumulate(equity: real, stable: real, outflow: real): (r: Flow)
    ensures r.depleted <==> equity + stable <= 0.0
  {
    if equity + stable > 0.0 then
      var w := ProRata(equity, stable, Min(outflow, equity + stable + 1000.0));
      Flow(w.0, w.1, false)
    else Flow(equity - outflow, stable, true)
  }

  /** Growth applies only to a positive balance. */
  function GrowPositive(v: real, mr: real): (r: real)
    ensures v <= 0.0 ==> r == v
  {
    if v > 0.0 then v * (1.0 + mr) else v
  }

  function Grow(v: real, mr: real): real
  {
    v * (1.0 + mr)
  }

  /** Custom assets grow every month, whatever their sign. */
  function GrowCustom(vals: seq<real>, mrs: seq<real>): (r: seq<real>)
    requires |vals| == |mrs|
    ensures |r| == |vals|
  {
    if vals == [] then []
    else GrowCustom(vals[..|vals| - 1], mrs[..|mrs| - 1]) + [Grow(vals[|vals| - 1], mrs[|mrs| - 1])]
  }

  // ---------------------------------------------------------------- snapshots

  function MakeSnapshot(age: real, retired: bool, total: real, deflator: real,
                        equity: real, stable: real, customTotal: real, emergency: real,
                        target: real, eventCost: real, recurring: real, withdrawn: real): (r: Snapshot)
    requires deflator != 0.0
    ensures r.age == age.Floor
    ensures r.balance == Round(total) && r.realBalance == Round(total / deflator)
    ensures r.equity == Round(equity) && r.stable == Round(stable) && r.custom == Round(customTotal)
    ensures r.emergency == Round(emergency) && r.realEmergency == Round(emergency / deflator)
    ensures r.target.None? <==> retired
    ensures r.realTarget.None? <==> retired
    ensures !retired ==> r.target == Some(Round(target)) && r.realTarget == Some(Round(target / deflator))
    ensures r.event == Round(eventCost + recurring * 12.0)
    ensures r.withdrawal == Round(withdrawn) && r.realWithdrawal == Round(withdrawn / deflator)
  {
    Snapshot(
      age.Floor, Round(total), Round(total / deflator), Round(equity), Round(stable),
      Round(customTotal), Round(emergency), Round(emergency / deflator),
      if retired then None else Some(Round(target)),
      if retired then None else Some(Round(target / deflator)),
      Round(eventCost + recurring * 12.0), Round(withdrawn), Round(withdrawn / deflator))
  }

  // ---------------------------------------------------------------- the run

  ghost predicate Sane(pow: Pow, c: Config)
  {
    PowPositive(pow) && c.inflationRate > -100.0
  }

  function InitialState(c: Config): (r: SimState)
    ensures |r.custom| == |c.customAssets|
  {
    SimState(Sum(c.equityAssets), Sum(c.stableAssets), CustomStart(c.customAssets), c.emergencyFund,
             c.monthlySIP.equity, c.monthlySIP.stable, c.annualIncome / 12.0, 0.0,
             None, false, -1, 0.0, [])
  }

  function CustomStart(assets: seq<CustomAsset>): (r: seq<real>)
    ensures |r| == |assets|
  {
    if assets == [] then [] else CustomStart(assets[..|assets| - 1]) + [assets[|assets| - 1].value]
  }

  lemma {:induction false} CustomStartValues(assets: seq<CustomAsset>)
    ensures forall i :: 0 <= i < |assets| ==> CustomStart(assets)[i] == assets[i].value
  {
    if assets != [] {
      CustomStartValues(assets[..|assets| - 1]);
    }
  }

  /** The month's retirement expenses, inflated. */
  function AnnualExpense(pow: Pow, c: Config, m: int): real
    requires Sane(pow, c)
  {
    c.retirementAnnualExpenses * Inflator(pow, c, m)
  }

  function MonthlyExpense(pow: Pow, c: Config, m: int): real
    requires Sane(pow, c)
  {
    AnnualExpense(pow, c, m) / 12.0
  }

  /** The FIRE target of month m. */
  function TargetAt(pow: Pow, c: Config, m: int): real
    requires Sane(pow, c)
  {
    TargetCorpus(c, AnnualExpense(pow, c, m))
  }

  function MrStable(pow: Pow, c: Config): real
  {
    MonthlyRate(pow, RStable(c))
  }

  function MrEquity(pow: Pow, c: Config, m: int): real
  {
    MonthlyRate(pow, EquityAnnualRate(c, m))
  }

  /** The total wealth the loop compares with the target after month m. */
  function Total(st: SimState): real
  {
    st.equity + st.stable + Sum(st.custom)
  }

  /** Salary growth before retirement and the yearly contribution step-up. */
  function ContributePhase(pow: Pow, c: Config, st: SimState, m: int): (r: SimState)
    ensures r == st.(sipEquity := r.sipEquity, sipStable := r.sipStable, income := r.income)
  {
    st.(income := if !IsRetired(c, m) then st.income * (1.0 + IncomeGrowth(pow, c)) else st.income,
        sipEquity := if IsStepUpMonth(c, m) then st.sipEquity * StepMultiplier(c) else st.sipEquity,
        sipStable := if IsStepUpMonth(c, m) then st.sipStable * StepMultiplier(c) else st.sipStable)
  }

  /** The emergency fund earns the stable return and, before retirement, is
      topped up from this month's contributions; also yields the top-up. */
  function EmergencyPhase(pow: Pow, c: Config, st: SimState, m: int): (r: (SimState, real))
    requires Sane(pow, c)
    ensures r.0 == st.(emergency := r.0.emergency)
    ensures r.0.emergency == st.emergency * (1.0 + MrStable(pow, c)) + r.1
  {
    var isRetired := IsRetired(c, m);
    var grown := st.emergency * (1.0 + MrStable(pow, c));
    var required := RequiredEmergencyFund(c, isRetired, MonthlyExpense(pow, c, m), Inflator(pow, c, m));
    var topUp := TopUp(isRetired, grown, required, st.sipEquity, st.sipStable);
    (st.(emergency := grown + topUp), topUp)
  }

  /** Accumulation (invest, pay recurring costs) before retirement,
      decumulation (withdraw, note depletion) after. */
  function FlowPhase(pow: Pow, c: Config, st: SimState, m: int, topUp: real, recurring: real): (r: SimState)
    requires Sane(pow, c)
    ensures r == st.(equity := r.equity, stable := r.stable, yearlyWithdrawal := r.yearlyWithdrawal,
                     bankruptcyAge := r.bankruptcyAge)
  {
    var isRetired := IsRetired(c, m);
    var currentAge := AgeAt(c, m);
    var monthlyExp := MonthlyExpense(pow, c, m);
    var flow := if !isRetired then Accumulate(st.equity, st.stable, st.sipEquity, st.sipStable, topUp, recurring)
                else Decumulate(st.equity, st.stable, monthlyExp + recurring);
    st.(equity := flow.equity, stable := flow.stable,
        yearlyWithdrawal := if isRetired then st.yearlyWithdrawal + (monthlyExp + recurring) else st.yearlyWithdrawal,
        bankruptcyAge := if flow.depleted && st.bankruptcyAge.None? then Some(currentAge) else st.bankruptcyAge)
  }

  /** Market growth of equity and stable (positive balances only) and of
      every custom asset. */
  function GrowthPhase(pow: Pow, c: Config, st: SimState, m: int): (r: SimState)
    requires Sane(pow, c)
    requires |st.custom| == |c.customAssets|
    ensures r == st.(equity := r.equity, stable := r.stable, custom := r.custom)
    ensures |r.custom| == |c.customAssets|
  {
    var mrEquity := MrEquity(pow, c, m);
    var mrStable := MrStable(pow, c);
    st.(equity := GrowPositive(st.equity, mrEquity), stable := GrowPositive(st.stable, mrStable),
        custom := GrowCustom(st.custom, CustomMonthlyRates(pow, c.customAssets)))
  }

  /** The first unprocessed one-time event due at this age, paid (inflated)
      from liquid assets; also yields the cost paid (0 when none). */
  function EventPhase(pow: Pow, c: Config, st: SimState, m: int): (r: (SimState, real))
    requires Sane(pow, c)
    ensures r.0 == st.(equity := r.0.equity, stable := r.0.stable)
  {
    var currentAge := AgeAt(c, m);
    var mult := Inflator(pow, c, m);
    var hit := FirstEventHit(OneTimeEvents(c.lifeEvents), currentAge);
    if hit.Some? then
      var cost := hit.value.cost * mult;
      var w := Withdraw(st.equity, st.stable, cost);
      (st.(equity := w.0, stable := w.1), cost)
    else (st, 0.0)
  }

  /** The FIRE check, the emergency coverage at retirement and the yearly
      snapshot (which resets the year's withdrawal total). */
  function RecordPhase(pow: Pow, c: Config, st: SimState, m: int, eventCost: real, recurring: real): (r: SimState)
    requires Sane(pow, c)
    ensures r == st.(yearlyWithdrawal := r.yearlyWithdrawal, reached := r.reached, fireMonth := r.fireMonth,
                     coverage := r.coverage, data := r.data)
  {
    var isRetired := IsRetired(c, m);
    var currentAge := AgeAt(c, m);
    var mult := Inflator(pow, c, m);
    var annualExp := AnnualExpense(pow, c, m);
    var target := TargetAt(pow, c, m);
    var total := Total(st);
    var newlyReached := !st.reached && total >= target && !isRetired;
    var snapshot := IsSnapshotMonth(m);
    st.(yearlyWithdrawal := if snapshot then 0.0 else st.yearlyWithdrawal,
        reached := st.reached || newlyReached,
        fireMonth := if newlyReached then m else st.fireMonth,
        coverage := if m == Round(MonthsToRetire(c)) then st.emergency / Max(annualExp / 12.0, 1.0) else st.coverage,
        data := if snapshot then
                  st.data + [MakeSnapshot(currentAge, isRetired, total, mult, st.equity, st.stable, Sum(st.custom),
                                          st.emergency, target, eventCost, recurring, st.yearlyWithdrawal)]
                else st.data)
  }

  /** This month's outflow for the plan's recurring events. */
  function MonthRecurring(pow: Pow, c: Config, m: int): real
    requires Sane(pow, c)
  {
    RecurringOutflow(c.lifeExpectancy, RecurringEvents(c.lifeEvents), AgeAt(c, m), Inflator(pow, c, m))
  }

  /** One iteration of the projection loop: the five phases in the order
      the loop body runs them. */
  function Step(pow: Pow, c: Config, st: SimState, m: int): (r: SimState)
    requires Sane(pow, c)
    requires |st.custom| == |c.customAssets|
    ensures |r.custom| == |c.customAssets|
  {
    var recurring := MonthRecurring(pow, c, m);
    var emergency := EmergencyPhase(pow, c, ContributePhase(pow, c, st, m), m);
    var grown := GrowthPhase(pow, c, FlowPhase(pow, c, emergency.0, m, emergency.1, recurring), m);
    var event := EventPhase(pow, c, grown, m);
    RecordPhase(pow, c, event.0, m, event.1, recurring)
  }

  /** The state after the first k months. */
  function Run(pow: Pow, c: Config, k: nat): (r: SimState)
    requires Sane(pow, c)
    ensures |r.custom| == |c.customAssets|
    decreases k, 1
  {
    if k == 0 then InitialState(c) else Month(pow, c, k)
  }

  /** Month k applied to the state after the first k - 1 months. */
  function Month(pow: Pow, c: Config, k: nat): (r: SimState)
    requires Sane(pow, c) && k > 0
    ensures |r.custom| == |c.customAssets|
    decreases k, 0
  {
    Step(pow, c, Run(pow, c, k - 1), k)
  }

  // ---------------------------------------------------------------- summary

  /** `data.find(d => d.age === effectiveRetireAge)`, for both engines'
      snapshot types. */
  function FindAge<S>(data: seq<S>, ageOf: S -> int, age: real): (r: Option<S>)
    ensures r.Some? ==> r.value in data && ageOf(r.value) as real == age
    ensures r.None? ==> forall d :: d in data ==> ageOf(d) as real != age
    ensures r.Some? ==> exists i :: 0 <= i < |data| && data[i] == r.value
                                    && forall j :: 0 <= j < i ==> ageOf(data[j]) as real != age
  {
    if data == [] then None
    else if ageOf(data[0]) as real == age then Some(data[0])
    else FindAge(data[1..], ageOf, age)
  }

  function SnapshotAge(d: Snapshot): int
  {
    d.age
  }

  /** JavaScript's `null` in a numeric comparison or `|| 0` is 0. */
  function NullAsZero(o: Option<int>): int
  {
    if o.Some? then o.value else 0
  }

  function SnapshotBalance(d: Snapshot): int
  {
    d.balance
  }

  function SnapshotTarget(d: Snapshot): Option<int>
  {
    d.target
  }

  /** `data.find(d => d.balance >= d.target && d.age > effectiveRetireAge)`
      over either engine's snapshots, read through their accessors; after
      retirement `d.target` is null, which compares as 0. */
  function FindSolveYear<S>(data: seq<S>, balanceOf: S -> int, targetOf: S -> Option<int>, ageOf: S -> int,
                            retireAge: real): (r: Option<S>)
    ensures r.Some? ==> r.value in data && SolvesGap(r.value, balanceOf, targetOf, ageOf, retireAge)
    ensures r.None? ==> forall d :: d in data ==> !SolvesGap(d, balanceOf, targetOf, ageOf, retireAge)
    ensures r.Some? ==> exists i :: 0 <= i < |data| && data[i] == r.value
                                    && forall j :: 0 <= j < i ==> !SolvesGap(data[j], balanceOf, targetOf, ageOf, retireAge)
  {
    if data == [] then None
    else if SolvesGap(data[0], balanceOf, targetOf, ageOf, retireAge) then Some(data[0])
    else FindSolveYear(data[1..], balanceOf, targetOf, ageOf, retireAge)
  }

  /** The search condition: the snapshot is at or above its target and
      later than retirement. */
  predicate SolvesGap<S>(d: S, balanceOf: S -> int, targetOf: S -> Option<int>, ageOf: S -> int, retireAge: real)
  {
    balanceOf(d) >= NullAsZero(targetOf(d)) && ageOf(d) as real > retireAge
  }

  function BalanceOrZero(d: Option<Snapshot>): int
  {
    if d.Some? then d.value.balance else 0
  }

  function RealBalanceOrZero(d: Option<Snapshot>): int
  {
    if d.Some? then d.value.realBalance else 0
  }

  function TargetOrZero(d: Option<Snapshot>): int
  {
    if d.Some? then NullAsZero(d.value.target) else 0
  }

  function RealTargetOrZero(d: Option<Snapshot>): int
  {
    if d.Some? then NullAsZero(d.value.realTarget) else 0
  }

  /** Per-month rate of the blended return, weighted by the starting
      contributions (60% equity when there are none). */
  function BlendedMonthlyRate(c: Config): real
  {
    var totalSip := c.monthlySIP.equity + c.monthlySIP.stable;
    var eqWeight := if totalSip > 0.0 then c.monthlySIP.equity / totalSip else 0.6;
    (REquityBase(c) * eqWeight + RStable(c) * (1.0 - eqWeight)) / 12.0
  }

  /** The remediation triple; all zero unless there is a shortfall. */
  function Remedies(c: Config, data: seq<Snapshot>, gap: int, corpus: int): Solutions
  {
    if gap > 0 then
      var saveMore := if MonthsToRetire(c) > 0.0
                      then GapSolver.RequiredSip(gap as real, MonthsToRetire(c), BlendedMonthlyRate(c), c.sipStepUp)
                      else 0.0;
      var solveYear := FindSolveYear(data, SnapshotBalance, SnapshotTarget, SnapshotAge, EffectiveRetireAge(c));
      var workLonger := if solveYear.Some? then Years(solveYear.value.age as real - EffectiveRetireAge(c)) else MoreThan30;
      var allowedAnnual := corpus as real * (c.safeWithdrawalRate / 100.0);
      Solutions(Round(saveMore), workLonger, Round(Max(0.0, c.retirementAnnualExpenses - allowedAnnual)))
    else Solutions(0, Years(0.0), 0)
  }

  /** The result of the loop's final state: the snapshot at the
      effective retirement age (the first one, 0s when there is none) gives
      the corpus, the target and their gap; the FIRE age is set exactly when
      the target was reached; a recorded bankruptcy age is reported unless
      it is 0, which JavaScript reads as false. */
  function Summarize(c: Config, st: SimState): (r: ProjectionResult)
    ensures r.projection == st.data
    ensures var d := FindAge(st.data, SnapshotAge, EffectiveRetireAge(c));
            (d.None? ==> r.corpusAtRetirement == 0 && r.targetAtRetirement == 0 && r.realGap == 0)
            && (d.Some? ==> r.corpusAtRetirement == d.value.balance
                            && r.targetAtRetirement == NullAsZero(d.value.target)
                            && r.realGap == NullAsZero(d.value.realTarget) - d.value.realBalance)
    ensures r.gap == r.targetAtRetirement - r.corpusAtRetirement
    ensures r.fireAge.Some? <==> st.reached
    ensures st.reached ==> r.fireAge.value == AgeAt(c, st.fireMonth)
    ensures r.bankruptcyAge.Some? <==> st.bankruptcyAge.Some? && st.bankruptcyAge.value != 0.0
    ensures r.bankruptcyAge.Some? ==> r.bankruptcyAge == st.bankruptcyAge
    ensures r.salaryVsStepUpWarning <==> c.sipStepUp > c.salaryGrowth
    ensures r.solutions == Remedies(c, st.data, r.gap, r.corpusAtRetirement)
  {
    var atRetirement := FindAge(st.data, SnapshotAge, EffectiveRetireAge(c));
    var corpus := BalanceOrZero(atRetirement);
    var target := TargetOrZero(atRetirement);
    var gap := target - corpus;
    ProjectionResult(
      st.data, gap, RealTargetOrZero(atRetirement) - RealBalanceOrZero(atRetirement),
      if st.reached then Some(AgeAt(c, st.fireMonth)) else None,
      Remedies(c, st.data, gap, corpus),
      c.sipStepUp > c.salaryGrowth, st.coverage, target, corpus,
      if st.bankruptcyAge.Some? && st.bankruptcyAge.value != 0.0 then st.bankruptcyAge else None)
  }

  /** calculateProjection, as a function of the plan. */
  function Project(pow: Pow, c: Config): ProjectionResult
    requires Sane(pow, c)
  {
    Summarize(c, Run(pow, c, Horizon(c)))
  }

  // ---------------------------------------------------------------- the loop

  /** `recurringEvents.forEach(...)`: accumulates the month's recurring outflow. */
  method SumRecurringOutflow(lifeExpectancy: real, events: seq<LifeEvent>, age: real, mult: real) returns (outflow: real)
    ensures outflow == RecurringOutflow(lifeExpectancy, events, age, mult)
  {
    outflow := 0.0;
    for i := 0 to |events|
      invariant outflow == RecurringOutflow(lifeExpectancy, events[..i], age, mult)
    {
      var e := events[i];
      var endAge := if e.endAge.Some? && e.endAge.value > e.age then e.endAge.value else lifeExpectancy;
      if age >= e.age && age <= endAge {
        outflow := outflow + (e.cost * mult) / 12.0;
      }
      assert events[..i + 1][..i] == events[..i];
    }
    assert events[..|events|] == events;
  }

  lemma GrowCustomSnoc(vals: seq<real>, mrs: seq<real>, i: nat)
    requires |vals| == |mrs| && i < |vals|
    ensures GrowCustom(vals[..i + 1], mrs[..i + 1]) == GrowCustom(vals[..i], mrs[..i]) + [Grow(vals[i], mrs[i])]
  {
    assert vals[..i + 1][..i] == vals[..i];
    assert mrs[..i + 1][..i] == mrs[..i];
  }

  /** `customAssetsGrowth.forEach(...)`: grows every custom value in place
      and returns their new total. */
  method GrowCustomValues(vals: array<real>, mrs: seq<real>) returns (total: real)
    requires vals.Length == |mrs|
    modifies vals
    ensures vals[..] == GrowCustom(old(vals[..]), mrs)
    ensures total == Sum(vals[..])
  {
    total := 0.0;
    for i := 0 to vals.Length
      invariant vals[..i] == GrowCustom(old(vals[..])[..i], mrs[..i])
      invariant vals[i..] == old(vals[..])[i..]
      invariant total == Sum(vals[..i])
    {
      assert vals[i] == old(vals[..])[i] by { assert vals[i..][0] == old(vals[..])[i..][0]; }
      ghost var done := vals[..i];
      vals[i] := vals[i] * (1.0 + mrs[i]);
      total := total + vals[i];
      assert vals[i] == Grow(old(vals[..])[i], mrs[i]);
      assert vals[..i] == done;
      assert vals[..i + 1] == vals[..i] + [vals[i]];
      GrowCustomSnoc(old(vals[..]), mrs, i);
      assert vals[..i + 1][..i] == vals[..i];
    }
    assert vals[..vals.Length] == vals[..];
    assert old(vals[..])[..vals.Length] == old(vals[..]);
    assert mrs[..vals.Length] == mrs;
  }

  /** Salary growth and the contribution step-up, in place. */
  method ContributeMonth(pow: Pow, c: Config, st: SimState, m: int) returns (next: SimState)
    ensures next == ContributePhase(pow, c, st, m)
  {
    var sipEquity, sipStable, income := st.sipEquity, st.sipStable, st.income;
    if !IsRetired(c, m) {
      income := income * (1.0 + IncomeGrowth(pow, c));
    }
    if IsStepUpMonth(c, m) {
      var stepMult := StepMultiplier(c);
      sipEquity := sipEquity * stepMult;
      sipStable := sipStable * stepMult;
    }
    next := st.(income := income, sipEquity := sipEquity, sipStable := sipStable);
  }

  /** Emergency-fund growth and top-up, in place; returns the top-up. */
  method TopUpEmergency(pow: Pow, c: Config, st: SimState, m: int) returns (next: SimState, topUp: real)
    requires Sane(pow, c)
    ensures (next, topUp) == EmergencyPhase(pow, c, st, m)
  {
    var isRetired := IsRetired(c, m);
    var required := RequiredEmergencyFund(c, isRetired, MonthlyExpense(pow, c, m), Inflator(pow, c, m));
    var emergency := st.emergency * (1.0 + MrStable(pow, c));
    topUp := 0.0;
    if emergency < required {
      if !isRetired {
        topUp := Min(required - emergency, st.sipEquity + st.sipStable);
        emergency := emergency + topUp;
      }
    }
    next := st.(emergency := emergency);
    ghost var want := EmergencyPhase(pow, c, st, m);
    assert topUp == TopUp(isRetired, st.emergency * (1.0 + MrStable(pow, c)), required, st.sipEquity, st.sipStable);
    assert want.1 == topUp;
    assert want.0 == next;
  }

  /** Accumulation or decumulation of the liquid balances, in place. */
  method FlowMonth(pow: Pow, c: Config, st: SimState, m: int, topUp: real, recurring: real) returns (next: SimState)
    requires Sane(pow, c)
    ensures next == FlowPhase(pow, c, st, m, topUp, recurring)
  {
    var equity, stable := st.equity, st.stable;
    var yearlyWithdrawal, bankruptcyAge := st.yearlyWithdrawal, st.bankruptcyAge;
    var isRetired := IsRetired(c, m);
    var currentAge := AgeAt(c, m);
    var monthlyExp := MonthlyExpense(pow, c, m);
    if !isRetired {
      var invested := Divert(st.sipEquity, st.sipStable, topUp);
      equity, stable := equity + invested.0, stable + invested.1;
      if recurring > 0.0 && equity + stable > 0.0 {
        var w := ProRata(equity, stable, recurring);
        equity, stable := w.0, w.1;
      }
    } else {
      var outflow := monthlyExp + recurring;
      if equity + stable > 0.0 {
        var w := ProRata(equity, stable, Min(outflow, equity + stable + 1000.0));
        equity, stable := w.0, w.1;
      } else {
        equity := equity - outflow;
        if bankruptcyAge.None? {
          bankruptcyAge := Some(currentAge);
        }
      }
      yearlyWithdrawal := yearlyWithdrawal + outflow;
    }
    next := st.(equity := equity, stable := stable, yearlyWithdrawal := yearlyWithdrawal, bankruptcyAge := bankruptcyAge);
  }

  /** Growth of the liquid balances and, in place, of the custom assets;
      also returns the custom total. */
  method GrowMonth(pow: Pow, c: Config, st: SimState, m: int, mrs: seq<real>, custom: array<real>)
    returns (next: SimState, customTotal: real)
    requires Sane(pow, c)
    requires mrs == CustomMonthlyRates(pow, c.customAssets)
    requires custom.Length == |c.customAssets| && custom[..] == st.custom
    modifies custom
    ensures next == GrowthPhase(pow, c, st, m)
    ensures custom[..] == next.custom && customTotal == Sum(next.custom)
  {
    var equity, stable := st.equity, st.stable;
    var mrEquity := MrEquity(pow, c, m);
    var mrStable := MrStable(pow, c);
    if equity > 0.0 {
      equity := equity * (1.0 + mrEquity);
    }
    if stable > 0.0 {
      stable := stable * (1.0 + mrStable);
    }
    assert equity == GrowPositive(st.equity, mrEquity) && stable == GrowPositive(st.stable, mrStable);
    customTotal := GrowCustomValues(custom, mrs);
    assert custom[..] == GrowCustom(st.custom, mrs);
    next := st.(equity := equity, stable := stable, custom := custom[..]);
  }

  /** The one-time event of this month, if any; returns its cost. */
  method EventMonth(pow: Pow, c: Config, st: SimState, m: int, oneTime: seq<LifeEvent>)
    returns (next: SimState, eventCost: real)
    requires Sane(pow, c)
    requires oneTime == OneTimeEvents(c.lifeEvents)
    ensures (next, eventCost) == EventPhase(pow, c, st, m)
  {
    var equity, stable := st.equity, st.stable;
    var currentAge := AgeAt(c, m);
    var mult := Inflator(pow, c, m);
    var hit := FirstEventHit(oneTime, currentAge);
    eventCost := 0.0;
    if hit.Some? {
      eventCost := hit.value.cost * mult;
      if equity + stable > 0.0 {
        var w := ProRata(equity, stable, eventCost);
        equity, stable := w.0, w.1;
      } else {
        equity := equity - eventCost;
      }
    }
    next := st.(equity := equity, stable := stable);
    ghost var want := EventPhase(pow, c, st, m);
    assert hit.Some? ==> (equity, stable) == Withdraw(st.equity, st.stable, eventCost);
    assert want.1 == eventCost;
    assert want.0 == next;
  }

  /** The FIRE check, coverage and the yearly snapshot. */
  method RecordMonth(pow: Pow, c: Config, st: SimState, m: int, customTotal: real, eventCost: real, recurring: real)
    returns (next: SimState)
    requires Sane(pow, c)
    requires customTotal == Sum(st.custom)
    ensures next == RecordPhase(pow, c, st, m, eventCost, recurring)
  {
    var yearlyWithdrawal := st.yearlyWithdrawal;
    var reached, fireMonth, coverage, data := st.reached, st.fireMonth, st.coverage, st.data;
    var isRetired := IsRetired(c, m);
    var currentAge := AgeAt(c, m);
    var mult := Inflator(pow, c, m);
    var annualExp := AnnualExpense(pow, c, m);
    var target := TargetAt(pow, c, m);
    var total := st.equity + st.stable + customTotal;
    if !reached && total >= target && !isRetired {
      reached, fireMonth := true, m;
    }
    if m == Round(MonthsToRetire(c)) {
      coverage := st.emergency / Max(annualExp / 12.0, 1.0);
    }
    if IsSnapshotMonth(m) {
      data := data + [MakeSnapshot(currentAge, isRetired, total, mult, st.equity, st.stable, customTotal,
                                   st.emergency, target, eventCost, recurring, yearlyWithdrawal)];
      yearlyWithdrawal := 0.0;
    }
    next := st.(yearlyWithdrawal := yearlyWithdrawal, reached := reached, fireMonth := fireMonth,
                coverage := coverage, data := data);
  }

  /** One pass of the loop body: the five phases in order. */
  method AdvanceMonth(pow: Pow, c: Config, st: SimState, m: int, oneTime: seq<LifeEvent>,
                      recurringEvents: seq<LifeEvent>, mrs: seq<real>, custom: array<real>)
    returns (next: SimState)
    requires Sane(pow, c)
    requires oneTime == OneTimeEvents(c.lifeEvents) && recurringEvents == RecurringEvents(c.lifeEvents)
    requires mrs == CustomMonthlyRates(pow, c.customAssets)
    requires custom.Length == |c.customAssets| && custom[..] == st.custom
    modifies custom
    ensures next == Step(pow, c, st, m)
    ensures custom[..] == next.custom
  {
    var currentAge := AgeAt(c, m);
    var mult := Inflator(pow, c, m);
    var recurring := SumRecurringOutflow(c.lifeExpectancy, recurringEvents, currentAge, mult);
    var topUp, customTotal, eventCost;
    next := ContributeMonth(pow, c, st, m);
    next, topUp := TopUpEmergency(pow, c, next, m);
    next := FlowMonth(pow, c, next, m, topUp, recurring);
    next, customTotal := GrowMonth(pow, c, next, m, mrs, custom);
    next, eventCost := EventMonth(pow, c, next, m, oneTime);
    next := RecordMonth(pow, c, next, m, customTotal, eventCost, recurring);
  }

  /** The starting balances: summed asset lists, the custom values copied
      into the array the loop grows in place, the contributions and income. */
  method StartProjection(c: Config) returns (st: SimState, custom: array<real>)
    ensures fresh(custom)
    ensures st == InitialState(c) && custom[..] == st.custom
  {
    custom := new real[|c.customAssets|];
    forall i | 0 <= i < custom.Length {
      custom[i] := c.customAssets[i].value;
    }
    st := SimState(Sum(c.equityAssets), Sum(c.stableAssets), custom[..], c.emergencyFund,
                   c.monthlySIP.equity, c.monthlySIP.stable, c.annualIncome / 12.0, 0.0,
                   None, false, -1, 0.0, []);
    CustomStartValues(c.customAssets);
    assert custom[..] == CustomStart(c.customAssets);
  }

  /** The projection loop of calculateProjection, from the starting
      balances to the end of the horizon. */
  method RunProjection(pow: Pow, c: Config) returns (st: SimState)
    requires Sane(pow, c)
    ensures st == Run(pow, c, Horizon(c))
  {
    var oneTime := OneTimeEvents(c.lifeEvents);
    var recurringEvents := RecurringEvents(c.lifeEvents);
    var mrs := CustomMonthlyRates(pow, c.customAssets);
    var custom;
    st, custom := StartProjection(c);
    var n := Horizon(c);
    for m := 1 to n + 1
      invariant custom.Length == |c.customAssets| && custom[..] == st.custom
      invariant st == Run(pow, c, m - 1)
    {
      st := AdvanceMonth(pow, c, st, m, oneTime, recurringEvents, mrs, custom);
    }
  }

  /** calculateProjection: the month loop followed by the summary. */
  method CalculateProjection(pow: Pow, c: Config) returns (r: ProjectionResult)
    requires Sane(pow, c)
    ensures r == Project(pow, c)
  {
    var st := RunProjection(pow, c);
    r := Summarize(c, st);
  }
}
