// The inline projection engine of FireCalcPro.jsx, the one the rendered
// calculator uses. It shares the plan and the schedule rules with
// calculateProjection but differs in its arithmetic: half tax drag on
// equity and custom assets, no return or inflation caps, no affordability
// cap, no emergency fund and no bankruptcy tracking, growth of negative
// balances, events drawn from every life event, and a closed-form
// "save more" remedy.

module ProEngine {
  import opened JsMath
  import opened Plan
  import FireMath

  /** One yearly sampling point; the targets are null once retired. */
  datatype Snapshot = Snapshot(
    age: int, balance: int, realBalance: int, equity: int, stable: int, custom: int,
    target: Option<int>, realTarget: Option<int>, event: int, withdrawal: int, realWithdrawal: int)

  /** The remedies object. "Save more" is a JavaScript number, which the
      closed form can make NaN or infinite. */
  datatype Solutions = Solutions(saveMore: Num, workLonger: FireMath.WorkLonger, spendLess: int)

  /** The memoised `results` object. */
  datatype Result = Result(
    projection: seq<Snapshot>, gap: int, realGap: int, fireAge: Option<real>,
    solutions: Solutions, salaryVsStepUpWarning: bool,
    targetAtRetirement: int, corpusAtRetirement: int)

  /** The loop's mutable variables after some number of months. */
  datatype State = State(
    equity: real, stable: real, custom: seq<real>, sipEquity: real, sipStable: real,
    yearlyWithdrawal: real, reached: bool, fireMonth: int, data: seq<Snapshot>)

  // ---------------------------------------------------------------- rates

  /** Equity return after half the equity tax rate, uncapped. */
  function EquityRate(c: Config): real
  {
    c.equityReturn * (1.0 - (c.taxEquity / 100.0) * 0.5) / 100.0
  }

  /** Stable return after the full stable tax rate, uncapped. */
  function StableRate(c: Config): real
  {
    c.stableReturn * (1.0 - c.taxStable / 100.0) / 100.0
  }

  /** Custom asset return after half its tax rate. */
  function CustomRate(a: CustomAsset): real
  {
    a.returnRate * (1.0 - (a.taxRate / 100.0) * 0.5) / 100.0
  }

  /** Equity and custom assets are taxed at half rate: their return is the
      mean of the untaxed and the fully taxed return. Stable assets pay the
      full rate. */
  lemma HalfTaxDrag(c: Config, a: CustomAsset)
    ensures EquityRate(c) == (c.equityReturn / 100.0 + c.equityReturn * (1.0 - c.taxEquity / 100.0) / 100.0) / 2.0
    ensures CustomRate(a) == (a.returnRate / 100.0 + a.returnRate * (1.0 - a.taxRate / 100.0) / 100.0) / 2.0
    ensures StableRate(c) == c.stableReturn / 100.0 - (c.stableReturn / 100.0) * (c.taxStable / 100.0)
  {
  }

  /** Against calculateProjection (three quarters of the tax rate, returns
      capped at 100%): for a non-negative taxed return up to 100% the
      equity return here is never lower, and above 100% (with a tax rate of
      at most 100%) it is strictly higher, because it is not capped. */
  lemma LighterDragThanFireMath(c: Config)
    requires 0.0 <= c.taxEquity
    ensures 0.0 <= c.equityReturn <= 100.0 ==> FireMath.REquityBase(c) <= EquityRate(c)
    ensures c.taxEquity <= 100.0 && c.equityReturn > 100.0 ==> FireMath.REquityBase(c) < EquityRate(c)
  {
    if 0.0 <= c.equityReturn <= 100.0 {
      assert FireMath.REquityBase(c) == c.equityReturn * (1.0 - (c.taxEquity / 100.0) * 0.75) / 100.0;
      assert c.equityReturn * (c.taxEquity / 100.0) >= 0.0;
    } else if c.taxEquity <= 100.0 && c.equityReturn > 100.0 {
      var keep := 1.0 - (c.taxEquity / 100.0) * 0.5;
      assert FireMath.REquityBase(c) == 1.0 - (c.taxEquity / 100.0) * 0.75;
      assert EquityRate(c) == c.equityReturn * keep / 100.0;
      assert keep > 0.0;
      assert c.equityReturn * keep > 100.0 * keep;
    }
  }

  function MrEquity(pow: Pow, c: Config): real
  {
    FireMath.MonthlyRate(pow, EquityRate(c))
  }

  function MrStable(pow: Pow, c: Config): real
  {
    FireMath.MonthlyRate(pow, StableRate(c))
  }

  /** The custom assets' monthly rates, in list order. */
  function CustomMonthlyRates(pow: Pow, assets: seq<CustomAsset>): (r: seq<real>)
    ensures |r| == |assets|
  {
    if assets == [] then []
    else CustomMonthlyRates(pow, assets[..|assets| - 1]) + [FireMath.MonthlyRate(pow, CustomRate(assets[|assets| - 1]))]
  }

  /** `Math.pow(1 + inflationRate/100, months/12)`, the inflation rate
      uncapped. */
  function Inflation(pow: Pow, c: Config, months: real): (r: real)
    requires FireMath.Sane(pow, c)
    ensures r > 0.0
  {
    pow(1.0 + c.inflationRate / 100.0, months / 12.0)
  }

  function AnnualExpense(pow: Pow, c: Config, m: int): real
    requires FireMath.Sane(pow, c)
  {
    c.retirementAnnualExpenses * Inflation(pow, c, m as real)
  }

  function MonthlyExpense(pow: Pow, c: Config, m: int): real
    requires FireMath.Sane(pow, c)
  {
    AnnualExpense(pow, c, m) / 12.0
  }

  function TargetAt(pow: Pow, c: Config, m: int): real
    requires FireMath.Sane(pow, c)
  {
    FireMath.TargetCorpus(c, AnnualExpense(pow, c, m))
  }

  // ---------------------------------------------------------------- one month

  function InitialState(c: Config): (r: State)
    ensures |r.custom| == |c.customAssets|
  {
    State(Sum(c.equityAssets), Sum(c.stableAssets), FireMath.CustomStart(c.customAssets),
          c.monthlySIP.equity, c.monthlySIP.stable, 0.0, false, -1, [])
  }

  /** The yearly contribution step-up (first month of each later year,
      before retirement only). */
  function ContributePhase(c: Config, st: State, m: int): (r: State)
    ensures r == st.(sipEquity := r.sipEquity, sipStable := r.sipStable)
  {
    if IsStepUpMonth(c, m)
    then st.(sipEquity := st.sipEquity * FireMath.StepMultiplier(c), sipStable := st.sipStable * FireMath.StepMultiplier(c))
    else st
  }

  /** Accumulation adds this month's contributions in full; decumulation
      withdraws the month's expenses (pro rata while liquid assets are
      positive) and adds them to the year's withdrawal total. */
  function FlowPhase(pow: Pow, c: Config, st: State, m: int): (r: State)
    requires FireMath.Sane(pow, c)
    ensures r == st.(equity := r.equity, stable := r.stable, yearlyWithdrawal := r.yearlyWithdrawal)
  {
    if !IsRetired(c, m) then
      st.(equity := st.equity + st.sipEquity, stable := st.stable + st.sipStable)
    else
      var monthlyExp := MonthlyExpense(pow, c, m);
      var w := Withdraw(st.equity, st.stable, monthlyExp);
      st.(equity := w.0, stable := w.1, yearlyWithdrawal := st.yearlyWithdrawal + monthlyExp)
  }

  /** Every balance grows by its monthly rate, whatever its sign. */
  function GrowthPhase(pow: Pow, c: Config, st: State): (r: State)
    requires |st.custom| == |c.customAssets|
    ensures r == st.(equity := r.equity, stable := r.stable, custom := r.custom)
    ensures |r.custom| == |c.customAssets|
  {
    st.(equity := FireMath.Grow(st.equity, MrEquity(pow, c)), stable := FireMath.Grow(st.stable, MrStable(pow, c)),
        custom := FireMath.GrowCustom(st.custom, CustomMonthlyRates(pow, c.customAssets)))
  }

  /** The first unprocessed life event of any kind due at this age, paid
      (inflated) from liquid assets; also yields the cost paid. */
  function EventPhase(pow: Pow, c: Config, st: State, m: int): (r: (State, real))
    requires FireMath.Sane(pow, c)
    ensures r.0 == st.(equity := r.0.equity, stable := r.0.stable)
  {
    var hit := FireMath.FirstEventHit(c.lifeEvents, AgeAt(c, m));
    if hit.Some? then
      var cost := hit.value.cost * Inflation(pow, c, m as real);
      var w := Withdraw(st.equity, st.stable, cost);
      (st.(equity := w.0, stable := w.1), cost)
    else (st, 0.0)
  }

  function Total(st: State): real
  {
    st.equity + st.stable + Sum(st.custom)
  }

  function MakeSnapshot(age: real, retired: bool, total: real, deflator: real, equity: real, stable: real,
                        customTotal: real, target: real, eventCost: real, withdrawn: real): (r: Snapshot)
    requires deflator != 0.0
    ensures r.age == age.Floor
    ensures r.balance == Round(total) && r.realBalance == Round(total / deflator)
    ensures r.equity == Round(equity) && r.stable == Round(stable) && r.custom == Round(customTotal)
    ensures r.target.None? <==> retired
    ensures r.realTarget.None? <==> retired
    ensures !retired ==> r.target == Some(Round(target)) && r.realTarget == Some(Round(target / deflator))
    ensures r.event == Round(eventCost)
    ensures r.withdrawal == Round(withdrawn) && r.realWithdrawal == Round(withdrawn / deflator)
  {
    Snapshot(age.Floor, Round(total), Round(total / deflator), Round(equity), Round(stable), Round(customTotal),
             if retired then None else Some(Round(target)),
             if retired then None else Some(Round(target / deflator)),
             Round(eventCost), Round(withdrawn), Round(withdrawn / deflator))
  }

  /** The FIRE check and the yearly snapshot, which resets the year's
      withdrawal total. */
  function RecordPhase(pow: Pow, c: Config, st: State, m: int, eventCost: real): (r: State)
    requires FireMath.Sane(pow, c)
    ensures r == st.(yearlyWithdrawal := r.yearlyWithdrawal, reached := r.reached, fireMonth := r.fireMonth,
                     data := r.data)
  {
    var isRetired := IsRetired(c, m);
    var total := Total(st);
    var newlyReached := !st.reached && total >= TargetAt(pow, c, m) && !isRetired;
    var snapshot := IsSnapshotMonth(m);
    st.(yearlyWithdrawal := if snapshot then 0.0 else st.yearlyWithdrawal,
        reached := st.reached || newlyReached,
        fireMonth := if newlyReached then m else st.fireMonth,
        data := if snapshot then
                  st.data + [MakeSnapshot(AgeAt(c, m), isRetired, total, Inflation(pow, c, m as real), st.equity,
                                          st.stable, Sum(st.custom), TargetAt(pow, c, m), eventCost,
                                          st.yearlyWithdrawal)]
                else st.data)
  }

  /** One iteration of the loop body. */
  function Step(pow: Pow, c: Config, st: State, m: int): (r: State)
    requires FireMath.Sane(pow, c)
    requires |st.custom| == |c.customAssets|
    ensures |r.custom| == |c.customAssets|
  {
    var grown := GrowthPhase(pow, c, FlowPhase(pow, c, ContributePhase(c, st, m), m));
    var event := EventPhase(pow, c, grown, m);
    RecordPhase(pow, c, event.0, m, event.1)
  }

  /** The state after the first k months. */
  function Run(pow: Pow, c: Config, k: nat): (r: State)
    requires FireMath.Sane(pow, c)
    ensures |r.custom| == |c.customAssets|
    decreases k, 1
  {
    if k == 0 then InitialState(c) else Month(pow, c, k)
  }

  /** Month k applied to the state after the first k - 1 months. */
  function Month(pow: Pow, c: Config, k: nat): (r: State)
    requires FireMath.Sane(pow, c) && k > 0
    ensures |r.custom| == |c.customAssets|
    decreases k, 0
  {
    Step(pow, c, Run(pow, c, k - 1), k)
  }

  // ---------------------------------------------------------------- summary

  function SnapshotAge(d: Snapshot): int
  {
    d.age
  }

  function SnapshotBalance(d: Snapshot): int
  {
    d.balance
  }

  function SnapshotTarget(d: Snapshot): Option<int>
  {
    d.target
  }

  /** The blended monthly rate of the remedy, weighted by the starting
      contributions (60% equity when there are none). */
  function BlendedMonthlyRate(c: Config): real
  {
    var totalSip := c.monthlySIP.equity + c.monthlySIP.stable;
    var eqWeight := if totalSip > 0.0 then c.monthlySIP.equity / totalSip else 0.6;
    (EquityRate(c) * eqWeight + StableRate(c) * (1.0 - eqWeight)) / 12.0
  }

  /** A division of JavaScript numbers with a finite dividend: division by
      (positive) zero gives NaN for 0 and an infinity otherwise. */
  function Divide(a: real, b: real): (r: Num)
    ensures b != 0.0 ==> r == Finite(a / b)
    ensures b == 0.0 ==> (r.NaN? <==> a == 0.0)
  {
    if b != 0.0 then Finite(a / b) else if a == 0.0 then NaN else Infinity(a > 0.0)
  }

  /** `Math.round(x * 0.85)` on a JavaScript number. */
  function RoundedShare(x: Num): (r: Num)
    ensures x.Finite? ==> r == Finite(Round(x.value * 0.85) as real)
    ensures x.NaN? ==> r.NaN?
  {
    match x
    case Finite(v) => Finite(Round(v * 0.85) as real)
    case NaN => NaN
    case Infinity(positive) => Infinity(positive)
  }

  /** The closed-form "save more" exactly as written: 85% of the annuity
      payment `gap * r / ((1 + r)^n - 1)`, rounded. */
  function SaveMoreAsWritten(pow: Pow, gap: real, ratePerMonth: real, months: real): Num
  {
    RoundedShare(Divide(gap * ratePerMonth, pow(1.0 + ratePerMonth, months) - 1.0))
  }

  /** With a zero blended rate (for instance zero returns, or returns fully
      taxed away) the written formula divides 0 by 0: the remedy is NaN. */
  lemma SaveMoreAsWrittenAtZeroRate(pow: Pow, gap: real, months: real)
    requires pow(1.0, months) == 1.0
    ensures SaveMoreAsWritten(pow, gap, 0.0, months).NaN?
  {
  }

  /** The annuity payment that accumulates to `gap` over `months` months:
      the closed form when the rate compounds, the straight-line share
      otherwise. */
  function Payment(pow: Pow, gap: real, ratePerMonth: real, months: real): (pmt: real)
    requires months > 0.0
    ensures var growth := pow(1.0 + ratePerMonth, months) - 1.0;
            if ratePerMonth != 0.0 && growth != 0.0 then pmt * growth / ratePerMonth == gap
            else pmt * months == gap
  {
    var growth := pow(1.0 + ratePerMonth, months) - 1.0;
    if ratePerMonth != 0.0 && growth != 0.0 then gap * ratePerMonth / growth else gap / months
  }

  /** The corrected remedy: 85% of Payment, rounded (always a number). */
  function SaveMore(pow: Pow, gap: real, ratePerMonth: real, months: real): (r: int)
    requires months > 0.0
  {
    Round(Payment(pow, gap, ratePerMonth, months) * 0.85)
  }

  /** The corrected remedy agrees with the written one wherever the written
      one is defined, and is a number where the written one is NaN. */
  lemma SaveMoreAgrees(pow: Pow, gap: real, ratePerMonth: real, months: real)
    requires months > 0.0
    ensures ratePerMonth != 0.0 && pow(1.0 + ratePerMonth, months) - 1.0 != 0.0 ==>
              SaveMoreAsWritten(pow, gap, ratePerMonth, months) == Finite(SaveMore(pow, gap, ratePerMonth, months) as real)
    ensures ratePerMonth == 0.0 && pow(1.0, months) == 1.0 ==>
              SaveMoreAsWritten(pow, gap, ratePerMonth, months).NaN?
              && SaveMore(pow, gap, ratePerMonth, months) == Round(gap / months * 0.85)
  {
  }

  /** The remedies, zero unless there is a shortfall: save more by the
      closed form as written (only with months left before retirement),
      work longer until the first later snapshot at or above its target (a
      null target counting as 0), or spend less down to what the corpus
      funds at the safe withdrawal rate, deflated to today's money. */
  function Remedies(pow: Pow, c: Config, data: seq<Snapshot>, gap: int, corpus: int): (r: Solutions)
    requires FireMath.Sane(pow, c)
    ensures gap <= 0 ==> r == Solutions(Finite(0.0), FireMath.Years(0.0), 0)
    ensures gap > 0 && !(MonthsToRetire(c) > 0.0) ==> r.saveMore == Finite(0.0)
    ensures gap > 0 && MonthsToRetire(c) > 0.0 ==>
              r.saveMore == SaveMoreAsWritten(pow, gap as real, BlendedMonthlyRate(c), MonthsToRetire(c))
    ensures var rate := BlendedMonthlyRate(c);
            var months := MonthsToRetire(c);
            gap > 0 && months > 0.0 && rate != 0.0 && pow(1.0 + rate, months) - 1.0 != 0.0 ==>
              r.saveMore == Finite(SaveMore(pow, gap as real, rate, months) as real)
    ensures gap > 0 && MonthsToRetire(c) > 0.0 && BlendedMonthlyRate(c) == 0.0 && pow(1.0, MonthsToRetire(c)) == 1.0 ==>
              r.saveMore.NaN?
    ensures var solveYear := FireMath.FindSolveYear(data, SnapshotBalance, SnapshotTarget, SnapshotAge, EffectiveRetireAge(c));
            gap > 0 ==>
              r.workLonger == if solveYear.Some? then FireMath.Years(solveYear.value.age as real - EffectiveRetireAge(c))
                              else FireMath.MoreThan30
    ensures gap > 0 ==>
              r.spendLess == Round(Max(0.0, c.retirementAnnualExpenses
                                             - corpus as real * (c.safeWithdrawalRate / 100.0) / Inflation(pow, c, MonthsToRetire(c))))
    ensures r.spendLess >= 0
  {
    if gap > 0 then
      var months := MonthsToRetire(c);
      var saveMore := if months > 0.0 then SaveMoreAsWritten(pow, gap as real, BlendedMonthlyRate(c), months) else Finite(0.0);
      var solveYear := FireMath.FindSolveYear(data, SnapshotBalance, SnapshotTarget, SnapshotAge, EffectiveRetireAge(c));
      var workLonger := if solveYear.Some? then FireMath.Years(solveYear.value.age as real - EffectiveRetireAge(c))
                        else FireMath.MoreThan30;
      var allowedToday := corpus as real * (c.safeWithdrawalRate / 100.0) / Inflation(pow, c, months);
      Solutions(saveMore, workLonger, Round(Max(0.0, c.retirementAnnualExpenses - allowedToday)))
    else Solutions(Finite(0.0), FireMath.Years(0.0), 0)
  }

  /** The summary after the loop. */
  /** The result of the loop's final state: the first snapshot at the
      effective retirement age gives the corpus, the target and their gap
      (0s when there is none), and the FIRE age is set exactly when the
      target was reached. */
  function Summarize(pow: Pow, c: Config, st: State): (r: Result)
    requires FireMath.Sane(pow, c)
    ensures r.projection == st.data
    ensures var d := FireMath.FindAge(st.data, SnapshotAge, EffectiveRetireAge(c));
            (d.None? ==> r.corpusAtRetirement == 0 && r.targetAtRetirement == 0 && r.realGap == 0)
            && (d.Some? ==> r.corpusAtRetirement == d.value.balance
                            && r.targetAtRetirement == FireMath.NullAsZero(d.value.target)
                            && r.realGap == FireMath.NullAsZero(d.value.realTarget) - d.value.realBalance)
    ensures r.gap == r.targetAtRetirement - r.corpusAtRetirement
    ensures r.fireAge.Some? <==> st.reached
    ensures st.reached ==> r.fireAge.value == AgeAt(c, st.fireMonth)
    ensures r.salaryVsStepUpWarning <==> c.sipStepUp > c.salaryGrowth
    ensures r.solutions == Remedies(pow, c, st.data, r.gap, r.corpusAtRetirement)
  {
    var atRetirement := FireMath.FindAge(st.data, SnapshotAge, EffectiveRetireAge(c));
    var corpus := if atRetirement.Some? then atRetirement.value.balance else 0;
    var target := if atRetirement.Some? then FireMath.NullAsZero(atRetirement.value.target) else 0;
    var realCorpus := if atRetirement.Some? then atRetirement.value.realBalance else 0;
    var realTarget := if atRetirement.Some? then FireMath.NullAsZero(atRetirement.value.realTarget) else 0;
    var gap := target - corpus;
    Result(st.data, gap, realTarget - realCorpus,
           if st.reached then Some(AgeAt(c, st.fireMonth)) else None,
           Remedies(pow, c, st.data, gap, corpus),
           c.sipStepUp > c.salaryGrowth, target, corpus)
  }

  /** The engine's results, as a function of the plan. */
  function Project(pow: Pow, c: Config): Result
    requires FireMath.Sane(pow, c)
  {
    Summarize(pow, c, Run(pow, c, Horizon(c)))
  }

  // ---------------------------------------------------------------- the loop

  method StepUpMonth(c: Config, st: State, m: int) returns (next: State)
    ensures next == ContributePhase(c, st, m)
  {
    next := st;
    if !IsRetired(c, m) && (m - 1) % 12 == 0 && m > 1 {
      next := next.(sipEquity := st.sipEquity * (1.0 + c.sipStepUp / 100.0),
                    sipStable := st.sipStable * (1.0 + c.sipStepUp / 100.0));
    }
  }

  method FlowMonth(pow: Pow, c: Config, st: State, m: int) returns (next: State)
    requires FireMath.Sane(pow, c)
    ensures next == FlowPhase(pow, c, st, m)
  {
    var equity, stable, yearlyWithdrawal := st.equity, st.stable, st.yearlyWithdrawal;
    if !IsRetired(c, m) {
      equity := equity + st.sipEquity;
      stable := stable + st.sipStable;
    } else {
      var monthlyExp := MonthlyExpense(pow, c, m);
      if equity + stable > 0.0 {
        var w := ProRata(equity, stable, monthlyExp);
        equity, stable := w.0, w.1;
      } else {
        equity := equity - monthlyExp;
      }
      yearlyWithdrawal := yearlyWithdrawal + monthlyExp;
    }
    next := st.(equity := equity, stable := stable, yearlyWithdrawal := yearlyWithdrawal);
  }

  method GrowMonth(pow: Pow, c: Config, st: State, mrs: seq<real>, custom: array<real>)
    returns (next: State, customTotal: real)
    requires mrs == CustomMonthlyRates(pow, c.customAssets)
    requires custom.Length == |c.customAssets| && custom[..] == st.custom
    modifies custom
    ensures next == GrowthPhase(pow, c, st)
    ensures custom[..] == next.custom && customTotal == Sum(next.custom)
  {
    var equity := st.equity * (1.0 + MrEquity(pow, c));
    var stable := st.stable * (1.0 + MrStable(pow, c));
    customTotal := FireMath.GrowCustomValues(custom, mrs);
    next := st.(equity := equity, stable := stable, custom := custom[..]);
  }

  method EventMonth(pow: Pow, c: Config, st: State, m: int) returns (next: State, eventCost: real)
    requires FireMath.Sane(pow, c)
    ensures (next, eventCost) == EventPhase(pow, c, st, m)
  {
    var equity, stable := st.equity, st.stable;
    var hit := FireMath.FirstEventHit(c.lifeEvents, AgeAt(c, m));
    eventCost := 0.0;
    if hit.Some? {
      eventCost := hit.value.cost * Inflation(pow, c, m as real);
      if equity + stable > 0.0 {
        var w := ProRata(equity, stable, eventCost);
        equity, stable := w.0, w.1;
      } else {
        equity := equity - eventCost;
      }
    }
    next := st.(equity := equity, stable := stable);
    ghost var want := EventPhase(pow, c, st, m);
    assert hit.Some? ==> (equity, stable) == Withdraw(st.equity, st.stable, eventCost);
    assert want.1 == eventCost;
    assert want.0 == next;
  }

  method RecordMonth(pow: Pow, c: Config, st: State, m: int, customTotal: real, eventCost: real)
    returns (next: State)
    requires FireMath.Sane(pow, c)
    requires customTotal == Sum(st.custom)
    ensures next == RecordPhase(pow, c, st, m, eventCost)
  {
    var yearlyWithdrawal, reached, fireMonth, data := st.yearlyWithdrawal, st.reached, st.fireMonth, st.data;
    var isRetired := IsRetired(c, m);
    var targetCorpus := TargetAt(pow, c, m);
    var total := st.equity + st.stable + customTotal;
    var deflator := Inflation(pow, c, m as real);
    if !reached && total >= targetCorpus && !isRetired {
      reached, fireMonth := true, m;
    }
    if m % 12 == 0 || m == 1 {
      data := data + [MakeSnapshot(AgeAt(c, m), isRetired, total, deflator, st.equity, st.stable, customTotal,
                                   targetCorpus, eventCost, yearlyWithdrawal)];
      yearlyWithdrawal := 0.0;
    }
    next := st.(yearlyWithdrawal := yearlyWithdrawal, reached := reached, fireMonth := fireMonth, data := data);
  }

  /** One pass of the loop body. */
  method AdvanceMonth(pow: Pow, c: Config, st: State, m: int, mrs: seq<real>, custom: array<real>)
    returns (next: State)
    requires FireMath.Sane(pow, c)
    requires mrs == CustomMonthlyRates(pow, c.customAssets)
    requires custom.Length == |c.customAssets| && custom[..] == st.custom
    modifies custom
    ensures next == Step(pow, c, st, m)
    ensures custom[..] == next.custom
  {
    var customTotal, eventCost;
    next := StepUpMonth(c, st, m);
    next := FlowMonth(pow, c, next, m);
    next, customTotal := GrowMonth(pow, c, next, mrs, custom);
    next, eventCost := EventMonth(pow, c, next, m);
    next := RecordMonth(pow, c, next, m, customTotal, eventCost);
  }

  /** The starting balances, with the custom values copied into the array
      the loop grows in place. */
  method StartProjection(c: Config) returns (st: State, custom: array<real>)
    ensures fresh(custom)
    ensures st == InitialState(c) && custom[..] == st.custom
  {
    custom := new real[|c.customAssets|];
    forall i | 0 <= i < custom.Length {
      custom[i] := c.customAssets[i].value;
    }
    st := State(Sum(c.equityAssets), Sum(c.stableAssets), custom[..], c.monthlySIP.equity, c.monthlySIP.stable,
                0.0, false, -1, []);
    FireMath.CustomStartValues(c.customAssets);
    assert custom[..] == FireMath.CustomStart(c.customAssets);
  }

  method RunProjection(pow: Pow, c: Config) returns (st: State)
    requires FireMath.Sane(pow, c)
    ensures st == Run(pow, c, Horizon(c))
  {
    var mrs := CustomMonthlyRates(pow, c.customAssets);
    var custom;
    st, custom := StartProjection(c);
    for m := 1 to Horizon(c) + 1
      invariant custom.Length == |c.customAssets| && custom[..] == st.custom
      invariant st == Run(pow, c, m - 1)
    {
      st := AdvanceMonth(pow, c, st, m, mrs, custom);
    }
  }

  /** The memoised engine: the month loop followed by the summary. */
  method CalculateResults(pow: Pow, c: Config) returns (r: Result)
    requires FireMath.Sane(pow, c)
    ensures r == Project(pow, c)
  {
    var st := RunProjection(pow, c);
    r := Summarize(pow, c, st);
  }
}
