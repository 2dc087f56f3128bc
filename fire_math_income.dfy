/** The plan's annual income and the state's stepped income never reach a
    balance: the affordability cap computed from them in the source is
    shadowed before use, so the projection does not depend on either. */
module FireMathIncome {
  import opened JsMath
  import opened Plan
  import opened FireMath

  /** A state with its income forgotten. */
  function Strip(st: SimState): (r: SimState)
    ensures r.income == 0.0 && r == st.(income := r.income)
  {
    st.(income := 0.0)
  }

  // ------------------------------------------- the plan's annual income

  lemma RatesIgnoreAnnualIncome(pow: Pow, c: Config, a: real, m: int)
    requires Sane(pow, c)
    ensures MonthsToRetire(c.(annualIncome := a)) == MonthsToRetire(c)
    ensures AgeAt(c.(annualIncome := a), m) == AgeAt(c, m)
    ensures MrStable(pow, c.(annualIncome := a)) == MrStable(pow, c)
    ensures MrEquity(pow, c.(annualIncome := a), m) == MrEquity(pow, c, m)
    ensures Inflator(pow, c.(annualIncome := a), m) == Inflator(pow, c, m)
  {
    assert RStable(c.(annualIncome := a)) == RStable(c);
    assert EquityAnnualRate(c.(annualIncome := a), m) == EquityAnnualRate(c, m);
  }

  lemma ExpensesIgnoreAnnualIncome(pow: Pow, c: Config, a: real, m: int)
    requires Sane(pow, c)
    ensures MonthlyExpense(pow, c.(annualIncome := a), m) == MonthlyExpense(pow, c, m)
    ensures TargetAt(pow, c.(annualIncome := a), m) == TargetAt(pow, c, m)
    ensures MonthRecurring(pow, c.(annualIncome := a), m) == MonthRecurring(pow, c, m)
  {
    RatesIgnoreAnnualIncome(pow, c, a, m);
    assert AnnualExpense(pow, c.(annualIncome := a), m) == AnnualExpense(pow, c, m);
  }

  lemma ContributeIgnoresAnnualIncome(pow: Pow, c: Config, a: real, st: SimState, m: int)
    requires Sane(pow, c)
    ensures ContributePhase(pow, c.(annualIncome := a), st, m) == ContributePhase(pow, c, st, m)
  {
    RatesIgnoreAnnualIncome(pow, c, a, m);
  }

  lemma RequiredIgnoresAnnualIncome(pow: Pow, c: Config, a: real, m: int)
    requires Sane(pow, c)
    ensures IsRetired(c.(annualIncome := a), m) == IsRetired(c, m)
    ensures RequiredEmergencyFund(c.(annualIncome := a), IsRetired(c, m), MonthlyExpense(pow, c.(annualIncome := a), m),
                                  Inflator(pow, c.(annualIncome := a), m))
         == RequiredEmergencyFund(c, IsRetired(c, m), MonthlyExpense(pow, c, m), Inflator(pow, c, m))
  {
    RatesIgnoreAnnualIncome(pow, c, a, m);
    ExpensesIgnoreAnnualIncome(pow, c, a, m);
    assert EmergencyMultiple(c.(annualIncome := a)) == EmergencyMultiple(c);
  }

  lemma EmergencyIgnoresAnnualIncome(pow: Pow, c: Config, a: real, st: SimState, m: int)
    requires Sane(pow, c)
    ensures EmergencyPhase(pow, c.(annualIncome := a), st, m) == EmergencyPhase(pow, c, st, m)
  {
    var c' := c.(annualIncome := a);
    RatesIgnoreAnnualIncome(pow, c, a, m);
    RequiredIgnoresAnnualIncome(pow, c, a, m);
    var r := EmergencyPhase(pow, c, st, m);
    var r' := EmergencyPhase(pow, c', st, m);
    assert r'.1 == r.1;
    assert r'.0.emergency == r.0.emergency;
    assert r'.0 == r.0;
  }

  lemma FlowIgnoresAnnualIncome(pow: Pow, c: Config, a: real, st: SimState, m: int, topUp: real, recurring: real)
    requires Sane(pow, c)
    ensures FlowPhase(pow, c.(annualIncome := a), st, m, topUp, recurring) == FlowPhase(pow, c, st, m, topUp, recurring)
  {
    RatesIgnoreAnnualIncome(pow, c, a, m);
    ExpensesIgnoreAnnualIncome(pow, c, a, m);
  }

  lemma GrowthIgnoresAnnualIncome(pow: Pow, c: Config, a: real, st: SimState, m: int)
    requires Sane(pow, c) && |st.custom| == |c.customAssets|
    ensures GrowthPhase(pow, c.(annualIncome := a), st, m) == GrowthPhase(pow, c, st, m)
  {
    RatesIgnoreAnnualIncome(pow, c, a, m);
  }

  /** The event phase reads the plan only through its events, the age and the inflator. */
  lemma EventPhaseCongruent(pow: Pow, c: Config, c': Config, st: SimState, m: int)
    requires Sane(pow, c) && Sane(pow, c')
    requires c'.lifeEvents == c.lifeEvents && AgeAt(c', m) == AgeAt(c, m) && Inflator(pow, c', m) == Inflator(pow, c, m)
    ensures EventPhase(pow, c', st, m) == EventPhase(pow, c, st, m)
  {
    assert EventPhase(pow, c', st, m).1 == EventPhase(pow, c, st, m).1;
    assert EventPhase(pow, c', st, m).0.equity == EventPhase(pow, c, st, m).0.equity;
    assert EventPhase(pow, c', st, m).0.stable == EventPhase(pow, c, st, m).0.stable;
  }

  lemma EventIgnoresAnnualIncome(pow: Pow, c: Config, a: real, st: SimState, m: int)
    requires Sane(pow, c)
    ensures EventPhase(pow, c.(annualIncome := a), st, m) == EventPhase(pow, c, st, m)
  {
    RatesIgnoreAnnualIncome(pow, c, a, m);
    EventPhaseCongruent(pow, c, c.(annualIncome := a), st, m);
  }

  lemma RecordIgnoresAnnualIncome(pow: Pow, c: Config, a: real, st: SimState, m: int, eventCost: real, recurring: real)
    requires Sane(pow, c)
    ensures RecordPhase(pow, c.(annualIncome := a), st, m, eventCost, recurring) == RecordPhase(pow, c, st, m, eventCost, recurring)
  {
    RatesIgnoreAnnualIncome(pow, c, a, m);
    ExpensesIgnoreAnnualIncome(pow, c, a, m);
  }

  /** One month does not read the plan's annual income. */
  lemma StepIgnoresAnnualIncome(pow: Pow, c: Config, a: real, st: SimState, m: int)
    requires Sane(pow, c) && |st.custom| == |c.customAssets|
    ensures Step(pow, c.(annualIncome := a), st, m) == Step(pow, c, st, m)
  {
    var recurring := MonthRecurring(pow, c, m);
    var s1 := ContributePhase(pow, c, st, m);
    var e := EmergencyPhase(pow, c, s1, m);
    var f := FlowPhase(pow, c, e.0, m, e.1, recurring);
    var g := GrowthPhase(pow, c, f, m);
    var ev := EventPhase(pow, c, g, m);
    ExpensesIgnoreAnnualIncome(pow, c, a, m);
    ContributeIgnoresAnnualIncome(pow, c, a, st, m);
    EmergencyIgnoresAnnualIncome(pow, c, a, s1, m);
    FlowIgnoresAnnualIncome(pow, c, a, e.0, m, e.1, recurring);
    GrowthIgnoresAnnualIncome(pow, c, a, f, m);
    EventIgnoresAnnualIncome(pow, c, a, g, m);
    RecordIgnoresAnnualIncome(pow, c, a, ev.0, m, ev.1, recurring);
  }

  // ------------------------------------------- the state's stepped income

  lemma ContributeIgnoresIncome(pow: Pow, c: Config, st: SimState, x: real, m: int)
    requires Sane(pow, c)
    ensures ContributePhase(pow, c, st.(income := x), m)
            == ContributePhase(pow, c, st, m).(income := ContributePhase(pow, c, st.(income := x), m).income)
  {
  }

  lemma EmergencyIgnoresIncome(pow: Pow, c: Config, st: SimState, x: real, m: int)
    requires Sane(pow, c)
    ensures EmergencyPhase(pow, c, st.(income := x), m).1 == EmergencyPhase(pow, c, st, m).1
    ensures EmergencyPhase(pow, c, st.(income := x), m).0 == EmergencyPhase(pow, c, st, m).0.(income := x)
  {
    assert EmergencyPhase(pow, c, st.(income := x), m).1 == EmergencyPhase(pow, c, st, m).1;
  }

  lemma FlowIgnoresIncome(pow: Pow, c: Config, st: SimState, x: real, m: int, topUp: real, recurring: real)
    requires Sane(pow, c)
    ensures FlowPhase(pow, c, st.(income := x), m, topUp, recurring) == FlowPhase(pow, c, st, m, topUp, recurring).(income := x)
  {
  }

  lemma GrowthIgnoresIncome(pow: Pow, c: Config, st: SimState, x: real, m: int)
    requires Sane(pow, c) && |st.custom| == |c.customAssets|
    ensures GrowthPhase(pow, c, st.(income := x), m) == GrowthPhase(pow, c, st, m).(income := x)
  {
  }

  lemma EventIgnoresIncome(pow: Pow, c: Config, st: SimState, x: real, m: int)
    requires Sane(pow, c)
    ensures EventPhase(pow, c, st.(income := x), m).1 == EventPhase(pow, c, st, m).1
    ensures EventPhase(pow, c, st.(income := x), m).0 == EventPhase(pow, c, st, m).0.(income := x)
  {
  }

  lemma RecordIgnoresIncome(pow: Pow, c: Config, st: SimState, x: real, m: int, eventCost: real, recurring: real)
    requires Sane(pow, c)
    ensures RecordPhase(pow, c, st.(income := x), m, eventCost, recurring) == RecordPhase(pow, c, st, m, eventCost, recurring).(income := x)
  {
  }

  /** One month's balances do not depend on the income carried in. */
  lemma StepIgnoresIncome(pow: Pow, c: Config, st: SimState, x: real, m: int)
    requires Sane(pow, c) && |st.custom| == |c.customAssets|
    ensures Strip(Step(pow, c, st.(income := x), m)) == Strip(Step(pow, c, st, m))
  {
    var recurring := MonthRecurring(pow, c, m);
    var s1 := ContributePhase(pow, c, st, m);
    var y := ContributePhase(pow, c, st.(income := x), m).income;
    var e := EmergencyPhase(pow, c, s1, m);
    var f := FlowPhase(pow, c, e.0, m, e.1, recurring);
    var g := GrowthPhase(pow, c, f, m);
    var ev := EventPhase(pow, c, g, m);
    ContributeIgnoresIncome(pow, c, st, x, m);
    EmergencyIgnoresIncome(pow, c, s1, y, m);
    FlowIgnoresIncome(pow, c, e.0, y, m, e.1, recurring);
    GrowthIgnoresIncome(pow, c, f, y, m);
    EventIgnoresIncome(pow, c, g, y, m);
    RecordIgnoresIncome(pow, c, ev.0, y, m, ev.1, recurring);
  }

  /** One month under any annual income, from a state that differs only in
      its income, ends in a state that differs only in its income. */
  lemma StepIgnoresIncomes(pow: Pow, c: Config, a: real, st: SimState, st': SimState, m: int)
    requires Sane(pow, c) && |st.custom| == |c.customAssets| && Strip(st') == Strip(st)
    ensures Strip(Step(pow, c.(annualIncome := a), st', m)) == Strip(Step(pow, c, st, m))
  {
    assert st' == st.(income := st'.income);
    StepIgnoresAnnualIncome(pow, c, a, st', m);
    StepIgnoresIncome(pow, c, st, st'.income, m);
  }

  /** The run under any annual income agrees with the original run
      everywhere but in the income it carries. */
  lemma {:induction false} RunIgnoresIncome(pow: Pow, c: Config, a: real, k: nat)
    requires Sane(pow, c)
    ensures Strip(Run(pow, c.(annualIncome := a), k)) == Strip(Run(pow, c, k))
  {
    if k > 0 {
      RunIgnoresIncome(pow, c, a, k - 1);
      StepIgnoresIncomes(pow, c, a, Run(pow, c, k - 1), Run(pow, c.(annualIncome := a), k - 1), k);
    }
  }

  /** The remedies read no income: the blended rate, the months left and
      the retirement age are the same. */
  lemma RemediesIgnoreIncome(c: Config, a: real, data: seq<Snapshot>, gap: int, corpus: int)
    ensures Remedies(c.(annualIncome := a), data, gap, corpus) == Remedies(c, data, gap, corpus)
  {
    var c' := c.(annualIncome := a);
    assert EffectiveRetireAge(c') == EffectiveRetireAge(c);
    assert MonthsToRetire(c') == MonthsToRetire(c);
    assert BlendedMonthlyRate(c') == BlendedMonthlyRate(c);
  }

  lemma SummarizeIgnoresIncome(c: Config, a: real, st: SimState, x: real)
    ensures Summarize(c.(annualIncome := a), st.(income := x)) == Summarize(c, st)
  {
    var c' := c.(annualIncome := a);
    assert EffectiveRetireAge(c') == EffectiveRetireAge(c);
    var at := FindAge(st.data, SnapshotAge, EffectiveRetireAge(c));
    RemediesIgnoreIncome(c, a, st.data, TargetOrZero(at) - BalanceOrZero(at), BalanceOrZero(at));
  }

  /** The projection is the same whatever annual income the plan states. */
  lemma IncomeDoesNotAffectProjection(pow: Pow, c: Config, a: real)
    requires Sane(pow, c)
    ensures Project(pow, c.(annualIncome := a)) == Project(pow, c)
  {
    var c' := c.(annualIncome := a);
    assert Horizon(c') == Horizon(c);
    RunIgnoresIncome(pow, c, a, Horizon(c));
    var st' := Run(pow, c', Horizon(c));
    var st := Run(pow, c, Horizon(c));
    assert st' == st.(income := st'.income);
    SummarizeIgnoresIncome(c, a, st, st'.income);
  }
}
