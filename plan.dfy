// The plan configuration both projection engines read, and the schedule
// rules they share: retirement clamp, horizon, phase, step-up months,
// sampling months and the proportional withdrawal.

module Plan {
  import opened JsMath

  datatype CustomAsset = CustomAsset(id: int, name: string, value: real, returnRate: real, taxRate: real)

  /** `type === 'recurring'`; any other value of `type` (or none) is one-time. */
  datatype EventKind = OneTime | Recurring

  /** `endAge` is absent for one-time events and optional for recurring ones;
      `processed` is an input flag the engines read but never set. */
  datatype LifeEvent = LifeEvent(id: real, name: string, age: real, cost: real,
                                 kind: EventKind, endAge: Option<real>, processed: bool)

  datatype Sip = Sip(equity: real, stable: real)

  /** The plan state object (one scenario). `equityAssets` and `stableAssets`
      are the values of the two holdings dictionaries, in key order. */
  datatype Config = Config(
    scenarioName: string,
    currentAge: real, targetRetirementAge: real, lifeExpectancy: real,
    equityAssets: seq<real>, stableAssets: seq<real>, customAssets: seq<CustomAsset>,
    emergencyFund: real, annualIncome: real, currentAnnualExpenses: real,
    monthlySIP: Sip, sipStepUp: real, salaryGrowth: real,
    retirementAnnualExpenses: real,
    equityReturn: real, stableReturn: real, taxEquity: real, taxStable: real,
    safeWithdrawalRate: real, inflationRate: real,
    lifeEvents: seq<LifeEvent>, stressTest: bool)

  /** Retirement age clamped to [currentAge + 1, 100] (100 wins). */
  function EffectiveRetireAge(c: Config): (r: real)
    ensures r <= 100.0
    ensures r == 100.0 || c.currentAge + 1.0 <= r
    ensures c.currentAge + 1.0 <= c.targetRetirementAge <= 100.0 ==> r == c.targetRetirementAge
  {
    Min(Max(c.currentAge + 1.0, c.targetRetirementAge), 100.0)
  }

  function MonthsToRetire(c: Config): (r: real)
    ensures 0.0 <= r
  {
    Max(0.0, (EffectiveRetireAge(c) - c.currentAge) * 12.0)
  }

  /** `min(max(0, (lifeExpectancy - currentAge) * 12), 1200)`. */
  function SafeMonths(c: Config): (r: real)
    ensures 0.0 <= r <= 1200.0
    ensures c.currentAge <= c.lifeExpectancy && (c.lifeExpectancy - c.currentAge) * 12.0 <= 1200.0
            ==> r == (c.lifeExpectancy - c.currentAge) * 12.0
  {
    Min(Max(0.0, (c.lifeExpectancy - c.currentAge) * 12.0), 1200.0)
  }

  /** Number of simulated months. */
  function Horizon(c: Config): (n: nat)
    ensures n <= 1200
  {
    LoopCount(SafeMonths(c))
  }

  predicate IsRetired(c: Config, m: int)
  {
    m as real > MonthsToRetire(c)
  }

  function AgeAt(c: Config, m: int): real
  {
    c.currentAge + m as real / 12.0
  }

  /** Contributions step up on the first month of every year after the first,
      and only before retirement. */
  predicate IsStepUpMonth(c: Config, m: int)
  {
    !IsRetired(c, m) && (m - 1) % 12 == 0 && m > 1
  }

  /** Months at which a yearly snapshot is pushed. */
  predicate IsSnapshotMonth(m: int)
  {
    m % 12 == 0 || m == 1
  }

  /** Withdraw `amount` from equity and stable in proportion to their share
      of the (positive) liquid total. */
  function ProRata(equity: real, stable: real, amount: real): (r: (real, real))
    requires equity + stable > 0.0
    ensures r.0 + r.1 == equity + stable - amount
  {
    var liquid := equity + stable;
    var eqRatio := equity / liquid;
    (equity - amount * eqRatio, stable - amount * (1.0 - eqRatio))
  }

  /** After a pro-rata withdrawal each balance keeps its share of the liquid total. */
  lemma ProRataKeepsShares(equity: real, stable: real, amount: real)
    requires equity + stable > 0.0
    ensures ProRata(equity, stable, amount).0 * (equity + stable) == equity * (equity + stable - amount)
    ensures ProRata(equity, stable, amount).1 * (equity + stable) == stable * (equity + stable - amount)
  {
    var liquid := equity + stable;
    var q := equity / liquid;
    assert q * liquid == equity;
    calc {
      ProRata(equity, stable, amount).0 * liquid;
      (equity - amount * q) * liquid;
      equity * liquid - amount * (q * liquid);
      equity * (liquid - amount);
    }
  }

  /** Withdraw from equity and stable pro rata when liquid assets are
      positive, otherwise from equity alone (balances may go negative). */
  function Withdraw(equity: real, stable: real, amount: real): (r: (real, real))
    ensures r.0 + r.1 == equity + stable - amount
    ensures equity + stable <= 0.0 ==> r == (equity - amount, stable)
  {
    if equity + stable > 0.0 then ProRata(equity, stable, amount) else (equity - amount, stable)
  }
}
