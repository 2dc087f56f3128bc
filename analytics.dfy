// The privacy-preserving buckets of the analytics event (analytics.js):
// age group, income tier and Monte Carlo risk profile. Each is an ordered
// threshold chain; the model states each chain against its bucket index,
// the number of thresholds the input has reached.

module Analytics {
  import opened JsMath

  /** How many of the leading thresholds `x` has reached. */
  function Rank(x: real, ts: seq<real>): (n: nat)
    ensures n <= |ts|
  {
    if ts == [] || x < ts[0] then 0 else 1 + Rank(x, ts[1..])
  }

  /** Reaching a threshold is monotone in the input. */
  lemma {:induction false} RankMonotone(x: real, y: real, ts: seq<real>)
    requires x <= y
    ensures Rank(x, ts) <= Rank(y, ts)
  {
    if ts != [] && x >= ts[0] {
      RankMonotone(x, y, ts[1..]);
    }
  }

  /** The five-threshold chains, unfolded. */
  lemma RankOfFive(x: real, ts: seq<real>)
    requires |ts| == 5
    ensures Rank(x, ts) == if x < ts[0] then 0 else if x < ts[1] then 1 else if x < ts[2] then 2
                           else if x < ts[3] then 3 else if x < ts[4] then 4 else 5
  {
    var t1 := ts[1..];
    var t2 := t1[1..];
    var t3 := t2[1..];
    var t4 := t3[1..];
    assert t4[1..] == [];
    assert Rank(x, t4) == if x < ts[4] then 0 else 1;
    assert Rank(x, t3) == if x < ts[3] then 0 else 1 + Rank(x, t4);
    assert Rank(x, t2) == if x < ts[2] then 0 else 1 + Rank(x, t3);
    assert Rank(x, t1) == if x < ts[1] then 0 else 1 + Rank(x, t2);
  }

  /** `n < t` for a JavaScript number that is not NaN. */
  predicate Below(n: Num, t: real)
  {
    match n
    case Finite(v) => v < t
    case NaN => false
    case Infinity(positive) => !positive
  }

  const AgeThresholds: seq<real> := [25.0, 30.0, 35.0, 40.0, 50.0]
  const AgeGroups: seq<string> := ["Under 25", "25 - 29", "30 - 34", "35 - 39", "40 - 49", "50+"]

  /** getAgeGroup: "Unknown" exactly for a falsy age (0 or NaN); otherwise
      the group of the thresholds the age has reached. */
  function AgeGroup(age: Num): (r: string)
    ensures r == "Unknown" <==> !Truthy(age)
    ensures age == Infinity(true) ==> r == "50+"
    ensures age == Infinity(false) ==> r == "Under 25"
  {
    if !Truthy(age) then "Unknown"
    else if Below(age, 25.0) then "Under 25"
    else if Below(age, 30.0) then "25 - 29"
    else if Below(age, 35.0) then "30 - 34"
    else if Below(age, 40.0) then "35 - 39"
    else if Below(age, 50.0) then "40 - 49"
    else "50+"
  }

  /** `annualIncome / 100000` as a JavaScript number. */
  function Lakhs(income: Num): Num
  {
    match income
    case Finite(v) => Finite(v / 100000.0)
    case NaN => NaN
    case Infinity(positive) => Infinity(positive)
  }

  const IncomeThresholds: seq<real> := [10.0, 20.0, 30.0, 50.0, 100.0]
  const IncomeTiers: seq<string> := ["< 10L", "10L - 20L", "20L - 30L", "30L - 50L", "50L - 1Cr", "1Cr+"]

  /** getIncomeTier: "Unknown" exactly for a falsy income; otherwise the
      tier of the lakh thresholds the income has reached. */
  function IncomeTier(income: Num): (r: string)
    ensures r == "Unknown" <==> !Truthy(income)
    ensures income == Infinity(true) ==> r == "1Cr+"
    ensures income == Infinity(false) ==> r == "< 10L"
  {
    if !Truthy(income) then "Unknown"
    else
      var lakhs := Lakhs(income);
      if Below(lakhs, 10.0) then "< 10L"
      else if Below(lakhs, 20.0) then "10L - 20L"
      else if Below(lakhs, 30.0) then "20L - 30L"
      else if Below(lakhs, 50.0) then "30L - 50L"
      else if Below(lakhs, 100.0) then "50L - 1Cr"
      else "1Cr+"
  }

  /** `n >= t` for a JavaScript number (false for NaN). */
  predicate AtLeast(n: Num, t: real)
  {
    match n
    case Finite(v) => v >= t
    case NaN => false
    case Infinity(positive) => positive
  }

  const RiskThresholds: seq<real> := [75.0, 90.0]
  const RiskProfiles: seq<string> := ["Risky", "Moderate", "Safe"]

  /** An age is put in the group of the thresholds it has reached. */
  lemma AgeGroupByRank(age: real)
    requires age != 0.0
    ensures AgeGroup(Finite(age)) == AgeGroups[Rank(age, AgeThresholds)]
  {
    RankOfFive(age, AgeThresholds);
  }

  /** An income is put in the tier of the lakh thresholds it has reached. */
  lemma IncomeTierByRank(income: real)
    requires income != 0.0
    ensures IncomeTier(Finite(income)) == IncomeTiers[Rank(income / 100000.0, IncomeThresholds)]
  {
    var lakhs := income / 100000.0;
    assert Lakhs(Finite(income)) == Finite(lakhs);
    RankOfFive(lakhs, IncomeThresholds);
    var k := Rank(lakhs, IncomeThresholds);
    if lakhs < 10.0 {
      assert k == 0;
    } else if lakhs < 20.0 {
      assert k == 1;
    } else if lakhs < 30.0 {
      assert k == 2;
    } else if lakhs < 50.0 {
      assert k == 3;
    } else if lakhs < 100.0 {
      assert k == 4;
    } else {
      assert k == 5;
    }
  }

  /** getRiskProfile is total: NaN and every rate below 75 are "Risky". */
  function RiskProfile(successRate: Num): (r: string)
    ensures r in RiskProfiles
    ensures successRate.Finite? ==> r == RiskProfiles[Rank(successRate.value, RiskThresholds)]
    ensures successRate.NaN? ==> r == "Risky"
  {
    if AtLeast(successRate, 90.0) then "Safe"
    else if AtLeast(successRate, 75.0) then "Moderate"
    else "Risky"
  }

  /** An older person is never put in a younger group (the groups are
      indexed by rank, as AgeGroupByRank shows). */
  lemma AgeGroupMonotone(x: real, y: real)
    requires x <= y
    ensures Rank(x, AgeThresholds) <= Rank(y, AgeThresholds)
  {
    RankMonotone(x, y, AgeThresholds);
  }

  /** A larger income is never put in a lower tier (see IncomeTierByRank). */
  lemma IncomeTierMonotone(x: real, y: real)
    requires x <= y
    ensures Rank(x / 100000.0, IncomeThresholds) <= Rank(y / 100000.0, IncomeThresholds)
  {
    RankMonotone(x / 100000.0, y / 100000.0, IncomeThresholds);
  }

  /** A higher success rate is never a riskier profile. */
  lemma RiskProfileMonotone(x: real, y: real)
    requires x <= y
    ensures RiskProfile(Finite(x)) == RiskProfiles[Rank(x, RiskThresholds)]
    ensures RiskProfile(Finite(y)) == RiskProfiles[Rank(y, RiskThresholds)]
    ensures Rank(x, RiskThresholds) <= Rank(y, RiskThresholds)
  {
    RankMonotone(x, y, RiskThresholds);
  }
}
