// The Monte Carlo stress run (monteCarlo.js): every trial re-runs the
// projection with randomised equity, stable and custom-asset returns,
// counts the trials that never run out of money, and reports the share of
// successes and two percentiles of the final corpus.
//
// The Box-Muller draw is injected: `draws(i, slot)` is the standard normal
// value of trial `i` for slot 0 (equity), 1 (stable) or 2 + k (custom
// asset k). Scaling and shifting it is modelled as written.

module MonteCarlo {
  import opened JsMath
  import opened Plan
  import opened FireMath
  import Sorting

  type Draws = (nat, nat) -> real

  /** Standard deviations, in percentage points, of the three asset classes. */
  const EquityVolatility: real := 15.0
  const StableVolatility: real := 4.0
  const CustomVolatility: real := 10.0

  /** `mean + stdDev * standardNormal`. */
  function Perturb(mean: real, stdDev: real, z: real): real
  {
    mean + stdDev * z
  }

  function TrialAssets(assets: seq<CustomAsset>, draws: Draws, i: nat, offset: nat): (r: seq<CustomAsset>)
    ensures |r| == |assets|
    ensures forall k :: 0 <= k < |assets| ==>
              r[k] == assets[k].(returnRate := Perturb(assets[k].returnRate, CustomVolatility, draws(i, offset + k)))
  {
    if assets == [] then []
    else [assets[0].(returnRate := Perturb(assets[0].returnRate, CustomVolatility, draws(i, offset)))]
         + TrialAssets(assets[1..], draws, i, offset + 1)
  }

  /** The randomised state of trial `i`: the base plan with new equity,
      stable and custom-asset returns and nothing else changed. */
  function TrialConfig(c: Config, draws: Draws, i: nat): (r: Config)
    ensures r == c.(equityReturn := r.equityReturn, stableReturn := r.stableReturn, customAssets := r.customAssets)
    ensures r.equityReturn == Perturb(c.equityReturn, EquityVolatility, draws(i, 0))
    ensures r.stableReturn == Perturb(c.stableReturn, StableVolatility, draws(i, 1))
    ensures |r.customAssets| == |c.customAssets|
    ensures forall k :: 0 <= k < |c.customAssets| ==>
              r.customAssets[k] == c.customAssets[k].(returnRate := r.customAssets[k].returnRate)
  {
    c.(equityReturn := Perturb(c.equityReturn, EquityVolatility, draws(i, 0)),
       stableReturn := Perturb(c.stableReturn, StableVolatility, draws(i, 1)),
       customAssets := TrialAssets(c.customAssets, draws, i, 2))
  }

  /** Every trial plan is as well-formed as the base plan. */
  lemma TrialConfigSane(pow: Pow, c: Config, draws: Draws, i: nat)
    requires Sane(pow, c)
    ensures Sane(pow, TrialConfig(c, draws, i))
  {
  }

  /** With all draws at zero a trial is the base plan itself. */
  lemma {:induction false} ZeroDrawIsBase(c: Config, draws: Draws, i: nat)
    requires forall slot: nat :: draws(i, slot) == 0.0
    ensures TrialConfig(c, draws, i) == c
  {
    var r := TrialConfig(c, draws, i);
    assert r.customAssets == c.customAssets;
  }

  predicate Succeeds(r: ProjectionResult)
  {
    r.bankruptcyAge.None?
  }

  /** `projection[length - 1]?.balance || 0`. */
  function FinalCorpus(projection: seq<Snapshot>): (v: int)
    ensures projection == [] ==> v == 0
    ensures projection != [] ==> v == projection[|projection| - 1].balance
  {
    if projection == [] then 0 else projection[|projection| - 1].balance
  }

  /** The projections of the first `n` trials, in trial order. */
  function Trials(pow: Pow, c: Config, draws: Draws, n: nat): (rs: seq<ProjectionResult>)
    requires Sane(pow, c)
    ensures |rs| == n
    decreases n, 1
  {
    if n == 0 then [] else TrialsThrough(pow, c, draws, n - 1)
  }

  /** The first `i` trials followed by trial `i`. */
  function TrialsThrough(pow: Pow, c: Config, draws: Draws, i: nat): (rs: seq<ProjectionResult>)
    requires Sane(pow, c)
    ensures |rs| == i + 1
    decreases i + 1, 0
  {
    TrialConfigSane(pow, c, draws, i);
    Trials(pow, c, draws, i) + [Project(pow, TrialConfig(c, draws, i))]
  }

  /** The number of successful trials. */
  function Successes(rs: seq<ProjectionResult>): (k: nat)
    ensures k <= |rs|
  {
    if rs == [] then 0
    else Successes(rs[..|rs| - 1]) + (if Succeeds(rs[|rs| - 1]) then 1 else 0)
  }

  /** The count reaches the number of trials exactly when every trial succeeds. */
  lemma {:induction false} SuccessesAll(rs: seq<ProjectionResult>)
    ensures Successes(rs) == |rs| <==> forall i :: 0 <= i < |rs| ==> Succeeds(rs[i])
  {
    if rs != [] {
      var init := rs[..|rs| - 1];
      SuccessesAll(init);
      assert forall i :: 0 <= i < |init| ==> init[i] == rs[i];
    }
  }

  /** The count is zero exactly when no trial succeeds. */
  lemma {:induction false} SuccessesNone(rs: seq<ProjectionResult>)
    ensures Successes(rs) == 0 <==> forall i :: 0 <= i < |rs| ==> !Succeeds(rs[i])
  {
    if rs != [] {
      var init := rs[..|rs| - 1];
      SuccessesNone(init);
      assert forall i :: 0 <= i < |init| ==> init[i] == rs[i];
    }
  }

  /** The final corpus of every trial, in trial order. */
  function Finals(rs: seq<ProjectionResult>): (s: seq<int>)
    ensures |s| == |rs|
    ensures forall i :: 0 <= i < |rs| ==> s[i] == FinalCorpus(rs[i].projection)
  {
    if rs == [] then [] else Finals(rs[..|rs| - 1]) + [FinalCorpus(rs[|rs| - 1].projection)]
  }

  /** One more trial adds its success and appends its final corpus. */
  lemma AppendTrial(rs: seq<ProjectionResult>, r: ProjectionResult)
    ensures Successes(rs + [r]) == Successes(rs) + (if Succeeds(r) then 1 else 0)
    ensures Finals(rs + [r]) == Finals(rs) + [FinalCorpus(r.projection)]
  {
    assert (rs + [r])[..|rs|] == rs;
  }


  /** `arr[min(floor(p / 100 * n), n - 1)]` of the sorted array, 0 when empty. */
  function PercentileIndex(p: real, n: nat): (k: nat)
    requires 0.0 <= p && n > 0
    ensures k < n
  {
    var index := (p / 100.0 * n as real).Floor;
    if index < n - 1 then index else n - 1
  }

  function Pick(sorted: seq<int>, p: real): (v: int)
    requires 0.0 <= p
    ensures sorted == [] ==> v == 0
    ensures sorted != [] ==> v in sorted
  {
    if sorted == [] then 0 else sorted[PercentileIndex(p, |sorted|)]
  }

  /** A higher percentile never gets a smaller index. */
  lemma PercentileIndexMonotone(p: real, q: real, n: nat)
    requires 0.0 <= p <= q && n > 0
    ensures PercentileIndex(p, n) <= PercentileIndex(q, n)
  {
    var x, y := p / 100.0 * n as real, q / 100.0 * n as real;
    assert y - x == (q - p) / 100.0 * n as real;
    assert x <= y;
    assert x.Floor <= y.Floor;
  }

  /** In an ascending sequence a lower percentile is never the larger value. */
  lemma PickMonotone(sorted: seq<int>, p: real, q: real)
    requires Sorting.Ascending(sorted) && 0.0 <= p <= q
    ensures Pick(sorted, p) <= Pick(sorted, q)
  {
    if sorted != [] {
      PercentileIndexMonotone(p, q, |sorted|);
    }
  }

  /** A percentile of a non-empty sample is one of its values. */
  lemma PickFromSample(s: seq<int>, p: real)
    requires 0.0 <= p
    ensures s != [] ==> Pick(Sorting.SortSeq(s), p) in s
  {
    if s != [] {
      var sorted := Sorting.SortSeq(s);
      assert |sorted| == |multiset(sorted)| == |multiset(s)| == |s|;
      assert sorted[PercentileIndex(p, |sorted|)] in multiset(sorted);
    }
  }

  /** `arr[Math.min(index, arr.length - 1)]` for `index = floor(p / 100 * length)`. */
  method PickAt(arr: array<int>, p: real) returns (v: int)
    requires 0.0 <= p && arr.Length > 0
    ensures v == Pick(arr[..], p)
  {
    var index := (p / 100.0 * arr.Length as real).Floor;
    v := arr[if index < arr.Length - 1 then index else arr.Length - 1];
  }

  /** getPercentile: sorts `arr` ascending in place, then picks. */
  method GetPercentile(arr: array<int>, p: real) returns (v: int)
    requires 0.0 <= p
    modifies arr
    ensures arr[..] == Sorting.SortSeq(old(arr[..]))
    ensures v == Pick(arr[..], p)
  {
    if arr.Length == 0 {
      return 0;
    }
    Sorting.SortInts(arr);
    v := PickAt(arr, p);
  }

  datatype MonteCarloResult = MonteCarloResult(successRate: Num, iterations: nat,
                                              medianFinalCorpus: int, worstCaseFinalCorpus: int)

  /** `successCount / iterations * 100`: NaN for zero iterations. */
  function SuccessRate(successes: nat, iterations: nat): (r: Num)
    requires successes <= iterations
    ensures iterations == 0 <==> r.NaN?
    ensures r.Finite? ==> 0.0 <= r.value <= 100.0
    ensures r.Finite? ==> (r.value == 100.0 <==> successes == iterations)
  {
    if iterations == 0 then NaN else Finite(successes as real / iterations as real * 100.0)
  }

  /** The aggregate of a completed set of trials. */
  function Aggregate(rs: seq<ProjectionResult>): (r: MonteCarloResult)
    ensures r.iterations == |rs|
    ensures r.successRate == SuccessRate(Successes(rs), |rs|)
    ensures r.worstCaseFinalCorpus <= r.medianFinalCorpus
    ensures rs != [] ==> r.medianFinalCorpus in Finals(rs) && r.worstCaseFinalCorpus in Finals(rs)
  {
    var sorted := Sorting.SortSeq(Finals(rs));
    PickMonotone(sorted, 10.0, 50.0);
    PickFromSample(Finals(rs), 50.0);
    PickFromSample(Finals(rs), 10.0);
    MonteCarloResult(SuccessRate(Successes(rs), |rs|), |rs|, Pick(sorted, 50.0), Pick(sorted, 10.0))
  }

  /** One trial: the projection of the randomised plan. */
  method OneTrial(pow: Pow, c: Config, draws: Draws, i: nat, ghost done: seq<ProjectionResult>)
    returns (result: ProjectionResult)
    requires Sane(pow, c) && done == Trials(pow, c, draws, i)
    ensures done + [result] == Trials(pow, c, draws, i + 1)
  {
    TrialConfigSane(pow, c, draws, i);
    result := CalculateProjection(pow, TrialConfig(c, draws, i));
    assert Trials(pow, c, draws, i + 1) == TrialsThrough(pow, c, draws, i);
  }

  /** One pass of the trial loop: runs trial `i`, counts it if it
      succeeded and stores its final corpus at index `i`. */
  method RecordTrial(pow: Pow, c: Config, draws: Draws, i: nat, successCount: nat, finalCorpusValues: array<int>)
    returns (count: nat)
    requires Sane(pow, c) && i < finalCorpusValues.Length
    requires successCount == Successes(Trials(pow, c, draws, i))
    requires finalCorpusValues[..i] == Finals(Trials(pow, c, draws, i))
    modifies finalCorpusValues
    ensures count == Successes(Trials(pow, c, draws, i + 1))
    ensures finalCorpusValues[..i + 1] == Finals(Trials(pow, c, draws, i + 1))
  {
    ghost var done := Trials(pow, c, draws, i);
    ghost var before := finalCorpusValues[..i];
    var result := OneTrial(pow, c, draws, i, done);
    finalCorpusValues[i] := FinalCorpus(result.projection);
    count := successCount;
    if result.bankruptcyAge.None? {
      count := count + 1;
    }
    AppendTrial(done, result);
    assert finalCorpusValues[..i] == before;
    assert finalCorpusValues[..i + 1] == before + [FinalCorpus(result.projection)];
  }

  /** The trial loop: counts the successes and records every final corpus. */
  method RunTrials(pow: Pow, c: Config, draws: Draws, iterations: nat)
    returns (successCount: nat, finalCorpusValues: array<int>)
    requires Sane(pow, c)
    ensures successCount == Successes(Trials(pow, c, draws, iterations))
    ensures finalCorpusValues[..] == Finals(Trials(pow, c, draws, iterations))
    ensures fresh(finalCorpusValues)
  {
    successCount := 0;
    finalCorpusValues := new int[iterations];
    var i := 0;
    while i < iterations
      invariant 0 <= i <= iterations
      invariant successCount == Successes(Trials(pow, c, draws, i))
      invariant finalCorpusValues[..i] == Finals(Trials(pow, c, draws, i))
    {
      successCount := RecordTrial(pow, c, draws, i, successCount, finalCorpusValues);
      i := i + 1;
    }
    assert finalCorpusValues[..] == finalCorpusValues[..iterations];
  }

  /** runMonteCarloSimulation: the trial loop, then the two percentiles,
      the second of which re-sorts an already sorted array. */
  method RunMonteCarloSimulation(pow: Pow, c: Config, draws: Draws, iterations: nat) returns (r: MonteCarloResult)
    requires Sane(pow, c)
    ensures r == Aggregate(Trials(pow, c, draws, iterations))
  {
    var successCount, finalCorpusValues := RunTrials(pow, c, draws, iterations);
    ghost var finals := finalCorpusValues[..];
    var median := GetPercentile(finalCorpusValues, 50.0);
    Sorting.SortSeqOfAscending(Sorting.SortSeq(finals));
    var worst := GetPercentile(finalCorpusValues, 10.0);
    r := MonteCarloResult(SuccessRate(successCount, iterations), iterations, median, worst);
  }
}
