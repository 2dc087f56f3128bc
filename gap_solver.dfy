// The gap-closing solver of the projection engine: a fixed 20-step
// bisection for the extra monthly contribution whose stepped, compounding
// future value exceeds the shortfall at retirement.

module GapSolver {
  import opened JsMath

  /** Accumulator of the future-value loop: value so far, current contribution. */
  datatype Fv = Fv(fv: real, sip: real)

  /** One month of the stream: add the contribution and compound; on a 12th
      month the contribution then steps up. */
  function FvNext(p: Fv, rate: real, stepUp: real, yearEnd: bool): Fv
  {
    Fv((p.fv + p.sip) * (1.0 + rate), if yearEnd then p.sip * (1.0 + stepUp / 100.0) else p.sip)
  }

  /** State of the contribution stream after `k` months starting from `sip`. */
  function FvAfter(sip: real, k: nat, rate: real, stepUp: real): Fv
  {
    if k == 0 then Fv(0.0, sip)
    else FvNext(FvAfter(sip, k - 1, rate, stepUp), rate, stepUp, k % 12 == 0)
  }

  function FutureValue(sip: real, n: nat, rate: real, stepUp: real): real
  {
    FvAfter(sip, n, rate, stepUp).fv
  }

  predicate Scaled(x: real, p: Fv, q: Fv)
  {
    p.fv == x * q.fv && p.sip == x * q.sip
  }

  lemma FvNextScaled(x: real, p: Fv, q: Fv, rate: real, stepUp: real, yearEnd: bool)
    requires Scaled(x, p, q)
    ensures Scaled(x, FvNext(p, rate, stepUp, yearEnd), FvNext(q, rate, stepUp, yearEnd))
  {
    assert p.fv + p.sip == x * (q.fv + q.sip);
  }

  /** The stream is linear in the starting contribution. */
  lemma {:induction false} FvAfterLinear(x: real, k: nat, rate: real, stepUp: real)
    ensures Scaled(x, FvAfter(x, k, rate, stepUp), FvAfter(1.0, k, rate, stepUp))
  {
    if k > 0 {
      FvAfterLinear(x, k - 1, rate, stepUp);
      FvNextScaled(x, FvAfter(x, k - 1, rate, stepUp), FvAfter(1.0, k - 1, rate, stepUp),
                   rate, stepUp, k % 12 == 0);
    }
  }

  lemma FutureValueLinear(x: real, n: nat, rate: real, stepUp: real)
    ensures FutureValue(x, n, rate, stepUp) == x * FutureValue(1.0, n, rate, stepUp)
  {
    FvAfterLinear(x, n, rate, stepUp);
  }

  /** Bisection state: the bracket and the last candidate whose value
      exceeded the gap (0 while there is none). */
  datatype Search = Search(low: real, high: real, solution: real)

  function BisectStep(gap: real, n: nat, rate: real, stepUp: real, s: Search): Search
  {
    var mid := (s.low + s.high) / 2.0;
    if FutureValue(mid, n, rate, stepUp) > gap then Search(s.low, mid, mid)
    else Search(mid, s.high, s.solution)
  }

  function Bisect(gap: real, n: nat, rate: real, stepUp: real, k: nat): Search
  {
    if k == 0 then Search(0.0, gap, 0.0)
    else BisectStep(gap, n, rate, stepUp, Bisect(gap, n, rate, stepUp, k - 1))
  }

  /** The value the solver returns: the candidate after exactly 20 halvings. */
  function RequiredSip(gap: real, months: real, rate: real, stepUp: real): real
  {
    Bisect(gap, LoopCount(months), rate, stepUp, 20).solution
  }

  function Pow2(k: nat): (r: real)
    ensures r >= 1.0
  {
    if k == 0 then 1.0 else 2.0 * Pow2(k - 1)
  }

  /** Whatever the inputs, the candidate is 0 or a midpoint of the bracket
      that lies between 0 and the gap, and a non-zero candidate has a future
      value strictly above the gap. */
  lemma {:induction false} BisectInvariant(gap: real, n: nat, rate: real, stepUp: real, k: nat)
    ensures var s := Bisect(gap, n, rate, stepUp, k);
      && Min(0.0, gap) <= s.low <= Max(0.0, gap) && Min(0.0, gap) <= s.high <= Max(0.0, gap)
      && Min(0.0, gap) <= s.solution <= Max(0.0, gap)
      && (s.solution == 0.0 || FutureValue(s.solution, n, rate, stepUp) > gap)
  {
    if k > 0 {
      BisectInvariant(gap, n, rate, stepUp, k - 1);
    }
  }

  /** The bisection bracket around the exact answer `x` after `k` halvings
      (`width` is 2^k): the lower end never passes `x`, the bracket has
      halved `k` times, and the solution is either still unset with the upper
      end at the gap, or the upper end itself, above `x`. */
  predicate Bracketed(gap: real, x: real, s: Search, width: real)
  {
    && 0.0 <= s.low < s.high <= gap
    && (s.high - s.low) * width == gap
    && s.low <= x
    && ((s.solution == 0.0 && s.high == gap) || (s.solution == s.high && x < s.high))
  }

  lemma HalveBracket(gap: real, x: real, s: Search, width: real)
    requires Bracketed(gap, x, s, width)
    ensures var mid := (s.low + s.high) / 2.0;
      Bracketed(gap, x, if mid > x then Search(s.low, mid, mid) else Search(mid, s.high, s.solution), 2.0 * width)
  {
    var mid := (s.low + s.high) / 2.0;
    assert (mid - s.low) * (2.0 * width) == (s.high - s.low) * width;
    assert (s.high - mid) * (2.0 * width) == (s.high - s.low) * width;
  }

  lemma AboveIff(mid: real, f1: real, gap: real)
    requires 0.0 < f1
    ensures mid * f1 > gap <==> mid > gap / f1
  {
    if mid > gap / f1 {
      assert mid * f1 > (gap / f1) * f1;
    } else {
      assert mid * f1 <= (gap / f1) * f1;
    }
  }

  /** One halving keeps the exact answer bracketed. */
  lemma StepBrackets(gap: real, n: nat, rate: real, stepUp: real, p: Search, width: real)
    requires 0.0 < gap && 0.0 < FutureValue(1.0, n, rate, stepUp)
    requires Bracketed(gap, gap / FutureValue(1.0, n, rate, stepUp), p, width)
    ensures Bracketed(gap, gap / FutureValue(1.0, n, rate, stepUp), BisectStep(gap, n, rate, stepUp, p), 2.0 * width)
  {
    var f1 := FutureValue(1.0, n, rate, stepUp);
    var x := gap / f1;
    var mid := (p.low + p.high) / 2.0;
    FutureValueLinear(mid, n, rate, stepUp);
    AboveIff(mid, f1, gap);
    HalveBracket(gap, x, p, width);
    if mid > x {
      assert BisectStep(gap, n, rate, stepUp, p) == Search(p.low, mid, mid);
    } else {
      assert BisectStep(gap, n, rate, stepUp, p) == Search(mid, p.high, p.solution);
    }
  }

  /** With a positive gap and a stream whose value grows with the
      contribution, the bisection keeps the exact answer
      x = gap / FutureValue(1) bracketed. */
  lemma {:induction false} BisectBrackets(gap: real, n: nat, rate: real, stepUp: real, k: nat)
    requires 0.0 < gap && 0.0 < FutureValue(1.0, n, rate, stepUp)
    ensures Bracketed(gap, gap / FutureValue(1.0, n, rate, stepUp), Bisect(gap, n, rate, stepUp, k), Pow2(k))
  {
    if k > 0 {
      BisectBrackets(gap, n, rate, stepUp, k - 1);
      StepBrackets(gap, n, rate, stepUp, Bisect(gap, n, rate, stepUp, k - 1), Pow2(k - 1));
    }
  }

  /** Convergence: after the 20 halvings a non-zero answer exceeds the exact
      contribution by at most gap / 2^20, and a zero answer means the exact
      contribution is within gap / 2^20 of the gap itself, or above it. */
  lemma RequiredSipConverges(gap: real, months: real, rate: real, stepUp: real)
    requires 0.0 < gap && 0.0 < FutureValue(1.0, LoopCount(months), rate, stepUp)
    ensures var x := gap / FutureValue(1.0, LoopCount(months), rate, stepUp);
      var r := RequiredSip(gap, months, rate, stepUp);
      && (r != 0.0 ==> x < r && (r - x) * Pow2(20) <= gap)
      && (r == 0.0 ==> (gap - x) * Pow2(20) <= gap)
  {
    var n := LoopCount(months);
    BisectBrackets(gap, n, rate, stepUp, 20);
    var s := Bisect(gap, n, rate, stepUp, 20);
    var x := gap / FutureValue(1.0, n, rate, stepUp);
    ShrinkWidth(s.low, x, s.high, Pow2(20));
  }

  lemma ShrinkWidth(low: real, x: real, high: real, w: real)
    requires low <= x && 0.0 <= w
    ensures (high - x) * w <= (high - low) * w
  {
  }

  /** The inner loop of solveForRequiredSIP: the future value of the stepped
      stream that starts at `sip`, simulated month by month. */
  method SimulateFutureValue(sip: real, months: real, ratePerMonth: real, stepUpAnnual: real)
    returns (fv: real)
    ensures fv == FutureValue(sip, LoopCount(months), ratePerMonth, stepUpAnnual)
  {
    ghost var n := LoopCount(months);
    fv := 0.0;
    var currentSip := sip;
    var m := 1;
    while m as real <= months
      invariant 1 <= m <= n + 1
      invariant Fv(fv, currentSip) == FvAfter(sip, m - 1, ratePerMonth, stepUpAnnual)
      decreases n + 1 - m
    {
      ghost var before := Fv(fv, currentSip);
      ghost var yearEnd := m % 12 == 0;
      fv := (fv + currentSip) * (1.0 + ratePerMonth);
      if m % 12 == 0 {
        currentSip := currentSip * (1.0 + stepUpAnnual / 100.0);
      }
      assert fv == FvNext(before, ratePerMonth, stepUpAnnual, yearEnd).fv;
      assert currentSip == FvNext(before, ratePerMonth, stepUpAnnual, yearEnd).sip;
      m := m + 1;
    }
  }

  /** solveForRequiredSIP: 20 halvings of [0, gap]; a candidate whose future
      value exceeds the gap becomes the solution and the new upper end. */
  method SolveForRequiredSip(gap: real, months: real, ratePerMonth: real, stepUpAnnual: real)
    returns (solution: real)
    ensures solution == RequiredSip(gap, months, ratePerMonth, stepUpAnnual)
    ensures Min(0.0, gap) <= solution <= Max(0.0, gap)
    ensures solution == 0.0 || FutureValue(solution, LoopCount(months), ratePerMonth, stepUpAnnual) > gap
  {
    ghost var n := LoopCount(months);
    var low, high := 0.0, gap;
    solution := 0.0;
    for i := 0 to 20
      invariant Search(low, high, solution) == Bisect(gap, n, ratePerMonth, stepUpAnnual, i)
    {
      var mid := (low + high) / 2.0;
      var fv := SimulateFutureValue(mid, months, ratePerMonth, stepUpAnnual);
      if fv > gap {
        solution := mid;
        high := mid;
      } else {
        low := mid;
      }
    }
    BisectInvariant(gap, n, ratePerMonth, stepUpAnnual, 20);
  }
}
