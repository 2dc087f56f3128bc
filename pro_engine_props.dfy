// Properties of the calculator's inline engine: what one month does to the
// balances and to the bookkeeping fields, and what the whole run
// guarantees about the FIRE month and the yearly snapshots.

module ProEngineProps {
  import opened JsMath
  import opened Plan
  import FireMath
  import FireMathProps
  import opened ProEngine

  // ---------------------------------------------------------------- one month

  /** Before retirement the month's (stepped-up) contributions are added in
      full to equity and stable: nothing is diverted or capped. */
  lemma AccumulationAddsContributions(pow: Pow, c: Config, st: State, m: int)
    requires FireMath.Sane(pow, c) && !IsRetired(c, m)
    ensures var s := ContributePhase(c, st, m);
            var r := FlowPhase(pow, c, s, m);
            r.equity == st.equity + s.sipEquity && r.stable == st.stable + s.sipStable
            && r.yearlyWithdrawal == st.yearlyWithdrawal
  {
  }

  /** After retirement liquid assets fall by exactly the month's inflated
      expenses, which accrue to the year's withdrawal total; with no
      positive liquid assets the whole amount comes out of equity. */
  lemma DecumulationWithdrawsExpenses(pow: Pow, c: Config, st: State, m: int)
    requires FireMath.Sane(pow, c) && IsRetired(c, m)
    ensures var r := FlowPhase(pow, c, st, m);
            var exp := MonthlyExpense(pow, c, m);
            r.equity + r.stable == st.equity + st.stable - exp
            && r.yearlyWithdrawal == st.yearlyWithdrawal + exp
            && (st.equity + st.stable <= 0.0 ==> r.stable == st.stable && r.equity == st.equity - exp)
  {
  }

  /** Contributions step up by the step-up rate exactly in the first month
      of every later year before retirement, and are otherwise unchanged. */
  lemma StepUpSchedule(c: Config, st: State, m: int)
    ensures var r := ContributePhase(c, st, m);
            (!IsRetired(c, m) && m > 1 && (m - 1) % 12 == 0 ==>
               r.sipEquity == st.sipEquity * (1.0 + c.sipStepUp / 100.0)
               && r.sipStable == st.sipStable * (1.0 + c.sipStepUp / 100.0))
            && (IsRetired(c, m) || m <= 1 || (m - 1) % 12 != 0 ==> r == st)
  {
  }

  /** Growth compounds negative balances too: unlike calculateProjection's
      rule for equity and stable, a negative balance with a non-zero rate
      moves. */
  lemma NegativeBalancesCompound(v: real, mr: real)
    requires v < 0.0 && mr != 0.0
    ensures FireMath.Grow(v, mr) != v
    ensures FireMath.GrowPositive(v, mr) == v
  {
  }

  /** The event phase pays the first matching event of any kind (recurring
      ones included, at their start age) and withdraws its inflated cost;
      with no event it changes nothing. */
  lemma EventPaysFirstHit(pow: Pow, c: Config, st: State, m: int)
    requires FireMath.Sane(pow, c)
    ensures var hit := FireMath.FirstEventHit(c.lifeEvents, AgeAt(c, m));
            var r := EventPhase(pow, c, st, m);
            (hit.None? ==> r == (st, 0.0))
            && (hit.Some? ==> r.1 == hit.value.cost * Inflation(pow, c, m as real)
                              && r.0.equity + r.0.stable == st.equity + st.stable - r.1)
  {
  }

  /** The FIRE flag is set by the first accumulation month whose closing
      total reaches that month's target, and that month is recorded. */
  lemma StepFire(pow: Pow, c: Config, st: State, m: int)
    requires FireMath.Sane(pow, c) && |st.custom| == |c.customAssets|
    ensures var r := Step(pow, c, st, m);
            var hit := !IsRetired(c, m) && Total(r) >= TargetAt(pow, c, m);
            r.reached == (st.reached || hit)
            && r.fireMonth == (if !st.reached && hit then m else st.fireMonth)
  {
    var grown := GrowthPhase(pow, c, FlowPhase(pow, c, ContributePhase(c, st, m), m));
    var event := EventPhase(pow, c, grown, m);
    var r := RecordPhase(pow, c, event.0, m, event.1);
    assert Total(r) == Total(event.0);
  }

  /** What one month does to the snapshots and to the year's withdrawal
      total: a snapshot is appended exactly in snapshot months, earlier ones
      are kept, the new one carries the month's floored age, a null target
      exactly when retired, the rounded total balance and the withdrawal
      total carried in; a snapshot month
      resets the total, and a non-snapshot month before retirement leaves
      it alone. */
  predicate RecordsStep(c: Config, before: State, after: State, m: int)
  {
    |after.data| == |before.data| + (if IsSnapshotMonth(m) then 1 else 0)
    && after.data[..|before.data|] == before.data
    && (IsSnapshotMonth(m) ==>
          after.data[|before.data|].age == AgeAt(c, m).Floor
          && after.data[|before.data|].balance == Round(Total(after))
          && (after.data[|before.data|].target.None? <==> IsRetired(c, m))
          && (after.data[|before.data|].realTarget.None? <==> IsRetired(c, m))
          && (!IsRetired(c, m) ==> after.data[|before.data|].withdrawal == Round(before.yearlyWithdrawal))
          && after.yearlyWithdrawal == 0.0)
    && (!IsSnapshotMonth(m) && !IsRetired(c, m) ==> after.yearlyWithdrawal == before.yearlyWithdrawal)
  }

  lemma StepRecords(pow: Pow, c: Config, st: State, m: int)
    requires FireMath.Sane(pow, c) && |st.custom| == |c.customAssets|
    ensures RecordsStep(c, st, Step(pow, c, st, m), m)
  {
    var flowed := FlowPhase(pow, c, ContributePhase(c, st, m), m);
    var grown := GrowthPhase(pow, c, flowed);
    var event := EventPhase(pow, c, grown, m);
    assert event.0.data == st.data;
    assert event.0.yearlyWithdrawal == flowed.yearlyWithdrawal;
    assert !IsRetired(c, m) ==> flowed.yearlyWithdrawal == st.yearlyWithdrawal;
    var r := RecordPhase(pow, c, event.0, m, event.1);
    assert r.data[..|st.data|] == st.data;
  }

  // ---------------------------------------------------------------- the run

  /** The states after months 0, 1, ..., k. */
  ghost function Trace(pow: Pow, c: Config, k: nat): (t: seq<State>)
    requires FireMath.Sane(pow, c)
    ensures |t| == k + 1
    ensures forall j :: 0 <= j <= k ==> |t[j].custom| == |c.customAssets|
  {
    if k == 0 then [InitialState(c)]
    else
      var prev := Trace(pow, c, k - 1);
      prev + [Step(pow, c, prev[k - 1], k)]
  }

  /** The last state of the trace is the run's state. */
  lemma {:induction false} TraceIsRun(pow: Pow, c: Config, k: nat)
    requires FireMath.Sane(pow, c)
    ensures Trace(pow, c, k)[k] == Run(pow, c, k)
  {
    if k > 0 {
      TraceIsRun(pow, c, k - 1);
    }
  }

  /** Month j of the trace is an accumulation month whose closing total
      meets that month's target. */
  ghost predicate FireHitIn(pow: Pow, c: Config, t: seq<State>, j: int)
    requires FireMath.Sane(pow, c)
  {
    1 <= j < |t| && !IsRetired(c, j) && Total(t[j]) >= TargetAt(pow, c, j)
  }

  /** Month j sets the FIRE flag when it hits its target, and records
      itself as the FIRE month when the flag was not yet set. */
  ghost predicate FireStep(pow: Pow, c: Config, t: seq<State>, j: int)
    requires FireMath.Sane(pow, c) && 1 <= j < |t|
  {
    t[j].reached == (t[j - 1].reached || FireHitIn(pow, c, t, j))
    && t[j].fireMonth == (if !t[j - 1].reached && FireHitIn(pow, c, t, j) then j else t[j - 1].fireMonth)
  }

  /** The FIRE flag starts cleared (month -1) and each month follows the rule. */
  ghost predicate FireRule(pow: Pow, c: Config, t: seq<State>)
    requires FireMath.Sane(pow, c)
  {
    |t| > 0 && !t[0].reached && t[0].fireMonth == -1
    && forall j :: 1 <= j < |t| ==> FireStep(pow, c, t, j)
  }

  lemma FireRuleExtends(pow: Pow, c: Config, prev: seq<State>, m: nat, x: State)
    requires FireMath.Sane(pow, c) && FireRule(pow, c, prev) && m == |prev|
    requires var hit := !IsRetired(c, m) && Total(x) >= TargetAt(pow, c, m);
             x.reached == (prev[m - 1].reached || hit)
             && x.fireMonth == (if !prev[m - 1].reached && hit then m else prev[m - 1].fireMonth)
    ensures FireRule(pow, c, prev + [x])
  {
    var t := prev + [x];
    forall j | 1 <= j < |t|
      ensures FireStep(pow, c, t, j)
    {
      assert t[j - 1] == prev[j - 1];
      if j < |prev| {
        assert t[j] == prev[j];
        assert FireHitIn(pow, c, t, j) == FireHitIn(pow, c, prev, j);
        assert FireStep(pow, c, prev, j);
      } else {
        assert t[j] == x && j == m;
        assert FireHitIn(pow, c, t, j) == (!IsRetired(c, m) && Total(x) >= TargetAt(pow, c, m));
      }
    }
  }

  /** The monthly FIRE rule holds along the whole trace. */
  lemma {:induction false} TraceFireRule(pow: Pow, c: Config, k: nat)
    requires FireMath.Sane(pow, c)
    ensures FireRule(pow, c, Trace(pow, c, k))
  {
    if k > 0 {
      TraceFireRule(pow, c, k - 1);
      var prev := Trace(pow, c, k - 1);
      StepFire(pow, c, prev[k - 1], k);
      FireRuleExtends(pow, c, prev, k, Step(pow, c, prev[k - 1], k));
    }
  }

  /** Over any trace whose FIRE flag follows the monthly rule: the flag is
      set exactly when some month so far hit its target, the recorded month
      is the first such month, and it stays -1 while there is none. */
  lemma {:induction false} FirstFireHit(pow: Pow, c: Config, t: seq<State>, k: nat)
    requires FireMath.Sane(pow, c)
    requires k < |t| && FireRule(pow, c, t)
    ensures t[k].reached <==> exists j :: 1 <= j <= k && FireHitIn(pow, c, t, j)
    ensures t[k].reached ==>
              1 <= t[k].fireMonth <= k && FireHitIn(pow, c, t, t[k].fireMonth)
              && forall i :: 1 <= i < t[k].fireMonth ==> !FireHitIn(pow, c, t, i)
    ensures !t[k].reached ==> t[k].fireMonth == -1
  {
    if k > 0 {
      FirstFireHit(pow, c, t, k - 1);
      assert FireStep(pow, c, t, k);
      if !t[k - 1].reached {
        assert forall i :: 1 <= i < k ==> !FireHitIn(pow, c, t, i);
      }
    }
  }

  /** The yearly withdrawal total starts at zero and each month follows the
      snapshot rule. */
  predicate SnapshotRule(c: Config, t: seq<State>)
  {
    |t| > 0 && t[0].data == [] && t[0].yearlyWithdrawal == 0.0
    && forall j :: 1 <= j < |t| ==> RecordsStep(c, t[j - 1], t[j], j)
  }

  lemma SnapshotRuleExtends(c: Config, prev: seq<State>, m: nat, x: State)
    requires SnapshotRule(c, prev) && m == |prev| && RecordsStep(c, prev[m - 1], x, m)
    ensures SnapshotRule(c, prev + [x])
  {
    var t := prev + [x];
    forall j | 1 <= j < |t|
      ensures RecordsStep(c, t[j - 1], t[j], j)
    {
      assert t[j - 1] == prev[j - 1];
      if j < |prev| {
        assert t[j] == prev[j];
      }
    }
  }

  lemma {:induction false} TraceSnapshotRule(pow: Pow, c: Config, k: nat)
    requires FireMath.Sane(pow, c)
    ensures SnapshotRule(c, Trace(pow, c, k))
  {
    if k > 0 {
      TraceSnapshotRule(pow, c, k - 1);
      var prev := Trace(pow, c, k - 1);
      StepRecords(pow, c, prev[k - 1], k);
      SnapshotRuleExtends(c, prev, k, Step(pow, c, prev[k - 1], k));
    }
  }

  /** The snapshot of `month`: its floored age, a null target exactly when
      retired, and no withdrawal before retirement. */
  predicate ScheduledSnapshot(c: Config, d: Snapshot, month: int)
  {
    d.age == AgeAt(c, month).Floor
    && (d.target.None? <==> IsRetired(c, month))
    && (d.realTarget.None? <==> IsRetired(c, month))
    && (!IsRetired(c, month) ==> d.withdrawal == 0)
  }

  /** Over any trace that follows the snapshot rule, after k months there is
      one snapshot per snapshot month, each as scheduled and carrying the
      rounded total of its own month's state, and before retirement the
      year's withdrawal total is zero. */
  lemma {:induction false} Schedule(c: Config, t: seq<State>, k: nat)
    requires k < |t| && SnapshotRule(c, t)
    ensures |t[k].data| == FireMathProps.SnapshotCount(k)
    ensures forall i :: 0 <= i < |t[k].data| ==> ScheduledSnapshot(c, t[k].data[i], FireMathProps.SnapshotMonth(i))
    ensures !IsRetired(c, k) ==> t[k].yearlyWithdrawal == 0.0
    ensures forall i :: 0 <= i < |t[k].data| ==>
              FireMathProps.SnapshotMonth(i) <= k && t[k].data[i].balance == Round(Total(t[FireMathProps.SnapshotMonth(i)]))
  {
    if k > 0 {
      Schedule(c, t, k - 1);
      var before := t[k - 1];
      var after := t[k];
      assert RecordsStep(c, before, after, k);
      assert !IsRetired(c, k) ==> !IsRetired(c, k - 1);
      if IsSnapshotMonth(k) {
        assert FireMathProps.SnapshotMonth(|before.data|) == k;
        assert ScheduledSnapshot(c, after.data[|before.data|], k);
        forall i | 0 <= i < |before.data|
          ensures after.data[i] == before.data[i]
        {
          assert after.data[..|before.data|][i] == after.data[i];
        }
      } else {
        assert after.data == after.data[..|before.data|];
      }
    }
  }

  /** After k months the data holds one snapshot per snapshot month (month
      1 and every twelfth month), in order, each with its month's floored
      age, a null target exactly when retired, no withdrawal before
      retirement, and the rounded total balance of the state after its
      month (that month's entry of the trace). */
  lemma SnapshotSchedule(pow: Pow, c: Config, k: nat)
    requires FireMath.Sane(pow, c)
    ensures |Run(pow, c, k).data| == FireMathProps.SnapshotCount(k)
    ensures forall i :: 0 <= i < |Run(pow, c, k).data| ==>
              ScheduledSnapshot(c, Run(pow, c, k).data[i], FireMathProps.SnapshotMonth(i))
    ensures forall i :: 0 <= i < |Run(pow, c, k).data| ==>
              FireMathProps.SnapshotMonth(i) <= k
              && Run(pow, c, k).data[i].balance == Round(Total(Trace(pow, c, k)[FireMathProps.SnapshotMonth(i)]))
  {
    TraceIsRun(pow, c, k);
    TraceSnapshotRule(pow, c, k);
    Schedule(c, Trace(pow, c, k), k);
  }

  // ---------------------------------------------------------------- summary

  /** The engine's FIRE age is set exactly when some month within the
      horizon hit its target, and is then the age of the first such month. */
  lemma ProjectFireAge(pow: Pow, c: Config)
    requires FireMath.Sane(pow, c)
    ensures var t := Trace(pow, c, Horizon(c));
            var p := Project(pow, c);
            (p.fireAge.Some? <==> exists j :: 1 <= j <= Horizon(c) && FireHitIn(pow, c, t, j))
            && (p.fireAge.Some? ==>
                  exists j :: 1 <= j <= Horizon(c) && FireHitIn(pow, c, t, j)
                              && (forall i :: 1 <= i < j ==> !FireHitIn(pow, c, t, i))
                              && p.fireAge.value == AgeAt(c, j))
  {
    var k := Horizon(c);
    TraceIsRun(pow, c, k);
    TraceFireRule(pow, c, k);
    FirstFireHit(pow, c, Trace(pow, c, k), k);
  }

  /** The reported gap is the target minus the corpus, both read from the
      snapshot at the retirement age (0 when there is none), and the
      remedies are all zero when there is no shortfall. */
  lemma ProjectGap(pow: Pow, c: Config)
    requires FireMath.Sane(pow, c)
    ensures var p := Project(pow, c);
            var d := FireMath.FindAge(p.projection, SnapshotAge, EffectiveRetireAge(c));
            p.gap == p.targetAtRetirement - p.corpusAtRetirement
            && (d.None? ==> p.targetAtRetirement == 0 && p.corpusAtRetirement == 0)
            && (d.Some? ==> p.corpusAtRetirement == d.value.balance
                            && p.targetAtRetirement == FireMath.NullAsZero(d.value.target))
            && (p.gap <= 0 ==> p.solutions == Solutions(Finite(0.0), FireMath.Years(0.0), 0))
            && p.salaryVsStepUpWarning == (c.sipStepUp > c.salaryGrowth)
  {
  }
}
