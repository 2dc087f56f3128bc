// Properties of the projection engine: what one month does to the
// bookkeeping fields, and what the whole run guarantees about bankruptcy,
// the FIRE month, the yearly snapshots and the withdrawal total.

module FireMathProps {
  import opened JsMath
  import opened Plan
  import opened FireMath

  function Liquid(st: SimState): real
  {
    st.equity + st.stable
  }

  // ---------------------------------------------------------------- one month

  /** Only a decumulation month whose opening liquid assets are not
      positive records a bankruptcy age, and only the first one does. */
  lemma StepBankruptcy(pow: Pow, c: Config, st: SimState, m: int)
    requires Sane(pow, c) && |st.custom| == |c.customAssets|
    ensures Step(pow, c, st, m).bankruptcyAge ==
              if IsRetired(c, m) && Liquid(st) <= 0.0 && st.bankruptcyAge.None? then Some(AgeAt(c, m))
              else st.bankruptcyAge
  {
    var recurring := MonthRecurring(pow, c, m);
    var emergency := EmergencyPhase(pow, c, ContributePhase(pow, c, st, m), m);
    var flowed := FlowPhase(pow, c, emergency.0, m, emergency.1, recurring);
    assert Liquid(emergency.0) == Liquid(st);
    var grown := GrowthPhase(pow, c, flowed, m);
    var event := EventPhase(pow, c, grown, m);
    assert Step(pow, c, st, m).bankruptcyAge == flowed.bankruptcyAge;
  }

  /** The FIRE flag is set by the first accumulation month whose closing
      total reaches that month's target, and that month is recorded. */
  lemma StepFire(pow: Pow, c: Config, st: SimState, m: int)
    requires Sane(pow, c) && |st.custom| == |c.customAssets|
    ensures var r := Step(pow, c, st, m);
            var hit := !IsRetired(c, m) && Total(r) >= TargetAt(pow, c, m);
            r.reached == (st.reached || hit)
            && r.fireMonth == (if !st.reached && hit then m else st.fireMonth)
  {
    var recurring := MonthRecurring(pow, c, m);
    var emergency := EmergencyPhase(pow, c, ContributePhase(pow, c, st, m), m);
    var grown := GrowthPhase(pow, c, FlowPhase(pow, c, emergency.0, m, emergency.1, recurring), m);
    var event := EventPhase(pow, c, grown, m);
    var r := RecordPhase(pow, c, event.0, m, event.1, recurring);
    assert Total(r) == Total(event.0);
  }

  /** What one month does to the snapshots and to the year's withdrawal
      total: a snapshot is appended exactly in snapshot months, earlier ones
      are kept, the new one carries the month's floored age, a null target
      exactly when retired and, before retirement, the total carried in; a
      snapshot month resets the total and a non-snapshot month before
      retirement leaves it alone. */
  predicate RecordsStep(c: Config, before: SimState, after: SimState, m: int)
  {
    |after.data| == |before.data| + (if IsSnapshotMonth(m) then 1 else 0)
    && after.data[..|before.data|] == before.data
    && (IsSnapshotMonth(m) ==>
          after.data[|before.data|].age == AgeAt(c, m).Floor
          && after.data[|before.data|].balance == Round(Total(after))
          && (after.data[|before.data|].target.None? <==> IsRetired(c, m))
          && (after.data[|before.data|].realTarget.None? <==> IsRetired(c, m))
          && (!IsRetired(c, m) ==> after.data[|before.data|].withdrawal == Round(before.yearlyWithdrawal))
          && after.yearlyWithdrawal == 0.0)
    && (!IsSnapshotMonth(m) && !IsRetired(c, m) ==> after.yearlyWithdrawal == before.yearlyWithdrawal)
  }

  lemma StepRecords(pow: Pow, c: Config, st: SimState, m: int)
    requires Sane(pow, c) && |st.custom| == |c.customAssets|
    ensures RecordsStep(c, st, Step(pow, c, st, m), m)
  {
    var recurring := MonthRecurring(pow, c, m);
    var emergency := EmergencyPhase(pow, c, ContributePhase(pow, c, st, m), m);
    var flowed := FlowPhase(pow, c, emergency.0, m, emergency.1, recurring);
    var grown := GrowthPhase(pow, c, flowed, m);
    var event := EventPhase(pow, c, grown, m);
    assert event.0.data == st.data;
    assert event.0.yearlyWithdrawal == flowed.yearlyWithdrawal;
    assert !IsRetired(c, m) ==> flowed.yearlyWithdrawal == st.yearlyWithdrawal;
    var r := RecordPhase(pow, c, event.0, m, event.1, recurring);
    assert r.data[..|st.data|] == st.data;
  }

  /** After retirement the month's whole outflow (expenses plus recurring
      events) accrues to the year's withdrawal total, depleted or not; a
      snapshot month reports the total including this month's outflow. */
  lemma StepWithdrawalAccrues(pow: Pow, c: Config, st: SimState, m: int)
    requires Sane(pow, c) && |st.custom| == |c.customAssets|
    ensures var r := Step(pow, c, st, m);
            var accrued := st.yearlyWithdrawal + (MonthlyExpense(pow, c, m) + MonthRecurring(pow, c, m));
            IsRetired(c, m) ==>
              (!IsSnapshotMonth(m) ==> r.yearlyWithdrawal == accrued)
              && (IsSnapshotMonth(m) ==> r.data[|st.data|].withdrawal == Round(accrued))
  {
    var recurring := MonthRecurring(pow, c, m);
    var emergency := EmergencyPhase(pow, c, ContributePhase(pow, c, st, m), m);
    var flowed := FlowPhase(pow, c, emergency.0, m, emergency.1, recurring);
    var grown := GrowthPhase(pow, c, flowed, m);
    var event := EventPhase(pow, c, grown, m);
    assert event.0.yearlyWithdrawal == flowed.yearlyWithdrawal;
    assert event.0.data == st.data;
  }

  // ---------------------------------------------------------------- flows

  /** Before retirement, and for non-negative contributions, money is
      conserved: liquid assets plus the topped-up emergency fund gain
      exactly the scheduled contributions, less the recurring outflow,
      which is paid only when the liquid total after investing is
      positive. */
  lemma AccumulationConserves(equity: real, stable: real, grown: real, required: real,
                              sipE: real, sipS: real, recurring: real)
    requires 0.0 <= sipE && 0.0 <= sipS
    ensures var topUp := TopUp(false, grown, required, sipE, sipS);
            var r := Accumulate(equity, stable, sipE, sipS, topUp, recurring);
            var paid := if recurring > 0.0 && equity + stable + sipE + sipS - topUp > 0.0 then recurring else 0.0;
            r.equity + r.stable + (grown + topUp) == equity + stable + grown + sipE + sipS - paid
  {
    TopUpBounds(false, grown, required, sipE, sipS);
  }

  /** With negative contributions (the SIP fields accept a leading minus)
      and a fund below its floor, conservation fails: the top-up is the
      negative contribution total, so it drains the emergency fund, and
      since it is not positive nothing is diverted and the same amount
      also comes out of liquid assets, which is a double debit. */
  lemma NegativeSipDebitedTwice(equity: real, stable: real, grown: real, required: real,
                                sipE: real, sipS: real, recurring: real)
    requires grown < required && sipE + sipS < 0.0
    ensures var topUp := TopUp(false, grown, required, sipE, sipS);
            var r := Accumulate(equity, stable, sipE, sipS, topUp, recurring);
            var paid := if recurring > 0.0 && equity + stable + sipE + sipS > 0.0 then recurring else 0.0;
            topUp == sipE + sipS
            && r.equity + r.stable + (grown + topUp) == equity + stable + grown + 2.0 * (sipE + sipS) - paid
  {
    TopUpBounds(false, grown, required, sipE, sipS);
  }

  /** A decumulation month that opens with positive liquid assets withdraws
      the outflow, but at most liquid + 1000, so liquid never drops below
      -1000; otherwise the whole outflow comes out of equity. */
  lemma DecumulationFloor(equity: real, stable: real, outflow: real)
    ensures var r := Decumulate(equity, stable, outflow);
            (equity + stable > 0.0 ==>
               r.equity + r.stable == equity + stable - Min(outflow, equity + stable + 1000.0)
               && r.equity + r.stable >= -1000.0)
            && (equity + stable <= 0.0 ==> r.equity == equity - outflow && r.stable == stable)
  {
  }

  /** With the stress test on, equity earns -20% a year in exactly the 24
      months after the (floored) months-to-retirement, and its base return
      in every other month. */
  lemma StressWindow(c: Config, m: int)
    ensures var start := MonthsToRetire(c).Floor;
            EquityAnnualRate(c, m) == if c.stressTest && start < m <= start + 24 then -0.20 else REquityBase(c)
  {
    var x := MonthsToRetire(c);
    assert x.Floor as real <= x < x.Floor as real + 1.0;
    assert m as real > x <==> m > x.Floor;
    assert m as real <= x + 24.0 <==> m <= x.Floor + 24;
  }

  // ---------------------------------------------------------------- the run

  /** The states after months 0, 1, ..., k. */
  ghost function Trace(pow: Pow, c: Config, k: nat): (t: seq<SimState>)
    requires Sane(pow, c)
    ensures |t| == k + 1
    ensures forall j :: 0 <= j <= k ==> |t[j].custom| == |c.customAssets|
  {
    if k == 0 then [InitialState(c)]
    else
      var prev := Trace(pow, c, k - 1);
      prev + [Step(pow, c, prev[k - 1], k)]
  }

  /** The last state of the trace is the run's state. */
  lemma {:induction false} TraceIsRun(pow: Pow, c: Config, k: nat)
    requires Sane(pow, c)
    ensures Trace(pow, c, k)[k] == Run(pow, c, k)
  {
    if k > 0 {
      TraceIsRun(pow, c, k - 1);
    }
  }

  /** Month j of the trace starts a decumulation month with no positive
      liquid assets. */
  predicate DepletedIn(c: Config, t: seq<SimState>, j: int)
  {
    1 <= j < |t| && IsRetired(c, j) && Liquid(t[j - 1]) <= 0.0
  }

  /** Month j records its age as the bankruptcy age when it is the first
      depleted month, and otherwise keeps the previous value. */
  predicate BankruptcyStep(c: Config, t: seq<SimState>, j: int)
    requires 1 <= j < |t|
  {
    t[j].bankruptcyAge == if DepletedIn(c, t, j) && t[j - 1].bankruptcyAge.None? then Some(AgeAt(c, j))
                          else t[j - 1].bankruptcyAge
  }

  /** The bankruptcy age starts null and each month follows the rule. */
  predicate BankruptcyRule(c: Config, t: seq<SimState>)
  {
    |t| > 0 && t[0].bankruptcyAge.None?
    && forall j :: 1 <= j < |t| ==> BankruptcyStep(c, t, j)
  }

  lemma BankruptcyRuleExtends(c: Config, prev: seq<SimState>, m: nat, x: SimState)
    requires BankruptcyRule(c, prev) && m == |prev|
    requires x.bankruptcyAge == if IsRetired(c, m) && Liquid(prev[m - 1]) <= 0.0 && prev[m - 1].bankruptcyAge.None?
                                then Some(AgeAt(c, m)) else prev[m - 1].bankruptcyAge
    ensures BankruptcyRule(c, prev + [x])
  {
    var t := prev + [x];
    forall j | 1 <= j < |t|
      ensures BankruptcyStep(c, t, j)
    {
      assert t[j - 1] == prev[j - 1];
      if j < |prev| {
        assert t[j] == prev[j];
        assert DepletedIn(c, t, j) == DepletedIn(c, prev, j);
        assert BankruptcyStep(c, prev, j);
      }
    }
  }

  /** The monthly bankruptcy rule holds along the whole trace. */
  lemma {:induction false} TraceBankruptcyRule(pow: Pow, c: Config, k: nat)
    requires Sane(pow, c)
    ensures BankruptcyRule(c, Trace(pow, c, k))
  {
    if k > 0 {
      TraceBankruptcyRule(pow, c, k - 1);
      var prev := Trace(pow, c, k - 1);
      StepBankruptcy(pow, c, prev[k - 1], k);
      BankruptcyRuleExtends(c, prev, k, Step(pow, c, prev[k - 1], k));
    }
  }

  /** Over any trace whose bankruptcy age starts null and follows the monthly
      rule: it is null exactly when no month so far was depleted, and
      otherwise is the age of the first depleted month. */
  lemma {:induction false} FirstDepletion(c: Config, t: seq<SimState>, k: nat)
    requires k < |t| && BankruptcyRule(c, t)
    ensures t[k].bankruptcyAge.None? <==> forall j :: 1 <= j <= k ==> !DepletedIn(c, t, j)
    ensures t[k].bankruptcyAge.Some? ==>
              exists j :: 1 <= j <= k && DepletedIn(c, t, j) && (forall i :: 1 <= i < j ==> !DepletedIn(c, t, i))
                          && t[k].bankruptcyAge.value == AgeAt(c, j)
  {
    if k > 0 {
      FirstDepletion(c, t, k - 1);
      assert BankruptcyStep(c, t, k);
      if t[k - 1].bankruptcyAge.None? && DepletedIn(c, t, k) {
        assert forall i :: 1 <= i < k ==> !DepletedIn(c, t, i);
      }
    }
  }

  /** After k months the bankruptcy age is null exactly when no month was
      depleted. */
  lemma BankruptcyNullIffNoDepletion(pow: Pow, c: Config, k: nat)
    requires Sane(pow, c)
    ensures Run(pow, c, k).bankruptcyAge.None? <==> forall j :: 1 <= j <= k ==> !DepletedIn(c, Trace(pow, c, k), j)
  {
    TraceIsRun(pow, c, k);
    TraceBankruptcyRule(pow, c, k);
    FirstDepletion(c, Trace(pow, c, k), k);
  }

  /** After k months a recorded bankruptcy age is the age of the first
      depleted month. */
  lemma BankruptcyAgeIsFirstDepletion(pow: Pow, c: Config, k: nat)
    requires Sane(pow, c)
    ensures var t := Trace(pow, c, k);
            Run(pow, c, k).bankruptcyAge.Some? ==>
              exists j :: 1 <= j <= k && DepletedIn(c, t, j) && (forall i :: 1 <= i < j ==> !DepletedIn(c, t, i))
                          && Run(pow, c, k).bankruptcyAge.value == AgeAt(c, j)
  {
    TraceIsRun(pow, c, k);
    TraceBankruptcyRule(pow, c, k);
    FirstDepletion(c, Trace(pow, c, k), k);
  }

  /** Month j of the trace is an accumulation month whose closing total
      meets that month's target. */
  ghost predicate FireHitIn(pow: Pow, c: Config, t: seq<SimState>, j: int)
    requires Sane(pow, c)
  {
    1 <= j < |t| && !IsRetired(c, j) && Total(t[j]) >= TargetAt(pow, c, j)
  }

  /** Month j sets the FIRE flag when it hits its target, and records
      itself as the FIRE month when the flag was not yet set. */
  ghost predicate FireStep(pow: Pow, c: Config, t: seq<SimState>, j: int)
    requires Sane(pow, c) && 1 <= j < |t|
  {
    t[j].reached == (t[j - 1].reached || FireHitIn(pow, c, t, j))
    && t[j].fireMonth == (if !t[j - 1].reached && FireHitIn(pow, c, t, j) then j else t[j - 1].fireMonth)
  }

  /** The FIRE flag starts cleared (month -1) and each month follows the rule. */
  ghost predicate FireRule(pow: Pow, c: Config, t: seq<SimState>)
    requires Sane(pow, c)
  {
    |t| > 0 && !t[0].reached && t[0].fireMonth == -1
    && forall j :: 1 <= j < |t| ==> FireStep(pow, c, t, j)
  }

  lemma FireRuleExtends(pow: Pow, c: Config, prev: seq<SimState>, m: nat, x: SimState)
    requires Sane(pow, c) && FireRule(pow, c, prev) && m == |prev|
    requires var hit := !IsRetired(c, m) && Total(x) >= TargetAt(pow, c, m);
             x.reached == (prev[m - 1].reached || hit)
             && x.fireMonth == (if !prev[m - 1].reached && hit then m else prev[m - 1].fireMonth)
    ensures FireRule(pow, c, prev + [x])
  {
    var t := prev + [x];
    forall j | 1 <= j < |t|
      ensures FireStep(pow, c, t, j)
    {
      assert t[j - 1] == prev[j - 1];
      if j < |prev| {
        assert t[j] == prev[j];
        assert FireHitIn(pow, c, t, j) == FireHitIn(pow, c, prev, j);
        assert FireStep(pow, c, prev, j);
      }
    }
  }

  /** The monthly FIRE rule holds along the whole trace. */
  lemma {:induction false} TraceFireRule(pow: Pow, c: Config, k: nat)
    requires Sane(pow, c)
    ensures FireRule(pow, c, Trace(pow, c, k))
  {
    if k > 0 {
      TraceFireRule(pow, c, k - 1);
      var prev := Trace(pow, c, k - 1);
      StepFire(pow, c, prev[k - 1], k);
      FireRuleExtends(pow, c, prev, k, Step(pow, c, prev[k - 1], k));
    }
  }

  /** Over any trace whose FIRE flag starts cleared (month -1) and follows
      the monthly rule: the flag is set exactly when some month so far hit
      its target, the recorded month is the first such month, and it stays
      -1 while there is none. */
  lemma {:induction false} FirstFireHit(pow: Pow, c: Config, t: seq<SimState>, k: nat)
    requires Sane(pow, c)
    requires k < |t| && FireRule(pow, c, t)
    ensures t[k].reached <==> exists j :: 1 <= j <= k && FireHitIn(pow, c, t, j)
    ensures t[k].reached ==>
              1 <= t[k].fireMonth <= k && FireHitIn(pow, c, t, t[k].fireMonth)
              && forall i :: 1 <= i < t[k].fireMonth ==> !FireHitIn(pow, c, t, i)
    ensures !t[k].reached ==> t[k].fireMonth == -1
  {
    if k > 0 {
      FirstFireHit(pow, c, t, k - 1);
      assert FireStep(pow, c, t, k);
      if !t[k - 1].reached {
        assert forall i :: 1 <= i < k ==> !FireHitIn(pow, c, t, i);
      }
    }
  }

  /** FIRE is reached within k months exactly when some month hit its target. */
  lemma FireReachedIffHit(pow: Pow, c: Config, k: nat)
    requires Sane(pow, c)
    ensures Run(pow, c, k).reached <==> exists j :: 1 <= j <= k && FireHitIn(pow, c, Trace(pow, c, k), j)
  {
    TraceIsRun(pow, c, k);
    TraceFireRule(pow, c, k);
    FirstFireHit(pow, c, Trace(pow, c, k), k);
  }

  /** The recorded FIRE month is the first month that hit its target, and
      -1 when FIRE was not reached. */
  lemma FireMonthIsFirstHit(pow: Pow, c: Config, k: nat)
    requires Sane(pow, c)
    ensures var r := Run(pow, c, k);
            var t := Trace(pow, c, k);
            (r.reached ==>
               1 <= r.fireMonth <= k && FireHitIn(pow, c, t, r.fireMonth)
               && forall i :: 1 <= i < r.fireMonth ==> !FireHitIn(pow, c, t, i))
            && (!r.reached ==> r.fireMonth == -1)
  {
    TraceIsRun(pow, c, k);
    TraceFireRule(pow, c, k);
    FirstFireHit(pow, c, Trace(pow, c, k), k);
  }

  /** Snapshot j is taken in month 1 (j = 0) or month 12j. */
  function SnapshotMonth(j: nat): nat
  {
    if j == 0 then 1 else 12 * j
  }

  /** The number of snapshot months among months 1..k. */
  function SnapshotCount(k: nat): nat
  {
    if k == 0 then 0 else 1 + k / 12
  }

  /** The snapshot of `month`: its floored age, a null target exactly when
      retired, and no withdrawal before retirement. */
  predicate ScheduledSnapshot(c: Config, d: Snapshot, month: int)
  {
    d.age == AgeAt(c, month).Floor
    && (d.target.None? <==> IsRetired(c, month))
    && (d.realTarget.None? <==> IsRetired(c, month))
    && (!IsRetired(c, month) ==> d.withdrawal == 0)
  }

  /** The data starts empty with no withdrawal and each month follows the
      snapshot rule. */
  predicate SnapshotRule(c: Config, t: seq<SimState>)
  {
    |t| > 0 && t[0].data == [] && t[0].yearlyWithdrawal == 0.0
    && forall j :: 1 <= j < |t| ==> RecordsStep(c, t[j - 1], t[j], j)
  }

  lemma SnapshotRuleExtends(c: Config, prev: seq<SimState>, m: nat, x: SimState)
    requires SnapshotRule(c, prev) && m == |prev| && RecordsStep(c, prev[m - 1], x, m)
    ensures SnapshotRule(c, prev + [x])
  {
    var t := prev + [x];
    forall j | 1 <= j < |t|
      ensures RecordsStep(c, t[j - 1], t[j], j)
    {
      assert t[j - 1] == prev[j - 1];
      if j < |prev| {
        assert t[j] == prev[j];
      }
    }
  }

  lemma {:induction false} TraceSnapshotRule(pow: Pow, c: Config, k: nat)
    requires Sane(pow, c)
    ensures SnapshotRule(c, Trace(pow, c, k))
  {
    if k > 0 {
      TraceSnapshotRule(pow, c, k - 1);
      var prev := Trace(pow, c, k - 1);
      var x := Step(pow, c, prev[k - 1], k);
      assert Trace(pow, c, k) == prev + [x];
      StepRecords(pow, c, prev[k - 1], k);
      SnapshotRuleExtends(c, prev, k, x);
    }
  }

  /** Over any trace that follows the snapshot rule, after k months there is
      one snapshot per snapshot month, each as scheduled and holding the
      rounded total of its month's state, and before retirement the year's
      withdrawal total is zero. */
  lemma {:induction false} Schedule(c: Config, t: seq<SimState>, k: nat)
    requires k < |t| && SnapshotRule(c, t)
    ensures |t[k].data| == SnapshotCount(k)
    ensures forall i :: 0 <= i < |t[k].data| ==> ScheduledSnapshot(c, t[k].data[i], SnapshotMonth(i))
    ensures !IsRetired(c, k) ==> t[k].yearlyWithdrawal == 0.0
    ensures forall i :: 0 <= i < |t[k].data| ==>
              SnapshotMonth(i) <= k && t[k].data[i].balance == Round(Total(t[SnapshotMonth(i)]))
  {
    if k > 0 {
      Schedule(c, t, k - 1);
      var before := t[k - 1];
      var after := t[k];
      assert RecordsStep(c, before, after, k);
      assert !IsRetired(c, k) ==> !IsRetired(c, k - 1);
      if IsSnapshotMonth(k) {
        assert SnapshotMonth(|before.data|) == k;
        assert ScheduledSnapshot(c, after.data[|before.data|], k);
        forall i | 0 <= i < |before.data|
          ensures after.data[i] == before.data[i]
        {
          assert after.data[..|before.data|][i] == after.data[i];
        }
      } else {
        assert after.data == after.data[..|before.data|];
      }
    }
  }

  /** After k months the data holds one snapshot per snapshot month (month
      1 and every twelfth month), in order, each with its month's floored
      age, a null target exactly when retired, no withdrawal before
      retirement, and the rounded total balance of the state after its
      month (that month's entry of the trace). */
  lemma SnapshotSchedule(pow: Pow, c: Config, k: nat)
    requires Sane(pow, c)
    ensures |Run(pow, c, k).data| == SnapshotCount(k)
    ensures forall i :: 0 <= i < |Run(pow, c, k).data| ==>
              ScheduledSnapshot(c, Run(pow, c, k).data[i], SnapshotMonth(i))
    ensures forall i :: 0 <= i < |Run(pow, c, k).data| ==>
              SnapshotMonth(i) <= k && Run(pow, c, k).data[i].balance == Round(Total(Trace(pow, c, k)[SnapshotMonth(i)]))
  {
    TraceIsRun(pow, c, k);
    TraceSnapshotRule(pow, c, k);
    Schedule(c, Trace(pow, c, k), k);
  }

  // ---------------------------------------------------------------- summary

  /** The projection's FIRE age is set exactly when some month within the
      horizon hit its target, and is then the age of the first such month. */
  lemma ProjectFireAge(pow: Pow, c: Config)
    requires Sane(pow, c)
    ensures var t := Trace(pow, c, Horizon(c));
            var p := Project(pow, c);
            (p.fireAge.Some? <==> exists j :: 1 <= j <= Horizon(c) && FireHitIn(pow, c, t, j))
            && (p.fireAge.Some? ==>
                  exists j :: 1 <= j <= Horizon(c) && FireHitIn(pow, c, t, j)
                              && (forall i :: 1 <= i < j ==> !FireHitIn(pow, c, t, i))
                              && p.fireAge.value == AgeAt(c, j))
  {
    FireReachedIffHit(pow, c, Horizon(c));
    FireMonthIsFirstHit(pow, c, Horizon(c));
  }

  /** A reported bankruptcy age is the (non-zero) age of the first depleted
      month, and none is reported when no month within the horizon was
      depleted. */
  lemma ProjectBankruptcyAge(pow: Pow, c: Config)
    requires Sane(pow, c)
    ensures var t := Trace(pow, c, Horizon(c));
            var p := Project(pow, c);
            ((forall j :: 1 <= j <= Horizon(c) ==> !DepletedIn(c, t, j)) ==> p.bankruptcyAge.None?)
            && (p.bankruptcyAge.Some? ==>
                  p.bankruptcyAge.value != 0.0
                  && exists j :: 1 <= j <= Horizon(c) && DepletedIn(c, t, j)
                                 && (forall i :: 1 <= i < j ==> !DepletedIn(c, t, i))
                                 && p.bankruptcyAge.value == AgeAt(c, j))
    ensures c.currentAge >= 0.0 ==>
              (Project(pow, c).bankruptcyAge.None?
               <==> forall j :: 1 <= j <= Horizon(c) ==> !DepletedIn(c, Trace(pow, c, Horizon(c)), j))
  {
    BankruptcyNullIffNoDepletion(pow, c, Horizon(c));
    BankruptcyAgeIsFirstDepletion(pow, c, Horizon(c));
    ProjectNullMeansNeverDepleted(pow, c);
  }

  /** With a non-negative current age every depleted month has a positive
      age, so the truthiness test of the summary never hides a depletion:
      no bankruptcy age is reported exactly when no month within the
      horizon was depleted. (At a current age below zero a depletion at
      age exactly 0 would be reported as none.) */
  lemma ProjectNullMeansNeverDepleted(pow: Pow, c: Config)
    requires Sane(pow, c)
    ensures c.currentAge >= 0.0 ==>
              (Project(pow, c).bankruptcyAge.None?
               <==> forall j :: 1 <= j <= Horizon(c) ==> !DepletedIn(c, Trace(pow, c, Horizon(c)), j))
  {
    var k := Horizon(c);
    BankruptcyNullIffNoDepletion(pow, c, k);
    BankruptcyAgeIsFirstDepletion(pow, c, k);
    var r := Run(pow, c, k);
    assert Project(pow, c).bankruptcyAge
           == if r.bankruptcyAge.Some? && r.bankruptcyAge.value != 0.0 then r.bankruptcyAge else None;
  }

  /** The remedies are all zero without a shortfall; with one, the extra
      contribution lies between 0 and the gap, the expense cut is never
      negative, and "work longer" is "> 30" exactly when no snapshot after
      retirement has a balance at or above its (null, so 0) target. */
  lemma RemediesBounds(c: Config, data: seq<Snapshot>, gap: int, corpus: int)
    ensures gap <= 0 ==> Remedies(c, data, gap, corpus) == Solutions(0, Years(0.0), 0)
    ensures gap > 0 ==> 0 <= Remedies(c, data, gap, corpus).saveMore <= gap
    ensures gap > 0 ==> Remedies(c, data, gap, corpus).spendLess >= 0
    ensures gap > 0 ==>
              (Remedies(c, data, gap, corpus).workLonger.MoreThan30? <==>
                 forall d :: d in data ==> !(d.balance >= NullAsZero(d.target) && d.age as real > EffectiveRetireAge(c)))
    ensures gap > 0 && Remedies(c, data, gap, corpus).workLonger.Years? ==>
              Remedies(c, data, gap, corpus).workLonger.years > 0.0
  {
    if gap > 0 && MonthsToRetire(c) > 0.0 {
      GapSolver.BisectInvariant(gap as real, LoopCount(MonthsToRetire(c)), BlendedMonthlyRate(c), c.sipStepUp, 20);
    }
  }
}
