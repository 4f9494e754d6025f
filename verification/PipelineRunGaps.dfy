/** Where the run protocol is weaker than it reads, and exactly when it is not. */
module PipelineRunGaps {
  import opened Prelude
  import opened PipelineRuns
  import opened PipelineRunHistory
  import opened PipelineRunAccounting

  // ---- Runs that end before they are prepared ------------------------------------------------------

  /** Run `r` of `p`, inserted at `c`, ends at `i` without ever being prepared. */
  ghost predicate Unprepared(acts: seq<Action>, c: nat, i: nat, r: RunId, p: PipelineId) {
    && c < i < |acts|
    && Inserts(acts, c, r)
    && Ends(acts, i, r) && At(acts, i).runs[r].pipeline == p
    && forall k :: c < k < i ==> !Inserts(acts, k, r) && !Prepares(acts, k, r)
  }

  lemma {:induction false} ZeroUntilPrepared(acts: seq<Action>, c: nat, k: nat, r: RunId)
    requires c < k <= |acts| && Inserts(acts, c, r)
    requires r in At(acts, k).runs && Live(At(acts, k).runs[r])
    requires forall l :: c < l < k ==> !Inserts(acts, l, r) && !Prepares(acts, l, r)
    ensures At(acts, k).runs[r].counters == Zero()
    decreases k
  {
    AtNext(acts, k - 1);
    if k > c + 1 {
      var s, a := At(acts, k - 1), acts[k - 1];
      assert !Inserts(acts, k - 1, r) && !Prepares(acts, k - 1, r);
      if r !in s.runs { RowsComeFromInserts(s, a, r); assert false; }
      CountersStep(s, a, r);
      ZeroUntilPrepared(acts, c, k - 1, r);
    }
  }

  lemma PlusZeroIff(a: Counters, b: Counters)
    ensures Plus(Zero(), a) == a
    ensures Plus(a, b) == b <==> a == Zero()
  {
    if Plus(a, b) == b {
      forall i | 0 <= i < COUNTERS ensures a[i] == Zero()[i] { assert Plus(a, b)[i] == a[i] + b[i]; }
    }
  }

  /** A run ended before its preparation is credited with everything ever stored for the pipeline.
      That is its own share, the metrics stored since its creation, if and only if nothing had been
      stored for the pipeline before. */
  lemma UnpreparedCredit(acts: seq<Action>, c: nat, i: nat, r: RunId, p: PipelineId)
    requires Unprepared(acts, c, i, r, p)
    ensures Credit(acts, i, r) == MetricSum(acts[..i], p)
    ensures Credit(acts, i, r) == MetricSum(acts[c..i], p) <==> MetricSum(acts[..c], p) == Zero()
  {
    AtNext(acts, i);
    ZeroUntilPrepared(acts, c, i, r);
    CountersAtEnd(At(acts, i), acts[i], r);
    TotalIsSum(acts[..i], p);
    assert acts[..i] == acts[..c] + acts[c..i];
    MetricSumSplits(acts[..c], acts[c..i], p);
    PlusZeroIff(MetricSum(acts[..i], p), Zero());
    PlusZeroIff(MetricSum(acts[..c], p), MetricSum(acts[c..i], p));
  }

  // ---- Preparing a run that has ended --------------------------------------------------------------

  /** Preparation does not look at the end time. On an ended run with a proper (non-negative) credit
      it leaves the credit alone if and only if that credit and the pipeline's total are both zero. */
  lemma PreparingAnEndedRun(s: Store, r: RunId)
    requires MetricsGrow(s) && r in s.runs && !Live(s.runs[r]) && NonNegative(s.runs[r].counters)
    ensures var p := s.runs[r].pipeline;
            var after := Apply(s, Prepare(r, p)).runs[r];
            && !Live(after)
            && AtMost(after.counters, Zero())
            && (after.counters == s.runs[r].counters <==> s.runs[r].counters == Zero() && Total(s, p) == Zero())
  {
    var p := s.runs[r].pipeline;
    var total, before := Total(s, p), s.runs[r].counters;
    assert NonNegative(total);
    if Negated(total) == before {
      forall i | 0 <= i < COUNTERS ensures before[i] == Zero()[i] && total[i] == Zero()[i] {
        assert Negated(total)[i] == -total[i];
      }
      assert before == Zero() && total == Zero();
    }
    if total == Zero() { assert Negated(total) == Zero(); }
  }

  /** Nodes prepare a run for its own pipeline. */
  ghost predicate OwnPreparations(acts: seq<Action>, r: RunId) {
    forall k :: 0 <= k < |acts| && Prepares(acts, k, r) ==> acts[k].pipeline == At(acts, k).runs[r].pipeline
  }

  lemma BalanceStep(s: Store, a: Action, r: RunId)
    requires References(s) && MetricsGrow(s) && r in Apply(s, a).runs && Live(Apply(s, a).runs[r])
    requires a.Prepare? && a.run == r && r in s.runs ==> a.pipeline == s.runs[r].pipeline
    requires r in s.runs && Live(s.runs[r]) ==> NonNegative(Plus(s.runs[r].counters, Total(s, s.runs[r].pipeline)))
    ensures NonNegative(Plus(Apply(s, a).runs[r].counters, Total(Apply(s, a), Apply(s, a).runs[r].pipeline)))
  {
    var t := Apply(s, a);
    var p := t.runs[r].pipeline;
    TotalStep(s, a, p);
    if r !in s.runs {
      RowsComeFromInserts(s, a, r);
    } else if a.Prepare? && a.run == r {
      assert t.runs[r].counters == Negated(Total(s, p));
    } else {
      CountersStep(s, a, r);
      RowKept(s, a, r);
      if a.StoreMetrics? && a.pipeline == p { GrowingBalance(s.runs[r].counters, Total(s, p), a.increment); }
    }
  }

  lemma GrowingBalance(counters: Counters, total: Counters, increment: Increment)
    requires NonNegative(Plus(counters, total))
    ensures NonNegative(Plus(counters, Plus(total, increment)))
  {
    forall i | 0 <= i < COUNTERS ensures 0 <= Plus(counters, Plus(total, increment))[i] {
      assert 0 <= Plus(counters, total)[i] && 0 <= increment[i];
    }
  }

  /** What a live run holds is never below minus the totals of its pipeline. */
  lemma {:induction false} LiveBalance(acts: seq<Action>, k: nat, r: RunId)
    requires OwnPreparations(acts, r) && k <= |acts| && r in At(acts, k).runs && Live(At(acts, k).runs[r])
    ensures NonNegative(Plus(At(acts, k).runs[r].counters, Total(At(acts, k), At(acts, k).runs[r].pipeline)))
  {
    assert k > 0;
    var s, a := At(acts, k - 1), acts[k - 1];
    AtNext(acts, k - 1);
    ReachableInv(acts[..k - 1]);
    if r in s.runs && Live(s.runs[r]) { LiveBalance(acts, k - 1, r); }
    assert a.Prepare? && a.run == r && r in s.runs ==> Prepares(acts, k - 1, r);
    BalanceStep(s, a, r);
  }

  /** Prepared or not, and however often, a run is never credited with a negative count when it ends. */
  lemma CreditIsNotNegative(acts: seq<Action>, i: nat, r: RunId)
    requires OwnPreparations(acts, r) && i < |acts| && Ends(acts, i, r)
    ensures NonNegative(Credit(acts, i, r))
  {
    AtNext(acts, i);
    LiveBalance(acts, i, r);
    CountersAtEnd(At(acts, i), acts[i], r);
  }

  /** The last preparation of the run from `i` on and before `j`. */
  ghost function LastPreparation(acts: seq<Action>, i: nat, j: nat, r: RunId): (last: Option<nat>)
    requires i <= j <= |acts|
    ensures last.Some? ==> i <= last.value < j && Prepares(acts, last.value, r)
    ensures last.None? ==> forall k :: i <= k < j ==> !Prepares(acts, k, r)
    decreases j
  {
    if i == j then None
    else if Prepares(acts, j - 1, r) then Some(j - 1)
    else LastPreparation(acts, i, j - 1, r)
  }

  lemma EndedCountersStep(s: Store, a: Action, r: RunId)
    requires r in s.runs && !Live(s.runs[r]) && r in Apply(s, a).runs
    ensures Apply(s, a).runs[r].counters ==
      if a.Prepare? && a.run == r then Negated(Total(s, a.pipeline)) else s.runs[r].counters
  {
  }

  /** After its end a run holds its credit, or what the last preparation since then has put in its place. */
  lemma {:induction false} CountersAfterTheEnd(acts: seq<Action>, i: nat, j: nat, r: RunId)
    requires i < j <= |acts| && Ends(acts, i, r) && NotReinserted(acts, i + 1, j, r) && r in At(acts, j).runs
    ensures
      var last := LastPreparation(acts, i + 1, j, r);
      At(acts, j).runs[r].counters ==
      if last.None? then Credit(acts, i, r) else Negated(Total(At(acts, last.value), acts[last.value].pipeline))
    decreases j
  {
    if j > i + 1 {
      var s, a := At(acts, j - 1), acts[j - 1];
      AtNext(acts, j - 1);
      assert !Inserts(acts, j - 1, r);
      if r !in s.runs { RowsComeFromInserts(s, a, r); assert false; }
      CountersAfterTheEnd(acts, i, j - 1, r);
      assert !Live(s.runs[r]) by { RowPersists(acts, i + 1, j - 1, r); }
      EndedCountersStep(s, a, r);
    }
  }

  lemma NegatedIsCredit(credit: Counters, total: Counters)
    requires NonNegative(credit) && NonNegative(total)
    ensures Negated(total) == credit <==> credit == Zero() && total == Zero()
  {
    if Negated(total) == credit {
      forall i | 0 <= i < COUNTERS ensures credit[i] == Zero()[i] && total[i] == Zero()[i] {
        assert Negated(total)[i] == -total[i];
      }
    }
    if total == Zero() { assert Negated(total) == Zero(); }
  }

  /** The final counters of a run stay its credit if and only if it is not prepared again, or there is nothing
      to lose: it was credited with nothing, and at the last preparation nothing had been stored for its pipeline. */
  lemma CreditStays(acts: seq<Action>, i: nat, j: nat, r: RunId)
    requires OwnPreparations(acts, r)
    requires i < j <= |acts| && Ends(acts, i, r) && NotReinserted(acts, i + 1, j, r) && r in At(acts, j).runs
    ensures
      var last := LastPreparation(acts, i + 1, j, r);
      At(acts, j).runs[r].counters == Credit(acts, i, r) <==>
      || last.None?
      || (Credit(acts, i, r) == Zero() && Total(At(acts, last.value), acts[last.value].pipeline) == Zero())
  {
    CountersAfterTheEnd(acts, i, j, r);
    CreditIsNotNegative(acts, i, r);
    var last := LastPreparation(acts, i + 1, j, r);
    if last.Some? {
      ReachableInv(acts[..last.value]);
      NegatedIsCredit(Credit(acts, i, r), Total(At(acts, last.value), acts[last.value].pipeline));
    }
  }

  /** A run that has ended is given a node if and only if it had none at its end, and has been given none since. */
  lemma AcquiredAfterItsEnd(acts: seq<Action>, i: nat, k: nat, r: RunId)
    requires i < k < |acts| && Ends(acts, i, r) && NotReinserted(acts, i + 1, k + 1, r) && r in At(acts, k).runs
    requires acts[k].Acquire? && acts[k].run == r
    ensures Acquires(acts, k, r) <==>
      At(acts, i + 1).runs[r].node.None? && forall l :: i < l < k ==> !Acquires(acts, l, r)
  {
    AtNext(acts, k);
    NodelessUntil(acts, i + 1, k, r);
  }

  lemma {:induction false} NodelessUntil(acts: seq<Action>, i: nat, k: nat, r: RunId)
    requires i <= k <= |acts| && NotReinserted(acts, i, k, r) && r in At(acts, i).runs && r in At(acts, k).runs
    ensures At(acts, k).runs[r].node.None? <==>
      At(acts, i).runs[r].node.None? && forall l :: i <= l < k ==> !Acquires(acts, l, r)
    decreases k
  {
    if i < k {
      AtNext(acts, k - 1);
      assert !Inserts(acts, k - 1, r);
      if r !in At(acts, k - 1).runs { RowsComeFromInserts(At(acts, k - 1), acts[k - 1], r); assert false; }
      NodelessUntil(acts, i, k - 1, r);
      RowKept(At(acts, k - 1), acts[k - 1], r);
      assert At(acts, k - 1).runs[r].node.None? ==>
        (Acquires(acts, k - 1, r) <==> At(acts, k).runs[r].node.Some?);
    }
  }

  // ---- A history that shows both ---------------------------------------------------------------------

  function Ones(): Increment { seq(COUNTERS, _ => 1) }

  /** A run is created and its organization is disabled before any node acquires the run; a node
      then acquires the ended run and prepares it. */
  function DisabledBeforeAcquired(): seq<Action> {
    [CreateOrganization(1), CreatePipeline(2, 1, true, false, Healthy), StoreMetrics(2, Ones()),
     CheckCreate(3, 2, None), InsertRun(3, 4, 5), SetStatus(1, false, 6), Acquire(4, 7, 8), Prepare(4, 2)]
  }

  lemma ExecSnoc(acts: seq<Action>, a: Action)
    ensures Exec(acts + [a]) == Apply(Exec(acts), a)
  {
    assert (acts + [a])[..|acts|] == acts;
  }

  /** The store after the first four actions of `DisabledBeforeAcquired`. */
  function Checked(): Store {
    Store(map[1 := true], map[2 := Pipeline(1, true, false, ZERO_TIME, Healthy)], map[], map[2 := Ones()],
          map[2 := []], map[3 := Creation(2, false, ZERO_TIME)])
  }

  lemma CheckedIsReached()
    ensures Exec(DisabledBeforeAcquired()[..4]) == Checked()
  {
    var h := DisabledBeforeAcquired();
    assert h[..1] == [] + [h[0]] && h[..2] == h[..1] + [h[1]] && h[..3] == h[..2] + [h[2]] && h[..4] == h[..3] + [h[3]];
    ExecSnoc([], h[0]);
    ExecSnoc(h[..1], h[1]);
    ExecSnoc(h[..2], h[2]);
    ExecSnoc(h[..3], h[3]);
    assert Plus(Zero(), Ones()) == Ones();
    var s3 := Exec(h[..3]);
    assert s3.metrics == map[2 := Ones()];
    assert s3.pipelines == map[2 := Pipeline(1, true, false, ZERO_TIME, Healthy)];
    assert s3.organizations == map[1 := true];
  }

  /** The store once the run is inserted. */
  function Inserted(): Store {
    Checked().(runs := map[4 := Run(2, None, false, ZERO_TIME, 5, None, Zero(), "")], creating := map[])
  }

  lemma InsertedIsReached()
    ensures Apply(Checked(), InsertRun(3, 4, 5)) == Inserted()
  {
    assert LiveRuns(Checked(), 2) == {};
    assert Checked().creating - {3} == map[];
  }

  lemma DisablingEndsTheRun()
    ensures var s := Apply(Inserted(), SetStatus(1, false, 6));
            && s.runs == map[4 := Run(2, None, false, ZERO_TIME, 5, Some(6), Ones(), DISABLED_MESSAGE)]
            && Total(s, 2) == Ones()
  {
    assert Plus(Zero(), Ones()) == Ones();
  }

  /** The run never counted anything, yet it ends with a credit of one, gets a node after its end,
      and is left with a credit of minus one. */
  lemma EndedRunIsAcquiredAndRebased()
    ensures var h := DisabledBeforeAcquired();
            && 4 in At(h, 6).runs && At(h, 6).runs[4].endTime == Some(6) && At(h, 6).runs[4].counters == Ones()
            && 4 in At(h, 7).runs && At(h, 7).runs[4].node == Some(7) && At(h, 7).runs[4].endTime == Some(6)
            && 4 in At(h, 8).runs && At(h, 8).runs[4].counters == Negated(Ones()) && At(h, 8).runs[4].endTime == Some(6)
  {
    CheckedIsReached();
    Rebasing(DisabledBeforeAcquired());
  }

  lemma Rebasing(h: seq<Action>)
    requires |h| == 8 && At(h, 4) == Checked() && h[4] == InsertRun(3, 4, 5) && h[5] == SetStatus(1, false, 6)
    requires h[6] == Acquire(4, 7, 8) && h[7] == Prepare(4, 2)
    ensures && 4 in At(h, 6).runs && At(h, 6).runs[4].endTime == Some(6) && At(h, 6).runs[4].counters == Ones()
            && 4 in At(h, 7).runs && At(h, 7).runs[4].node == Some(7) && At(h, 7).runs[4].endTime == Some(6)
            && 4 in At(h, 8).runs && At(h, 8).runs[4].counters == Negated(Ones()) && At(h, 8).runs[4].endTime == Some(6)
  {
    AtNext(h, 4);
    InsertedIsReached();
    AtNext(h, 5);
    DisablingEndsTheRun();
    AtNext(h, 6);
    AtNext(h, 7);
    RebasedFrom(At(h, 6));
  }

  lemma RebasedFrom(s: Store)
    requires s.runs == map[4 := Run(2, None, false, ZERO_TIME, 5, Some(6), Ones(), DISABLED_MESSAGE)] && Total(s, 2) == Ones()
    ensures var s' := Apply(s, Acquire(4, 7, 8));
            var s'' := Apply(s', Prepare(4, 2));
            && 4 in s'.runs && s'.runs[4].node == Some(7) && s'.runs[4].endTime == Some(6)
            && 4 in s''.runs && s''.runs[4].counters == Negated(Ones()) && s''.runs[4].endTime == Some(6)
  {
  }

  // ---- Live runs of disabled organizations -----------------------------------------------------------

  ghost predicate NoLiveRunInDisabled(s: Store) {
    forall r :: r in s.runs && Live(s.runs[r]) && s.runs[r].pipeline in s.pipelines ==>
      var o := s.pipelines[s.runs[r].pipeline].organization;
      o in s.organizations && s.organizations[o]
  }

  /** The action at `k` inserts a run although its organization is, by then, disabled: the creation
      was checked earlier, and neither statement locks the organization. */
  ghost predicate InsertsIntoDisabled(s: Store, a: Action) {
    && a.InsertRun? && CanInsert(s, a.tx, a.run)
    && var o := s.pipelines[s.creating[a.tx].pipeline].organization;
       !(o in s.organizations && s.organizations[o])
  }

  lemma DisabledStep(s: Store, a: Action)
    requires References(s) && NoLiveRunInDisabled(s)
    ensures NoLiveRunInDisabled(Apply(s, a)) <==> !InsertsIntoDisabled(s, a)
  {
    var s' := Apply(s, a);
    match a {
      case SetStatus(o, enabled, now) => StatusKeepsDisabledIdle(s, o, enabled, now);
      case InsertRun(tx, r, now) =>
        if CanInsert(s, tx, r) { assert r in s'.runs && Live(s'.runs[r]); }
      case _ =>
    }
  }

  lemma StatusKeepsDisabledIdle(s: Store, o: OrganizationId, enabled: bool, now: Time)
    requires References(s) && NoLiveRunInDisabled(s)
    ensures NoLiveRunInDisabled(Apply(s, SetStatus(o, enabled, now)))
  {
  }

  lemma {:induction false} IdleWithoutRaces(acts: seq<Action>, k: nat)
    requires k <= |acts| && forall l :: 0 <= l < k ==> !InsertsIntoDisabled(At(acts, l), acts[l])
    ensures NoLiveRunInDisabled(At(acts, k))
  {
    if k > 0 {
      IdleWithoutRaces(acts, k - 1);
      AtNext(acts, k - 1);
      ReachableInv(acts[..k - 1]);
      DisabledStep(At(acts, k - 1), acts[k - 1]);
    }
  }

  /** Along a whole history, no disabled organization ever has a live run if and only if no run is
      ever inserted after its organization was disabled behind the check. */
  lemma DisabledOrganizationsAreIdle(acts: seq<Action>)
    ensures (forall k :: 0 <= k <= |acts| ==> NoLiveRunInDisabled(At(acts, k))) <==>
            (forall k :: 0 <= k < |acts| ==> !InsertsIntoDisabled(At(acts, k), acts[k]))
  {
    if forall k :: 0 <= k <= |acts| ==> NoLiveRunInDisabled(At(acts, k)) {
      forall k: nat | k < |acts| ensures !InsertsIntoDisabled(At(acts, k), acts[k]) {
        assert NoLiveRunInDisabled(At(acts, k)) && NoLiveRunInDisabled(At(acts, k + 1));
        AtNext(acts, k);
        ReachableInv(acts[..k]);
        DisabledStep(At(acts, k), acts[k]);
      }
    }
    if forall k :: 0 <= k < |acts| ==> !InsertsIntoDisabled(At(acts, k), acts[k]) {
      forall k: nat | k <= |acts| ensures NoLiveRunInDisabled(At(acts, k)) { IdleWithoutRaces(acts, k); }
    }
  }

  /** The run is inserted after the disabling, and no statement ends it. */
  lemma LiveRunInDisabled()
    ensures
      var h := DisabledBeforeAcquired()[..4] + [SetStatus(1, false, 6), InsertRun(3, 4, 5)];
      !NoLiveRunInDisabled(At(h, 6))
  {
    var h := DisabledBeforeAcquired()[..4] + [SetStatus(1, false, 6), InsertRun(3, 4, 5)];
    assert h[..4] == DisabledBeforeAcquired()[..4];
    CheckedIsReached();
    AtNext(h, 4);
    AtNext(h, 5);
    InsertedIntoDisabled(Checked());
  }

  lemma InsertedIntoDisabled(s: Store)
    requires s == Checked()
    ensures !NoLiveRunInDisabled(Apply(Apply(s, SetStatus(1, false, 6)), InsertRun(3, 4, 5)))
  {
    var t := Apply(s, SetStatus(1, false, 6));
    assert t.runs == map[] && LiveRuns(t, 2) == {};
    assert 4 in Apply(t, InsertRun(3, 4, 5)).runs;
  }
}
