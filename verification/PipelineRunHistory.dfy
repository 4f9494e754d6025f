/** Theorems about every history of the run protocol: any interleaving, of any length, of the
    actions of any number of nodes, the cleaner, the metrics writer and the administrators. */
module PipelineRunHistory {
  import opened Prelude
  import opened PipelineRuns

  /** The store a history leads to, from the empty one. */
  function Exec(acts: seq<Action>): Store {
    if acts == [] then EMPTY else Apply(Exec(acts[..|acts| - 1]), acts[|acts| - 1])
  }

  /** The store before the action at `k`. */
  function At(acts: seq<Action>, k: nat): Store
    requires k <= |acts|
  {
    Exec(acts[..k])
  }

  lemma AtNext(acts: seq<Action>, k: nat)
    requires k < |acts|
    ensures At(acts, k + 1) == Apply(At(acts, k), acts[k])
  {
    assert acts[..k + 1][..k] == acts[..k];
  }

  /** At most one live run per pipeline, one error row per failed run, and no dangling row. */
  lemma {:induction false} ReachableInv(acts: seq<Action>)
    ensures Inv(Exec(acts))
  {
    if acts == [] {
    } else {
      ReachableInv(acts[..|acts| - 1]);
      InvKept(Exec(acts[..|acts| - 1]), acts[|acts| - 1]);
    }
  }

  /** Over every interleaving: a pipeline has at most one live run, and an error row for each of its runs that
      ended with an error, neither more nor fewer. */
  lemma OneLiveRunAndItsErrors(acts: seq<Action>, p: PipelineId)
    requires p in Exec(acts).pipelines
    ensures
      var s := Exec(acts);
      && |LiveRuns(s, p)| <= 1
      && p in s.errors && |s.errors[p]| == |FailedRuns(s, p)|
  {
    ReachableInv(acts);
    AtMostOneLive(Exec(acts), p);
  }

  // ---- Who wins what ----------------------------------------------------------------------------

  ghost predicate Inserts(acts: seq<Action>, k: nat, r: RunId)
    requires k < |acts|
  {
    acts[k].InsertRun? && acts[k].run == r && CanInsert(At(acts, k), acts[k].tx, r)
  }

  /** The action at `k` gives run `r` a node. */
  ghost predicate Acquires(acts: seq<Action>, k: nat, r: RunId)
    requires k < |acts|
  {
    && r in At(acts, k).runs && At(acts, k).runs[r].node.None?
    && r in At(acts, k + 1).runs && At(acts, k + 1).runs[r].node.Some?
  }

  /** The action at `k` turns run `r` from live to ended. */
  ghost predicate Ends(acts: seq<Action>, k: nat, r: RunId)
    requires k < |acts|
  {
    && r in At(acts, k).runs && Live(At(acts, k).runs[r])
    && r in At(acts, k + 1).runs && !Live(At(acts, k + 1).runs[r])
  }

  ghost predicate Prepares(acts: seq<Action>, k: nat, r: RunId)
    requires k < |acts|
  {
    acts[k].Prepare? && acts[k].run == r && r in At(acts, k).runs
  }

  /** What no action can do to a row that stays in the table. */
  lemma RowKept(s: Store, a: Action, r: RunId)
    requires r in s.runs && r in Apply(s, a).runs
    ensures var before, after := s.runs[r], Apply(s, a).runs[r];
            && after.pipeline == before.pipeline
            && (before.node.Some? ==> after.node == before.node)
            && (!Live(before) ==> after.endTime == before.endTime && after.error == before.error)
  {
  }

  lemma RowsComeFromInserts(s: Store, a: Action, r: RunId)
    requires r !in s.runs && r in Apply(s, a).runs
    ensures a.InsertRun? && a.run == r && CanInsert(s, a.tx, r)
    ensures Live(Apply(s, a).runs[r]) && Apply(s, a).runs[r].node.None?
  {
  }

  ghost predicate NotReinserted(acts: seq<Action>, i: nat, j: nat, r: RunId)
    requires i <= j <= |acts|
  {
    forall k :: i <= k < j ==> !Inserts(acts, k, r)
  }

  /** A row that is not re-inserted keeps its pipeline, its node and its end. */
  lemma {:induction false} RowPersists(acts: seq<Action>, i: nat, j: nat, r: RunId)
    requires i <= j <= |acts| && r in At(acts, i).runs && r in At(acts, j).runs
    requires NotReinserted(acts, i, j, r)
    ensures var before, after := At(acts, i).runs[r], At(acts, j).runs[r];
            && after.pipeline == before.pipeline
            && (before.node.Some? ==> after.node == before.node)
            && (!Live(before) ==> after.endTime == before.endTime && after.error == before.error)
    decreases j
  {
    if i < j {
      AtNext(acts, j - 1);
      assert !Inserts(acts, j - 1, r);
      if r !in At(acts, j - 1).runs {
        RowsComeFromInserts(At(acts, j - 1), acts[j - 1], r);
        assert false;
      }
      RowPersists(acts, i, j - 1, r);
      RowKept(At(acts, j - 1), acts[j - 1], r);
    }
  }

  /** A run is acquired at most once in the life of its row, so by at most one node. */
  lemma AcquiredAtMostOnce(acts: seq<Action>, i: nat, j: nat, r: RunId)
    requires i < j < |acts| && Acquires(acts, i, r) && Acquires(acts, j, r)
    ensures exists k :: i < k < j && Inserts(acts, k, r)
  {
    if NotReinserted(acts, i + 1, j, r) {
      RowPersists(acts, i + 1, j, r);
    }
  }

  /** A run is ended at most once in the life of its row, whether by its node, the cleaner or a disabling. */
  lemma EndedAtMostOnce(acts: seq<Action>, i: nat, j: nat, r: RunId)
    requires i < j < |acts| && Ends(acts, i, r) && Ends(acts, j, r)
    ensures exists k :: i < k < j && Inserts(acts, k, r)
  {
    if NotReinserted(acts, i + 1, j, r) {
      RowPersists(acts, i + 1, j, r);
    }
  }

  // ---- Effects come from the winner -----------------------------------------------------------

  /** The runs of `p` that the action turns from live to ended. */
  function EndedBy(s: Store, a: Action, p: PipelineId): set<RunId> {
    set r | r in LiveRuns(s, p) && r in Apply(s, a).runs && !Live(Apply(s, a).runs[r])
  }

  lemma EndsAtMostOne(s: Store, a: Action, p: PipelineId)
    requires OneLiveRun(s)
    ensures |EndedBy(s, a, p)| <= 1
  {
    AtMostOneLive(s, p);
    if HasLiveRun(s, p) {
      var r :| r in LiveRuns(s, p);
      assert LiveRuns(s, p) == {r};
      assert EndedBy(s, a, p) == {r} || EndedBy(s, a, p) == {};
    } else {
      assert EndedBy(s, a, p) == {};
    }
  }

  lemma OnlyEndsEnd(s: Store, a: Action, p: PipelineId)
    requires !a.EndRun? && !a.SetStatus?
    ensures EndedBy(s, a, p) == {}
  {
  }

  lemma DisablingEnds(s: Store, a: Action, p: PipelineId)
    requires a.SetStatus? && References(s) && p in s.pipelines
    ensures EndedBy(s, a, p) ==
      if a.organization in s.organizations && s.organizations[a.organization] && !a.enabled && Owns(s, a.organization, p)
      then LiveRuns(s, p) else {}
  {
  }

  lemma EndRunEnds(s: Store, a: Action, p: PipelineId)
    requires a.EndRun? && References(s) && p in s.pipelines
    ensures EndedBy(s, a, p) == if CanEnd(s, a.run, p) && a.pipeline == p then {a.run} else {}
  {
    var s' := Apply(s, a);
    if CanEnd(s, a.run, p) && a.pipeline == p {
      assert a.run in EndedBy(s, a, p);
    }
  }

  /** The row added to the errors of a pipeline describes the ended run. */
  ghost predicate Describes(before: seq<ErrorRow>, after: seq<ErrorRow>, run: Run) {
    if run.error == "" then after == before
    else exists step :: run.endTime.Some? && after == before + [ErrorRow(run.endTime.value, step, run.error)]
  }

  /** For any action whatsoever and any pipeline that survives it: the action ends at most one of
      the pipeline's runs; an error row is added exactly when it ends one with a message, and the
      row holds that run's end time and error; the health moves only when it ends one, to Healthy. */
  lemma EffectsComeFromTheWinner(s: Store, a: Action, p: PipelineId)
    requires Inv(s) && p in s.pipelines && p in Apply(s, a).pipelines
    ensures var s' := Apply(s, a);
            var ended := EndedBy(s, a, p);
            && |ended| <= 1
            && (ended == {} ==> s'.errors[p] == s.errors[p] && s'.pipelines[p].health == s.pipelines[p].health)
            && (forall r :: r in ended ==>
                  s'.pipelines[p].health == Healthy && Describes(s.errors[p], s'.errors[p], s'.runs[r]))
  {
    var s' := Apply(s, a);
    EndsAtMostOne(s, a, p);
    match a {
      case SetStatus(o, enabled, now) =>
        DisablingEnds(s, a, p);
        DisablingEffects(s, a, p);
      case EndRun(_, _, reason, now) =>
        EndRunEnds(s, a, p);
        EndRunEffects(s, a, p);
      case _ =>
        OnlyEndsEnd(s, a, p);
        OthersHaveNoEffects(s, a, p);
    }
  }

  lemma OthersHaveNoEffects(s: Store, a: Action, p: PipelineId)
    requires References(s) && p in s.pipelines && p in Apply(s, a).pipelines && !a.SetStatus? && !a.EndRun?
    ensures p in s.errors && p in Apply(s, a).errors && Apply(s, a).errors[p] == s.errors[p]
    ensures Apply(s, a).pipelines[p].health == s.pipelines[p].health
  {
  }

  lemma BulkEndEffects(s: Store, o: OrganizationId, now: Time, p: PipelineId)
    requires References(s) && p in s.pipelines
    ensures var s' := EndOrganizationRuns(s, o, now);
            && p in s'.pipelines && p in s'.errors
            && (if Owns(s, o, p) && HasLiveRun(s, p)
                then s'.errors[p] == s.errors[p] + [ErrorRow(now, RECEIVE_STEP, DISABLED_MESSAGE)] && s'.pipelines[p].health == Healthy
                else s'.errors[p] == s.errors[p] && s'.pipelines[p].health == s.pipelines[p].health)
            && (Owns(s, o, p) ==> forall r :: r in LiveRuns(s, p) ==>
                  r in s'.runs && s'.runs[r].endTime == Some(now) && s'.runs[r].error == DISABLED_MESSAGE)
  {
  }

  lemma DisablingEffects(s: Store, a: Action, p: PipelineId)
    requires References(s) && p in s.pipelines && a.SetStatus?
    ensures var s' := Apply(s, a);
            && p in s'.pipelines && p in s'.errors
            && (EndedBy(s, a, p) == {} ==> s'.errors[p] == s.errors[p] && s'.pipelines[p].health == s.pipelines[p].health)
            && (forall r :: r in EndedBy(s, a, p) ==>
                  s'.pipelines[p].health == Healthy && Describes(s.errors[p], s'.errors[p], s'.runs[r]))
  {
    DisablingEnds(s, a, p);
    assert DISABLED_MESSAGE[0] == 'o';
    if a.organization in s.organizations && s.organizations[a.organization] && !a.enabled {
      var s1 := s.(organizations := s.organizations[a.organization := a.enabled]);
      assert LiveRuns(s1, p) == LiveRuns(s, p);
      BulkEndEffects(s1, a.organization, a.now, p);
    }
  }

  lemma EndRunEffects(s: Store, a: Action, p: PipelineId)
    requires References(s) && p in s.pipelines && a.EndRun?
    ensures var s' := Apply(s, a);
            && p in s'.pipelines && p in s'.errors
            && (EndedBy(s, a, p) == {} ==> s'.errors[p] == s.errors[p] && s'.pipelines[p].health == s.pipelines[p].health)
            && (forall r :: r in EndedBy(s, a, p) ==>
                  s'.pipelines[p].health == Healthy && Describes(s.errors[p], s'.errors[p], s'.runs[r]))
  {
    EndRunEnds(s, a, p);
    var s' := Apply(s, a);
    if CanEnd(s, a.run, p) && a.pipeline == p && Message(a.reason) != "" {
      assert s'.errors[p] == s.errors[p] + [ErrorRow(a.now, a.reason.step, a.reason.message)];
    }
  }
}
