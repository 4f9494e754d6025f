/** The statements of the run protocol as they are issued: each method updates the tables row by row
    and is proved to have the effect that the histories of `PipelineRunHistory` are made of. */
module PipelineRunStore {
  import opened Prelude
  import opened PipelineRuns

  /** How one attempt at a transaction can go, seen from the node that issues it. */
  datatype Attempt = Acknowledged | CommittedUnacknowledged | RolledBack

  datatype CreateError = PipelineNotFound | OrganizationDisabled | PipelineDisabled | PipelineAlreadyRunning | Interrupted

  datatype Created = Created(run: RunId) | NotCreated(error: CreateError)

  /** Ending a run twice is ending it once, even if the second attempt gives another reason or time. */
  lemma EndIsIdempotent(s: Store, r: RunId, p: PipelineId, reason: Reason, now: Time, reason': Reason, now': Time)
    ensures var s' := Apply(s, EndRun(r, p, reason, now));
            Apply(s', EndRun(r, p, reason', now')) == s'
  {
  }

  /** What an end leaves. A live run of the pipeline has its end, its message and the totals on top of what it held; then
      the pipeline has the error, if there is a message, is healthy again and, after a normal end, goes on from the
      cursor of the run. */
  lemma EndLeaves(s: Store, r: RunId, p: PipelineId, reason: Reason, now: Time)
    requires r in s.runs && s.runs[r].pipeline == p && s.runs[r].endTime.None?
    ensures
      var t := Apply(s, EndRun(r, p, reason, now));
      var message := if reason.Normal? then "" else reason.message;
      && t == s.(runs := t.runs, pipelines := t.pipelines, errors := t.errors)
      && r in t.runs && t.runs == s.runs[r := t.runs[r]]
      && t.runs[r] == s.runs[r].(endTime := Some(now), counters := t.runs[r].counters, error := message)
      && (forall i :: 0 <= i < COUNTERS ==>
            t.runs[r].counters[i] == s.runs[r].counters[i] + if p in s.metrics then s.metrics[p][i] else 0)
      && t.errors == (if message != "" && p in s.errors
                      then s.errors[p := s.errors[p] + [ErrorRow(now, reason.step, message)]] else s.errors)
      && t.pipelines == (if p !in s.pipelines then s.pipelines
                         else s.pipelines[p := s.pipelines[p].(
                           health := Healthy, cursor := if reason.Normal? then s.runs[r].cursor else s.pipelines[p].cursor)])
  {
  }

  /** It does so only once, and only to a live run of the pipeline. */
  lemma EndLeavesOthers(s: Store, r: RunId, p: PipelineId, reason: Reason, now: Time)
    ensures Apply(s, EndRun(r, p, reason, now)) == s <==> !(r in s.runs && s.runs[r].pipeline == p && s.runs[r].endTime.None?)
  {
    if r in s.runs && s.runs[r].pipeline == p && s.runs[r].endTime.None? { EndLeaves(s, r, p, reason, now); }
  }

  class RunStore {
    var organizations: map<OrganizationId, bool>
    var pipelines: map<PipelineId, Pipeline>
    var runs: map<RunId, Run>
    var metrics: map<PipelineId, Counters>
    var errors: map<PipelineId, seq<ErrorRow>>
    var creating: map<TxId, Creation>

    function Snapshot(): Store
      reads this
    {
      Store(organizations, pipelines, runs, metrics, errors, creating)
    }

    constructor ()
      ensures Snapshot() == EMPTY
    {
      organizations, pipelines, runs, metrics, errors, creating := map[], map[], map[], map[], map[], map[];
    }

    /** Claims a run for `node`; `won` is whether a row was affected. */
    method Acquire(r: RunId, node: NodeId, now: Time) returns (won: bool)
      modifies this
      ensures Snapshot() == Apply(old(Snapshot()), PipelineRuns.Acquire(r, node, now))
      ensures won <==> r in old(runs) && old(runs)[r].node.None?
      ensures runs == if won then old(runs)[r := old(runs)[r].(node := Some(node), pingTime := now)] else old(runs)
    {
      won := r in runs && runs[r].node == None;
      if won {
        runs := runs[r := runs[r].(node := Some(node), pingTime := now)];
      }
    }

    /** Sets the counters of a run to minus the totals of its pipeline. */
    method Prepare(r: RunId, p: PipelineId) returns (found: bool)
      modifies this
      ensures Snapshot() == Apply(old(Snapshot()), PipelineRuns.Prepare(r, p))
      ensures found <==> r in old(runs)
      ensures runs.Keys == old(runs).Keys && forall x :: x in runs && x != r ==> runs[x] == old(runs)[x]
      ensures found ==> runs[r] == old(runs)[r].(counters := runs[r].counters)
      ensures found ==> forall i :: 0 <= i < COUNTERS ==> runs[r].counters[i] == -(if p in metrics then metrics[p][i] else 0)
    {
      var total: Counters := if p in metrics then metrics[p] else Zero();
      found := r in runs;
      if found {
        runs := runs[r := runs[r].(counters := Negated(total))];
      }
    }

    /** The ping of the node that runs it, which does not look at the end either. */
    method Ping(r: RunId, now: Time)
      modifies this
      ensures Snapshot() == Apply(old(Snapshot()), Action.Ping(r, now))
      ensures runs == if r in old(runs) then old(runs)[r := old(runs)[r].(pingTime := now)] else old(runs)
    {
      if r in runs {
        runs := runs[r := runs[r].(pingTime := now)];
      }
    }

    method SaveCursor(r: RunId, cursor: Time)
      modifies this
      ensures Snapshot() == Apply(old(Snapshot()), PipelineRuns.SaveCursor(r, cursor))
      ensures runs == if r in old(runs) then old(runs)[r := old(runs)[r].(cursor := cursor)] else old(runs)
    {
      if r in runs {
        runs := runs[r := runs[r].(cursor := cursor)];
      }
    }

    /** One committed attempt at ending a run; `notify` is whether the end is announced to the nodes. What it
        does to the rows is stated by `EndLeaves`. */
    method EndOnce(r: RunId, p: PipelineId, reason: Reason, now: Time) returns (notify: bool)
      modifies this
      ensures Snapshot() == Apply(old(Snapshot()), EndRun(r, p, reason, now))
      ensures notify <==> CanEnd(old(Snapshot()), r, p) && p in old(pipelines)
    {
      ghost var after := Apply(Snapshot(), EndRun(r, p, reason, now));
      var message := Message(reason);
      var total: Counters := if p in metrics then metrics[p] else Zero();
      if !(r in runs && runs[r].pipeline == p && runs[r].endTime == None) {
        return false;
      }
      var run := runs[r];
      runs := runs[r := run.(endTime := Some(now), counters := Plus(run.counters, total), error := message)];
      if message != "" && p in errors {
        errors := errors[p := errors[p] + [ErrorRow(now, reason.step, message)]];
      }
      assert runs == after.runs && errors == after.errors;
      if p !in pipelines {
        return false;
      }
      if reason.Normal? {
        pipelines := pipelines[p := pipelines[p].(cursor := runs[r].cursor, health := Healthy)];
      } else {
        pipelines := pipelines[p := pipelines[p].(health := Healthy)];
      }
      return true;
    }

    /** The retry loop around the end of a run. Whatever attempts are lost, rolled back or repeated,
        the run has been ended exactly once if any attempt was committed, and not at all otherwise. */
    method EndLiveRun(r: RunId, p: PipelineId, reason: Reason, now: Time, attempts: seq<Attempt>)
      modifies this
      ensures Snapshot() ==
        if exists k :: 0 <= k < |attempts| && attempts[k] != RolledBack
        then Apply(old(Snapshot()), EndRun(r, p, reason, now))
        else old(Snapshot())
    {
      ghost var before := Snapshot();
      var k := 0;
      while k < |attempts|
        invariant 0 <= k <= |attempts|
        invariant (exists j :: 0 <= j < k && attempts[j] != RolledBack) ==> Snapshot() == Apply(before, EndRun(r, p, reason, now))
        invariant (forall j :: 0 <= j < k ==> attempts[j] == RolledBack) ==> Snapshot() == before
      {
        if attempts[k] != RolledBack {
          EndIsIdempotent(before, r, p, reason, now, reason, now);
          var _ := EndOnce(r, p, reason, now);
        }
        if attempts[k] == Acknowledged {
          return;
        }
        k := k + 1;
      }
    }

    /** Checks that a run may be created, and remembers what the insertion will need. */
    method CheckCreation(tx: TxId, p: PipelineId, requested: Option<bool>) returns (error: Option<CreateError>)
      requires tx !in creating
      modifies this
      ensures Snapshot() == Apply(old(Snapshot()), CheckCreate(tx, p, requested))
      ensures error.None? <==> CanCheckCreate(old(Snapshot()), p)
      ensures error == Some(PipelineNotFound) <==> !(p in pipelines && pipelines[p].organization in organizations)
      ensures error == Some(OrganizationDisabled) <==>
        p in pipelines && pipelines[p].organization in organizations && !organizations[pipelines[p].organization]
      ensures error == Some(PipelineDisabled) <==>
        && p in pipelines && pipelines[p].organization in organizations && organizations[pipelines[p].organization]
        && !pipelines[p].enabled
      ensures error.None? || error.value in {PipelineNotFound, OrganizationDisabled, PipelineDisabled}
      ensures runs == old(runs) && pipelines == old(pipelines) && organizations == old(organizations)
      ensures metrics == old(metrics) && errors == old(errors)
      ensures creating ==
        if error.Some? then old(creating)
        else
          var row := old(pipelines)[p];
          var incremental := (requested.Some? && requested.value) || (requested.None? && row.incremental);
          old(creating)[tx := Creation(p, incremental, if !incremental then 0 else row.cursor)]
    {
      if p !in pipelines || pipelines[p].organization !in organizations {
        return Some(PipelineNotFound);
      }
      var row := pipelines[p];
      if !organizations[row.organization] {
        return Some(OrganizationDisabled);
      }
      if !row.enabled {
        return Some(PipelineDisabled);
      }
      var incremental := if requested.None? then row.incremental else requested.value;
      var cursor := if incremental then row.cursor else ZERO_TIME;
      creating := creating[tx := Creation(p, incremental, cursor)];
      return None;
    }

    /** Creates a run: a new identifier is drawn until one is free. `ids` are the identifiers drawn. The run is
        incremental if that is requested or, without a request, if its pipeline is; then it goes on from the cursor of
        the pipeline, and otherwise it starts at the zero time. */
    method CreateRun(tx: TxId, p: PipelineId, requested: Option<bool>, ids: seq<RunId>, now: Time) returns (result: Created)
      requires tx !in creating
      modifies this
      ensures result.NotCreated? ==> Snapshot() == old(Snapshot())
      ensures result.Created? ==>
        && result.run in ids && result.run !in old(runs)
        && Snapshot() == Apply(Apply(old(Snapshot()), CheckCreate(tx, p, requested)), InsertRun(tx, result.run, now))
        && pipelines == old(pipelines) && organizations == old(organizations) && metrics == old(metrics)
        && errors == old(errors) && creating == old(creating)
        && p in old(pipelines)
        && var row := old(pipelines)[p];
           var incremental := (requested.Some? && requested.value) || (requested.None? && row.incremental);
           runs == old(runs)[result.run := Run(p, None, incremental, if !incremental then 0 else row.cursor, now, None, Zero(), "")]
      ensures result.Created? ==> CanCheckCreate(old(Snapshot()), p) && !HasLiveRun(old(Snapshot()), p)
      ensures result == NotCreated(PipelineAlreadyRunning) ==> HasLiveRun(old(Snapshot()), p)
      ensures result == NotCreated(Interrupted) ==> forall k :: 0 <= k < |ids| ==> ids[k] in old(runs)
    {
      ghost var before := Snapshot();
      var k := 0;
      while k < |ids|
        invariant 0 <= k <= |ids|
        invariant Snapshot() == before
        invariant forall j :: 0 <= j < k ==> ids[j] in runs
      {
        var error := CheckCreation(tx, p, requested);
        if error.Some? {
          return NotCreated(error.value);
        }
        var c := creating[tx];
        creating := creating - {tx};
        assert creating == before.creating;
        if ids[k] !in runs {
          if HasLiveRun(Snapshot(), p) {
            return NotCreated(PipelineAlreadyRunning);
          }
          runs := runs[ids[k] := Run(p, None, c.incremental, c.cursor, now, None, Zero(), "")];
          assert creating == before.creating;
          return Created(ids[k]);
        }
        k := k + 1;
      }
      return NotCreated(Interrupted);
    }

    /** Enables or disables an organization; disabling ends its live runs in the same transaction, each with the message
        and the totals of its pipeline, which gets one error and is healthy again. */
    method SetStatus(o: OrganizationId, enabled: bool, now: Time) returns (changed: bool)
      modifies this
      ensures Snapshot() == Apply(old(Snapshot()), PipelineRuns.SetStatus(o, enabled, now))
      ensures changed <==> o in old(organizations) && old(organizations)[o] != enabled
      ensures organizations == if changed then old(organizations)[o := enabled] else old(organizations)
      ensures metrics == old(metrics) && creating == old(creating)
      ensures runs.Keys == old(runs).Keys && pipelines.Keys == old(pipelines).Keys && errors.Keys == old(errors).Keys
      ensures forall r :: r in old(runs) ==>
        var was, run := old(runs)[r], runs[r];
        if changed && !enabled && was.endTime.None? && was.pipeline in old(pipelines)
           && old(pipelines)[was.pipeline].organization == o
        then
          && run == was.(endTime := Some(now), counters := run.counters, error := DISABLED_MESSAGE)
          && forall i :: 0 <= i < COUNTERS ==>
               run.counters[i] == was.counters[i] + if was.pipeline in old(metrics) then old(metrics)[was.pipeline][i] else 0
        else run == was
      ensures forall p :: p in old(pipelines) ==>
        pipelines[p] == if changed && !enabled && old(pipelines)[p].organization == o && HasLiveRun(old(Snapshot()), p)
                        then old(pipelines)[p].(health := Healthy) else old(pipelines)[p]
      ensures forall p :: p in old(errors) ==>
        errors[p] == if changed && !enabled && p in old(pipelines) && old(pipelines)[p].organization == o
                        && HasLiveRun(old(Snapshot()), p)
                     then old(errors)[p] + [ErrorRow(now, RECEIVE_STEP, DISABLED_MESSAGE)] else old(errors)[p]
    {
      changed := o in organizations && organizations[o] != enabled;
      if !changed {
        return;
      }
      organizations := organizations[o := enabled];
      if !enabled {
        var after := EndOrganizationRuns(Snapshot(), o, now);
        runs, pipelines, errors := after.runs, after.pipelines, after.errors;
      }
    }

    /** Updates a pipeline, clearing its cursor when the update requires a reload. */
    method UpdatePipeline(p: PipelineId, enabled: bool, incremental: bool, resetCursor: bool) returns (found: bool)
      modifies this
      ensures Snapshot() == Apply(old(Snapshot()), PipelineRuns.UpdatePipeline(p, enabled, incremental, resetCursor))
      ensures found <==> p in old(pipelines)
      ensures pipelines ==
        if !found then old(pipelines)
        else old(pipelines)[p := old(pipelines)[p].(
          enabled := enabled, incremental := incremental, cursor := if resetCursor then 0 else old(pipelines)[p].cursor)]
    {
      found := p in pipelines;
      if found {
        pipelines := pipelines[p := pipelines[p].(enabled := enabled, incremental := incremental)];
        if resetCursor {
          pipelines := pipelines[p := pipelines[p].(cursor := ZERO_TIME)];
        }
      }
    }
  }
}
