/** The rows behind pipeline runs, and every statement that reads or writes them
    (core/core.go, core/pipeline.go, core/organization.go, core/pipeline_cleaner.go).

    Each guarded SQL statement, or transaction that starts by locking the row it decides on,
    is one atomic `Action`. Actions carry no assumption about who issues them or when: a history
    is any sequence of actions, so it covers any number of nodes, the orphan cleaner, and nodes
    that keep acting on a run that was ended, or deleted, behind their back. */
module PipelineRuns {
  import opened Prelude

  type OrganizationId = nat
  type PipelineId = nat
  type RunId = nat
  type NodeId = nat
  type TxId = nat
  type Time = nat  // 0 is the zero time, '0001-01-01 00:00:00+00'

  const ZERO_TIME: Time := 0

  /** The eighteen counters of a metrics or run row: passed_0..passed_8, then failed_0..failed_8. */
  const COUNTERS := 18

  type Counters = c: seq<int> | |c| == COUNTERS witness seq(COUNTERS, _ => 0)

  function Zero(): Counters { seq(COUNTERS, _ => 0) }

  function Plus(a: Counters, b: Counters): Counters { seq(COUNTERS, i requires 0 <= i < COUNTERS => a[i] + b[i]) }

  function Negated(a: Counters): Counters { seq(COUNTERS, i requires 0 <= i < COUNTERS => -a[i]) }

  predicate AtMost(a: Counters, b: Counters) { forall i :: 0 <= i < COUNTERS ==> a[i] <= b[i] }

  predicate NonNegative(a: Counters) { forall i :: 0 <= i < COUNTERS ==> 0 <= a[i] }

  datatype Health = Healthy | NoRecentData | RecentError

  datatype Pipeline = Pipeline(
    organization: OrganizationId, enabled: bool, incremental: bool, cursor: Time, health: Health)

  datatype Run = Run(
    pipeline: PipelineId, node: Option<NodeId>, incremental: bool, cursor: Time,
    pingTime: Time, endTime: Option<Time>, counters: Counters, error: string)

  datatype ErrorRow = ErrorRow(at: Time, step: nat, message: string)

  /** What a transaction that is creating a run has read, before it inserts the run. */
  datatype Creation = Creation(pipeline: PipelineId, incremental: bool, cursor: Time)

  /** Why a run ends. A failure may carry the empty message. */
  datatype Reason = Normal | Failed(step: nat, message: string)

  const RECEIVE_STEP: nat := 0
  const DISABLED_MESSAGE := "organization has been disabled"

  function Message(reason: Reason): string { if reason.Normal? then "" else reason.message }

  datatype Store = Store(
    organizations: map<OrganizationId, bool>,
    pipelines: map<PipelineId, Pipeline>,
    runs: map<RunId, Run>,
    metrics: map<PipelineId, Counters>,            // per-pipeline totals of pipelines_metrics
    errors: map<PipelineId, seq<ErrorRow>>,        // pipelines_errors rows written when runs end
    creating: map<TxId, Creation>)

  const EMPTY := Store(map[], map[], map[], map[], map[], map[])

  type Increment = c: Counters | NonNegative(c) witness Zero()

  datatype Action =
    | CreateOrganization(organization: OrganizationId)
    | CreatePipeline(pipeline: PipelineId, organization: OrganizationId, enabled: bool, incremental: bool, health: Health)
    | UpdatePipeline(pipeline: PipelineId, enabled: bool, incremental: bool, resetCursor: bool)
    | DeletePipeline(pipeline: PipelineId)
    | SetStatus(organization: OrganizationId, enabled: bool, now: Time)
    | StoreMetrics(pipeline: PipelineId, increment: Increment)
    | CheckCreate(tx: TxId, pipeline: PipelineId, requested: Option<bool>)
    | InsertRun(tx: TxId, run: RunId, now: Time)
    | Acquire(run: RunId, node: NodeId, now: Time)
    | Ping(run: RunId, now: Time)
    | Prepare(run: RunId, pipeline: PipelineId)
    | SaveCursor(run: RunId, cursor: Time)
    | EndRun(run: RunId, pipeline: PipelineId, reason: Reason, now: Time)

  predicate Live(run: Run) { run.endTime.None? }

  function LiveRuns(s: Store, p: PipelineId): set<RunId> {
    set r | r in s.runs && Live(s.runs[r]) && s.runs[r].pipeline == p
  }

  predicate HasLiveRun(s: Store, p: PipelineId) { LiveRuns(s, p) != {} }

  function Total(s: Store, p: PipelineId): Counters {
    if p in s.metrics then s.metrics[p] else Zero()
  }

  function Ended(run: Run, total: Counters, now: Time, message: string): Run {
    run.(endTime := Some(now), counters := Plus(run.counters, total), error := message)
  }

  /** Whether pipeline `p` belongs to organization `o`. */
  predicate Owns(s: Store, o: OrganizationId, p: PipelineId) {
    p in s.pipelines && s.pipelines[p].organization == o
  }

  // ---- The statements -------------------------------------------------------------------------

  /** The bulk query that ends the live runs of an organization. */
  function EndOrganizationRuns(s: Store, o: OrganizationId, now: Time): Store {
    var row := ErrorRow(now, RECEIVE_STEP, DISABLED_MESSAGE);
    s.(runs := map r | r in s.runs ::
         if Live(s.runs[r]) && Owns(s, o, s.runs[r].pipeline)
         then Ended(s.runs[r], Total(s, s.runs[r].pipeline), now, DISABLED_MESSAGE)
         else s.runs[r],
       pipelines := map p | p in s.pipelines ::
         if Owns(s, o, p) && HasLiveRun(s, p) then s.pipelines[p].(health := Healthy) else s.pipelines[p],
       errors := map p | p in s.errors ::
         if Owns(s, o, p) && HasLiveRun(s, p) then s.errors[p] + [row] else s.errors[p])
  }

  /** The end-of-run transaction, once its first update found the live row. */
  function EndLiveRun(s: Store, r: RunId, p: PipelineId, reason: Reason, now: Time): Store
    requires r in s.runs
  {
    var run := s.runs[r];
    var errors :=
      if Message(reason) != "" && p in s.errors
      then s.errors[p := s.errors[p] + [ErrorRow(now, if reason.Failed? then reason.step else RECEIVE_STEP, Message(reason))]]
      else s.errors;
    var pipelines :=
      if p !in s.pipelines then s.pipelines
      else if reason.Normal? then s.pipelines[p := s.pipelines[p].(cursor := run.cursor, health := Healthy)]
      else s.pipelines[p := s.pipelines[p].(health := Healthy)];
    s.(runs := s.runs[r := Ended(run, Total(s, p), now, Message(reason))], errors := errors, pipelines := pipelines)
  }

  predicate CanCheckCreate(s: Store, p: PipelineId) {
    && p in s.pipelines
    && s.pipelines[p].organization in s.organizations
    && s.organizations[s.pipelines[p].organization]
    && s.pipelines[p].enabled
  }

  /** The insertion succeeds: foreign key, one-live-run index and primary key all hold. */
  predicate CanInsert(s: Store, tx: TxId, r: RunId) {
    tx in s.creating && s.creating[tx].pipeline in s.pipelines &&
    !HasLiveRun(s, s.creating[tx].pipeline) && r !in s.runs
  }

  predicate CanEnd(s: Store, r: RunId, p: PipelineId) {
    r in s.runs && s.runs[r].pipeline == p && Live(s.runs[r])
  }

  /** The effect of one action. An action whose guard matches no row changes nothing. */
  function Apply(s: Store, a: Action): Store {
    match a
    case CreateOrganization(o) =>
      if o in s.organizations then s else s.(organizations := s.organizations[o := true])
    case CreatePipeline(p, o, enabled, incremental, health) =>
      if p in s.pipelines || o !in s.organizations then s
      else s.(pipelines := s.pipelines[p := Pipeline(o, enabled, incremental, ZERO_TIME, health)], errors := s.errors[p := []])
    case UpdatePipeline(p, enabled, incremental, reset) =>
      if p !in s.pipelines then s
      else
        var row := s.pipelines[p].(enabled := enabled, incremental := incremental);
        s.(pipelines := s.pipelines[p := if reset then row.(cursor := ZERO_TIME) else row])
    case DeletePipeline(p) =>
      s.(pipelines := s.pipelines - {p}, errors := s.errors - {p},
         runs := map r | r in s.runs && s.runs[r].pipeline != p :: s.runs[r])
    case SetStatus(o, enabled, now) =>
      if o !in s.organizations || s.organizations[o] == enabled then s
      else
        var s' := s.(organizations := s.organizations[o := enabled]);
        if enabled then s' else EndOrganizationRuns(s', o, now)
    case StoreMetrics(p, increment) =>
      s.(metrics := s.metrics[p := Plus(Total(s, p), increment)])
    case CheckCreate(tx, p, requested) =>
      if tx in s.creating || !CanCheckCreate(s, p) then s
      else
        var incremental := if requested.Some? then requested.value else s.pipelines[p].incremental;
        s.(creating := s.creating[tx := Creation(p, incremental, if incremental then s.pipelines[p].cursor else ZERO_TIME)])
    case InsertRun(tx, r, now) =>
      if !CanInsert(s, tx, r) then s
      else
        var c := s.creating[tx];
        s.(runs := s.runs[r := Run(c.pipeline, None, c.incremental, c.cursor, now, None, Zero(), "")],
           creating := s.creating - {tx})
    case Acquire(r, n, now) =>
      if r in s.runs && s.runs[r].node.None?
      then s.(runs := s.runs[r := s.runs[r].(node := Some(n), pingTime := now)])
      else s
    case Ping(r, now) =>
      if r in s.runs then s.(runs := s.runs[r := s.runs[r].(pingTime := now)]) else s
    case Prepare(r, p) =>
      if r in s.runs then s.(runs := s.runs[r := s.runs[r].(counters := Negated(Total(s, p)))]) else s
    case SaveCursor(r, c) =>
      if r in s.runs then s.(runs := s.runs[r := s.runs[r].(cursor := c)]) else s
    case EndRun(r, p, reason, now) =>
      if CanEnd(s, r, p) then EndLiveRun(s, r, p, reason, now) else s
  }

  // ---- What every reachable store satisfies -----------------------------------------------------

  /** The ended runs of `p` that failed with a message. */
  function FailedRuns(s: Store, p: PipelineId): set<RunId> {
    set r | r in s.runs && s.runs[r].pipeline == p && s.runs[r].error != ""
  }

  ghost predicate OneLiveRun(s: Store) {
    forall r, r' ::
      && r in s.runs && Live(s.runs[r])
      && r' in s.runs && Live(s.runs[r'])
      && s.runs[r].pipeline == s.runs[r'].pipeline
      ==> r == r'
  }

  /** Runs point at existing pipelines, every pipeline has its error list, live runs carry no error. */
  ghost predicate References(s: Store) {
    && (forall r :: r in s.runs ==> s.runs[r].pipeline in s.pipelines && (Live(s.runs[r]) ==> s.runs[r].error == ""))
    && s.errors.Keys == s.pipelines.Keys
  }

  ghost predicate MetricsGrow(s: Store) {
    forall p :: p in s.metrics ==> NonNegative(s.metrics[p])
  }

  /** One error row per failed run, no more and no fewer, whoever ended the run. */
  ghost predicate ErrorsMatchRuns(s: Store) {
    forall p :: p in s.errors ==> |s.errors[p]| == |FailedRuns(s, p)|
  }

  ghost predicate Inv(s: Store) { References(s) && OneLiveRun(s) && ErrorsMatchRuns(s) && MetricsGrow(s) }

  lemma ReferencesKeptByDisabling(s: Store, o: OrganizationId, enabled: bool, now: Time)
    requires References(s)
    ensures References(Apply(s, SetStatus(o, enabled, now)))
  {
  }

  lemma ReferencesKeptByEnd(s: Store, r: RunId, p: PipelineId, reason: Reason, now: Time)
    requires References(s)
    ensures References(Apply(s, EndRun(r, p, reason, now)))
  {
  }

  lemma ReferencesKept(s: Store, a: Action)
    requires References(s)
    ensures References(Apply(s, a))
  {
    match a {
      case SetStatus(o, enabled, now) => ReferencesKeptByDisabling(s, o, enabled, now);
      case EndRun(r, p, reason, now) => ReferencesKeptByEnd(s, r, p, reason, now);
      case _ =>
    }
  }

  lemma MetricsGrowKept(s: Store, a: Action)
    requires MetricsGrow(s)
    ensures MetricsGrow(Apply(s, a))
  {
  }

  lemma OneLiveRunKept(s: Store, a: Action)
    requires OneLiveRun(s)
    ensures OneLiveRun(Apply(s, a))
  {
    if a.InsertRun? && CanInsert(s, a.tx, a.run) {
      var p := s.creating[a.tx].pipeline;
      assert forall r :: r in s.runs && Live(s.runs[r]) && s.runs[r].pipeline == p ==> r in LiveRuns(s, p);
    }
  }

  lemma AtMostOneLive(s: Store, p: PipelineId)
    requires OneLiveRun(s)
    ensures HasLiveRun(s, p) ==> |LiveRuns(s, p)| == 1
  {
    if HasLiveRun(s, p) {
      var r :| r in LiveRuns(s, p);
      assert LiveRuns(s, p) == {r};
    }
  }

  lemma FailedRunsAfterDisabling(s: Store, o: OrganizationId, now: Time, p: PipelineId)
    requires References(s)
    ensures FailedRuns(EndOrganizationRuns(s, o, now), p) == FailedRuns(s, p) + (if Owns(s, o, p) then LiveRuns(s, p) else {})
    ensures FailedRuns(s, p) !! LiveRuns(s, p)
  {
    assert DISABLED_MESSAGE[0] == 'o';
    var s' := EndOrganizationRuns(s, o, now);
    forall r | r in s.runs && s.runs[r].pipeline == p
      ensures r in FailedRuns(s', p) <==> r in FailedRuns(s, p) || (Owns(s, o, p) && Live(s.runs[r]))
    {
    }
  }

  lemma ErrorsKeptByDisabling(s: Store, o: OrganizationId, now: Time, p: PipelineId)
    requires References(s) && OneLiveRun(s) && p in s.errors && |s.errors[p]| == |FailedRuns(s, p)|
    ensures var s' := EndOrganizationRuns(s, o, now);
            p in s'.errors && |s'.errors[p]| == |FailedRuns(s', p)|
  {
    FailedRunsAfterDisabling(s, o, now, p);
    AtMostOneLive(s, p);
  }

  lemma ErrorsKeptByEnd(s: Store, r: RunId, p: PipelineId, reason: Reason, now: Time, q: PipelineId)
    requires References(s) && ErrorsMatchRuns(s) && CanEnd(s, r, p) && q in s.errors
    ensures var s' := EndLiveRun(s, r, p, reason, now);
            q in s'.errors && |s'.errors[q]| == |FailedRuns(s', q)|
  {
    var s' := EndLiveRun(s, r, p, reason, now);
    if p == q && Message(reason) != "" {
      assert FailedRuns(s', q) == FailedRuns(s, q) + {r};
    } else {
      assert FailedRuns(s', q) == FailedRuns(s, q);
    }
  }

  lemma ErrorsKeptByStatus(s: Store, o: OrganizationId, enabled: bool, now: Time, p: PipelineId)
    requires References(s) && OneLiveRun(s) && p in s.errors && |s.errors[p]| == |FailedRuns(s, p)|
    ensures var s' := Apply(s, SetStatus(o, enabled, now));
            p in s'.errors && |s'.errors[p]| == |FailedRuns(s', p)|
  {
    if o in s.organizations && s.organizations[o] != enabled {
      var s1 := s.(organizations := s.organizations[o := enabled]);
      assert FailedRuns(s1, p) == FailedRuns(s, p);
      if !enabled { ErrorsKeptByDisabling(s1, o, now, p); }
    }
  }

  lemma FailedRunsUntouched(s: Store, a: Action, p: PipelineId)
    requires References(s) && !a.SetStatus? && !a.EndRun?
    requires p in Apply(s, a).errors && p in s.errors
    ensures FailedRuns(Apply(s, a), p) == FailedRuns(s, p) && Apply(s, a).errors[p] == s.errors[p]
  {
    var s' := Apply(s, a);
    assert forall r :: r in FailedRuns(s', p) <==> r in FailedRuns(s, p);
  }

  lemma ErrorsMatchRunsKept(s: Store, a: Action)
    requires References(s) && OneLiveRun(s) && ErrorsMatchRuns(s)
    ensures ErrorsMatchRuns(Apply(s, a))
  {
    var s' := Apply(s, a);
    forall p | p in s'.errors ensures |s'.errors[p]| == |FailedRuns(s', p)| {
      if p !in s.errors {
        assert FailedRuns(s', p) == {};
      } else if a.SetStatus? {
        ErrorsKeptByStatus(s, a.organization, a.enabled, a.now, p);
      } else if a.EndRun? {
        if CanEnd(s, a.run, a.pipeline) { ErrorsKeptByEnd(s, a.run, a.pipeline, a.reason, a.now, p); }
      } else {
        FailedRunsUntouched(s, a, p);
      }
    }
  }

  lemma InvKept(s: Store, a: Action)
    requires Inv(s)
    ensures Inv(Apply(s, a))
  {
    ReferencesKept(s, a);
    MetricsGrowKept(s, a);
    OneLiveRunKept(s, a);
    ErrorsMatchRunsKept(s, a);
  }
}
