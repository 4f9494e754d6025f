/** What the rows hold, traced to the statements that wrote it: the mode and the cursor of a new run, the status of an
    organization, and the settings of a pipeline (core/pipeline.go:905-919, core/pipeline.go:1079-1125,
    core/organization.go:1146-1187). */
module PipelineRunRows {
  import opened Prelude
  import opened PipelineRuns
  import opened PipelineRunHistory

  // ---- A new run -------------------------------------------------------------------------------------------------

  /** The transaction checks, at `j`, that a run of its pipeline may be created. */
  ghost predicate Checks(acts: seq<Action>, j: nat, tx: TxId) {
    && j < |acts| && acts[j].CheckCreate? && acts[j].tx == tx && tx !in At(acts, j).creating
    && CanCheckCreate(At(acts, j), acts[j].pipeline)
  }

  /** The creation that was checked at `j`: of the mode that is requested or else that of the pipeline; and if that is
      incremental it goes on from the cursor that the pipeline had then. */
  ghost predicate Chosen(acts: seq<Action>, j: nat, tx: TxId, c: Creation)
    requires Checks(acts, j, tx)
  {
    var row := At(acts, j).pipelines[acts[j].pipeline];
    && c.pipeline == acts[j].pipeline
    && (acts[j].requested == Some(true) ==> c.incremental)
    && (acts[j].requested == Some(false) ==> !c.incremental)
    && (acts[j].requested == None ==> c.incremental == row.incremental)
    && (c.incremental ==> c.cursor == row.cursor)
    && (!c.incremental ==> c.cursor == 0)
  }

  lemma CheckChooses(acts: seq<Action>, j: nat, tx: TxId)
    requires Checks(acts, j, tx)
    ensures tx in At(acts, j + 1).creating && Chosen(acts, j, tx, At(acts, j + 1).creating[tx])
  {
    AtNext(acts, j);
  }

  lemma CreatingStep(s: Store, a: Action, tx: TxId)
    requires tx in Apply(s, a).creating
    ensures
      || (tx in s.creating && Apply(s, a).creating[tx] == s.creating[tx])
      || (a.CheckCreate? && a.tx == tx && tx !in s.creating && CanCheckCreate(s, a.pipeline))
  {
  }

  lemma {:induction false} CreationWasChecked(acts: seq<Action>, k: nat, tx: TxId)
    requires k <= |acts| && tx in At(acts, k).creating
    ensures exists j :: 0 <= j < k && Checks(acts, j, tx) && Chosen(acts, j, tx, At(acts, k).creating[tx])
  {
    assert k > 0;
    AtNext(acts, k - 1);
    CreatingStep(At(acts, k - 1), acts[k - 1], tx);
    if Checks(acts, k - 1, tx) {
      CheckChooses(acts, k - 1, tx);
    } else {
      CreationWasChecked(acts, k - 1, tx);
    }
  }

  /** In every history an inserted run has the mode that was requested or else that of its pipeline at the check, and
      the cursor that the pipeline had then, or zero. */
  lemma InsertedRunHolds(acts: seq<Action>, k: nat, r: RunId)
    requires k < |acts| && acts[k].InsertRun? && acts[k].run == r && CanInsert(At(acts, k), acts[k].tx, r)
    ensures r in At(acts, k + 1).runs
    ensures
      var run := At(acts, k + 1).runs[r];
      && run == Run(run.pipeline, None, run.incremental, run.cursor, acts[k].now, None, Zero(), "")
      && exists j :: 0 <= j < k && Checks(acts, j, acts[k].tx)
                     && Chosen(acts, j, acts[k].tx, Creation(run.pipeline, run.incremental, run.cursor))
  {
    AtNext(acts, k);
    var c := At(acts, k).creating[acts[k].tx];
    CreationWasChecked(acts, k, acts[k].tx);
    assert c == Creation(c.pipeline, c.incremental, c.cursor);
  }

  // ---- Organizations and pipelines -----------------------------------------------------------------------------------

  /** The status that the statements leave an organization with; none if it was not created. */
  function StatusAfter(acts: seq<Action>, o: OrganizationId): Option<bool> {
    if acts == [] then None
    else
      var before := StatusAfter(acts[..|acts| - 1], o);
      match acts[|acts| - 1]
      case CreateOrganization(x) => if x == o && before.None? then Some(true) else before
      case SetStatus(x, enabled, _) => if x == o && before.Some? then Some(enabled) else before
      case _ => before
  }

  lemma {:induction false} StatusIsTheLast(acts: seq<Action>, o: OrganizationId)
    ensures o in Exec(acts).organizations <==> StatusAfter(acts, o).Some?
    ensures o in Exec(acts).organizations ==> Exec(acts).organizations[o] == StatusAfter(acts, o).value
  {
    if acts != [] {
      StatusIsTheLast(acts[..|acts| - 1], o);
      StatusStep(Exec(acts[..|acts| - 1]), acts[|acts| - 1], o);
    }
  }

  lemma StatusStep(s: Store, a: Action, o: OrganizationId)
    ensures
      var t := Apply(s, a);
      match a
      case CreateOrganization(x) =>
        if x == o then o in t.organizations && t.organizations[o] == (if o in s.organizations then s.organizations[o] else true)
        else t.organizations == s.organizations[x := if x in s.organizations then s.organizations[x] else true]
      case SetStatus(x, enabled, _) =>
        t.organizations == if x in s.organizations then s.organizations[x := enabled] else s.organizations
      case _ => t.organizations == s.organizations
  {
  }

  datatype Settings = Settings(organization: OrganizationId, enabled: bool, incremental: bool)

  /** The settings that the statements leave a pipeline with; none if it was not created, or was deleted. */
  function SettingsAfter(acts: seq<Action>, p: PipelineId): Option<Settings> {
    if acts == [] then None
    else
      var init := acts[..|acts| - 1];
      var before := SettingsAfter(init, p);
      match acts[|acts| - 1]
      case CreatePipeline(x, o, enabled, incremental, _) =>
        if x == p && before.None? && StatusAfter(init, o).Some? then Some(Settings(o, enabled, incremental)) else before
      case UpdatePipeline(x, enabled, incremental, _) =>
        if x == p && before.Some? then Some(Settings(before.value.organization, enabled, incremental)) else before
      case DeletePipeline(x) => if x == p then None else before
      case _ => before
  }

  function SettingsOf(s: Store, p: PipelineId): Option<Settings> {
    if p in s.pipelines
    then Some(Settings(s.pipelines[p].organization, s.pipelines[p].enabled, s.pipelines[p].incremental)) else None
  }

  lemma {:induction false} SettingsAreTheLast(acts: seq<Action>, p: PipelineId)
    ensures SettingsOf(Exec(acts), p) == SettingsAfter(acts, p)
  {
    if acts != [] {
      var init, a := acts[..|acts| - 1], acts[|acts| - 1];
      SettingsAreTheLast(init, p);
      if a.CreatePipeline? { StatusIsTheLast(init, a.organization); }
      SettingsStep(Exec(init), a, p);
    }
  }

  lemma SettingsStep(s: Store, a: Action, p: PipelineId)
    ensures
      var t := Apply(s, a);
      var before := SettingsOf(s, p);
      SettingsOf(t, p) ==
      match a
      case CreatePipeline(x, o, enabled, incremental, _) =>
        if x == p && before.None? && o in s.organizations then Some(Settings(o, enabled, incremental)) else before
      case UpdatePipeline(x, enabled, incremental, _) =>
        if x == p && before.Some? then Some(Settings(before.value.organization, enabled, incremental)) else before
      case DeletePipeline(x) => if x == p then None else before
      case _ => before
  {
  }

  /** A pipeline is created once, without a cursor or an error; a deletion takes it with its runs and errors. */
  lemma CreationAndDeletion(s: Store, p: PipelineId, o: OrganizationId, enabled: bool, incremental: bool, health: Health)
    ensures
      var t := Apply(s, CreatePipeline(p, o, enabled, incremental, health));
      if p !in s.pipelines && o in s.organizations then
        t == s.(pipelines := s.pipelines[p := PipelineRuns.Pipeline(o, enabled, incremental, 0, health)],
                errors := s.errors[p := []])
      else t == s
    ensures
      var t := Apply(s, DeletePipeline(p));
      && t == s.(pipelines := t.pipelines, errors := t.errors, runs := t.runs)
      && t.pipelines == s.pipelines - {p} && t.errors == s.errors - {p}
      && (forall r :: r in t.runs <==> r in s.runs && s.runs[r].pipeline != p)
      && (forall r :: r in t.runs ==> t.runs[r] == s.runs[r])
  {
  }
}
