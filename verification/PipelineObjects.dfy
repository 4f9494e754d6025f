/** The objects of pipelines, connections and workspaces in the memory of a node. A change replaces an object by a changed
    copy, and lets the objects that the state is made of refer to the copy; but a run is recorded in the object itself
    (core/internal/state/keep.go:203-292, core/internal/state/keep.go:1179-1190,
    core/internal/state/keep.go:1290-1311, core/internal/state/keep.go:1413-1493). */
module PipelineObjects {
  import opened Prelude
  import opened PipelineScheduler

  /** Where an object is, among all that were ever made. */
  type Ref = nat

  datatype PipelineObject = PipelineObject(id: string, enabled: bool, period: nat, running: bool, connection: Ref)

  datatype ConnectionObject = ConnectionObject(id: string, workspace: Ref)

  datatype WorkspaceObject = WorkspaceObject(id: string, normal: bool)

  /** All objects, and those that the state is made of. */
  datatype Objects = Objects(
    pipelines: seq<PipelineObject>,
    connections: seq<ConnectionObject>,
    workspaces: seq<WorkspaceObject>,
    pipeline: map<string, Ref>,
    connection: map<string, Ref>,
    workspace: map<string, Ref>)

  const NONE := Objects([], [], [], map[], map[], map[])

  predicate IsPipeline(o: Objects, r: Ref) {
    r < |o.pipelines| && o.pipelines[r].id in o.pipeline && o.pipeline[o.pipelines[r].id] == r
  }

  predicate IsConnection(o: Objects, c: Ref) {
    c < |o.connections| && o.connections[c].id in o.connection && o.connection[o.connections[c].id] == c
  }

  predicate IsWorkspace(o: Objects, x: Ref) {
    x < |o.workspaces| && o.workspaces[x].id in o.workspace && o.workspace[o.workspaces[x].id] == x
  }

  /** The state has the pipeline, as an object of that identifier. */
  predicate Has(o: Objects, id: string) {
    id in o.pipeline && o.pipeline[id] < |o.pipelines| && o.pipelines[o.pipeline[id]].id == id
  }

  predicate HasConnection(o: Objects, c: string) {
    c in o.connection && o.connection[c] < |o.connections| && o.connections[o.connection[c]].id == c
  }

  predicate HasWorkspace(o: Objects, x: string) {
    x in o.workspace && o.workspace[x] < |o.workspaces| && o.workspaces[o.workspace[x]].id == x
  }

  function Current(o: Objects, id: string): PipelineObject
    requires Has(o, id)
  {
    o.pipelines[o.pipeline[id]]
  }

  /** The mode of the warehouse as seen from a connection object. */
  predicate Normal(o: Objects, c: Ref) {
    c < |o.connections| && o.connections[c].workspace < |o.workspaces| && o.workspaces[o.connections[c].workspace].normal
  }

  /** The test of a tick. */
  predicate CanExecute(o: Objects, r: Ref) {
    && r < |o.pipelines| && o.pipelines[r].enabled && o.pipelines[r].period != 0
    && Normal(o, o.pipelines[r].connection) && !o.pipelines[r].running
  }

  // ---- Changes -----------------------------------------------------------------------------------------------------

  /** A new object, of a new pipeline or in place of another. */
  function PutPipeline(o: Objects, p: PipelineObject): Objects {
    o.(pipelines := o.pipelines + [p], pipeline := o.pipeline[p.id := |o.pipelines|])
  }

  function PutConnection(o: Objects, c: ConnectionObject): Objects {
    o.(connections := o.connections + [c], connection := o.connection[c.id := |o.connections|])
  }

  function PutWorkspace(o: Objects, x: WorkspaceObject): Objects {
    o.(workspaces := o.workspaces + [x], workspace := o.workspace[x.id := |o.workspaces|])
  }

  function ReplacePipeline(o: Objects, id: string, enabled: bool): Objects {
    if Has(o, id) then PutPipeline(o, Current(o, id).(enabled := enabled)) else o
  }

  function StartRun(o: Objects, id: string): Objects {
    if Has(o, id) then o.(pipelines := o.pipelines[o.pipeline[id] := Current(o, id).(running := true)]) else o
  }

  function EndRun(o: Objects, id: string): Objects {
    if Has(o, id) then PutPipeline(o, Current(o, id).(running := false)) else o
  }

  /** The runs of several pipelines end, each by a copy; there is room for the copies of those that are not running. */
  function EndRuns(o: Objects, ids: seq<string>): Objects {
    var copies := seq(|ids|, k requires 0 <= k < |ids| =>
      if Has(o, ids[k]) then Current(o, ids[k]).(running := false) else PipelineObject(ids[k], false, 0, false, 0));
    o.(pipelines := o.pipelines + copies,
       pipeline := map id | id in o.pipeline ::
         if id in ids && Has(o, id) && Current(o, id).running then |o.pipelines| + Position(ids, id) else o.pipeline[id])
  }

  /** The pipelines that the state has get the copy of their connection. */
  function ReplaceConnection(o: Objects, c: string): Objects {
    if !HasConnection(o, c) then o
    else
      var was := o.connection[c];
      var pipelines := seq(|o.pipelines|, r requires 0 <= r < |o.pipelines| =>
        if IsPipeline(o, r) && o.pipelines[r].connection == was
        then o.pipelines[r].(connection := |o.connections|) else o.pipelines[r]);
      PutConnection(o, o.connections[was]).(pipelines := pipelines)
  }

  /** The connections that the state has get the copy of their workspace. */
  function ReplaceWorkspace(o: Objects, x: string, normal: bool): Objects {
    if !HasWorkspace(o, x) then o
    else
      var was := o.workspace[x];
      var connections := seq(|o.connections|, c requires 0 <= c < |o.connections| =>
        if IsConnection(o, c) && o.connections[c].workspace == was
        then o.connections[c].(workspace := |o.workspaces|) else o.connections[c]);
      PutWorkspace(o, WorkspaceObject(x, normal)).(connections := connections)
  }

  // ---- What every change keeps -------------------------------------------------------------------------------------

  ghost predicate PipelinesLinked(o: Objects) {
    forall id :: id in o.pipeline ==> Has(o, id) && IsConnection(o, Current(o, id).connection)
  }

  ghost predicate ConnectionsLinked(o: Objects) {
    forall c :: c in o.connection ==> HasConnection(o, c) && IsWorkspace(o, o.connections[o.connection[c]].workspace)
  }

  ghost predicate WorkspacesLinked(o: Objects) {
    forall x :: x in o.workspace ==> HasWorkspace(o, x)
  }

  /** The state is made of objects that refer to each other. */
  ghost predicate Linked(o: Objects) { PipelinesLinked(o) && ConnectionsLinked(o) && WorkspacesLinked(o) }

  lemma PutPipelineKeeps(o: Objects, p: PipelineObject)
    requires Linked(o) && IsConnection(o, p.connection)
    ensures Linked(PutPipeline(o, p)) && Has(PutPipeline(o, p), p.id) && Current(PutPipeline(o, p), p.id) == p
  {
  }

  lemma PutConnectionKeeps(o: Objects, c: ConnectionObject)
    requires Linked(o) && c.id !in o.connection && IsWorkspace(o, c.workspace)
    ensures Linked(PutConnection(o, c))
  {
  }

  lemma PutWorkspaceKeeps(o: Objects, x: WorkspaceObject)
    requires Linked(o) && x.id !in o.workspace
    ensures Linked(PutWorkspace(o, x))
  {
  }

  lemma StartRunKeeps(o: Objects, id: string)
    requires Linked(o)
    ensures Linked(StartRun(o, id))
  {
  }

  lemma EndRunsReplace(o: Objects, ids: seq<string>, id: string)
    requires Has(o, id)
    ensures
      var u := EndRuns(o, ids);
      Has(u, id) && Current(u, id) == Current(o, id).(running := Current(o, id).running && id !in ids)
  {
  }

  lemma EndRunsKeep(o: Objects, ids: seq<string>)
    requires Linked(o)
    ensures Linked(EndRuns(o, ids))
  {
    var u := EndRuns(o, ids);
    forall id | id in u.pipeline ensures Has(u, id) && IsConnection(u, Current(u, id).connection) {
      EndRunsReplace(o, ids, id);
    }
  }

  lemma ReplaceConnectionKeeps(o: Objects, c: string)
    requires Linked(o)
    ensures Linked(ReplaceConnection(o, c))
  {
    if HasConnection(o, c) {
      var u := ReplaceConnection(o, c);
      forall id | id in u.pipeline ensures Has(u, id) && IsConnection(u, Current(u, id).connection) {
        assert Has(o, id) && IsPipeline(o, o.pipeline[id]) && IsConnection(o, Current(o, id).connection);
      }
    }
  }

  lemma ReplaceWorkspaceKeeps(o: Objects, x: string, normal: bool)
    requires Linked(o)
    ensures Linked(ReplaceWorkspace(o, x, normal))
  {
    if HasWorkspace(o, x) {
      var u := ReplaceWorkspace(o, x, normal);
      forall c | c in u.connection
        ensures HasConnection(u, c) && IsWorkspace(u, u.connections[u.connection[c]].workspace)
      {
        assert HasConnection(o, c) && IsConnection(o, o.connection[c]);
      }
    }
  }

  // ---- What they leave as it was -----------------------------------------------------------------------------------

  /** Objects stay those of their pipelines, and a pipeline that the state has keeps its period. */
  ghost predicate Kept(o: Objects, u: Objects) {
    && |o.pipelines| <= |u.pipelines| && (forall r :: 0 <= r < |o.pipelines| ==> u.pipelines[r].id == o.pipelines[r].id)
    && u.pipeline.Keys == o.pipeline.Keys
    && forall id :: Has(o, id) ==> Has(u, id) && Current(u, id).period == Current(o, id).period
  }

  lemma ReplacementKept(o: Objects, p: PipelineObject)
    requires Has(o, p.id) && p.period == Current(o, p.id).period
    ensures Kept(o, PutPipeline(o, p))
  {
  }

  lemma StartKept(o: Objects, id: string)
    ensures Kept(o, StartRun(o, id))
  {
  }

  lemma EndRunsKept(o: Objects, ids: seq<string>)
    ensures Kept(o, EndRuns(o, ids))
  {
    forall id | Has(o, id) ensures Has(EndRuns(o, ids), id) && Current(EndRuns(o, ids), id).period == Current(o, id).period {
      EndRunsReplace(o, ids, id);
    }
  }

  lemma ConnectionKept(o: Objects, c: string)
    ensures Kept(o, ReplaceConnection(o, c))
  {
  }

  lemma HasAll(o: Objects)
    requires Linked(o)
    ensures forall id :: id in o.pipeline ==> Has(o, id)
  {
  }

  // ---- What each change does ---------------------------------------------------------------------------------------

  /** A replaced pipeline is another object, that differs in what was changed. The one before stays as it was. */
  lemma ReplacedPipeline(o: Objects, id: string, enabled: bool)
    requires Has(o, id)
    ensures
      var u := ReplacePipeline(o, id, enabled);
      && Has(u, id) && u.pipeline[id] == |o.pipelines| && u.pipelines[..|o.pipelines|] == o.pipelines
      && Current(u, id).enabled == enabled && Current(u, id) == Current(o, id).(enabled := enabled)
      && u == o.(pipelines := u.pipelines, pipeline := o.pipeline[id := |o.pipelines|])
    ensures
      var u := EndRun(o, id);
      && Has(u, id) && u.pipeline[id] == |o.pipelines| && u.pipelines[..|o.pipelines|] == o.pipelines
      && !Current(u, id).running && Current(u, id) == Current(o, id).(running := false)
      && u == o.(pipelines := u.pipelines, pipeline := o.pipeline[id := |o.pipelines|])
  {
  }

  /** A run is recorded in the object itself. */
  lemma RecordedRun(o: Objects, id: string)
    requires Has(o, id)
    ensures
      var u, r := StartRun(o, id), o.pipeline[id];
      && u == o.(pipelines := u.pipelines) && |u.pipelines| == |o.pipelines|
      && u.pipelines[r].running && u.pipelines[r] == o.pipelines[r].(running := true)
      && forall x :: 0 <= x < |o.pipelines| && x != r ==> u.pipelines[x] == o.pipelines[x]
  {
  }

  /** After the change of a workspace, all its connections in the state see its mode, and others see what they saw. */
  lemma ReplacedWorkspace(o: Objects, x: string, normal: bool, c: string)
    requires Linked(o) && HasWorkspace(o, x) && HasConnection(o, c)
    ensures
      var u, q := ReplaceWorkspace(o, x, normal), o.connection[c];
      && HasConnection(u, c) && u.connection == o.connection && u.pipelines == o.pipelines && u.pipeline == o.pipeline
      && (Normal(u, q) <==> if o.workspaces[o.connections[q].workspace].id == x then normal else Normal(o, q))
  {
    var q := o.connection[c];
    assert IsConnection(o, q) && IsWorkspace(o, o.connections[q].workspace);
  }

  /** After the change of a connection, its pipelines in the state refer to the copy, which sees the same mode. */
  lemma ReplacedConnection(o: Objects, c: string, id: string)
    requires Linked(o) && HasConnection(o, c) && Has(o, id)
    ensures
      var u := ReplaceConnection(o, c);
      && Has(u, id) && u.pipeline == o.pipeline && u.workspaces == o.workspaces && u.workspace == o.workspace
      && HasConnection(u, c) && u.connection[c] == |o.connections|
      && (Normal(u, u.connection[c]) <==> Normal(o, o.connection[c]))
      && Current(u, id) == Current(o, id).(connection :=
           if Current(o, id).connection == o.connection[c] then u.connection[c] else Current(o, id).connection)
  {
  }
}
