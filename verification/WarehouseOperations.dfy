/** Identity resolution and the alteration of the profile schema, which exclude each other on a workspace, and the
    deletion of connections meanwhile (core/core.go:1611-1920, core/core.go:2030-2185, core/connection.go:679-775,
    core/workspace.go:1778-1835).

    A transaction that locks the workspace row before it decides is one action; so is the deletion of a source
    connection, which updates that row first. Two others have a statement that can be overtaken, and are two actions:
    the start of an alteration counts its connections before it locks, and an update of the identifiers looks for
    pending operations without a lock. Leaders come and go, and a deposed one keeps running its operations. */
module WarehouseOperations {
  import opened Prelude
  import opened Schemas
  import opened IdentifierRenaming

  type WorkspaceId = nat
  type OperationId = nat   // a UUID, never drawn twice
  type ConnectionId = nat  // never drawn twice either
  type TxId = nat
  type ExecutorId = nat
  type Time = nat
  type Roles = nat
  type Path = string
  type Schema = seq<Property>

  /** The connection that is the primary source of a property. */
  type Sources = map<Path, ConnectionId>

  /** What an alteration was asked to do, besides its primary sources. */
  datatype Request = Request(schema: Schema, roles: Roles, operations: seq<AlterOperation>)

  /** A pending alteration. `sources` is the column of the pending primary sources. `knownSources` and
      `knownIdentifiers` are what nodes can have in memory: what it was started with, and what each notification
      since then made of that. */
  datatype Alteration = Alteration(
    id: OperationId, request: Request, sources: Sources, knownSources: set<Sources>, knownIdentifiers: set<seq<Path>>)

  datatype Workspace = Workspace(
    schema: Schema, roles: Roles, identifiers: seq<Path>, primarySources: Sources,
    resolution: Option<OperationId>, alteration: Option<Alteration>, alterationError: string)

  datatype ResolutionRun = ResolutionRun(workspace: WorkspaceId, endTime: Option<Time>, error: string)

  /** An open transaction, between its statements. */
  datatype Transaction =
    | StartTx(workspace: WorkspaceId, id: OperationId, request: Request, sources: Sources)  // has counted the connections
    | IdentifiersTx(workspace: WorkspaceId, identifiers: seq<Path>)               // has found nothing pending

  /** What carries out an alteration: sources and identifiers from the memory of its node, and how the warehouse
      answered. */
  datatype Executor = Executor(
    workspace: WorkspaceId, id: OperationId, sources: Sources, identifiers: seq<Path>, error: string)

  /** `ever` has every connection there has ever been. */
  datatype Store = Store(
    workspaces: map<WorkspaceId, Workspace>,
    runs: map<OperationId, ResolutionRun>,
    used: set<OperationId>,
    connections: map<ConnectionId, WorkspaceId>,
    ever: map<ConnectionId, WorkspaceId>,
    open: map<TxId, Transaction>,
    executors: map<ExecutorId, Executor>)

  const EMPTY := Store(map[], map[], {}, map[], map[], map[], map[])

  datatype Action =
    | CreateWorkspace(workspace: WorkspaceId, schema: Schema, roles: Roles)
    | DeleteWorkspace(workspace: WorkspaceId)
    | CreateConnection(connection: ConnectionId, workspace: WorkspaceId)
    | DeleteConnection(connection: ConnectionId)
    | StartResolution(workspace: WorkspaceId, id: OperationId)
    | FinishResolution(workspace: WorkspaceId, id: OperationId, error: string, now: Time)
    | CountSources(tx: TxId, workspace: WorkspaceId, id: OperationId, request: Request, sources: Sources)
    | CommitStart(tx: TxId)
    | CheckIdentifiers(tx: TxId, workspace: WorkspaceId, identifiers: seq<Path>)
    | CommitIdentifiers(tx: TxId)
    | Abort(tx: TxId)
    | Execute(executor: ExecutorId, workspace: WorkspaceId, sources: Sources, identifiers: seq<Path>, error: string)
    | Finalize(executor: ExecutorId)

  predicate Busy(ws: Workspace) { ws.resolution.Some? || ws.alteration.Some? }

  predicate CanStart(s: Store, w: WorkspaceId, id: OperationId) {
    w in s.workspaces && !Busy(s.workspaces[w]) && id !in s.used
  }

  predicate Resolving(s: Store, w: WorkspaceId, id: OperationId) {
    w in s.workspaces && s.workspaces[w].resolution == Some(id)
  }

  predicate Altering(s: Store, w: WorkspaceId, id: OperationId) {
    w in s.workspaces && s.workspaces[w].alteration.Some? && s.workspaces[w].alteration.value.id == id
  }

  predicate OpenRun(s: Store, w: WorkspaceId, id: OperationId) {
    id in s.runs && s.runs[id].workspace == w && s.runs[id].endTime.None?
  }

  // ---- Sources -----------------------------------------------------------------------------------------------------

  function Without(m: Sources, c: ConnectionId): Sources { map p | p in m && m[p] != c :: m[p] }

  /** Every source is a connection that exists. */
  predicate AllExist(s: Store, m: Sources) { forall p :: p in m ==> m[p] in s.connections }

  /** Every source is, or was, a connection of the workspace: this is what a node tests, in its memory. */
  predicate Belong(s: Store, w: WorkspaceId, m: Sources) { forall p :: p in m ==> m[p] in s.ever && s.ever[m[p]] == w }

  // ---- Actions -----------------------------------------------------------------------------------------------------

  function WithWorkspace(s: Store, w: WorkspaceId, ws: Workspace): Store { s.(workspaces := s.workspaces[w := ws]) }

  function Close(s: Store, t: TxId): Store { s.(open := s.open - {t}) }

  /** The second statement of a start locks the workspace, and writes if nothing is pending. */
  function ApplyStart(s: Store, tx: Transaction): Store
    requires tx.StartTx?
  {
    var w := tx.workspace;
    if !CanStart(s, w, tx.id) then s
    else
      var ws := s.workspaces[w];
      var alteration := Alteration(tx.id, tx.request, tx.sources, {tx.sources}, {ws.identifiers});
      WithWorkspace(s, w, ws.(alteration := Some(alteration), alterationError := "")).(used := s.used + {tx.id})
  }

  function ApplyIdentifiers(s: Store, tx: Transaction): Store
    requires tx.IdentifiersTx?
  {
    var w := tx.workspace;
    if w !in s.workspaces then s
    else
      var ws := s.workspaces[w];
      WithWorkspace(s, w, ws.(identifiers := tx.identifiers, alteration := Learned(ws.alteration, tx.identifiers)))
  }

  /** New identifiers get into the memory of nodes. */
  function Learned(alteration: Option<Alteration>, identifiers: seq<Path>): Option<Alteration> {
    match alteration
    case None => None
    case Some(a) => Some(a.(knownIdentifiers := a.knownIdentifiers + {identifiers}))
  }

  /** A connection gets out of the pending sources, in the column and, sooner or later, in the memory of nodes. */
  function Forgotten(alteration: Option<Alteration>, c: ConnectionId): Option<Alteration> {
    match alteration
    case None => None
    case Some(a) =>
      Some(a.(sources := Without(a.sources, c),
              knownSources := a.knownSources + AllWithout(a.knownSources, c)))
  }

  function AllWithout(all: set<Sources>, c: ConnectionId): set<Sources> { set m | m in all :: Without(m, c) }

  function DeletedFrom(ws: Workspace, c: ConnectionId): Workspace {
    ws.(primarySources := Without(ws.primarySources, c), alteration := Forgotten(ws.alteration, c))
  }

  /** A deletion takes the connection out of the sources of its workspace, the pending ones included. */
  function ApplyDelete(s: Store, c: ConnectionId): Store
    requires c in s.connections
  {
    var w := s.connections[c];
    var t := s.(connections := s.connections - {c});
    if w in s.workspaces then WithWorkspace(t, w, DeletedFrom(s.workspaces[w], c)) else t
  }

  /** What a successful alteration leaves in the workspace row. */
  function Altered(ws: Workspace, e: Executor): Workspace
    requires ws.alteration.Some?
  {
    ws.(schema := ws.alteration.value.request.schema, roles := ws.alteration.value.request.roles,
        identifiers := e.identifiers, primarySources := e.sources)
  }

  /** One attempt to finalize: the executor is done with an alteration that is not pending any more, and tries again
      when the insertion of its sources fails for one that was deleted. */
  function ApplyFinalize(s: Store, x: ExecutorId): Store
    requires x in s.executors
  {
    var e := s.executors[x];
    var done := s.(executors := s.executors - {x});
    if !Altering(s, e.workspace, e.id) then done
    else if e.error == "" && !AllExist(s, e.sources) then s
    else
      var ws := s.workspaces[e.workspace];
      var altered := if e.error == "" then Altered(ws, e) else ws;
      WithWorkspace(done, e.workspace, altered.(alteration := None, alterationError := e.error))
  }

  function Apply(s: Store, a: Action): Store {
    match a
    case CreateWorkspace(w, schema, roles) =>
      if w in s.workspaces then s
      else WithWorkspace(s, w, Workspace(schema, roles, [], map[], None, None, ""))
    case DeleteWorkspace(w) =>
      s.(workspaces := s.workspaces - {w}, runs := map id | id in s.runs && s.runs[id].workspace != w :: s.runs[id],
         connections := map c | c in s.connections && s.connections[c] != w :: s.connections[c])
    case CreateConnection(c, w) =>
      if c in s.ever || w !in s.workspaces then s
      else s.(connections := s.connections[c := w], ever := s.ever[c := w])
    case DeleteConnection(c) => if c in s.connections then ApplyDelete(s, c) else s
    case StartResolution(w, id) =>
      if CanStart(s, w, id)
      then WithWorkspace(s, w, s.workspaces[w].(resolution := Some(id)))
             .(runs := s.runs[id := ResolutionRun(w, None, "")], used := s.used + {id})
      else s
    case FinishResolution(w, id, error, now) =>
      if Resolving(s, w, id) && OpenRun(s, w, id)
      then WithWorkspace(s, w, s.workspaces[w].(resolution := None)).(runs := s.runs[id := ResolutionRun(w, Some(now), error)])
      else s
    case CountSources(t, w, id, request, sources) =>
      if t in s.open || !Belong(s, w, sources) || !AllExist(s, sources) then s
      else s.(open := s.open[t := StartTx(w, id, request, sources)])
    case CheckIdentifiers(t, w, identifiers) =>
      if t in s.open || w !in s.workspaces || Busy(s.workspaces[w]) then s
      else s.(open := s.open[t := IdentifiersTx(w, identifiers)])
    case CommitStart(t) =>
      if t !in s.open || !s.open[t].StartTx? then s else ApplyStart(Close(s, t), s.open[t])
    case CommitIdentifiers(t) =>
      if t !in s.open || !s.open[t].IdentifiersTx? then s else ApplyIdentifiers(Close(s, t), s.open[t])
    case Abort(t) => Close(s, t)
    case Execute(x, w, sources, identifiers, error) =>
      if x in s.executors || w !in s.workspaces || s.workspaces[w].alteration.None? then s
      else
        var a := s.workspaces[w].alteration.value;
        if sources !in a.knownSources || identifiers !in a.knownIdentifiers then s
        else
          s.(executors := s.executors[x := Executor(w, a.id, sources,
               RenamedIn(a.request.schema, a.request.operations, identifiers), error)])
    case Finalize(x) => if x in s.executors then ApplyFinalize(s, x) else s
  }

  // ---- Invariants ----------------------------------------------------------------------------------------------------

  /** The two operations are never both pending. */
  ghost predicate Exclusive(s: Store) {
    forall w :: w in s.workspaces ==> s.workspaces[w].resolution.None? || s.workspaces[w].alteration.None?
  }

  /** `ir_id` is set exactly when the run row it names is open; so a workspace has at most one open run. */
  ghost predicate RunsMatch(s: Store) {
    forall w, id :: Resolving(s, w, id) <==> OpenRun(s, w, id)
  }

  ghost predicate PendingUsed(s: Store) {
    && (forall id :: id in s.runs ==> id in s.used)
    && (forall w, id :: Altering(s, w, id) ==> id in s.used)
  }

  ghost predicate Inv(s: Store) { Exclusive(s) && RunsMatch(s) && PendingUsed(s) }

  predicate TouchesRuns(a: Action) { a.StartResolution? || a.FinishResolution? || a.DeleteWorkspace? }

  lemma OthersKeepResolutions(s: Store, a: Action, w: WorkspaceId, id: OperationId)
    requires !TouchesRuns(a)
    ensures Apply(s, a).runs == s.runs && (Resolving(Apply(s, a), w, id) <==> Resolving(s, w, id))
  {
    match a
    case Finalize(x) => if x in s.executors { AttemptKeepsResolutions(s, x, w, id); }
    case DeleteConnection(c) => if c in s.connections { DeletionKeepsOperations(s, c, w); }
    case _ =>
  }

  lemma AttemptKeepsResolutions(s: Store, x: ExecutorId, w: WorkspaceId, id: OperationId)
    requires x in s.executors
    ensures ApplyFinalize(s, x).runs == s.runs && (Resolving(ApplyFinalize(s, x), w, id) <==> Resolving(s, w, id))
  {
  }

  lemma DeletionKeepsOperations(s: Store, c: ConnectionId, w: WorkspaceId)
    requires c in s.connections
    ensures
      var t := ApplyDelete(s, c);
      && t.runs == s.runs && t.workspaces.Keys == s.workspaces.Keys
      && (w in s.workspaces ==> t.workspaces[w].resolution == s.workspaces[w].resolution)
  {
  }

  lemma StartMatches(s: Store, a: Action, w: WorkspaceId, id: OperationId)
    requires Inv(s) && a.StartResolution?
    ensures Resolving(Apply(s, a), w, id) <==> OpenRun(Apply(s, a), w, id)
  {
    assert Resolving(s, w, id) <==> OpenRun(s, w, id);
    assert Resolving(s, w, a.id) <==> OpenRun(s, w, a.id);
    assert Resolving(s, a.workspace, id) <==> OpenRun(s, a.workspace, id);
  }

  lemma FinishMatches(s: Store, a: Action, w: WorkspaceId, id: OperationId)
    requires Inv(s) && (a.FinishResolution? || a.DeleteWorkspace?)
    ensures Resolving(Apply(s, a), w, id) <==> OpenRun(Apply(s, a), w, id)
  {
    assert Resolving(s, w, id) <==> OpenRun(s, w, id);
  }

  lemma RunsMatchKept(s: Store, a: Action)
    requires Inv(s)
    ensures RunsMatch(Apply(s, a))
  {
    forall w, id ensures Resolving(Apply(s, a), w, id) <==> OpenRun(Apply(s, a), w, id) {
      if !TouchesRuns(a) {
        OthersKeepResolutions(s, a, w, id);
        assert Resolving(s, w, id) <==> OpenRun(s, w, id);
      } else if a.StartResolution? {
        StartMatches(s, a, w, id);
      } else {
        FinishMatches(s, a, w, id);
      }
    }
  }

  lemma UsedGrows(s: Store, a: Action)
    ensures s.used <= Apply(s, a).used
    ensures forall id :: id in Apply(s, a).runs ==> id in s.runs || id in Apply(s, a).used
  {
  }

  /** Only a start makes an alteration pending, one that was not used before. */
  lemma AlterationsAreNew(s: Store, a: Action, w: WorkspaceId, id: OperationId)
    requires Altering(Apply(s, a), w, id) && !Altering(s, w, id)
    ensures a.CommitStart? && id !in s.used && id in Apply(s, a).used
  {
  }

  lemma ResolutionsAreNew(s: Store, a: Action, w: WorkspaceId, id: OperationId)
    requires Resolving(Apply(s, a), w, id) && !Resolving(s, w, id)
    ensures a.StartResolution? && id !in s.used
  {
  }

  lemma PendingUsedKept(s: Store, a: Action)
    requires Inv(s)
    ensures PendingUsed(Apply(s, a))
  {
    UsedGrows(s, a);
    forall w, id | Altering(Apply(s, a), w, id) ensures id in Apply(s, a).used {
      if !Altering(s, w, id) { AlterationsAreNew(s, a, w, id); }
    }
  }

  lemma ExclusiveKept(s: Store, a: Action)
    requires Inv(s)
    ensures Exclusive(Apply(s, a))
  {
  }

  lemma InvKept(s: Store, a: Action)
    requires Inv(s)
    ensures Inv(Apply(s, a))
  {
    RunsMatchKept(s, a);
    PendingUsedKept(s, a);
    ExclusiveKept(s, a);
  }

  function Exec(acts: seq<Action>): Store {
    if acts == [] then EMPTY else Apply(Exec(acts[..|acts| - 1]), acts[|acts| - 1])
  }

  function At(acts: seq<Action>, k: nat): Store
    requires k <= |acts|
  {
    Exec(acts[..k])
  }

  lemma AtNext(acts: seq<Action>, k: nat)
    requires k < |acts|
    ensures At(acts, k + 1) == Apply(At(acts, k), acts[k])
  {
    assert acts[..k + 1][..k] == acts[..k];
  }

  lemma {:induction false} ReachableInv(acts: seq<Action>)
    ensures Inv(Exec(acts))
  {
    if acts != [] {
      ReachableInv(acts[..|acts| - 1]);
      InvKept(Exec(acts[..|acts| - 1]), acts[|acts| - 1]);
    }
  }

  /** In every reachable store a workspace has no resolution and alteration pending at once, and `ir_id` is set
      exactly when one run of it is open: the one that it names. */
  lemma OperationsExclude(acts: seq<Action>, w: WorkspaceId, id: OperationId)
    requires w in Exec(acts).workspaces
    ensures
      var s := Exec(acts);
      var ws := s.workspaces[w];
      && (ws.resolution.None? || ws.alteration.None?)
      && (ws.resolution == Some(id) <==> OpenRun(s, w, id))
      && (OpenRun(s, w, id) ==> forall other :: OpenRun(s, w, other) ==> other == id)
  {
    ReachableInv(acts);
    var s := Exec(acts);
    assert Resolving(s, w, id) <==> OpenRun(s, w, id);
    assert forall other :: OpenRun(s, w, other) ==> Resolving(s, w, other);
  }

  // ---- Finalization --------------------------------------------------------------------------------------

  /** The operation is pending before the action at `k`, and not after it, on a workspace that stays. */
  ghost predicate Finalizes(acts: seq<Action>, k: nat, w: WorkspaceId, id: OperationId)
    requires k < |acts|
  {
    && (Resolving(At(acts, k), w, id) || Altering(At(acts, k), w, id))
    && w in At(acts, k + 1).workspaces
    && !(Resolving(At(acts, k + 1), w, id) || Altering(At(acts, k + 1), w, id))
  }

  lemma {:induction false} UsedStaysUsed(acts: seq<Action>, i: nat, j: nat, id: OperationId)
    requires i <= j <= |acts| && id in At(acts, i).used
    ensures id in At(acts, j).used
    decreases j - i
  {
    if i < j {
      AtNext(acts, i);
      UsedGrows(At(acts, i), acts[i]);
      UsedStaysUsed(acts, i + 1, j, id);
    }
  }

  /** An identifier that was used and is pending nowhere is never pending again. */
  lemma {:induction false} NeverPendingAgain(acts: seq<Action>, i: nat, j: nat, w: WorkspaceId, id: OperationId)
    requires i <= j <= |acts| && id in At(acts, i).used
    requires !Resolving(At(acts, i), w, id) && !Altering(At(acts, i), w, id)
    ensures !Resolving(At(acts, j), w, id) && !Altering(At(acts, j), w, id)
    decreases j - i
  {
    if i < j {
      var s, a := At(acts, i), acts[i];
      AtNext(acts, i);
      UsedGrows(s, a);
      if Altering(At(acts, i + 1), w, id) { AlterationsAreNew(s, a, w, id); }
      if Resolving(At(acts, i + 1), w, id) { ResolutionsAreNew(s, a, w, id); }
      NeverPendingAgain(acts, i + 1, j, w, id);
    }
  }

  lemma PendingIsUsed(s: Store, w: WorkspaceId, id: OperationId)
    requires Inv(s) && (Resolving(s, w, id) || Altering(s, w, id))
    ensures id in s.used
  {
    if Resolving(s, w, id) { assert OpenRun(s, w, id); }
  }

  /** However many leaders try, an operation is finalized at most once. */
  lemma FinalizedAtMostOnce(acts: seq<Action>, i: nat, j: nat, w: WorkspaceId, id: OperationId)
    requires i < |acts| && j < |acts| && Finalizes(acts, i, w, id) && Finalizes(acts, j, w, id)
    ensures i == j
  {
    if i != j {
      var a, b := if i < j then i else j, if i < j then j else i;
      ReachableInv(acts[..a]);
      PendingIsUsed(At(acts, a), w, id);
      UsedStaysUsed(acts, a, a + 1, id);
      NeverPendingAgain(acts, a + 1, b, w, id);
      assert false;
    }
  }

  // ---- What changes a workspace ----------------------------------------------------------------------------------------

  /** The attempt at `k` is the one that succeeds: the alteration is pending, its warehouse gave no error, and every
      source of the executor exists. */
  ghost predicate Succeeds(acts: seq<Action>, k: nat, w: WorkspaceId)
    requires k < |acts|
  {
    var s := At(acts, k);
    acts[k].Finalize? && acts[k].executor in s.executors && SucceedsFor(s, s.executors[acts[k].executor], w)
  }

  ghost predicate SucceedsFor(s: Store, e: Executor, w: WorkspaceId) {
    e.workspace == w && Altering(s, w, e.id) && e.error == "" && AllExist(s, e.sources)
  }

  /** An attempt without an error of the warehouse takes effect if and only if the alteration is still pending and
      every source that the executor holds exists; otherwise it leaves all workspaces as they are. */
  lemma AttemptSucceeds(s: Store, x: ExecutorId)
    requires x in s.executors && s.executors[x].error == ""
    ensures
      var e, t := s.executors[x], Apply(s, Finalize(x));
      if SucceedsFor(s, e, e.workspace)
      then
        && e.workspace in t.workspaces && t.workspaces[e.workspace].alteration.None?
        && t.workspaces[e.workspace].schema == s.workspaces[e.workspace].alteration.value.request.schema
        && t.workspaces[e.workspace].roles == s.workspaces[e.workspace].alteration.value.request.roles
        && t.workspaces[e.workspace].identifiers == e.identifiers
        && t.workspaces[e.workspace].primarySources == e.sources
      else t.workspaces == s.workspaces && (x in t.executors <==> Altering(s, e.workspace, e.id))
  {
  }

  /** Without a success, a workspace keeps its schema and its roles; its primary sources but for a deleted connection;
      and its identifiers but for an update of these. A failed alteration and a stale finalization change none. */
  lemma OnlySuccessesChangeTheSchema(acts: seq<Action>, k: nat, w: WorkspaceId)
    requires k < |acts| && w in At(acts, k).workspaces && w in At(acts, k + 1).workspaces && !Succeeds(acts, k, w)
    ensures
      var before, after := At(acts, k).workspaces[w], At(acts, k + 1).workspaces[w];
      && after.schema == before.schema && after.roles == before.roles
      && (after.primarySources == before.primarySources
          || (acts[k].DeleteConnection? && after.primarySources == Without(before.primarySources, acts[k].connection)))
      && (after.identifiers == before.identifiers || acts[k].CommitIdentifiers?)
  {
    AtNext(acts, k);
    SchemaStays(At(acts, k), acts[k], w);
    SourcesStay(At(acts, k), acts[k], w);
    IdentifiersStay(At(acts, k), acts[k], w);
  }

  lemma SchemaStays(s: Store, a: Action, w: WorkspaceId)
    requires w in s.workspaces && w in Apply(s, a).workspaces
    requires !(a.Finalize? && a.executor in s.executors && SucceedsFor(s, s.executors[a.executor], w))
    ensures Apply(s, a).workspaces[w].schema == s.workspaces[w].schema
    ensures Apply(s, a).workspaces[w].roles == s.workspaces[w].roles
  {
    match a
    case Finalize(x) => if x in s.executors { FrameOfAttempt(s, x, w); }
    case DeleteConnection(c) => if c in s.connections { FrameOfDeletion(s, c, w); }
    case _ =>
  }

  lemma SourcesStay(s: Store, a: Action, w: WorkspaceId)
    requires w in s.workspaces && w in Apply(s, a).workspaces
    requires !(a.Finalize? && a.executor in s.executors && SucceedsFor(s, s.executors[a.executor], w))
    ensures
      var before, after := s.workspaces[w].primarySources, Apply(s, a).workspaces[w].primarySources;
      after == before || (a.DeleteConnection? && after == Without(before, a.connection))
  {
    match a
    case Finalize(x) => if x in s.executors { FrameOfAttempt(s, x, w); }
    case DeleteConnection(c) => if c in s.connections { FrameOfDeletion(s, c, w); }
    case _ =>
  }

  lemma IdentifiersStay(s: Store, a: Action, w: WorkspaceId)
    requires w in s.workspaces && w in Apply(s, a).workspaces
    requires !(a.Finalize? && a.executor in s.executors && SucceedsFor(s, s.executors[a.executor], w))
    ensures Apply(s, a).workspaces[w].identifiers == s.workspaces[w].identifiers || a.CommitIdentifiers?
  {
    match a
    case Finalize(x) => if x in s.executors { FrameOfAttempt(s, x, w); }
    case DeleteConnection(c) => if c in s.connections { FrameOfDeletion(s, c, w); }
    case _ =>
  }

  lemma FrameOfDeletion(s: Store, c: ConnectionId, w: WorkspaceId)
    requires c in s.connections && w in s.workspaces
    ensures
      var t := ApplyDelete(s, c);
      && w in t.workspaces
      && t.workspaces[w].schema == s.workspaces[w].schema && t.workspaces[w].roles == s.workspaces[w].roles
      && t.workspaces[w].identifiers == s.workspaces[w].identifiers
      && (t.workspaces[w].primarySources == s.workspaces[w].primarySources
          || t.workspaces[w].primarySources == Without(s.workspaces[w].primarySources, c))
  {
  }

  lemma FrameOfAttempt(s: Store, x: ExecutorId, w: WorkspaceId)
    requires x in s.executors && w in s.workspaces && !SucceedsFor(s, s.executors[x], w)
    ensures
      var t := ApplyFinalize(s, x);
      && w in t.workspaces
      && t.workspaces[w].schema == s.workspaces[w].schema && t.workspaces[w].roles == s.workspaces[w].roles
      && t.workspaces[w].primarySources == s.workspaces[w].primarySources
      && t.workspaces[w].identifiers == s.workspaces[w].identifiers
  {
  }
}
