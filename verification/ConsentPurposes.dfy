/** Consent purposes and the pipelines that require them, down to row locks
    (core/consent_purpose.go, core/pipeline.go:1460-1556).

    A transaction advances one statement at a time, interleaved with any number of others.
    A change to a purpose holds its workspace FOR UPDATE; a change to a pipeline that requires
    purposes holds the workspace FOR KEY SHARE and, when it updates, the pipeline row FOR UPDATE.
    The last write and the commit are one step: until then nobody else sees the write. */
module ConsentPurposes {
  import opened Prelude

  type WorkspaceId = nat
  type PurposeId = nat
  type PipelineId = nat
  type TxId = nat

  /** The targets that connectors offer, and so those of the pipelines that can be created. */
  datatype Target = Event | User

  /** A purpose row. No event codes, or the empty property, mean that the location is not set. */
  datatype Purpose = Purpose(workspace: WorkspaceId, eventCodes: seq<string>, profileProperty: string)

  datatype Pipeline = Pipeline(workspace: WorkspaceId, target: Target, required: seq<PurposeId>)

  datatype Change =
    | Add(purpose: Purpose)
    | Update(eventCodes: seq<string>, profileProperty: string)
    | Delete

  /** How far a purpose change has come. */
  datatype PurposePhase = Unlocked | Locked | EventChecked | Checked

  /** How far a pipeline change has come; the later phases hold the purposes left to validate. */
  datatype PipelinePhase =
    | Begun
    | Shared                                                                   // holds KEY SHARE
    | RowLocked(current: seq<PurposeId>, added: seq<PurposeId>)                // and the row, when updating
    | Existing(current: seq<PurposeId>, added: seq<PurposeId>)
    | Validated(current: seq<PurposeId>)

  datatype Tx =
    | PurposeTx(workspace: WorkspaceId, purpose: PurposeId, change: Change, phase: PurposePhase)
    | PipelineTx(workspace: WorkspaceId, pipeline: PipelineId, creates: bool, target: Target,
                 required: seq<PurposeId>, progress: PipelinePhase)

  datatype State = State(
    workspaces: set<WorkspaceId>,
    purposes: map<PurposeId, Purpose>,
    pipelines: map<PipelineId, Pipeline>,
    retired: set<PipelineId>,              // identifiers of deleted pipelines; they are never drawn again
    txs: map<TxId, Tx>)

  const EMPTY := State({}, map[], map[], {}, map[])

  // ---- Locks -----------------------------------------------------------------------------------------

  predicate HoldsUpdate(tx: Tx, w: WorkspaceId) {
    tx.PurposeTx? && tx.workspace == w && !tx.phase.Unlocked?
  }

  predicate HoldsShare(tx: Tx, w: WorkspaceId) {
    tx.PipelineTx? && tx.workspace == w && !tx.progress.Begun?
  }

  predicate HoldsRow(tx: Tx, p: PipelineId) {
    tx.PipelineTx? && !tx.creates && tx.pipeline == p && !tx.progress.Begun? && !tx.progress.Shared?
  }

  predicate CanLockUpdate(s: State, t: TxId, w: WorkspaceId) {
    forall u :: u in s.txs && u != t ==> !HoldsUpdate(s.txs[u], w) && !HoldsShare(s.txs[u], w)
  }

  predicate CanLockShare(s: State, t: TxId, w: WorkspaceId) {
    forall u :: u in s.txs && u != t ==> !HoldsUpdate(s.txs[u], w)
  }

  predicate CanLockRow(s: State, t: TxId, p: PipelineId) {
    forall u :: u in s.txs && u != t ==> !HoldsRow(s.txs[u], p)
  }

  // ---- What the statements test -------------------------------------------------------------------------

  /** Some pipeline of the workspace requires the purpose. */
  predicate InUse(s: State, w: WorkspaceId, q: PurposeId) {
    exists p :: p in s.pipelines && s.pipelines[p].workspace == w && q in s.pipelines[p].required
  }

  predicate InUseBy(s: State, w: WorkspaceId, q: PurposeId, target: Target) {
    exists p :: p in s.pipelines && s.pipelines[p].workspace == w && s.pipelines[p].target == target && q in s.pipelines[p].required
  }

  predicate ExistsIn(s: State, w: WorkspaceId, q: PurposeId) {
    q in s.purposes && s.purposes[q].workspace == w
  }

  /** The location read by pipelines with the target is set: the event one for events, else the profile one. */
  predicate Located(purpose: Purpose, target: Target) {
    if target.Event? then purpose.eventCodes != [] else purpose.profileProperty != ""
  }

  predicate LocatedIn(s: State, w: WorkspaceId, q: PurposeId, target: Target) {
    ExistsIn(s, w, q) && Located(s.purposes[q], target)
  }

  /** The purposes that are not among the current ones, in order. */
  function Added(current: seq<PurposeId>, required: seq<PurposeId>): (added: seq<PurposeId>)
    ensures forall q :: q in added <==> q in required && q !in current
  {
    if required == [] then []
    else (if required[0] in current then [] else [required[0]]) + Added(current, required[1..])
  }

  // ---- Steps ---------------------------------------------------------------------------------------------

  datatype Action =
    | CreateWorkspace(workspace: WorkspaceId)
    | DeleteWorkspace(workspace: WorkspaceId)
    | DeletePipeline(pipeline: PipelineId)
    | BeginPurpose(tx: TxId, workspace: WorkspaceId, purpose: PurposeId, change: Change)
    | BeginCreate(tx: TxId, workspace: WorkspaceId, pipeline: PipelineId, target: Target, required: seq<PurposeId>)
    | BeginUpdate(tx: TxId, pipeline: PipelineId, required: seq<PurposeId>)
    | Advance(tx: TxId)
    | Abort(tx: TxId)

  function WithTx(s: State, t: TxId, tx: Tx): State { s.(txs := s.txs[t := tx]) }

  function Drop(s: State, t: TxId): State { s.(txs := s.txs - {t}) }

  /** The next statement of a purpose change; a failed test rolls back, a busy lock waits. */
  function AdvancePurpose(s: State, t: TxId): State
    requires t in s.txs && s.txs[t].PurposeTx?
  {
    var tx := s.txs[t];
    match tx.phase
    case Unlocked =>
      if tx.workspace !in s.workspaces then Drop(s, t)
      else if CanLockUpdate(s, t, tx.workspace) then WithTx(s, t, tx.(phase := Locked)) else s
    case Locked =>
      (match tx.change
       case Add(_) => WithTx(s, t, tx.(phase := Checked))
       case Update(codes, _) =>
         if codes == [] && InUseBy(s, tx.workspace, tx.purpose, Event) then Drop(s, t)
         else WithTx(s, t, tx.(phase := EventChecked))
       case Delete =>
         if InUse(s, tx.workspace, tx.purpose) then Drop(s, t) else WithTx(s, t, tx.(phase := Checked)))
    case EventChecked =>
      if tx.change.Update? && tx.change.profileProperty == "" && InUseBy(s, tx.workspace, tx.purpose, User) then Drop(s, t)
      else WithTx(s, t, tx.(phase := Checked))
    case Checked =>
      var s' := Drop(s, t);
      match tx.change
      case Add(purpose) =>
        if tx.purpose in s.purposes then s' else s'.(purposes := s.purposes[tx.purpose := purpose.(workspace := tx.workspace)])
      case Update(codes, property) =>
        if ExistsIn(s, tx.workspace, tx.purpose)
        then s'.(purposes := s.purposes[tx.purpose := Purpose(tx.workspace, codes, property)]) else s'
      case Delete =>
        if ExistsIn(s, tx.workspace, tx.purpose) then s'.(purposes := s.purposes - {tx.purpose}) else s'
  }

  /** The write of a pipeline change, and its commit. */
  function WritePipeline(s: State, t: TxId): State
    requires t in s.txs && s.txs[t].PipelineTx?
  {
    var tx := s.txs[t];
    var s' := Drop(s, t);
    if tx.creates then
      if tx.pipeline in s.pipelines || tx.pipeline in s.retired || tx.workspace !in s.workspaces then s'
      else s'.(pipelines := s.pipelines[tx.pipeline := Pipeline(tx.workspace, tx.target, tx.required)])
    else if tx.pipeline !in s.pipelines then s'
    else s'.(pipelines := s.pipelines[tx.pipeline := s.pipelines[tx.pipeline].(required := tx.required)])
  }

  /** The next statement of a pipeline change. Only the purposes an update adds are validated. */
  function AdvancePipeline(s: State, t: TxId): State
    requires t in s.txs && s.txs[t].PipelineTx?
  {
    var tx := s.txs[t];
    match tx.progress
    case Begun =>
      if tx.required == [] then
        if CanLockRow(s, t, tx.pipeline) then WritePipeline(s, t) else s
      else if tx.workspace !in s.workspaces then Drop(s, t)
      else if CanLockShare(s, t, tx.workspace) then WithTx(s, t, tx.(progress := Shared)) else s
    case Shared =>
      if tx.creates then WithTx(s, t, tx.(progress := RowLocked([], tx.required)))
      else if tx.pipeline !in s.pipelines then Drop(s, t)
      else if CanLockRow(s, t, tx.pipeline) then
        var current := s.pipelines[tx.pipeline].required;
        WithTx(s, t, tx.(progress := RowLocked(current, Added(current, tx.required))))
      else s
    case RowLocked(current, added) =>
      if exists q :: q in added && !ExistsIn(s, tx.workspace, q) then Drop(s, t)
      else WithTx(s, t, tx.(progress := Existing(current, added)))
    case Existing(current, added) =>
      if exists q :: q in added && ExistsIn(s, tx.workspace, q) && !Located(s.purposes[q], tx.target) then Drop(s, t)
      else WithTx(s, t, tx.(progress := Validated(current)))
    case Validated(_) =>
      WritePipeline(s, t)
  }

  function Apply(s: State, a: Action): State {
    match a
    case CreateWorkspace(w) => s.(workspaces := s.workspaces + {w})
    case DeleteWorkspace(w) =>
      if forall u :: u in s.txs ==> !HoldsUpdate(s.txs[u], w) && !HoldsShare(s.txs[u], w) then
        s.(workspaces := s.workspaces - {w},
           purposes := map q | q in s.purposes && s.purposes[q].workspace != w :: s.purposes[q],
           pipelines := map p | p in s.pipelines && s.pipelines[p].workspace != w :: s.pipelines[p],
           retired := s.retired + set p | p in s.pipelines && s.pipelines[p].workspace == w)
      else s
    case DeletePipeline(p) =>
      if p in s.pipelines && forall u :: u in s.txs ==> !HoldsRow(s.txs[u], p)
      then s.(pipelines := s.pipelines - {p}, retired := s.retired + {p}) else s
    case BeginPurpose(t, w, q, change) =>
      if t in s.txs then s else WithTx(s, t, PurposeTx(w, q, change, Unlocked))
    case BeginCreate(t, w, p, target, required) =>
      if t in s.txs then s else WithTx(s, t, PipelineTx(w, p, true, target, required, Begun))
    case BeginUpdate(t, p, required) =>
      if t in s.txs || p !in s.pipelines then s
      else WithTx(s, t, PipelineTx(s.pipelines[p].workspace, p, false, s.pipelines[p].target, required, Begun))
    case Advance(t) =>
      if t !in s.txs then s
      else if s.txs[t].PurposeTx? then AdvancePurpose(s, t) else AdvancePipeline(s, t)
    case Abort(t) => Drop(s, t)
  }
}
