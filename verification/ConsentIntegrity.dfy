/** In every interleaving, the purposes that pipelines require exist and are located, and validating
    only the purposes an update adds is as good as validating all of them. */
module ConsentIntegrity {
  import opened Prelude
  import opened ConsentPurposes

  /** Every purpose the pipeline requires exists in its workspace and has the location that the pipeline reads. */
  ghost predicate Intact(s: State, row: Pipeline) {
    forall q :: q in row.required ==> LocatedIn(s, row.workspace, q, row.target)
  }

  ghost predicate Integrity(s: State) {
    forall p :: p in s.pipelines ==> Intact(s, s.pipelines[p])
  }

  /** Two transactions hold locks that exclude each other. */
  predicate Conflict(a: Tx, b: Tx) {
    || (HoldsUpdate(a, a.workspace) && (HoldsUpdate(b, a.workspace) || HoldsShare(b, a.workspace)))
    || (HoldsShare(a, a.workspace) && HoldsUpdate(b, a.workspace))
    || (a.PipelineTx? && HoldsRow(a, a.pipeline) && HoldsRow(b, a.pipeline))
  }

  ghost predicate LocksExclusive(s: State) {
    forall t, u :: t in s.txs && u in s.txs && t != u ==> !Conflict(s.txs[t], s.txs[u])
  }

  /** What a purpose change has established, and its lock preserves. */
  ghost predicate PurposeTxOk(s: State, tx: Tx)
    requires tx.PurposeTx?
  {
    && (tx.phase.EventChecked? ==> tx.change.Update?)
    && (tx.phase.Checked? && tx.change.Delete? ==> !InUse(s, tx.workspace, tx.purpose))
    && (tx.change.Update? && tx.change.eventCodes == [] && (tx.phase.EventChecked? || tx.phase.Checked?) ==>
          !InUseBy(s, tx.workspace, tx.purpose, Event))
    && (tx.change.Update? && tx.change.profileProperty == "" && tx.phase.Checked? ==>
          !InUseBy(s, tx.workspace, tx.purpose, User))
  }

  /** The row an update works on, while it exists, has the workspace and target the update assumes. */
  ghost predicate RowAgrees(s: State, tx: Tx)
    requires tx.PipelineTx?
  {
    !tx.creates ==>
      if tx.pipeline in s.pipelines
      then s.pipelines[tx.pipeline].workspace == tx.workspace && s.pipelines[tx.pipeline].target == tx.target
      else tx.pipeline in s.retired
  }

  ghost predicate CurrentAgrees(s: State, tx: Tx, current: seq<PurposeId>)
    requires tx.PipelineTx?
  {
    if tx.creates then current == []
    else tx.pipeline in s.pipelines && s.pipelines[tx.pipeline].required == current
  }

  ghost predicate IsAdded(current: seq<PurposeId>, required: seq<PurposeId>, added: seq<PurposeId>) {
    forall q :: q in added <==> q in required && q !in current
  }

  /** What a pipeline change has established, and its locks preserve. */
  ghost predicate PipelineTxOk(s: State, tx: Tx)
    requires tx.PipelineTx?
  {
    && RowAgrees(s, tx)
    && match tx.progress
       case Begun => true
       case Shared => tx.required != []
       case RowLocked(current, added) =>
         tx.required != [] && CurrentAgrees(s, tx, current) && IsAdded(current, tx.required, added)
       case Existing(current, added) =>
         && tx.required != [] && CurrentAgrees(s, tx, current) && IsAdded(current, tx.required, added)
         && forall q :: q in added ==> ExistsIn(s, tx.workspace, q)
       case Validated(current) =>
         && tx.required != [] && CurrentAgrees(s, tx, current)
         && forall q :: q in tx.required && q !in current ==> LocatedIn(s, tx.workspace, q, tx.target)
  }

  ghost predicate TxOk(s: State, tx: Tx) {
    if tx.PurposeTx? then PurposeTxOk(s, tx) else PipelineTxOk(s, tx)
  }

  ghost predicate TxsOk(s: State) {
    forall t :: t in s.txs ==> TxOk(s, s.txs[t])
  }

  ghost predicate Fresh(s: State) {
    forall p :: p in s.pipelines ==> p !in s.retired
  }

  ghost predicate Inv(s: State) { Integrity(s) && LocksExclusive(s) && TxsOk(s) && Fresh(s) }

  // ---- Frames ------------------------------------------------------------------------------------------

  /** The purposes of workspace `w` are the same in both states. */
  ghost predicate SamePurposes(s: State, s': State, w: WorkspaceId) {
    forall q :: ExistsIn(s, w, q) == ExistsIn(s', w, q) && (ExistsIn(s, w, q) ==> s.purposes[q] == s'.purposes[q])
  }

  /** No pipeline of workspace `w` requires a purpose in the second state that it did not in the first. */
  ghost predicate NoNewUse(s: State, s': State, w: WorkspaceId) {
    forall p, q :: p in s'.pipelines && s'.pipelines[p].workspace == w && q in s'.pipelines[p].required ==>
      && p in s.pipelines && s.pipelines[p].workspace == w && s.pipelines[p].target == s'.pipelines[p].target
      && q in s.pipelines[p].required
  }

  /** Pipelines are only ever created fresh, retired, or given other purposes. */
  ghost predicate RowsEvolve(s: State, s': State) {
    && s.retired <= s'.retired
    && (forall p :: p in s.pipelines && p !in s'.pipelines ==> p in s'.retired)
    && (forall p :: p in s'.pipelines && p !in s.pipelines ==> p !in s.retired)
    && (forall p :: p in s.pipelines && p in s'.pipelines ==>
          s'.pipelines[p].workspace == s.pipelines[p].workspace && s'.pipelines[p].target == s.pipelines[p].target)
  }

  /** A step that respects the locks of `tx` keeps what `tx` has established. */
  lemma TxOkKept(s: State, s': State, tx: Tx)
    requires TxOk(s, tx) && RowsEvolve(s, s')
    requires forall w :: HoldsUpdate(tx, w) ==> NoNewUse(s, s', w)
    requires forall w :: HoldsShare(tx, w) ==> SamePurposes(s, s', w)
    requires forall p :: HoldsRow(tx, p) && p in s.pipelines ==> p in s'.pipelines && s'.pipelines[p] == s.pipelines[p]
    ensures TxOk(s', tx)
  {
    if tx.PurposeTx? {
      if !tx.phase.Unlocked? { assert HoldsUpdate(tx, tx.workspace); }
    } else {
      if !tx.progress.Begun? { assert HoldsShare(tx, tx.workspace); }
      if !tx.creates && !tx.progress.Begun? && !tx.progress.Shared? { assert HoldsRow(tx, tx.pipeline); }
    }
  }

  lemma TxsOkKept(s: State, s': State, t: TxId)
    requires TxsOk(s) && RowsEvolve(s, s')
    requires forall u :: u in s'.txs && u != t ==> u in s.txs && s'.txs[u] == s.txs[u]
    requires forall u, w :: u in s'.txs && u != t && HoldsUpdate(s'.txs[u], w) ==> NoNewUse(s, s', w)
    requires forall u, w :: u in s'.txs && u != t && HoldsShare(s'.txs[u], w) ==> SamePurposes(s, s', w)
    requires forall u, p :: u in s'.txs && u != t && HoldsRow(s'.txs[u], p) && p in s.pipelines ==>
               p in s'.pipelines && s'.pipelines[p] == s.pipelines[p]
    requires t in s'.txs ==> TxOk(s', s'.txs[t])
    ensures TxsOk(s')
  {
    forall u | u in s'.txs && u != t ensures TxOk(s', s'.txs[u]) {
      TxOkKept(s, s', s.txs[u]);
    }
  }

  // ---- Purpose changes -----------------------------------------------------------------------------------

  lemma PurposeStepFrame(s: State, t: TxId)
    requires t in s.txs && s.txs[t].PurposeTx?
    ensures var s' := AdvancePurpose(s, t);
            && s'.pipelines == s.pipelines && s'.retired == s.retired
            && forall w :: !HoldsUpdate(s.txs[t], w) ==> SamePurposes(s, s', w)
  {
  }

  /** A transaction that keeps its place in the table, and takes no lock that conflicts, keeps the locks exclusive. */
  lemma LocksKept(s: State, s': State, t: TxId)
    requires LocksExclusive(s)
    requires forall u :: u in s'.txs && u != t ==> u in s.txs && s'.txs[u] == s.txs[u]
    requires t in s'.txs ==> forall u :: u in s.txs && u != t ==> !Conflict(s'.txs[t], s.txs[u])
    ensures LocksExclusive(s')
  {
  }

  lemma PurposeStepLocks(s: State, t: TxId)
    requires LocksExclusive(s) && t in s.txs && s.txs[t].PurposeTx?
    ensures LocksExclusive(AdvancePurpose(s, t))
  {
    var s' := AdvancePurpose(s, t);
    if t in s'.txs {
      var tx, tx' := s.txs[t], s'.txs[t];
      assert tx' == tx.(phase := tx'.phase);
      forall u | u in s.txs && u != t ensures !Conflict(tx', s.txs[u]) {
        assert !Conflict(tx, s.txs[u]);
      }
    }
    LocksKept(s, s', t);
  }

  lemma PurposeStepIntegrity(s: State, t: TxId)
    requires Integrity(s) && t in s.txs && s.txs[t].PurposeTx? && PurposeTxOk(s, s.txs[t])
    ensures Integrity(AdvancePurpose(s, t))
  {
    var tx := s.txs[t];
    var s' := AdvancePurpose(s, t);
    forall p | p in s'.pipelines ensures Intact(s', s'.pipelines[p]) {
      assert Intact(s, s.pipelines[p]);
      if s'.purposes != s.purposes && tx.change.Update? && s.pipelines[p].workspace == tx.workspace && tx.purpose in s.pipelines[p].required {
        assert s.pipelines[p].target == Event ==> tx.change.eventCodes != [];
        assert s.pipelines[p].target == User ==> tx.change.profileProperty != "";
      }
    }
  }

  lemma PurposeStepTxOk(s: State, t: TxId)
    requires t in s.txs && s.txs[t].PurposeTx? && PurposeTxOk(s, s.txs[t])
    ensures t in AdvancePurpose(s, t).txs ==> TxOk(AdvancePurpose(s, t), AdvancePurpose(s, t).txs[t])
  {
  }

  lemma PurposeStepKeepsInv(s: State, t: TxId)
    requires Inv(s) && t in s.txs && s.txs[t].PurposeTx?
    ensures Inv(AdvancePurpose(s, t))
  {
    var s' := AdvancePurpose(s, t);
    assert TxOk(s, s.txs[t]);
    PurposeStepFrame(s, t);
    PurposeStepLocks(s, t);
    PurposeStepIntegrity(s, t);
    PurposeStepTxOk(s, t);
    forall u, w | u in s'.txs && u != t && HoldsShare(s'.txs[u], w) ensures SamePurposes(s, s', w) {
      assert s'.txs[u] == s.txs[u];
    }
    TxsOkKept(s, s', t);
  }

  // ---- Pipeline changes ------------------------------------------------------------------------------------

  /** A pipeline change only writes when it requires nothing, or holds the workspace in share mode. */
  lemma PipelineStepFrame(s: State, t: TxId)
    requires t in s.txs && s.txs[t].PipelineTx? && PipelineTxOk(s, s.txs[t]) && Fresh(s)
    ensures var s' := AdvancePipeline(s, t);
            && s'.purposes == s.purposes && s'.retired == s.retired && RowsEvolve(s, s')
            && (forall w :: !HoldsShare(s.txs[t], w) ==> NoNewUse(s, s', w))
            && (forall p :: p in s.pipelines && p != s.txs[t].pipeline ==> p in s'.pipelines && s'.pipelines[p] == s.pipelines[p])
  {
  }

  lemma PipelineStepLocks(s: State, t: TxId)
    requires LocksExclusive(s) && t in s.txs && s.txs[t].PipelineTx?
    ensures LocksExclusive(AdvancePipeline(s, t))
  {
    var s' := AdvancePipeline(s, t);
    if t in s'.txs {
      var tx, tx' := s.txs[t], s'.txs[t];
      assert tx' == tx.(progress := tx'.progress);
      forall u | u in s.txs && u != t ensures !Conflict(tx', s.txs[u]) {
        assert !Conflict(tx, s.txs[u]);
      }
    }
    LocksKept(s, s', t);
  }

  /** What the checks of a pipeline change have left true of the purposes it is about to write. */
  lemma ValidatedIsIntact(s: State, tx: Tx)
    requires Integrity(s) && tx.PipelineTx? && PipelineTxOk(s, tx) && tx.progress.Validated?
    ensures forall q :: q in tx.required ==> LocatedIn(s, tx.workspace, q, tx.target)
  {
    var current := tx.progress.current;
    forall q | q in tx.required ensures LocatedIn(s, tx.workspace, q, tx.target) {
      if q in current {
        assert Intact(s, s.pipelines[tx.pipeline]);
      } else {
        assert LocatedIn(s, tx.workspace, q, tx.target);
      }
    }
  }

  lemma PipelineStepIntegrity(s: State, t: TxId)
    requires Integrity(s) && t in s.txs && s.txs[t].PipelineTx? && PipelineTxOk(s, s.txs[t])
    ensures Integrity(AdvancePipeline(s, t))
  {
    var tx := s.txs[t];
    var s' := AdvancePipeline(s, t);
    if tx.progress.Validated? { ValidatedIsIntact(s, tx); }
    forall p | p in s'.pipelines ensures Intact(s', s'.pipelines[p]) {
      if p in s.pipelines { assert Intact(s, s.pipelines[p]); }
    }
  }

  lemma PipelineStepTxOk(s: State, t: TxId)
    requires t in s.txs && s.txs[t].PipelineTx? && PipelineTxOk(s, s.txs[t])
    ensures t in AdvancePipeline(s, t).txs ==> TxOk(AdvancePipeline(s, t), AdvancePipeline(s, t).txs[t])
  {
  }

  lemma PipelineStepKeepsInv(s: State, t: TxId)
    requires Inv(s) && t in s.txs && s.txs[t].PipelineTx?
    ensures Inv(AdvancePipeline(s, t))
  {
    var s' := AdvancePipeline(s, t);
    assert TxOk(s, s.txs[t]);
    PipelineStepFrame(s, t);
    PipelineStepLocks(s, t);
    PipelineStepIntegrity(s, t);
    PipelineStepTxOk(s, t);
    PipelineStepOthers(s, t);
    TxsOkKept(s, s', t);
  }

  lemma PipelineStepOthers(s: State, t: TxId)
    requires Inv(s) && t in s.txs && s.txs[t].PipelineTx?
    ensures var s' := AdvancePipeline(s, t);
            && (forall u :: u in s'.txs && u != t ==> u in s.txs && s'.txs[u] == s.txs[u])
            && (forall u, w :: u in s'.txs && u != t && HoldsUpdate(s'.txs[u], w) ==> NoNewUse(s, s', w))
            && (forall u, p :: u in s'.txs && u != t && HoldsRow(s'.txs[u], p) && p in s.pipelines ==>
                  p in s'.pipelines && s'.pipelines[p] == s.pipelines[p])
  {
    var s' := AdvancePipeline(s, t);
    assert TxOk(s, s.txs[t]);
    PipelineStepFrame(s, t);
    forall u, p | u in s'.txs && u != t && HoldsRow(s'.txs[u], p) && p in s.pipelines
      ensures p in s'.pipelines && s'.pipelines[p] == s.pipelines[p]
    {
      assert HoldsRow(s.txs[u], p);
    }
  }

  // ---- Everything else ---------------------------------------------------------------------------------------

  /** Transactions come and go without touching the tables. */
  lemma TableUntouched(s: State, s': State, t: TxId)
    requires Inv(s)
    requires s'.purposes == s.purposes && s'.pipelines == s.pipelines && s'.retired == s.retired
    requires forall u :: u in s'.txs && u != t ==> u in s.txs && s'.txs[u] == s.txs[u]
    requires t in s'.txs ==> TxOk(s', s'.txs[t]) && (forall u :: u in s.txs && u != t ==> !Conflict(s'.txs[t], s.txs[u]))
    ensures Inv(s')
  {
    LocksKept(s, s', t);
    TxsOkKept(s, s', t);
    forall p | p in s'.pipelines ensures Intact(s', s'.pipelines[p]) { assert Intact(s, s.pipelines[p]); }
  }

  lemma BeginsKeepInv(s: State, a: Action)
    requires Inv(s) && (a.BeginPurpose? || a.BeginCreate? || a.BeginUpdate? || a.Abort?)
    ensures Inv(Apply(s, a))
  {
    if Apply(s, a) != s {
      TableUntouched(s, Apply(s, a), a.tx);
    }
  }

  lemma CreateWorkspaceKeepsInv(s: State, w: WorkspaceId)
    requires Inv(s)
    ensures Inv(Apply(s, CreateWorkspace(w)))
  {
    var s' := Apply(s, CreateWorkspace(w));
    forall u | u in s'.txs ensures TxOk(s', s'.txs[u]) { TxOkKept(s, s', s.txs[u]); }
    forall p | p in s'.pipelines ensures Intact(s', s'.pipelines[p]) { assert Intact(s, s.pipelines[p]); }
  }

  lemma DeletionsKeepInv(s: State, a: Action)
    requires Inv(s) && (a.DeleteWorkspace? || a.DeletePipeline?)
    ensures Inv(Apply(s, a))
  {
    var s' := Apply(s, a);
    assert RowsEvolve(s, s');
    if s' != s {
      forall u | u in s'.txs ensures TxOk(s', s'.txs[u]) {
        var tx := s.txs[u];
        assert TxOk(s, tx);
        if a.DeleteWorkspace? {
          assert forall w :: HoldsShare(tx, w) ==> w != a.workspace;
          assert forall p :: HoldsRow(tx, p) ==> HoldsShare(tx, tx.workspace);
        }
        TxOkKept(s, s', tx);
      }
    }
  }

  lemma InvKept(s: State, a: Action)
    requires Inv(s)
    ensures Inv(Apply(s, a))
  {
    match a {
      case Advance(t) =>
        if t in s.txs {
          if s.txs[t].PurposeTx? { PurposeStepKeepsInv(s, t); } else { PipelineStepKeepsInv(s, t); }
        }
      case DeleteWorkspace(_) => DeletionsKeepInv(s, a);
      case DeletePipeline(_) => DeletionsKeepInv(s, a);
      case CreateWorkspace(w) => CreateWorkspaceKeepsInv(s, w);
      case _ => BeginsKeepInv(s, a);
    }
  }

  function Exec(acts: seq<Action>): State {
    if acts == [] then EMPTY else Apply(Exec(acts[..|acts| - 1]), acts[|acts| - 1])
  }

  lemma {:induction false} ReachableInv(acts: seq<Action>)
    ensures Inv(Exec(acts))
  {
    if acts != [] {
      ReachableInv(acts[..|acts| - 1]);
      InvKept(Exec(acts[..|acts| - 1]), acts[|acts| - 1]);
    }
  }

  /** In every interleaving, while a purpose change holds a workspace no other one does, and no pipeline change holds
      it either; and a pipeline row is held by one update at a time. */
  lemma LocksExclude(acts: seq<Action>, t: TxId, u: TxId)
    requires t in Exec(acts).txs && u in Exec(acts).txs && t != u
    ensures
      var a, b := Exec(acts).txs[t], Exec(acts).txs[u];
      && (forall w :: HoldsUpdate(a, w) ==> !HoldsUpdate(b, w) && !HoldsShare(b, w))
      && (forall p :: HoldsRow(a, p) ==> !HoldsRow(b, p))
  {
    ReachableInv(acts);
    var s := Exec(acts);
    assert !Conflict(s.txs[t], s.txs[u]);
  }

  /** Whatever the interleaving of changes to purposes and to pipelines, the purposes that pipelines
      require exist in their workspace and have the location that they read. */
  lemma RequiredPurposesExist(acts: seq<Action>, p: PipelineId, q: PurposeId)
    requires p in Exec(acts).pipelines && q in Exec(acts).pipelines[p].required
    ensures
      var s := Exec(acts);
      var row := s.pipelines[p];
      && q in s.purposes && s.purposes[q].workspace == row.workspace
      && (row.target == Event ==> s.purposes[q].eventCodes != [])
      && (row.target == User ==> s.purposes[q].profileProperty != "")
  {
    ReachableInv(acts);
    assert Intact(Exec(acts), Exec(acts).pipelines[p]);
  }

  // ---- The fast check refines the full one --------------------------------------------------------------------

  /** What the transaction tests of the given purposes. */
  ghost predicate Accepts(s: State, w: WorkspaceId, target: Target, purposes: seq<PurposeId>) {
    forall q :: q in purposes ==> LocatedIn(s, w, q, target)
  }

  /** In every reachable state, for every pipeline and every set of purposes it is updated to, validating the
      added purposes accepts the update if and only if validating all of them does. */
  lemma FastCheckRefinesFull(acts: seq<Action>, p: PipelineId, required: seq<PurposeId>)
    requires p in Exec(acts).pipelines
    ensures
      var s := Exec(acts);
      var row := s.pipelines[p];
      Accepts(s, row.workspace, row.target, Added(row.required, required)) <==>
      Accepts(s, row.workspace, row.target, required)
  {
    ReachableInv(acts);
    var s := Exec(acts);
    var row := s.pipelines[p];
    assert Intact(s, row);
    var added := Added(row.required, required);
    assert forall q :: q in required ==> q in row.required || q in added;
  }

  /** Nor does it make a difference in the middle of a transaction, whatever others do meanwhile: at each of its
      two tests an update is rolled back exactly if some purpose at all, added or kept, fails that test. */
  lemma FastTestsAreFullTests(acts: seq<Action>, t: TxId)
    requires t in Exec(acts).txs && Exec(acts).txs[t].PipelineTx?
    ensures
      var s, tx := Exec(acts), Exec(acts).txs[t];
      match tx.progress
      case RowLocked(current, added) =>
        (t !in Apply(s, Advance(t)).txs <==> exists q :: q in tx.required && !ExistsIn(s, tx.workspace, q))
      case Existing(current, added) =>
        (t !in Apply(s, Advance(t)).txs <==> exists q :: q in tx.required && !LocatedIn(s, tx.workspace, q, tx.target))
      case _ => true
  {
    ReachableInv(acts);
    var s, tx := Exec(acts), Exec(acts).txs[t];
    assert TxOk(s, tx);
    if tx.progress.RowLocked? || tx.progress.Existing? {
      forall q | q in tx.progress.current ensures LocatedIn(s, tx.workspace, q, tx.target) {
        assert Intact(s, s.pipelines[tx.pipeline]);
      }
    }
  }
}
