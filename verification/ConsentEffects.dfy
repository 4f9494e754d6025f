/** What each statement of a consent transaction leaves, and when it refuses (core/consent_purpose.go:60-280,
    core/pipeline.go:905-919, core/pipeline.go:1464-1556). */
module ConsentEffects {
  import opened Prelude
  import opened ConsentPurposes
  import opened ConsentIntegrity

  // ---- Purposes --------------------------------------------------------------------------------------------------

  /** The commit of a change to a purpose: what the purpose is then. Everything else stays, and the transaction is over. */
  lemma PurposeCommits(s: State, t: TxId)
    requires t in s.txs && s.txs[t].PurposeTx? && s.txs[t].phase.Checked?
    ensures
      var tx, u := s.txs[t], Apply(s, Advance(t));
      var q, here := tx.purpose, tx.purpose in s.purposes && s.purposes[tx.purpose].workspace == tx.workspace;
      && t !in u.txs && u == s.(purposes := u.purposes, txs := s.txs - {t})
      && (forall x :: x != q ==> (x in u.purposes <==> x in s.purposes) && (x in s.purposes ==> u.purposes[x] == s.purposes[x]))
      && (tx.change.Add? ==>
            && q in u.purposes
            && (q in s.purposes ==> u.purposes[q] == s.purposes[q])
            && (q !in s.purposes ==>
                  u.purposes[q].workspace == tx.workspace
                  && u.purposes[q].eventCodes == tx.change.purpose.eventCodes
                  && u.purposes[q].profileProperty == tx.change.purpose.profileProperty))
      && (tx.change.Update? ==>
            && (q in u.purposes <==> q in s.purposes)
            && (here ==>
                  u.purposes[q].workspace == tx.workspace
                  && u.purposes[q].eventCodes == tx.change.eventCodes
                  && u.purposes[q].profileProperty == tx.change.profileProperty)
            && (q in s.purposes && !here ==> u.purposes[q] == s.purposes[q]))
      && (tx.change.Delete? ==>
            && (q in u.purposes <==> q in s.purposes && !here)
            && (q in u.purposes ==> u.purposes[q] == s.purposes[q]))
  {
  }

  /** Some pipeline of the workspace requires the purpose, of these targets. */
  ghost predicate Required(s: State, w: WorkspaceId, q: PurposeId, targets: set<Target>) {
    exists p :: p in s.pipelines && s.pipelines[p].workspace == w && q in s.pipelines[p].required && s.pipelines[p].target in targets
  }

  /** The change may not be made: it deletes a purpose that is required, or takes a location from one that is
      required by a pipeline that reads it. */
  ghost predicate Refused(s: State, tx: Tx)
    requires tx.PurposeTx?
  {
    match tx.change
    case Add(_) => false
    case Update(codes, property) =>
      || (codes == [] && Required(s, tx.workspace, tx.purpose, {Event}))
      || (property == "" && Required(s, tx.workspace, tx.purpose, {User}))
    case Delete => Required(s, tx.workspace, tx.purpose, {Event, User})
  }

  /** No statement before the commit changes a row. Under the lock, each goes on or, if the change may not be made for
      what it tests, gives up. */
  lemma PurposeGoesOn(s: State, t: TxId)
    requires t in s.txs && s.txs[t].PurposeTx? && !s.txs[t].phase.Checked?
    ensures
      var tx, u := s.txs[t], Apply(s, Advance(t));
      && u == s.(txs := u.txs)
      && (forall x :: x != t ==> (x in u.txs <==> x in s.txs) && (x in s.txs ==> u.txs[x] == s.txs[x]))
      && (t in u.txs ==> u.txs[t] == tx.(phase := u.txs[t].phase))
      && match tx.phase
         case Unlocked =>
           && (t !in u.txs <==> tx.workspace !in s.workspaces)
           && (t in u.txs ==>
                 u.txs[t].phase == if exists x :: x in s.txs && x != t
                                              && (HoldsUpdate(s.txs[x], tx.workspace) || HoldsShare(s.txs[x], tx.workspace))
                                   then Unlocked else Locked)
         case Locked =>
           (match tx.change
            case Add(_) => t in u.txs && u.txs[t].phase == Checked
            case Update(codes, _) =>
              && (t !in u.txs <==> codes == [] && Required(s, tx.workspace, tx.purpose, {Event}))
              && (t in u.txs ==> u.txs[t].phase == EventChecked)
            case Delete =>
              && (t !in u.txs <==> Required(s, tx.workspace, tx.purpose, {Event, User}))
              && (t in u.txs ==> u.txs[t].phase == Checked))
         case EventChecked =>
           && (t !in u.txs <==>
                 tx.change.Update? && tx.change.profileProperty == "" && Required(s, tx.workspace, tx.purpose, {User}))
           && (t in u.txs ==> u.txs[t].phase == Checked)
         case Checked => false
  {
    var w, q := s.txs[t].workspace, s.txs[t].purpose;
    assert Required(s, w, q, {Event}) <==> InUseBy(s, w, q, Event);
    assert Required(s, w, q, {User}) <==> InUseBy(s, w, q, User);
    assert Required(s, w, q, {Event, User}) <==> InUse(s, w, q);
  }

  /** In every history, a transaction that is ready to commit makes a change that is not refused; it holds the lock under
      which that stays so. */
  lemma ReadyIsNotRefused(acts: seq<Action>, t: TxId)
    requires t in Exec(acts).txs && Exec(acts).txs[t].PurposeTx? && Exec(acts).txs[t].phase.Checked?
    ensures !Refused(Exec(acts), Exec(acts).txs[t])
  {
    ReachableInv(acts);
    var s, tx := Exec(acts), Exec(acts).txs[t];
    assert PurposeTxOk(s, tx) by { assert TxOk(s, tx); }
    assert Required(s, tx.workspace, tx.purpose, {Event}) ==> InUseBy(s, tx.workspace, tx.purpose, Event);
    assert Required(s, tx.workspace, tx.purpose, {User}) ==> InUseBy(s, tx.workspace, tx.purpose, User);
    assert Required(s, tx.workspace, tx.purpose, {Event, User}) ==> InUse(s, tx.workspace, tx.purpose);
  }

  // ---- Pipelines -------------------------------------------------------------------------------------------------

  /** The transaction writes with its next statement: it was validated, or it requires nothing and can have its row. */
  predicate Writes(s: State, t: TxId)
    requires t in s.txs && s.txs[t].PipelineTx?
  {
    s.txs[t].progress.Validated?
    || (s.txs[t].progress.Begun? && s.txs[t].required == [] && CanLockRow(s, t, s.txs[t].pipeline))
  }

  /** The commit of a creation or an update: the pipeline requires what it was to require. Everything else stays. */
  lemma PipelineCommits(s: State, t: TxId)
    requires t in s.txs && s.txs[t].PipelineTx? && Writes(s, t)
    ensures
      var tx, u := s.txs[t], Apply(s, Advance(t));
      var p := tx.pipeline;
      && t !in u.txs && u == s.(pipelines := u.pipelines, txs := s.txs - {t})
      && (forall x :: x != p ==> (x in u.pipelines <==> x in s.pipelines) && (x in s.pipelines ==> u.pipelines[x] == s.pipelines[x]))
      && (tx.creates ==>
            && (p in u.pipelines <==> p in s.pipelines || (p !in s.retired && tx.workspace in s.workspaces))
            && (p in s.pipelines ==> u.pipelines[p] == s.pipelines[p])
            && (p in u.pipelines && p !in s.pipelines ==>
                  u.pipelines[p].workspace == tx.workspace && u.pipelines[p].target == tx.target
                  && u.pipelines[p].required == tx.required))
      && (!tx.creates ==>
            && (p in u.pipelines <==> p in s.pipelines)
            && (p in s.pipelines ==>
                  u.pipelines[p].workspace == s.pipelines[p].workspace && u.pipelines[p].target == s.pipelines[p].target
                  && u.pipelines[p].required == tx.required))
  {
  }

  /** Until then no statement changes a row; each goes on, waits for its lock, or gives up. */
  lemma PipelineGoesOn(s: State, t: TxId)
    requires t in s.txs && s.txs[t].PipelineTx? && !Writes(s, t)
    ensures
      var tx, u := s.txs[t], Apply(s, Advance(t));
      && u == s.(txs := u.txs)
      && (forall x :: x != t ==> (x in u.txs <==> x in s.txs) && (x in s.txs ==> u.txs[x] == s.txs[x]))
      && (t in u.txs ==> u.txs[t] == tx.(progress := u.txs[t].progress))
      && match tx.progress
         case Begun =>
           if tx.required == [] then u == s
           else
             && (t !in u.txs <==> tx.workspace !in s.workspaces)
             && (t in u.txs ==>
                   u.txs[t].progress == if exists x :: x in s.txs && x != t && HoldsUpdate(s.txs[x], tx.workspace)
                                        then Begun else Shared)
         case Shared =>
           && (t !in u.txs <==> !tx.creates && tx.pipeline !in s.pipelines)
           && (t in u.txs && u.txs[t].progress != Shared ==>
                 && u.txs[t].progress.RowLocked?
                 && u.txs[t].progress.current == (if tx.creates then [] else s.pipelines[tx.pipeline].required)
                 && forall q :: q in u.txs[t].progress.added <==> q in tx.required && q !in u.txs[t].progress.current)
           && (t in u.txs ==>
                 (u.txs[t].progress == Shared <==>
                    !tx.creates && exists x :: x in s.txs && x != t && HoldsRow(s.txs[x], tx.pipeline)))
         case RowLocked(current, added) =>
           && (t !in u.txs <==> exists q :: q in added && !ExistsIn(s, tx.workspace, q))
           && (t in u.txs ==> u.txs[t].progress == Existing(current, added))
         case Existing(current, added) =>
           && (t !in u.txs <==> exists q :: q in added && ExistsIn(s, tx.workspace, q) && !Located(s.purposes[q], tx.target))
           && (t in u.txs ==> u.txs[t].progress == Validated(current))
         case Validated(_) => false
  {
  }

  /** In every history an update that was validated finds its pipeline, and writes. */
  lemma ValidatedUpdateWrites(acts: seq<Action>, t: TxId)
    requires t in Exec(acts).txs && Exec(acts).txs[t].PipelineTx? && Exec(acts).txs[t].progress.Validated?
    requires !Exec(acts).txs[t].creates
    ensures
      var tx, u := Exec(acts).txs[t], Apply(Exec(acts), Advance(t));
      tx.pipeline in u.pipelines && u.pipelines[tx.pipeline] == Pipeline(tx.workspace, tx.target, tx.required)
  {
    ReachableInv(acts);
    assert TxOk(Exec(acts), Exec(acts).txs[t]);
  }

  // ---- Everything else -------------------------------------------------------------------------------------------

  /** What a transaction is begun with. An update takes workspace and target from the row. */
  lemma Begins(s: State, t: TxId, w: WorkspaceId, q: PurposeId, change: Change, p: PipelineId, target: Target,
               required: seq<PurposeId>)
    requires t !in s.txs
    ensures Apply(s, BeginPurpose(t, w, q, change)) == s.(txs := s.txs[t := PurposeTx(w, q, change, Unlocked)])
    ensures Apply(s, BeginCreate(t, w, p, target, required)) == s.(txs := s.txs[t := PipelineTx(w, p, true, target, required, Begun)])
    ensures p in s.pipelines ==>
      Apply(s, BeginUpdate(t, p, required))
      == s.(txs := s.txs[t := PipelineTx(s.pipelines[p].workspace, p, false, s.pipelines[p].target, required, Begun)])
  {
  }

  /** A deletion takes a workspace with all that is in it, unless somebody holds its lock. */
  lemma Deletes(s: State, w: WorkspaceId)
    ensures
      var u := Apply(s, DeleteWorkspace(w));
      if exists x :: x in s.txs && (HoldsUpdate(s.txs[x], w) || HoldsShare(s.txs[x], w)) then u == s
      else
        && u.txs == s.txs && w !in u.workspaces && (forall x :: x != w ==> (x in u.workspaces <==> x in s.workspaces))
        && (forall q :: q in u.purposes <==> q in s.purposes && s.purposes[q].workspace != w)
        && (forall q :: q in u.purposes ==> u.purposes[q] == s.purposes[q])
        && (forall p :: p in u.pipelines <==> p in s.pipelines && s.pipelines[p].workspace != w)
        && (forall p :: p in u.pipelines ==> u.pipelines[p] == s.pipelines[p])
        && (forall p :: p in u.retired <==> p in s.retired || (p in s.pipelines && s.pipelines[p].workspace == w))
  {
  }

  lemma DeletesPipeline(s: State, p: PipelineId)
    ensures
      var u := Apply(s, DeletePipeline(p));
      if p !in s.pipelines || exists x :: x in s.txs && HoldsRow(s.txs[x], p) then u == s
      else
        && u == s.(pipelines := u.pipelines, retired := s.retired + {p}) && p !in u.pipelines
        && forall x :: x != p ==> (x in u.pipelines <==> x in s.pipelines) && (x in s.pipelines ==> u.pipelines[x] == s.pipelines[x])
  {
  }

  lemma Aborts(s: State, t: TxId, w: WorkspaceId)
    ensures Apply(s, Abort(t)) == s.(txs := s.txs - {t})
    ensures Apply(s, CreateWorkspace(w)) == s.(workspaces := s.workspaces + {w})
  {
  }
}
