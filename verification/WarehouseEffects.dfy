/** What each transaction on the warehouse operations leaves in the rows, and when it leaves them as they are
    (core/core.go:1710-1774, core/core.go:1846-1918, core/core.go:2067-2185, core/connection.go:679-775,
    core/workspace.go:1778-1835). */
module WarehouseEffects {
  import opened Prelude
  import opened WarehouseOperations

  /** No other row changes. */
  ghost predicate OtherWorkspacesStay(s: Store, t: Store, w: WorkspaceId) {
    && t.workspaces.Keys == s.workspaces.Keys
    && forall x :: x in s.workspaces && x != w ==> t.workspaces[x] == s.workspaces[x]
  }

  // ---- Resolutions -------------------------------------------------------------------------------------------------

  /** A resolution is started exactly if the workspace exists with nothing pending; and then it has an open run. */
  lemma ResolutionStarts(s: Store, w: WorkspaceId, id: OperationId)
    requires id !in s.used
    ensures
      var t := Apply(s, StartResolution(w, id));
      if w in s.workspaces && s.workspaces[w].resolution == None && s.workspaces[w].alteration == None then
        && OtherWorkspacesStay(s, t, w) && t.workspaces[w] == s.workspaces[w].(resolution := Some(id))
        && id in t.runs && t.runs[id].workspace == w && t.runs[id].endTime == None && t.runs[id].error == ""
        && (forall x :: x != id ==> (x in t.runs <==> x in s.runs) && (x in s.runs ==> t.runs[x] == s.runs[x]))
        && t == s.(workspaces := t.workspaces, runs := t.runs, used := s.used + {id})
      else t == s
  {
  }

  /** In every history a resolution is ended exactly if it is pending; and then its run has the time and the error. */
  lemma ResolutionEnds(acts: seq<Action>, w: WorkspaceId, id: OperationId, error: string, now: Time)
    ensures
      var s, t := Exec(acts), Apply(Exec(acts), FinishResolution(w, id, error, now));
      if w in s.workspaces && s.workspaces[w].resolution == Some(id) then
        && OtherWorkspacesStay(s, t, w) && t.workspaces[w] == s.workspaces[w].(resolution := None)
        && id in t.runs && t.runs[id].workspace == w && t.runs[id].endTime == Some(now) && t.runs[id].error == error
        && (forall x :: x != id ==> (x in t.runs <==> x in s.runs) && (x in s.runs ==> t.runs[x] == s.runs[x]))
        && t == s.(workspaces := t.workspaces, runs := t.runs)
      else t == s
  {
    ReachableInv(acts);
    assert Resolving(Exec(acts), w, id) <==> OpenRun(Exec(acts), w, id);
  }

  // ---- Alterations -------------------------------------------------------------------------------------------------

  /** The sources are counted exactly if all of them exist, as far as the transaction can see. */
  lemma SourcesAreCounted(s: Store, tx: TxId, w: WorkspaceId, id: OperationId, request: Request, sources: Sources)
    requires tx !in s.open && Belong(s, w, sources)
    ensures
      Apply(s, CountSources(tx, w, id, request, sources)) ==
      if forall p :: p in sources ==> sources[p] in s.connections
      then s.(open := s.open[tx := StartTx(w, id, request, sources)]) else s
  {
  }

  /** The alteration is started exactly if the workspace exists with nothing pending; as it was asked for. */
  lemma AlterationStarts(s: Store, tx: TxId)
    requires tx in s.open && s.open[tx].StartTx? && s.open[tx].id !in s.used
    ensures
      var t, start := Apply(s, CommitStart(tx)), s.open[tx];
      var w := start.workspace;
      && tx !in t.open
      && if w in s.workspaces && s.workspaces[w].resolution == None && s.workspaces[w].alteration == None then
           && OtherWorkspacesStay(s, t, w) && t.workspaces[w].alteration.Some?
           && var a := t.workspaces[w].alteration.value;
              && t.workspaces[w] == s.workspaces[w].(alteration := Some(a), alterationError := "")
              && a.id == start.id && a.request == start.request && a.sources == start.sources
              && a.knownSources == {start.sources} && a.knownIdentifiers == {s.workspaces[w].identifiers}
              && t == s.(workspaces := t.workspaces, open := s.open - {tx}, used := s.used + {start.id})
         else t == s.(open := s.open - {tx})
  {
  }

  /** An executor takes what its node knows of the alteration that is pending. */
  lemma ExecutorTakes(s: Store, x: ExecutorId, w: WorkspaceId, sources: Sources, identifiers: seq<Path>, error: string)
    requires x !in s.executors && w in s.workspaces && s.workspaces[w].alteration.Some?
    requires sources in s.workspaces[w].alteration.value.knownSources
    requires identifiers in s.workspaces[w].alteration.value.knownIdentifiers
    ensures
      var t, a := Apply(s, Execute(x, w, sources, identifiers, error)), s.workspaces[w].alteration.value;
      && x in t.executors && t == s.(executors := s.executors[x := t.executors[x]])
      && t.executors[x].workspace == w && t.executors[x].id == a.id && t.executors[x].sources == sources
      && t.executors[x].error == error
      && t.executors[x].identifiers == IdentifierRenaming.RenamedIn(a.request.schema, a.request.operations, identifiers)
  {
  }

  /** An attempt. An alteration that is not pending any more is let go. One that failed in the warehouse is ended with its
      error, and installs nothing. Another one installs all that it is to, or is tried again. */
  lemma AttemptLeaves(s: Store, x: ExecutorId)
    requires x in s.executors
    ensures
      var t, e := Apply(s, Finalize(x)), s.executors[x];
      var pending := e.workspace in s.workspaces && s.workspaces[e.workspace].alteration.Some?
                     && s.workspaces[e.workspace].alteration.value.id == e.id;
      if !pending then t == s.(executors := s.executors - {x})
      else
        var was := s.workspaces[e.workspace];
        if e.error != "" then
          && OtherWorkspacesStay(s, t, e.workspace)
          && t.workspaces[e.workspace] == was.(alteration := None, alterationError := e.error)
          && t == s.(workspaces := t.workspaces, executors := s.executors - {x})
        else if exists p :: p in e.sources && e.sources[p] !in s.connections then t == s
        else
          && OtherWorkspacesStay(s, t, e.workspace)
          && t.workspaces[e.workspace] == was.(
               schema := was.alteration.value.request.schema, roles := was.alteration.value.request.roles,
               identifiers := e.identifiers, primarySources := e.sources, alteration := None, alterationError := "")
          && t == s.(workspaces := t.workspaces, executors := s.executors - {x})
  {
  }

  /** In every history: while an alteration is pending some leader can end it, whatever the warehouse answered before. */
  lemma FailureCanBeRecorded(acts: seq<Action>, w: WorkspaceId, x: ExecutorId, sources: Sources, identifiers: seq<Path>,
                             error: string)
    requires w in Exec(acts).workspaces && Exec(acts).workspaces[w].alteration.Some? && x !in Exec(acts).executors
    requires sources in Exec(acts).workspaces[w].alteration.value.knownSources && error != ""
    requires identifiers in Exec(acts).workspaces[w].alteration.value.knownIdentifiers
    ensures
      var s := Exec(acts);
      var t := Apply(Apply(s, Execute(x, w, sources, identifiers, error)), Finalize(x));
      && w in t.workspaces && t.workspaces[w] == s.workspaces[w].(alteration := None, alterationError := error)
      && t.executors == s.executors
  {
    var s := Exec(acts);
    ExecutorTakes(s, x, w, sources, identifiers, error);
    AttemptLeaves(Apply(s, Execute(x, w, sources, identifiers, error)), x);
  }

  // ---- Identifiers -------------------------------------------------------------------------------------------------

  /** An update of the identifiers goes on exactly if nothing is pending; then it writes them, whatever is pending by then. */
  lemma IdentifiersAreWritten(s: Store, tx: TxId, w: WorkspaceId, identifiers: seq<Path>)
    requires tx !in s.open && w in s.workspaces
    ensures
      Apply(s, CheckIdentifiers(tx, w, identifiers)) ==
      if s.workspaces[w].resolution == None && s.workspaces[w].alteration == None
      then s.(open := s.open[tx := IdentifiersTx(w, identifiers)]) else s
  {
  }

  lemma IdentifiersCommit(s: Store, tx: TxId)
    requires tx in s.open && s.open[tx].IdentifiersTx?
    ensures
      var t, w := Apply(s, CommitIdentifiers(tx)), s.open[tx].workspace;
      && tx !in t.open
      && if w in s.workspaces then
           && OtherWorkspacesStay(s, t, w) && t.workspaces[w].identifiers == s.open[tx].identifiers
           && t.workspaces[w] == s.workspaces[w].(identifiers := s.open[tx].identifiers, alteration := t.workspaces[w].alteration)
           && (t.workspaces[w].alteration.Some? <==> s.workspaces[w].alteration.Some?)
           && (s.workspaces[w].alteration.Some? ==>
                 var a, b := s.workspaces[w].alteration.value, t.workspaces[w].alteration.value;
                 b == a.(knownIdentifiers := a.knownIdentifiers + {s.open[tx].identifiers}))
           && t == s.(workspaces := t.workspaces, open := s.open - {tx})
         else t == s.(open := s.open - {tx})
  {
  }

  // ---- Workspaces and connections ----------------------------------------------------------------------------------

  lemma Creations(s: Store, w: WorkspaceId, schema: Schema, roles: Roles, c: ConnectionId)
    ensures
      Apply(s, CreateWorkspace(w, schema, roles)) ==
      if w in s.workspaces then s
      else s.(workspaces := s.workspaces[w := Workspace(schema, roles, [], map[], None, None, "")])
    ensures
      Apply(s, CreateConnection(c, w)) ==
      if c in s.ever || w !in s.workspaces then s
      else s.(connections := s.connections[c := w], ever := s.ever[c := w])
  {
  }

  lemma WorkspaceIsDeleted(s: Store, w: WorkspaceId)
    ensures
      var t := Apply(s, DeleteWorkspace(w));
      && t == s.(workspaces := t.workspaces, runs := t.runs, connections := t.connections)
      && (forall x :: x in t.workspaces <==> x in s.workspaces && x != w)
      && (forall x :: x in t.workspaces ==> t.workspaces[x] == s.workspaces[x])
      && (forall id :: id in t.runs <==> id in s.runs && s.runs[id].workspace != w)
      && (forall id :: id in t.runs ==> t.runs[id] == s.runs[id])
      && (forall c :: c in t.connections <==> c in s.connections && s.connections[c] != w)
      && (forall c :: c in t.connections ==> t.connections[c] == s.connections[c])
  {
  }

  /** A deleted connection is gone, and no more a source of its workspace; everything else stays. */
  lemma ConnectionIsDeleted(s: Store, c: ConnectionId)
    requires c in s.connections
    ensures
      var t, w := Apply(s, DeleteConnection(c)), s.connections[c];
      && t == s.(workspaces := t.workspaces, connections := s.connections - {c}) && OtherWorkspacesStay(s, t, w)
      && (w in s.workspaces ==>
            var was, now := s.workspaces[w], t.workspaces[w];
            && now == was.(primarySources := now.primarySources, alteration := now.alteration)
            && (forall p :: p in now.primarySources <==> p in was.primarySources && was.primarySources[p] != c)
            && (forall p :: p in now.primarySources ==> now.primarySources[p] == was.primarySources[p])
            && (now.alteration.Some? <==> was.alteration.Some?)
            && (was.alteration.Some? ==>
                  var a, b := was.alteration.value, now.alteration.value;
                  && b == a.(sources := b.sources, knownSources := b.knownSources)
                  && (forall p :: p in b.sources <==> p in a.sources && a.sources[p] != c)
                  && (forall p :: p in b.sources ==> b.sources[p] == a.sources[p])))
  {
  }
}
