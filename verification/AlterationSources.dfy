/** The primary sources of an alteration of the profile schema, from its start to its end, with connections deleted
    meanwhile (core/core.go:1664-1681, core/core.go:1710-1774, core/core.go:2067-2139, core/connection.go:738-771). */
module AlterationSources {
  import opened Prelude
  import opened IdentifierRenaming
  import opened WarehouseOperations

  // ---- Sources that exist --------------------------------------------------------------------------------------------

  ghost predicate ConnectionsKnown(s: Store) {
    forall c :: c in s.connections ==> c in s.ever && s.ever[c] == s.connections[c]
  }

  /** The primary sources of a workspace exist; they, the pending ones and those in memory are its own connections. */
  ghost predicate RowPlaced(s: Store, w: WorkspaceId)
    requires w in s.workspaces
  {
    var ws := s.workspaces[w];
    && AllExist(s, ws.primarySources) && Belong(s, w, ws.primarySources)
    && (ws.alteration.Some? ==>
        Belong(s, w, ws.alteration.value.sources)
        && forall m :: m in ws.alteration.value.knownSources ==> Belong(s, w, m))
  }

  ghost predicate RowsPlaced(s: Store) { forall w :: w in s.workspaces ==> RowPlaced(s, w) }

  ghost predicate HeldPlaced(s: Store) {
    && (forall x :: x in s.executors ==> ExecutorPlaced(s, s.executors[x]))
    && (forall t :: t in s.open && s.open[t].StartTx? ==> Belong(s, s.open[t].workspace, s.open[t].sources))
  }

  ghost predicate Placed(s: Store) { ConnectionsKnown(s) && RowsPlaced(s) && HeldPlaced(s) && PendingUsed(s) }

  lemma EverGrows(s: Store, a: Action)
    ensures forall c :: c in s.ever ==> c in Apply(s, a).ever && Apply(s, a).ever[c] == s.ever[c]
  {
  }

  /** A connection that is gone does not come back. */
  lemma GoneStaysGone(s: Store, a: Action, c: ConnectionId)
    requires c in s.ever && c !in s.connections
    ensures c !in Apply(s, a).connections
  {
  }

  lemma ConnectionsKnownKept(s: Store, a: Action)
    requires ConnectionsKnown(s)
    ensures ConnectionsKnown(Apply(s, a))
  {
  }

  lemma WithoutBelongs(s: Store, w: WorkspaceId, m: Sources, c: ConnectionId)
    requires Belong(s, w, m)
    ensures Belong(s, w, Without(m, c))
  {
  }

  /** What exists, and belongs to another workspace than the one that loses connections, still exists. */
  lemma DeletionPlaces(s: Store, c: ConnectionId, w: WorkspaceId)
    requires ConnectionsKnown(s) && c in s.connections && w in s.workspaces && RowPlaced(s, w)
    ensures w in ApplyDelete(s, c).workspaces && RowPlaced(ApplyDelete(s, c), w)
  {
    var t := ApplyDelete(s, c);
    var ws := s.workspaces[w];
    if w == s.connections[c] {
      assert t.workspaces[w] == DeletedFrom(ws, c);
      WithoutBelongs(s, w, ws.primarySources, c);
      if ws.alteration.Some? {
        WithoutBelongs(s, w, ws.alteration.value.sources, c);
        forall m | m in ws.alteration.value.knownSources ensures Belong(s, w, Without(m, c)) { WithoutBelongs(s, w, m, c); }
      }
    } else {
      assert t.workspaces[w] == ws;
    }
  }

  lemma AttemptPlaces(s: Store, x: ExecutorId, w: WorkspaceId)
    requires x in s.executors && HeldPlaced(s) && w in s.workspaces && RowPlaced(s, w)
    ensures w in ApplyFinalize(s, x).workspaces && RowPlaced(ApplyFinalize(s, x), w)
  {
    var e, t := s.executors[x], ApplyFinalize(s, x);
    assert t.connections == s.connections && t.ever == s.ever;
    if w != e.workspace || t.workspaces == s.workspaces {
      assert t.workspaces[w] == s.workspaces[w];
    } else {
      assert t.workspaces[w].alteration.None?;
      assert t.workspaces[w].primarySources == if e.error == "" then e.sources else s.workspaces[w].primarySources;
    }
  }

  lemma StartPlaces(s: Store, tx: Transaction, w: WorkspaceId)
    requires tx.StartTx? && Belong(s, tx.workspace, tx.sources) && w in s.workspaces && RowPlaced(s, w)
    ensures w in ApplyStart(s, tx).workspaces && RowPlaced(ApplyStart(s, tx), w)
  {
  }

  lemma IdentifiersPlace(s: Store, tx: Transaction, w: WorkspaceId)
    requires tx.IdentifiersTx? && w in s.workspaces && RowPlaced(s, w)
    ensures w in ApplyIdentifiers(s, tx).workspaces && RowPlaced(ApplyIdentifiers(s, tx), w)
  {
  }

  /** Actions that leave the rows as they are, or do not touch what counts here, and take no connection away. */
  lemma OtherRowsPlaced(s: Store, t: Store, w: WorkspaceId)
    requires ConnectionsKnown(s) && w in s.workspaces && RowPlaced(s, w) && w in t.workspaces
    requires t.workspaces[w].primarySources == s.workspaces[w].primarySources
    requires t.workspaces[w].alteration == s.workspaces[w].alteration
    requires forall c :: c in s.connections && s.ever[c] == w ==> c in t.connections
    requires forall c :: c in s.ever ==> c in t.ever && t.ever[c] == s.ever[c]
    ensures RowPlaced(t, w)
  {
  }

  predicate TouchesSources(a: Action) {
    a.DeleteConnection? || a.Finalize? || a.CommitStart? || a.CommitIdentifiers?
  }

  lemma OthersKeepSources(s: Store, a: Action, w: WorkspaceId)
    requires !TouchesSources(a) && ConnectionsKnown(s)
    requires w in s.workspaces && w in Apply(s, a).workspaces
    ensures
      var t := Apply(s, a);
      && t.workspaces[w].primarySources == s.workspaces[w].primarySources
      && t.workspaces[w].alteration == s.workspaces[w].alteration
      && forall c :: c in s.connections && s.ever[c] == w ==> c in t.connections
  {
  }

  lemma NewRowIsEmpty(s: Store, a: Action, w: WorkspaceId)
    requires w !in s.workspaces && w in Apply(s, a).workspaces
    ensures Apply(s, a).workspaces[w].primarySources == map[] && Apply(s, a).workspaces[w].alteration == None
  {
    assert a.CreateWorkspace?;
  }

  lemma RowPlacedKept(s: Store, a: Action, w: WorkspaceId)
    requires Placed(s) && w in s.workspaces && w in Apply(s, a).workspaces
    ensures RowPlaced(Apply(s, a), w)
  {
    assert RowPlaced(s, w);
    if a.DeleteConnection? {
      if a.connection in s.connections { DeletionPlaces(s, a.connection, w); }
    } else if a.Finalize? {
      if a.executor in s.executors { AttemptPlaces(s, a.executor, w); }
    } else if a.CommitStart? {
      if a.tx in s.open && s.open[a.tx].StartTx? { StartPlaces(Close(s, a.tx), s.open[a.tx], w); }
    } else if a.CommitIdentifiers? {
      if a.tx in s.open && s.open[a.tx].IdentifiersTx? { IdentifiersPlace(Close(s, a.tx), s.open[a.tx], w); }
    } else {
      EverGrows(s, a);
      OthersKeepSources(s, a, w);
      OtherRowsPlaced(s, Apply(s, a), w);
    }
  }

  lemma RowsPlacedKept(s: Store, a: Action)
    requires Placed(s)
    ensures RowsPlaced(Apply(s, a))
  {
    forall w | w in Apply(s, a).workspaces ensures RowPlaced(Apply(s, a), w) {
      if w in s.workspaces { RowPlacedKept(s, a, w); } else { NewRowIsEmpty(s, a, w); }
    }
  }

  ghost predicate ExecutorPlaced(s: Store, e: Executor) { Belong(s, e.workspace, e.sources) && e.id in s.used }

  /** Every executor was there before, or has its sources from the memory of a node. */
  lemma ExecutorsKept(s: Store, a: Action, x: ExecutorId)
    requires Placed(s) && x in Apply(s, a).executors
    ensures ExecutorPlaced(Apply(s, a), Apply(s, a).executors[x])
  {
    EverGrows(s, a);
    UsedGrows(s, a);
    if x in s.executors && Apply(s, a).executors[x] == s.executors[x] {
      assert ExecutorPlaced(s, s.executors[x]);
    } else {
      ExecutorsAreSpawned(s, a, x);
      var w := a.workspace;
      assert RowPlaced(s, w) && Altering(s, w, s.workspaces[w].alteration.value.id);
    }
  }

  lemma ExecutorsAreSpawned(s: Store, a: Action, x: ExecutorId)
    requires x in Apply(s, a).executors && !(x in s.executors && Apply(s, a).executors[x] == s.executors[x])
    ensures a.Execute? && a.workspace in s.workspaces && s.workspaces[a.workspace].alteration.Some?
    ensures
      var alteration, e := s.workspaces[a.workspace].alteration.value, Apply(s, a).executors[x];
      && a.sources in alteration.knownSources && a.identifiers in alteration.knownIdentifiers
      && e == Executor(a.workspace, alteration.id, a.sources,
           RenamedIn(alteration.request.schema, alteration.request.operations, a.identifiers), a.error)
  {
  }

  lemma StartsAreCounted(s: Store, a: Action, t: TxId)
    requires t in Apply(s, a).open && Apply(s, a).open[t].StartTx?
    requires !(t in s.open && s.open[t] == Apply(s, a).open[t])
    ensures Belong(s, Apply(s, a).open[t].workspace, Apply(s, a).open[t].sources)
  {
    assert a.CountSources?;
  }

  lemma StartsKept(s: Store, a: Action, t: TxId)
    requires Placed(s) && t in Apply(s, a).open && Apply(s, a).open[t].StartTx?
    ensures Belong(Apply(s, a), Apply(s, a).open[t].workspace, Apply(s, a).open[t].sources)
  {
    EverGrows(s, a);
    if !(t in s.open && s.open[t] == Apply(s, a).open[t]) { StartsAreCounted(s, a, t); }
    assert Belong(s, Apply(s, a).open[t].workspace, Apply(s, a).open[t].sources);
  }

  lemma HeldPlacedKept(s: Store, a: Action)
    requires Placed(s)
    ensures HeldPlaced(Apply(s, a))
  {
    forall x | x in Apply(s, a).executors ensures ExecutorPlaced(Apply(s, a), Apply(s, a).executors[x]) {
      ExecutorsKept(s, a, x);
    }
    forall t | t in Apply(s, a).open && Apply(s, a).open[t].StartTx?
      ensures Belong(Apply(s, a), Apply(s, a).open[t].workspace, Apply(s, a).open[t].sources)
    {
      StartsKept(s, a, t);
    }
  }

  lemma PlacedKept(s: Store, a: Action)
    requires Placed(s) && Inv(s)
    ensures Placed(Apply(s, a))
  {
    ConnectionsKnownKept(s, a);
    RowsPlacedKept(s, a);
    HeldPlacedKept(s, a);
    PendingUsedKept(s, a);
  }

  lemma {:induction false} ReachablePlaced(acts: seq<Action>)
    ensures Placed(Exec(acts))
  {
    if acts != [] {
      ReachablePlaced(acts[..|acts| - 1]);
      ReachableInv(acts[..|acts| - 1]);
      PlacedKept(Exec(acts[..|acts| - 1]), acts[|acts| - 1]);
    }
  }

  /** In every history each primary source of a workspace is a connection of it that exists. */
  lemma PrimarySourcesExist(acts: seq<Action>, w: WorkspaceId, p: Path)
    requires w in Exec(acts).workspaces && p in Exec(acts).workspaces[w].primarySources
    ensures
      var s := Exec(acts);
      var c := s.workspaces[w].primarySources[p];
      c in s.connections && s.connections[c] == w
  {
    ReachablePlaced(acts);
    assert RowPlaced(Exec(acts), w);
  }

  // ---- From the start of an alteration to its end --------------------------------------------------------------------

  /** The commit at `j` starts the alteration, with the sources that its transaction counted. */
  ghost predicate Starts(acts: seq<Action>, j: nat, w: WorkspaceId, id: OperationId) {
    && j < |acts| && acts[j].CommitStart? && acts[j].tx in At(acts, j).open
    && var tx := At(acts, j).open[acts[j].tx];
       tx.StartTx? && tx.workspace == w && tx.id == id && CanStart(At(acts, j), w, id)
  }

  ghost function StartOf(acts: seq<Action>, j: nat, w: WorkspaceId, id: OperationId): Transaction
    requires Starts(acts, j, w, id)
  {
    At(acts, j).open[acts[j].tx]
  }

  /** `m` is what `from` was when these connections existed, without some that were deleted since then. */
  ghost predicate Derived(s: Store, m: Sources, from: Sources, alive: set<ConnectionId>) {
    && (forall p :: p in m ==> p in from && m[p] == from[p])
    && (forall p :: p in from && p !in m ==> from[p] in alive && from[p] !in s.connections)
  }

  /** Without all of them. */
  ghost predicate UpToDate(s: Store, m: Sources, from: Sources, alive: set<ConnectionId>) {
    && Derived(s, m, from, alive)
    && forall p :: p in m ==> m[p] !in alive || m[p] in s.connections
  }

  /** What is known of the sources of an alteration that was started `from` some, while it is pending: those pending
      are up to date and known to some node, and no node, and no executor, knows others. */
  ghost predicate Followed(s: Store, w: WorkspaceId, id: OperationId, from: Sources, alive: set<ConnectionId>) {
    && Belong(s, w, from) && id in s.used
    && (forall p :: p in from && from[p] in s.connections ==> from[p] in alive)
    && (Altering(s, w, id) ==>
        var a := s.workspaces[w].alteration.value;
        && UpToDate(s, a.sources, from, alive) && a.sources in a.knownSources
        && forall m :: m in a.knownSources ==> Derived(s, m, from, alive))
    && (forall x :: x in s.executors && s.executors[x].workspace == w && s.executors[x].id == id ==>
        Derived(s, s.executors[x].sources, from, alive))
  }

  lemma DerivedStays(s: Store, a: Action, m: Sources, from: Sources, alive: set<ConnectionId>, w: WorkspaceId)
    requires Belong(s, w, from) && Derived(s, m, from, alive)
    ensures Derived(Apply(s, a), m, from, alive)
  {
    forall p | p in from && p !in m ensures from[p] !in Apply(s, a).connections { GoneStaysGone(s, a, from[p]); }
  }

  lemma DerivedWithout(s: Store, c: ConnectionId, m: Sources, from: Sources, alive: set<ConnectionId>)
    requires c in s.connections && Derived(s, m, from, alive)
    requires forall p :: p in from && from[p] in s.connections ==> from[p] in alive
    ensures Derived(ApplyDelete(s, c), Without(m, c), from, alive)
    ensures UpToDate(s, m, from, alive) ==> UpToDate(ApplyDelete(s, c), Without(m, c), from, alive)
  {
    assert ApplyDelete(s, c).connections == s.connections - {c};
  }

  /** While it stays pending, the sources of an alteration change only by a deletion. */
  lemma OthersKeepAlteration(s: Store, a: Action, w: WorkspaceId, id: OperationId)
    requires Altering(s, w, id) && Altering(Apply(s, a), w, id) && !a.DeleteConnection?
    ensures
      var before, after := s.workspaces[w].alteration.value, Apply(s, a).workspaces[w].alteration.value;
      && after.sources == before.sources && after.knownSources == before.knownSources && after.request == before.request
      && (after.knownIdentifiers == before.knownIdentifiers
          || (a.CommitIdentifiers? && after.knownIdentifiers == before.knownIdentifiers + {Apply(s, a).workspaces[w].identifiers}))
  {
  }

  lemma ConnectionsOnlyGrow(s: Store, a: Action, c: ConnectionId)
    requires c in s.ever && c in Apply(s, a).connections
    ensures c in s.connections
  {
    if c !in s.connections { GoneStaysGone(s, a, c); }
  }

  lemma OwnConnectionsStay(s: Store, a: Action, w: WorkspaceId, c: ConnectionId)
    requires ConnectionsKnown(s) && !a.DeleteConnection? && w in Apply(s, a).workspaces
    requires c in s.connections && s.ever[c] == w
    ensures c in Apply(s, a).connections
  {
  }

  /** The part of `Followed` about a pending alteration. */
  ghost predicate AlterationFollowed(s: Store, a: Alteration, from: Sources, alive: set<ConnectionId>) {
    && UpToDate(s, a.sources, from, alive) && a.sources in a.knownSources
    && forall m :: m in a.knownSources ==> Derived(s, m, from, alive)
  }

  /** A deletion in the workspace of the alteration. */
  lemma DeletionFollowed(s: Store, c: ConnectionId, a: Alteration, from: Sources, alive: set<ConnectionId>)
    requires c in s.connections && AlterationFollowed(s, a, from, alive)
    requires forall p :: p in from && from[p] in s.connections ==> from[p] in alive
    ensures AlterationFollowed(ApplyDelete(s, c), Forgotten(Some(a), c).value, from, alive)
  {
    var t, b := ApplyDelete(s, c), Forgotten(Some(a), c).value;
    DerivedWithout(s, c, a.sources, from, alive);
    assert t.connections == s.connections - {c};
    assert Without(a.sources, c) in AllWithout(a.knownSources, c);
    forall m | m in b.knownSources ensures Derived(t, m, from, alive) {
      if m !in a.knownSources {
        var n :| n in a.knownSources && m == Without(n, c);
        DerivedWithout(s, c, n, from, alive);
      }
    }
  }

  lemma DeletionElsewhere(s: Store, c: ConnectionId, w: WorkspaceId)
    requires c in s.connections && w in s.workspaces
    ensures w in ApplyDelete(s, c).workspaces
    ensures ApplyDelete(s, c).workspaces[w].alteration
         == if w == s.connections[c] then Forgotten(s.workspaces[w].alteration, c) else s.workspaces[w].alteration
  {
  }

  /** After the deletion of a connection nothing has it as a source, pending or not, and what was pending still is. */
  lemma DeletionTakesItOut(acts: seq<Action>, c: ConnectionId, w: WorkspaceId, id: OperationId)
    requires c in Exec(acts).connections && w in Exec(acts).workspaces
    ensures
      var s, t := Exec(acts), Apply(Exec(acts), DeleteConnection(c));
      && w in t.workspaces && c !in t.workspaces[w].primarySources.Values
      && (Altering(t, w, id) <==> Altering(s, w, id))
      && (Altering(t, w, id) ==> c !in t.workspaces[w].alteration.value.sources.Values)
      && (Resolving(t, w, id) <==> Resolving(s, w, id))
  {
    ReachablePlaced(acts);
    var s := Exec(acts);
    DeletionElsewhere(s, c, w);
    DeletionKeepsOperations(s, c, w);
    DeletionPlaces(s, c, w);
    assert RowPlaced(s, w);
    if w == s.connections[c] {
      assert ApplyDelete(s, c).workspaces[w] == DeletedFrom(s.workspaces[w], c);
    }
  }

  lemma PendingFollowed(s: Store, a: Action, w: WorkspaceId, id: OperationId, from: Sources, alive: set<ConnectionId>)
    requires Placed(s) && Followed(s, w, id, from, alive) && Altering(s, w, id) && Altering(Apply(s, a), w, id)
    ensures AlterationFollowed(Apply(s, a), Apply(s, a).workspaces[w].alteration.value, from, alive)
  {
    var t, before := Apply(s, a), s.workspaces[w].alteration.value;
    if a.DeleteConnection? && a.connection in s.connections {
      DeletionElsewhere(s, a.connection, w);
      if s.connections[a.connection] == w {
        DeletionFollowed(s, a.connection, before, from, alive);
      } else {
        assert t.connections == s.connections - {a.connection};
        assert forall p :: p in from ==> from[p] != a.connection;
      }
    } else if !a.DeleteConnection? {
      OthersKeepAlteration(s, a, w, id);
      forall m | m in before.knownSources ensures Derived(t, m, from, alive) { DerivedStays(s, a, m, from, alive, w); }
      DerivedStays(s, a, before.sources, from, alive, w);
      forall p | p in before.sources && before.sources[p] in alive ensures before.sources[p] in t.connections {
        OwnConnectionsStay(s, a, w, before.sources[p]);
      }
    }
  }

  lemma ExecutorsFollowed(s: Store, a: Action, w: WorkspaceId, id: OperationId, from: Sources, alive: set<ConnectionId>,
                          x: ExecutorId)
    requires Placed(s) && Followed(s, w, id, from, alive) && x in Apply(s, a).executors
    requires Apply(s, a).executors[x].workspace == w && Apply(s, a).executors[x].id == id
    ensures Derived(Apply(s, a), Apply(s, a).executors[x].sources, from, alive)
  {
    if !(x in s.executors && Apply(s, a).executors[x] == s.executors[x]) {
      ExecutorsAreSpawned(s, a, x);
      assert Altering(s, w, id);
    }
    DerivedStays(s, a, Apply(s, a).executors[x].sources, from, alive, w);
  }

  lemma FollowedKept(s: Store, a: Action, w: WorkspaceId, id: OperationId, from: Sources, alive: set<ConnectionId>)
    requires Placed(s) && Followed(s, w, id, from, alive)
    ensures Followed(Apply(s, a), w, id, from, alive)
  {
    var t := Apply(s, a);
    EverGrows(s, a);
    UsedGrows(s, a);
    forall p | p in from && from[p] in t.connections ensures from[p] in alive { ConnectionsOnlyGrow(s, a, from[p]); }
    if Altering(t, w, id) {
      if !Altering(s, w, id) { AlterationsAreNew(s, a, w, id); }
      PendingFollowed(s, a, w, id, from, alive);
    }
    forall x | x in t.executors && t.executors[x].workspace == w && t.executors[x].id == id
      ensures Derived(t, t.executors[x].sources, from, alive)
    {
      ExecutorsFollowed(s, a, w, id, from, alive, x);
    }
  }

  lemma StartedIsFollowed(acts: seq<Action>, j: nat, w: WorkspaceId, id: OperationId)
    requires Starts(acts, j, w, id)
    ensures Followed(At(acts, j + 1), w, id, StartOf(acts, j, w, id).sources, At(acts, j).connections.Keys)
    ensures Altering(At(acts, j + 1), w, id)
  {
    AtNext(acts, j);
    ReachablePlaced(acts[..j]);
    var s, tx := At(acts, j), StartOf(acts, j, w, id);
    var t := At(acts, j + 1);
    assert t == ApplyStart(Close(s, acts[j].tx), tx);
    assert t.workspaces[w].alteration.value.sources == tx.sources;
    assert t.workspaces[w].alteration.value.knownSources == {tx.sources};
    forall x | x in t.executors ensures t.executors[x].id != id { assert ExecutorPlaced(s, s.executors[x]); }
  }

  lemma {:induction false} FollowedSince(acts: seq<Action>, j: nat, k: nat, w: WorkspaceId, id: OperationId)
    requires Starts(acts, j, w, id) && j < k <= |acts|
    ensures Followed(At(acts, k), w, id, StartOf(acts, j, w, id).sources, At(acts, j).connections.Keys)
    decreases k
  {
    if k == j + 1 {
      StartedIsFollowed(acts, j, w, id);
    } else {
      FollowedSince(acts, j, k - 1, w, id);
      AtNext(acts, k - 1);
      ReachablePlaced(acts[..k - 1]);
      FollowedKept(At(acts, k - 1), acts[k - 1], w, id, StartOf(acts, j, w, id).sources, At(acts, j).connections.Keys);
    }
  }

  // ---- What an alteration installs -----------------------------------------------------------------------------------

  /** The pending sources of an alteration are those it was started with, without those deleted since then. */
  lemma PendingSourcesAre(acts: seq<Action>, j: nat, k: nat, w: WorkspaceId, id: OperationId, p: Path)
    requires Starts(acts, j, w, id) && j < k <= |acts| && Altering(At(acts, k), w, id)
    ensures
      var from, m := StartOf(acts, j, w, id).sources, At(acts, k).workspaces[w].alteration.value.sources;
      && (p in m <==> p in from && (from[p] in At(acts, j).connections ==> from[p] in At(acts, k).connections))
      && (p in m ==> m[p] == from[p])
  {
    FollowedSince(acts, j, k, w, id);
  }

  /** The count of the connections is not repeated under the lock. So the pending sources exist, for as long as the
      alteration is pending, if and only if those it was started with still existed when it was committed. */
  lemma PendingSourcesExist(acts: seq<Action>, j: nat, k: nat, w: WorkspaceId, id: OperationId)
    requires Starts(acts, j, w, id) && j < k <= |acts| && Altering(At(acts, k), w, id)
    ensures AllExist(At(acts, k), At(acts, k).workspaces[w].alteration.value.sources) <==>
            AllExist(At(acts, j), StartOf(acts, j, w, id).sources)
  {
    FollowedSince(acts, j, k, w, id);
    var from, m := StartOf(acts, j, w, id).sources, At(acts, k).workspaces[w].alteration.value.sources;
    if AllExist(At(acts, k), m) {
      forall p | p in from ensures from[p] in At(acts, j).connections {
        if p in m { assert m[p] in At(acts, k).connections; }
      }
    }
  }

  /** A success installs exactly those sources of the start that still exist; and it has all to have existed when the
      start was committed. */
  lemma SourcesComeFromTheStart(acts: seq<Action>, j: nat, k: nat, w: WorkspaceId, id: OperationId)
    requires Starts(acts, j, w, id) && j < k < |acts| && Succeeds(acts, k, w)
    requires At(acts, k).executors[acts[k].executor].id == id
    ensures AllExist(At(acts, j), StartOf(acts, j, w, id).sources)
    ensures
      var from := StartOf(acts, j, w, id).sources;
      && w in At(acts, k + 1).workspaces
      && At(acts, k + 1).workspaces[w].primarySources == map p | p in from && from[p] in At(acts, k).connections :: from[p]
  {
    FollowedSince(acts, j, k, w, id);
    AtNext(acts, k);
    var s, x, from := At(acts, k), acts[k].executor, StartOf(acts, j, w, id).sources;
    AttemptSucceeds(s, x);
    var m := s.executors[x].sources;
    assert Derived(s, m, from, At(acts, j).connections.Keys);
    forall p | p in from ensures from[p] in At(acts, j).connections {
      if p in m { assert m[p] in s.connections; }
    }
    assert m == map p | p in from && from[p] in s.connections :: from[p];
  }

  /** An alteration with a source that was deleted between the count and the lock never succeeds. */
  lemma OvertakenStartNeverSucceeds(acts: seq<Action>, j: nat, k: nat, w: WorkspaceId, id: OperationId)
    requires Starts(acts, j, w, id) && j < k < |acts| && !AllExist(At(acts, j), StartOf(acts, j, w, id).sources)
    requires Succeeds(acts, k, w)
    ensures At(acts, k).executors[acts[k].executor].id != id
  {
    if At(acts, k).executors[acts[k].executor].id == id { SourcesComeFromTheStart(acts, j, k, w, id); }
  }

  lemma {:induction false} GoneForGood(acts: seq<Action>, k: nat, l: nat, c: ConnectionId)
    requires k <= l <= |acts| && c in At(acts, k).ever && c !in At(acts, k).connections
    ensures c in At(acts, l).ever && c !in At(acts, l).connections
    decreases l
  {
    if k < l {
      GoneForGood(acts, k, l - 1, c);
      AtNext(acts, l - 1);
      EverGrows(At(acts, l - 1), acts[l - 1]);
      GoneStaysGone(At(acts, l - 1), acts[l - 1], c);
    }
  }

  /** An executor keeps the sources it began with. Once one of them was deleted, no attempt of it succeeds any more,
      however often it tries. */
  lemma StaleExecutorNeverSucceeds(acts: seq<Action>, k: nat, l: nat, x: ExecutorId, p: Path)
    requires k <= l <= |acts| && x in At(acts, k).executors && p in At(acts, k).executors[x].sources
    requires At(acts, k).executors[x].sources[p] !in At(acts, k).connections
    ensures !SucceedsFor(At(acts, l), At(acts, k).executors[x], At(acts, k).executors[x].workspace)
  {
    ReachablePlaced(acts[..k]);
    var e := At(acts, k).executors[x];
    assert ExecutorPlaced(At(acts, k), e);
    GoneForGood(acts, k, l, e.sources[p]);
  }

  /** A workspace with a connection, and a start that has counted it. */
  function Counted(w: WorkspaceId, c: ConnectionId, p: Path, request: Request, id: OperationId): seq<Action> {
    [CreateWorkspace(w, [], 0), CreateConnection(c, w), CountSources(1, w, id, request, map[p := c])]
  }

  lemma CountedIsReached(acts: seq<Action>, w: WorkspaceId, c: ConnectionId, p: Path, request: Request, id: OperationId)
    requires Counted(w, c, p, request, id) <= acts
    ensures
      var s, tx := At(acts, 3), StartTx(w, id, request, map[p := c]);
      && w in s.workspaces && s.workspaces[w] == Workspace([], 0, [], map[], None, None, "")
      && s.used == {} && s.connections == map[c := w] && s.open == map[1 := tx] && s.executors == map[]
  {
    assert At(acts, 0) == EMPTY;
    AtNext(acts, 0);
    AtNext(acts, 1);
    AtNext(acts, 2);
  }

  function Executed(w: WorkspaceId, c: ConnectionId, p: Path, request: Request, id: OperationId): seq<Action> {
    Counted(w, c, p, request, id) + [CommitStart(1), Execute(2, w, map[p := c], [], "")]
  }

  lemma ExecutedIsReached(acts: seq<Action>, w: WorkspaceId, c: ConnectionId, p: Path, request: Request, id: OperationId)
    requires Executed(w, c, p, request, id) <= acts
    ensures
      var s := At(acts, 5);
      && Altering(s, w, id) && s.workspaces[w].alteration.value.sources == map[p := c] && s.connections == map[c := w]
      && 2 in s.executors
      && s.executors[2] == Executor(w, id, map[p := c], RenamedIn(request.schema, request.operations, []), "")
  {
    CountedIsReached(acts, w, c, p, request, id);
    AtNext(acts, 3);
    AtNext(acts, 4);
    assert acts[3] == CommitStart(1) && acts[4] == Execute(2, w, map[p := c], [], "");
    CommittedAndExecuted(At(acts, 3), w, c, p, request, id);
  }

  lemma CommittedAndExecuted(s: Store, w: WorkspaceId, c: ConnectionId, p: Path, request: Request, id: OperationId)
    requires w in s.workspaces && s.workspaces[w] == Workspace([], 0, [], map[], None, None, "") && s.used == {}
    requires s.open == map[1 := StartTx(w, id, request, map[p := c])] && s.executors == map[]
    ensures
      var t := Apply(Apply(s, CommitStart(1)), Execute(2, w, map[p := c], [], ""));
      && Altering(t, w, id) && t.workspaces[w].alteration.value.sources == map[p := c] && t.connections == s.connections
      && 2 in t.executors
      && t.executors[2] == Executor(w, id, map[p := c], RenamedIn(request.schema, request.operations, []), "")
  {
    var t := ApplyStart(Close(s, 1), s.open[1]);
    assert t == Apply(s, CommitStart(1));
    assert t.workspaces[w].alteration == Some(Alteration(id, request, map[p := c], {map[p := c]}, {[]}));
  }

  /** For any request with a primary source: the source is deleted while the alteration is executed. The column of the
      pending sources follows, the executor does not, and its attempt leaves the alteration pending. */
  lemma DeletedDuringTheAlteration(w: WorkspaceId, c: ConnectionId, p: Path, request: Request, id: OperationId)
    ensures
      var s := At(Executed(w, c, p, request, id) + [DeleteConnection(c), Finalize(2)], 7);
      && Altering(s, w, id) && s.workspaces[w].alteration.value.sources == map[]
      && 2 in s.executors && s.executors[2].id == id && s.executors[2].sources == map[p := c] && c !in s.connections
  {
    var acts := Executed(w, c, p, request, id) + [DeleteConnection(c), Finalize(2)];
    ExecutedIsReached(acts, w, c, p, request, id);
    HeldUp(At(acts, 5), w, c, p, id, 2);
    LastTwo(acts);
    assert acts[5] == DeleteConnection(c) && acts[6] == Finalize(2);
  }

  lemma LastTwo(acts: seq<Action>)
    requires |acts| == 7
    ensures At(acts, 7) == Apply(Apply(At(acts, 5), acts[5]), acts[6])
  {
    AtNext(acts, 5);
    AtNext(acts, 6);
  }

  lemma HeldUp(s: Store, w: WorkspaceId, c: ConnectionId, p: Path, id: OperationId, x: ExecutorId)
    requires c in s.connections && s.connections[c] == w && Altering(s, w, id) && x in s.executors
    requires s.workspaces[w].alteration.value.sources == map[p := c]
    requires var e := s.executors[x]; e.workspace == w && e.id == id && e.sources == map[p := c] && e.error == ""
    ensures
      var t := Apply(Apply(s, DeleteConnection(c)), Finalize(x));
      && Altering(t, w, id) && t.workspaces[w].alteration.value.sources == map[]
      && x in t.executors && t.executors[x] == s.executors[x] && c !in t.connections
  {
    var t := ApplyDelete(s, c);
    DeletionElsewhere(s, c, w);
    assert t.connections == s.connections - {c} && t.executors == s.executors;
    assert map[p := c][p] == c;
  }

  /** The source is deleted after it was counted: the alteration is started with it all the same. */
  lemma DeletedAfterTheCount(w: WorkspaceId, c: ConnectionId, p: Path, request: Request, id: OperationId)
    ensures
      var acts := Counted(w, c, p, request, id) + [DeleteConnection(c), CommitStart(1)];
      && Starts(acts, 4, w, id) && c !in At(acts, 4).connections
      && StartOf(acts, 4, w, id).sources == map[p := c]
      && Altering(At(acts, 5), w, id) && At(acts, 5).workspaces[w].alteration.value.sources == map[p := c]
  {
    var acts := Counted(w, c, p, request, id) + [DeleteConnection(c), CommitStart(1)];
    CountedIsReached(acts, w, c, p, request, id);
    AtNext(acts, 3);
    AtNext(acts, 4);
  }

  /** A pending alteration can still succeed, with a new executor on a node that knows of all deletions, if all its
      sources existed when it was committed; otherwise it cannot. */
  lemma CanStillSucceed(acts: seq<Action>, j: nat, w: WorkspaceId, id: OperationId, x: ExecutorId, identifiers: seq<Path>)
    requires Starts(acts, j, w, id) && Altering(Exec(acts), w, id) && x !in Exec(acts).executors
    requires identifiers in Exec(acts).workspaces[w].alteration.value.knownIdentifiers
    ensures
      var more := acts + [Execute(x, w, Exec(acts).workspaces[w].alteration.value.sources, identifiers, ""), Finalize(x)];
      Succeeds(more, |acts| + 1, w) <==> AllExist(At(acts, j), StartOf(acts, j, w, id).sources)
  {
    assert acts[..|acts|] == acts;
    FollowedSince(acts, j, |acts|, w, id);
    PendingSourcesExist(acts, j, |acts|, w, id);
    var sources := Exec(acts).workspaces[w].alteration.value.sources;
    OneMore(acts, Execute(x, w, sources, identifiers, ""), Finalize(x));
    Spawned(Exec(acts), x, w, sources, identifiers);
  }

  lemma OneMore(acts: seq<Action>, a: Action, b: Action)
    ensures At(acts + [a, b], |acts| + 1) == Apply(Exec(acts), a)
  {
    var more := acts + [a, b];
    assert more[..|acts|] == acts && more[|acts|] == a;
    AtNext(more, |acts|);
  }

  lemma Spawned(s: Store, x: ExecutorId, w: WorkspaceId, sources: Sources, identifiers: seq<Path>)
    requires x !in s.executors && w in s.workspaces && s.workspaces[w].alteration.Some?
    requires sources in s.workspaces[w].alteration.value.knownSources
    requires identifiers in s.workspaces[w].alteration.value.knownIdentifiers
    ensures
      var t := Apply(s, Execute(x, w, sources, identifiers, ""));
      && t.workspaces == s.workspaces && t.connections == s.connections && x in t.executors
      && t.executors[x].workspace == w && t.executors[x].sources == sources && t.executors[x].error == ""
      && t.executors[x].id == s.workspaces[w].alteration.value.id
  {
  }

  // ---- Schema, roles and identifiers -----------------------------------------------------------------------------------

  /** The workspace had these identifiers at some time after `j` and up to `k`. */
  ghost predicate HadIdentifiers(acts: seq<Action>, j: nat, k: nat, w: WorkspaceId, identifiers: seq<Path>)
    requires k <= |acts|
  {
    exists l :: j < l <= k && w in At(acts, l).workspaces && At(acts, l).workspaces[w].identifiers == identifiers
  }

  /** What an executor installs is computed from identifiers that the workspace had since the start. */
  ghost predicate Renames(acts: seq<Action>, j: nat, k: nat, w: WorkspaceId, request: Request, installed: seq<Path>)
    requires k <= |acts|
  {
    exists before :: HadIdentifiers(acts, j, k, w, before) && installed == RenamedIn(request.schema, request.operations, before)
  }

  ghost predicate RequestFollowed(acts: seq<Action>, j: nat, k: nat, w: WorkspaceId, id: OperationId, request: Request)
    requires k <= |acts|
  {
    var s := At(acts, k);
    && (Altering(s, w, id) ==>
        var a := s.workspaces[w].alteration.value;
        && a.request == request
        && forall known :: known in a.knownIdentifiers ==> HadIdentifiers(acts, j, k, w, known))
    && (forall x :: x in s.executors && s.executors[x].workspace == w && s.executors[x].id == id ==>
        Renames(acts, j, k, w, request, s.executors[x].identifiers))
  }

  lemma IdentifiersKnown(acts: seq<Action>, j: nat, k: nat, w: WorkspaceId, id: OperationId, request: Request,
                         known: seq<Path>)
    requires j < k < |acts| && RequestFollowed(acts, j, k, w, id, request)
    requires Altering(At(acts, k), w, id) && Altering(At(acts, k + 1), w, id)
    requires known in At(acts, k + 1).workspaces[w].alteration.value.knownIdentifiers
    ensures At(acts, k + 1).workspaces[w].alteration.value.request == request
    ensures HadIdentifiers(acts, j, k + 1, w, known)
  {
    AtNext(acts, k);
    var s, a := At(acts, k), acts[k];
    if a.DeleteConnection? {
      if a.connection in s.connections { DeletionElsewhere(s, a.connection, w); }
    } else {
      OthersKeepAlteration(s, a, w, id);
    }
    if known in s.workspaces[w].alteration.value.knownIdentifiers {
      var l :| j < l <= k && w in At(acts, l).workspaces && At(acts, l).workspaces[w].identifiers == known;
    } else {
      assert At(acts, k + 1).workspaces[w].identifiers == known;
    }
  }

  lemma RequestFollowedKept(acts: seq<Action>, j: nat, k: nat, w: WorkspaceId, id: OperationId, request: Request)
    requires j < k < |acts| && RequestFollowed(acts, j, k, w, id, request) && id in At(acts, k).used
    ensures RequestFollowed(acts, j, k + 1, w, id, request)
  {
    AtNext(acts, k);
    var s, t, a := At(acts, k), At(acts, k + 1), acts[k];
    if Altering(t, w, id) {
      if !Altering(s, w, id) { AlterationsAreNew(s, a, w, id); }
      forall known | known in t.workspaces[w].alteration.value.knownIdentifiers ensures HadIdentifiers(acts, j, k + 1, w, known) {
        IdentifiersKnown(acts, j, k, w, id, request, known);
      }
      RequestStays(s, a, w, id);
    }
    forall x | x in t.executors && t.executors[x].workspace == w && t.executors[x].id == id
      ensures Renames(acts, j, k + 1, w, request, t.executors[x].identifiers)
    {
      if x in s.executors && t.executors[x] == s.executors[x] {
        var before :| HadIdentifiers(acts, j, k, w, before)
                      && t.executors[x].identifiers == RenamedIn(request.schema, request.operations, before);
        assert HadIdentifiers(acts, j, k + 1, w, before);
      } else {
        ExecutorsAreSpawned(s, a, x);
        assert HadIdentifiers(acts, j, k + 1, w, a.identifiers);
      }
    }
  }

  lemma RequestStays(s: Store, a: Action, w: WorkspaceId, id: OperationId)
    requires Altering(s, w, id) && Altering(Apply(s, a), w, id)
    ensures Apply(s, a).workspaces[w].alteration.value.request == s.workspaces[w].alteration.value.request
  {
    if a.DeleteConnection? {
      if a.connection in s.connections { DeletionElsewhere(s, a.connection, w); }
    } else {
      OthersKeepAlteration(s, a, w, id);
    }
  }

  lemma {:induction false} RequestFollowedSince(acts: seq<Action>, j: nat, k: nat, w: WorkspaceId, id: OperationId)
    requires Starts(acts, j, w, id) && j < k <= |acts|
    ensures RequestFollowed(acts, j, k, w, id, StartOf(acts, j, w, id).request)
    decreases k
  {
    if k == j + 1 {
      StartedRequest(acts, j, w, id);
    } else {
      RequestFollowedSince(acts, j, k - 1, w, id);
      FollowedSince(acts, j, k - 1, w, id);
      RequestFollowedKept(acts, j, k - 1, w, id, StartOf(acts, j, w, id).request);
    }
  }

  lemma StartedRequest(acts: seq<Action>, j: nat, w: WorkspaceId, id: OperationId)
    requires Starts(acts, j, w, id)
    ensures RequestFollowed(acts, j, j + 1, w, id, StartOf(acts, j, w, id).request)
  {
    AtNext(acts, j);
    ReachablePlaced(acts[..j]);
    var s, t := At(acts, j), At(acts, j + 1);
    assert t == ApplyStart(Close(s, acts[j].tx), StartOf(acts, j, w, id));
    assert t.workspaces[w].alteration.value.knownIdentifiers == {t.workspaces[w].identifiers};
    assert HadIdentifiers(acts, j, j + 1, w, t.workspaces[w].identifiers);
    forall x | x in t.executors ensures t.executors[x].id != id { assert ExecutorPlaced(s, s.executors[x]); }
  }

  /** A success installs the schema and the roles that its start asked for, and what the operations of that start
      make of identifiers that the workspace had since then; and it leaves nothing pending. */
  lemma SchemaComesFromTheStart(acts: seq<Action>, j: nat, k: nat, w: WorkspaceId, id: OperationId)
    requires Starts(acts, j, w, id) && j < k < |acts| && Succeeds(acts, k, w)
    requires At(acts, k).executors[acts[k].executor].id == id
    ensures
      var request, t := StartOf(acts, j, w, id).request, At(acts, k + 1);
      && w in t.workspaces && !Busy(t.workspaces[w])
      && t.workspaces[w].schema == request.schema && t.workspaces[w].roles == request.roles
      && Renames(acts, j, k, w, request, t.workspaces[w].identifiers)
  {
    RequestFollowedSince(acts, j, k, w, id);
    AtNext(acts, k);
    ReachableInv(acts[..k]);
    ReachableInv(acts[..k + 1]);
    AttemptSucceeds(At(acts, k), acts[k].executor);
    AttemptKeepsResolution(At(acts, k), acts[k].executor, w);
  }

  lemma AttemptKeepsResolution(s: Store, x: ExecutorId, w: WorkspaceId)
    requires x in s.executors && w in s.workspaces
    ensures w in ApplyFinalize(s, x).workspaces
    ensures ApplyFinalize(s, x).workspaces[w].resolution == s.workspaces[w].resolution
  {
  }

  /** Every pending alteration has a start. */
  lemma {:induction false} PendingWasStarted(acts: seq<Action>, k: nat, w: WorkspaceId, id: OperationId)
    requires k <= |acts| && Altering(At(acts, k), w, id)
    ensures exists j :: 0 <= j < k && Starts(acts, j, w, id)
  {
    assert k > 0;
    AtNext(acts, k - 1);
    if Altering(At(acts, k - 1), w, id) {
      PendingWasStarted(acts, k - 1, w, id);
    } else {
      StartsWhenNew(At(acts, k - 1), acts[k - 1], w, id);
      assert Starts(acts, k - 1, w, id);
    }
  }

  lemma StartsWhenNew(s: Store, a: Action, w: WorkspaceId, id: OperationId)
    requires Altering(Apply(s, a), w, id) && !Altering(s, w, id)
    ensures a.CommitStart? && a.tx in s.open && s.open[a.tx].StartTx?
    ensures s.open[a.tx].workspace == w && s.open[a.tx].id == id && CanStart(s, w, id)
  {
    AlterationsAreNew(s, a, w, id);
  }
}
