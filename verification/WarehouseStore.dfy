/** The tables behind the operations on the warehouse, and the transactions that work on them
    (core/core.go:1710-1774, core/core.go:1846-1918, core/core.go:2067-2185, core/connection.go:679-775). */
module WarehouseStore {
  import opened Prelude
  import opened WarehouseOperations
  import opened AlterationSources

  datatype Outcome = Done | NothingToDo | RolledBack

  datatype StartError = ConnectionNotExist | NotFound | OperationAlreadyExecuting

  /** The executor has to try again: its alteration is pending, and the insertion of its sources fails. */
  ghost predicate Blocked(s: Store, e: Executor) { Altering(s, e.workspace, e.id) && e.error == "" && !AllExist(s, e.sources) }

  function ApplyAll(s: Store, acts: seq<Action>): Store {
    if acts == [] then s else Apply(ApplyAll(s, acts[..|acts| - 1]), acts[|acts| - 1])
  }

  /** The store after an attempt that follows each of the given doings of others. */
  function Attempted(s: Store, x: ExecutorId, others: seq<seq<Action>>): Store {
    if others == [] then s
    else Apply(ApplyAll(Attempted(s, x, others[..|others| - 1]), others[|others| - 1]), Finalize(x))
  }

  /** What the attempt at `k` finds. */
  function Found(s: Store, x: ExecutorId, others: seq<seq<Action>>, k: nat): Store
    requires k < |others|
  {
    ApplyAll(Attempted(s, x, others[..k]), others[k])
  }

  /** The attempts before the `n`-th all find it blocked. */
  ghost predicate BlockedUpTo(s: Store, x: ExecutorId, others: seq<seq<Action>>, n: int, e: Executor)
    requires n <= |others|
  {
    forall k :: 0 <= k < n ==> Blocked(Found(s, x, others, k), e)
  }

  lemma OneMoreBlocked(s: Store, x: ExecutorId, others: seq<seq<Action>>, n: nat, e: Executor)
    requires n < |others| && BlockedUpTo(s, x, others, n, e) && Blocked(Found(s, x, others, n), e)
    ensures BlockedUpTo(s, x, others, n + 1, e)
  {
  }

  /** Nobody else attempts for this executor. */
  predicate Foreign(x: ExecutorId, acts: seq<Action>) {
    forall i :: 0 <= i < |acts| ==> !(acts[i].Finalize? && acts[i].executor == x)
  }

  lemma ExecutorStays(s: Store, a: Action, x: ExecutorId)
    requires x in s.executors && (a.Finalize? && a.executor == x ==> Blocked(s, s.executors[x]))
    ensures x in Apply(s, a).executors && Apply(s, a).executors[x] == s.executors[x]
  {
    match a
    case Finalize(y) => if y in s.executors { AttemptIsForOne(s, y, x); }
    case _ =>
  }

  lemma AttemptIsForOne(s: Store, y: ExecutorId, x: ExecutorId)
    requires y in s.executors && x in s.executors && (y == x ==> Blocked(s, s.executors[x]))
    ensures x in ApplyFinalize(s, y).executors && ApplyFinalize(s, y).executors[x] == s.executors[x]
  {
  }

  lemma {:induction false} OthersKeepExecutor(s: Store, acts: seq<Action>, x: ExecutorId)
    requires x in s.executors && Foreign(x, acts)
    ensures x in ApplyAll(s, acts).executors && ApplyAll(s, acts).executors[x] == s.executors[x]
  {
    if acts != [] {
      OthersKeepExecutor(s, acts[..|acts| - 1], x);
      ExecutorStays(ApplyAll(s, acts[..|acts| - 1]), acts[|acts| - 1], x);
    }
  }

  lemma {:induction false} GoneAfterAll(s: Store, acts: seq<Action>, c: ConnectionId)
    requires c in s.ever && c !in s.connections
    ensures c in ApplyAll(s, acts).ever && c !in ApplyAll(s, acts).connections
  {
    if acts != [] {
      var t := ApplyAll(s, acts[..|acts| - 1]);
      GoneAfterAll(s, acts[..|acts| - 1], c);
      EverGrows(t, acts[|acts| - 1]);
      GoneStaysGone(t, acts[|acts| - 1], c);
    }
  }

  lemma {:induction false} GoneAfterAttempts(s: Store, x: ExecutorId, others: seq<seq<Action>>, c: ConnectionId)
    requires c in s.ever && c !in s.connections
    ensures c in Attempted(s, x, others).ever && c !in Attempted(s, x, others).connections
  {
    if others != [] {
      GoneAfterAttempts(s, x, others[..|others| - 1], c);
      var t := ApplyAll(Attempted(s, x, others[..|others| - 1]), others[|others| - 1]);
      GoneAfterAll(Attempted(s, x, others[..|others| - 1]), others[|others| - 1], c);
      EverGrows(t, Finalize(x));
      GoneStaysGone(t, Finalize(x), c);
    }
  }

  function Members(ids: seq<ConnectionId>): set<ConnectionId> { set c | c in ids }

  /** Every member of one is in the other exactly if there are as many. */
  lemma CountTells(ids: seq<ConnectionId>, existing: set<ConnectionId>)
    requires Distinct(ids) && forall c :: c in existing ==> c in ids
    ensures |existing| < |ids| <==> exists c :: c in ids && c !in existing
  {
    SizeOfDistinct(ids);
    if Members(ids) == existing {
      assert forall c :: c in ids ==> c in Members(ids);
    } else {
      var c :| c in Members(ids) && c !in existing;
      SmallerWithout(existing, Members(ids), c);
    }
  }

  lemma SmallerWithout(a: set<ConnectionId>, b: set<ConnectionId>, c: ConnectionId)
    requires a <= b && c in b && c !in a
    ensures |a| < |b|
  {
    assert |b - a| + |a| == |b|;
    assert c in b - a;
  }

  lemma {:induction false} SizeOfDistinct(ids: seq<ConnectionId>)
    requires Distinct(ids)
    ensures |Members(ids)| == |ids|
  {
    if ids != [] {
      var init, last := ids[..|ids| - 1], ids[|ids| - 1];
      SizeOfDistinct(init);
      assert ids == init + [last] && last !in init;
      assert Members(ids) == Members(init) + {last};
    }
  }

  /** The connections that a query of these identifiers asks for: each once. */
  method ConnectionIds(sources: Sources) returns (ids: seq<ConnectionId>)
    ensures Distinct(ids)
    ensures forall c :: c in ids <==> c in sources.Values
  {
    ids := [];
    var paths := sources.Keys;
    while paths != {}
      invariant paths <= sources.Keys && Distinct(ids)
      invariant forall c :: c in ids ==> c in sources.Values
      invariant forall p :: p in sources && p !in paths ==> sources[p] in ids
    {
      var p :| p in paths;
      if sources[p] !in ids { ids := ids + [sources[p]]; }
      paths := paths - {p};
    }
  }

  /** The loop over the pending sources that deletes those of a connection, and tells whether it found one. */
  method WithoutConnection(sources: Sources, c: ConnectionId) returns (kept: Sources, changed: bool)
    ensures kept == Without(sources, c)
    ensures changed <==> c in sources.Values
    ensures !changed ==> kept == sources
  {
    kept, changed := sources, false;
    var paths := sources.Keys;
    while paths != {}
      invariant paths <= sources.Keys
      invariant kept == map p | p in sources && (p in paths || sources[p] != c) :: sources[p]
      invariant changed <==> exists p :: p in sources && p !in paths && sources[p] == c
    {
      var p :| p in paths;
      if sources[p] == c {
        kept := kept - {p};
        changed := true;
      }
      paths := paths - {p};
    }
  }

  /** `used`, `ever` and what an alteration is known to be are history: no transaction decides on them. */
  class OperationStore {
    var workspaces: map<WorkspaceId, Workspace>
    var runs: map<OperationId, ResolutionRun>
    var connections: map<ConnectionId, WorkspaceId>
    var used: set<OperationId>
    var ever: map<ConnectionId, WorkspaceId>
    var open: map<TxId, Transaction>
    var executors: map<ExecutorId, Executor>

    function Snapshot(): Store
      reads this
    {
      Store(workspaces, runs, used, connections, ever, open, executors)
    }

    constructor ()
      ensures Snapshot() == EMPTY
    {
      workspaces, runs, used, connections, ever, open, executors := map[], map[], {}, map[], map[], map[], map[];
    }

    /** What other nodes do meanwhile. */
    method Meanwhile(acts: seq<Action>)
      modifies this
      ensures Snapshot() == ApplyAll(old(Snapshot()), acts)
    {
      var s := ApplyAll(Snapshot(), acts);
      workspaces, runs, used, connections := s.workspaces, s.runs, s.used, s.connections;
      ever, open, executors := s.ever, s.open, s.executors;
    }

    /** The count of the distinct connections, without a lock, tells whether all sources exist. */
    method SourcesExist(sources: Sources) returns (exist: bool)
      ensures exist <==> AllExist(Snapshot(), sources)
    {
      var ids := ConnectionIds(sources);
      var found := set c | c in ids && c in connections;
      exist := |found| >= |ids|;
      CountTells(ids, found);
      if exist {
        forall p | p in sources ensures sources[p] in connections { assert sources[p] in ids && sources[p] in found; }
      } else {
        var c :| c in ids && c !in found;
        var p :| p in sources && sources[p] == c;
      }
    }

    /** The first statement of a start: it goes on if the count of the connections found them all. */
    method CountConnections(t: TxId, w: WorkspaceId, id: OperationId, request: Request, sources: Sources)
      returns (error: Option<StartError>)
      requires t !in open && Belong(Snapshot(), w, sources)
      modifies this
      ensures Snapshot() == Apply(old(Snapshot()), CountSources(t, w, id, request, sources))
      ensures error == if AllExist(old(Snapshot()), sources) then None else Some(ConnectionNotExist)
    {
      var exist := SourcesExist(sources);
      if !exist {
        return Some(ConnectionNotExist);
      }
      open := open[t := StartTx(w, id, request, sources)];
      return None;
    }

    /** The rest of it, under the lock of the workspace; the identifier was drawn for it. */
    method StartAlterProfileSchema(t: TxId) returns (error: Option<StartError>)
      requires t in open && open[t].StartTx? && open[t].id !in used
      modifies this
      ensures Snapshot() == Apply(old(Snapshot()), CommitStart(t))
      ensures error.None? <==> Altering(Snapshot(), old(open)[t].workspace, old(open)[t].id)
                               && !Altering(old(Snapshot()), old(open)[t].workspace, old(open)[t].id)
      ensures error == Some(NotFound) <==> old(open)[t].workspace !in old(workspaces)
      ensures error == Some(OperationAlreadyExecuting) <==>
        old(open)[t].workspace in old(workspaces) && Busy(old(workspaces)[old(open)[t].workspace])
    {
      var tx := open[t];
      open := open - {t};
      if tx.workspace !in workspaces {
        return Some(NotFound);
      }
      var ws := workspaces[tx.workspace];
      if ws.alteration != None || ws.resolution != None {
        return Some(OperationAlreadyExecuting);
      }
      var alteration := Alteration(tx.id, tx.request, tx.sources, {tx.sources}, {ws.identifiers});
      workspaces := workspaces[tx.workspace := ws.(alteration := Some(alteration), alterationError := "")];
      used := used + {tx.id};
      return None;
    }

    /** Finalizes an identity resolution. In a store that histories reach, the run row that it closes is always there,
        so the failures that the transaction guards against cannot occur. */
    method FinishIdentityResolution(w: WorkspaceId, id: OperationId, error: string, now: Time) returns (outcome: Outcome)
      modifies this
      ensures Inv(old(Snapshot())) ==> outcome == (if Resolving(old(Snapshot()), w, id) then Done else NothingToDo)
      ensures Inv(old(Snapshot())) ==> Snapshot() == Apply(old(Snapshot()), WarehouseOperations.FinishResolution(w, id, error, now))
      ensures outcome != Done ==> Snapshot() == old(Snapshot())
    {
      if !(w in workspaces && workspaces[w].resolution == Some(id)) {
        return NothingToDo;
      }
      assert Inv(Snapshot()) ==> (Resolving(Snapshot(), w, id) <==> OpenRun(Snapshot(), w, id));
      if !(id in runs && runs[id].workspace == w && runs[id].endTime == None) {
        return RolledBack;
      }
      runs := runs[id := runs[id].(endTime := Some(now), error := error)];
      if !(w in workspaces && workspaces[w].resolution == Some(id)) {
        assert false;
      }
      workspaces := workspaces[w := workspaces[w].(resolution := None)];
      return Done;
    }

    /** The rows of the executor's sources, one after the other; the first one without its connection fails. */
    method InsertSources(w: WorkspaceId, sources: Sources) returns (inserted: bool)
      requires w in workspaces && workspaces[w].primarySources == map[]
      modifies this`workspaces
      ensures inserted <==> AllExist(old(Snapshot()), sources)
      ensures inserted ==> workspaces == old(workspaces)[w := old(workspaces)[w].(primarySources := sources)]
    {
      ghost var before := workspaces;
      var paths := sources.Keys;
      while paths != {}
        invariant paths <= sources.Keys && w in workspaces
        invariant forall p :: p in sources && p !in paths ==> sources[p] in connections
        invariant workspaces
          == before[w := before[w].(primarySources := map p | p in sources && p !in paths :: sources[p])]
      {
        var p :| p in paths;
        if sources[p] !in connections {
          return false;
        }
        var rows := workspaces[w].primarySources[p := sources[p]];
        assert rows == map q | q in sources && q !in paths - {p} :: sources[q];
        workspaces := workspaces[w := workspaces[w].(primarySources := rows)];
        paths := paths - {p};
      }
      assert sources == map p | p in sources && p !in paths :: sources[p];
      return true;
    }

    /** What a success does: new columns, the old sources deleted, the executor's inserted. */
    method InstallSchema(e: Executor) returns (inserted: bool)
      requires e.workspace in workspaces && workspaces[e.workspace].alteration.Some?
      modifies this`workspaces
      ensures inserted <==> AllExist(old(Snapshot()), e.sources)
      ensures inserted ==> workspaces == old(workspaces)[e.workspace := Altered(old(workspaces)[e.workspace], e)]
    {
      var w := e.workspace;
      var request := workspaces[w].alteration.value.request;
      workspaces := workspaces[w :=
        workspaces[w].(schema := request.schema, roles := request.roles, identifiers := e.identifiers)];
      workspaces := workspaces[w := workspaces[w].(primarySources := map[])];
      inserted := InsertSources(w, e.sources);
    }

    /** One attempt to finalize an alteration: the statements of the transaction in their order, and a rollback of
        all of them when one fails. */
    method FinishAlterProfileSchema(x: ExecutorId) returns (outcome: Outcome)
      requires x in executors
      modifies this
      ensures Snapshot() == Apply(old(Snapshot()), Finalize(x))
      ensures
        var e := old(executors)[x];
        && (outcome == NothingToDo <==> !Altering(old(Snapshot()), e.workspace, e.id))
        && (outcome == RolledBack <==> Blocked(old(Snapshot()), e))
        && (outcome == RolledBack ==> Snapshot() == old(Snapshot()))
    {
      var e := executors[x];
      var before := workspaces;
      var w := e.workspace;
      if !(w in workspaces && workspaces[w].alteration.Some? && workspaces[w].alteration.value.id == e.id) {
        executors := executors - {x};
        return NothingToDo;
      }
      if |e.error| == 0 {
        var inserted := InstallSchema(e);
        if !inserted {
          workspaces := before;
          return RolledBack;
        }
      }
      workspaces := workspaces[w := workspaces[w].(alteration := None, alterationError := e.error)];
      executors := executors - {x};
      return Done;
    }

    /** The attempt at `i`, after what others do. */
    method AttemptAfter(x: ExecutorId, others: seq<seq<Action>>, i: nat, ghost start: Store) returns (outcome: Outcome)
      requires i < |others| && x in executors && Foreign(x, others[i]) && Snapshot() == Attempted(start, x, others[..i])
      modifies this
      ensures Snapshot() == Attempted(start, x, others[..i + 1])
      ensures outcome == RolledBack <==> Blocked(Found(start, x, others, i), old(executors)[x])
      ensures outcome == RolledBack ==> x in executors && executors[x] == old(executors)[x]
    {
      OthersKeepExecutor(Snapshot(), others[i], x);
      Meanwhile(others[i]);
      assert others[..i + 1][..i] == others[..i];
      outcome := FinishAlterProfileSchema(x);
    }

    /** The loop that attempts until the transaction commits, with what others do before each attempt, until the node
        stops. It goes on exactly past the attempts that find the executor blocked. */
    method FinalizeUntilCommitted(x: ExecutorId, others: seq<seq<Action>>) returns (finished: bool, ghost n: nat)
      requires x in executors && forall i :: 0 <= i < |others| ==> Foreign(x, others[i])
      modifies this
      ensures n <= |others| && Snapshot() == Attempted(old(Snapshot()), x, others[..n])
      ensures finished ==> n > 0 && !Blocked(Found(old(Snapshot()), x, others, n - 1), old(executors)[x])
      ensures BlockedUpTo(old(Snapshot()), x, others, if finished then n - 1 else n, old(executors)[x])
      ensures !finished ==> n == |others|
    {
      ghost var start, e := Snapshot(), executors[x];
      n := 0;
      for i := 0 to |others|
        invariant n == i && Snapshot() == Attempted(start, x, others[..i])
        invariant x in executors && executors[x] == e
        invariant BlockedUpTo(start, x, others, i, e)
      {
        var outcome := AttemptAfter(x, others, i, start);
        n := i + 1;
        if outcome != RolledBack {
          return true, n;
        }
        OneMoreBlocked(start, x, others, i, e);
      }
      return false, n;
    }

    /** Deletes a source connection, and takes it out of the primary sources and of the pending ones. */
    method DeleteConnection(c: ConnectionId) returns (found: bool)
      modifies this
      ensures Snapshot() == Apply(old(Snapshot()), WarehouseOperations.DeleteConnection(c))
      ensures found <==> c in old(connections)
    {
      if c !in connections {
        return false;
      }
      var w := connections[c];
      connections := connections - {c};
      if w in workspaces {
        workspaces := workspaces[w := workspaces[w].(primarySources := Without(workspaces[w].primarySources, c))];
        if workspaces[w].alteration.Some? {
          var pending := workspaces[w].alteration.value;
          var sources, changed := WithoutConnection(pending.sources, c);
          if changed {
            workspaces := workspaces[w := workspaces[w].(alteration := Some(pending.(sources := sources)))];
          }
          // Each node that is notified does the same in its memory.
          pending := workspaces[w].alteration.value;
          var known := pending.knownSources + AllWithout(pending.knownSources, c);
          workspaces := workspaces[w := workspaces[w].(alteration := Some(pending.(knownSources := known)))];
        }
      }
      return true;
    }
  }

  /** Whatever others do, an executor that holds a deleted source is blocked for as long as its alteration is pending:
      only others release it, who finish the alteration or delete the workspace. */
  lemma OnlyOthersReleaseIt(s: Store, x: ExecutorId, others: seq<seq<Action>>, k: nat, p: Path)
    requires k < |others| && x in s.executors && p in s.executors[x].sources && s.executors[x].error == ""
    requires s.executors[x].sources[p] in s.ever && s.executors[x].sources[p] !in s.connections
    ensures
      var e, t := s.executors[x], Found(s, x, others, k);
      Blocked(t, e) <==> Altering(t, e.workspace, e.id)
  {
    var c := s.executors[x].sources[p];
    GoneAfterAttempts(s, x, others[..k], c);
    GoneAfterAll(Attempted(s, x, others[..k]), others[k], c);
  }
}
