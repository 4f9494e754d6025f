/** Which pipelines the ticks start: those whose filed object passes the test, whatever became of the pipeline since it
    was filed (core/pipeline_scheduler.go:289-331, core/pipeline_scheduler.go:391-404,
    core/internal/state/keep.go:203-292, core/internal/state/keep.go:1290-1311). */
module PipelineStarts {
  import opened Prelude
  import opened PipelineScheduler
  import opened PipelineTicks
  import opened PipelineFilings
  import opened PipelineObjects
  import opened PipelineCopies

  // ---- The scheduler of the identifiers ------------------------------------------------------------------------------

  /** What the scheduler is notified of. */
  ghost function StepOf(m: Memory, a: Event): seq<Step> {
    match a
    case PipelineCreated(id, p, _, c) => if CanCreate(m, id, p, c) then [Create(id, p)] else []
    case Notified(step) => if Possible(m.scheduling, step) then [step] else []
    case _ => []
  }

  ghost function StepsOf(acts: seq<Event>): seq<Step> {
    if acts == [] then [] else StepsOf(acts[..|acts| - 1]) + StepOf(Exec(acts[..|acts| - 1]), acts[|acts| - 1])
  }

  lemma StepIsTaken(m: Memory, a: Event)
    ensures |StepOf(m, a)| <= 1
    ensures After(m, a).scheduling
         == if StepOf(m, a) == [] then m.scheduling else PipelineScheduler.Apply(m.scheduling, StepOf(m, a)[0])
  {
  }

  /** Without its objects it is the scheduler of identifiers; so what holds of that in every history holds here. */
  lemma {:induction false} IsTheScheduler(acts: seq<Event>)
    ensures Exec(acts).scheduling == Run(StepsOf(acts))
  {
    if acts != [] {
      var init, a := acts[..|acts| - 1], acts[|acts| - 1];
      IsTheScheduler(init);
      StepIsTaken(Exec(init), a);
      var steps, step := StepsOf(init), StepOf(Exec(init), a);
      if step == [] {
        assert steps + step == steps;
      } else {
        assert (steps + step)[..|steps + step| - 1] == steps;
      }
    }
  }

  lemma HasItsExecutor(acts: seq<Event>)
    ensures Exec(acts).filings.Some? <==> Exec(acts).scheduling.executor.Some?
    ensures Exec(acts).filings.Some? ==> Erased(Exec(acts).filings.value.entries) == Exec(acts).scheduling.executor.value
  {
    ReachableMemory(acts);
  }

  // ---- Filing --------------------------------------------------------------------------------------------------------

  /** The event files the pipeline anew. */
  ghost predicate Files(m: Memory, a: Event, id: string) {
    var t := After(m, a).scheduling;
    match a
    case PipelineCreated(x, p, _, c) => x == id && CanCreate(m, id, p, c) && m.filings.Some? && ToSchedule(t, id)
    case Notified(step) =>
      && Possible(m.scheduling, step)
      && (match step
          case ChangePeriod(x, period) =>
            && x == id && m.filings.Some? && Changes(m.scheduling, id, period) && ToSchedule(t, id)
            && !NamesPeriod(Erased(m.filings.value.entries), id, period)
          case Enable(organization, order) =>
            m.filings.Some? && organization !in m.scheduling.enabled && id in order && ToSchedule(t, id)
          case Elect(order) => m.filings.None? && id in order && ToSchedule(t, id)
          case _ => false)
    case _ => false
  }

  predicate IsScheduled(m: Memory, id: string) { m.filings.Some? && Scheduled(Erased(m.filings.value.entries), id) }

  /** Files or not, the executor holds what the pipeline was filed as. */
  ghost predicate Follows(m: Memory, a: Event, id: string) {
    var n := After(m, a);
    if Files(m, a, id) then
      && n.filings.Some? && id in n.filings.value.last && Has(n.objects, id)
      && n.filings.value.last[id] == n.objects.pipeline[id] && IsScheduled(n, id)
    else
      && (n.filings.Some? && id in n.filings.value.last ==>
          m.filings.Some? && id in m.filings.value.last && n.filings.value.last[id] == m.filings.value.last[id])
      && (IsScheduled(n, id) ==> IsScheduled(m, id))
  }

  lemma StepFollows(m: Memory, step: Step, id: string)
    requires MemoryInv(m) && Possible(m.scheduling, step)
    ensures Follows(m, Notified(step), id)
  {
    match step
    case Delete(_) =>
    case Dismiss =>
    case Removed(x) => if m.filings.Some? { RemovalFollows(m, x, id); }
    case ChangePeriod(x, period) =>
      if m.filings.Some? && Changes(m.scheduling, x, period) {
        ChangeFollows(m, x, period, id);
      } else {
        UnchangedMemory(m, x, period);
      }
    case Enable(organization, order) =>
      if m.filings.Some? && organization !in m.scheduling.enabled { EnabledFollow(m, organization, order, id); }
    case Disable(organization, order) => if m.filings.Some? { DisabledFollow(m, organization, order, id); }
    case Elect(order) => if m.filings.None? { ElectedFollow(m, order, id); }
  }

  lemma RemovalFollows(m: Memory, x: string, id: string)
    requires MemoryInv(m) && m.filings.Some?
    ensures Follows(m, Notified(Removed(x)), id)
  {
    RemoveErased(m.filings.value.entries, x);
    RemoveUnfiles(m.scheduling.executor.value, x);
  }

  lemma DisabledFollow(m: Memory, organization: string, order: seq<string>, id: string)
    requires MemoryInv(m) && m.filings.Some? && Enumerates(order, PipelinesOf(m.scheduling, organization))
    ensures Follows(m, Notified(Disable(organization, order)), id)
  {
    var t := PipelineScheduler.Apply(m.scheduling, Disable(organization, order));
    RemoveAllErased(m.filings.value.entries, order, t);
    RemoveAllUnfiles(m.scheduling.executor.value, order, t);
  }

  lemma ElectedFollow(m: Memory, order: seq<string>, id: string)
    requires MemoryInv(m) && m.filings.None? && Enumerates(order, m.scheduling.pipelines.Keys)
    ensures Follows(m, Notified(Elect(order)), id)
  {
    MemoryKept(m, Notified(Elect(order)));
    HasAll(m.objects);
    AddAllFiles(Executor(map[], map[]), order, m.scheduling);
  }

  lemma ChangeFollows(m: Memory, x: string, period: nat, id: string)
    requires MemoryInv(m) && m.filings.Some? && Changes(m.scheduling, x, period)
    ensures Follows(m, Notified(ChangePeriod(x, period)), id)
  {
    var n := ApplyStep(m, ChangePeriod(x, period));
    HasIt(m, x);
    ChangedMemory(m, x, period);
    FileChangedFollows(m.filings.value, x, n.scheduling, n.objects, id);
    assert Files(m, Notified(ChangePeriod(x, period)), id) <==>
      id == x && ToSchedule(n.scheduling, x) && !NamesPeriod(Erased(m.filings.value.entries), x, period);
  }

  lemma ChangedMemory(m: Memory, x: string, period: nat)
    requires Has(m.objects, x) && m.filings.Some? && Changes(m.scheduling, x, period)
    ensures
      var n := ApplyStep(m, ChangePeriod(x, period));
      && x in n.scheduling.pipelines && n.scheduling.pipelines[x].period == period && Has(n.objects, x)
      && n.filings == Some(FileChanged(m.filings.value, x, n.scheduling, n.objects))
  {
    ChangedIs(m.scheduling, x, period);
  }

  lemma HasIt(m: Memory, id: string)
    requires MemoryInv(m) && id in m.scheduling.pipelines
    ensures Has(m.objects, id)
  {
  }

  lemma FileChangedFollows(f: Filings, x: string, s: State, o: Objects, id: string)
    requires Filed(Erased(f.entries)) && x in s.pipelines && ValidPeriod(s.pipelines[x].period)
    ensures
      var g := FileChanged(f, x, s, o);
      if id == x && ToSchedule(s, x) && !NamesPeriod(Erased(f.entries), x, s.pipelines[x].period) then
        id in g.last && g.last[id] == RefOf(o, id) && Scheduled(Erased(g.entries), id)
      else
        && (id in g.last ==> id in f.last && g.last[id] == f.last[id])
        && (Scheduled(Erased(g.entries), id) ==> Scheduled(Erased(f.entries), id))
  {
    var p := s.pipelines[x];
    ChangeErased(f.entries, Entry(x, RefOf(o, x)), p.period, p.start);
    SetPeriodFiles(Erased(f.entries), x, p.period, p.start);
  }

  lemma UnchangedMemory(m: Memory, x: string, period: nat)
    requires MemoryInv(m) && (m.filings.None? || !Changes(m.scheduling, x, period))
    ensures ApplyStep(m, ChangePeriod(x, period)).filings == m.filings
  {
  }

  lemma EnabledFollow(m: Memory, organization: string, order: seq<string>, id: string)
    requires MemoryInv(m) && m.filings.Some? && organization !in m.scheduling.enabled
    requires Enumerates(order, PipelinesOf(m.scheduling, organization))
    ensures Follows(m, Notified(Enable(organization, order)), id)
  {
    MemoryKept(m, Notified(Enable(organization, order)));
    var s := m.scheduling;
    var t := s.(enabled := s.enabled + {organization});
    HasAll(m.objects);
    forall x | x in order && ToSchedule(t, x) ensures !Scheduled(s.executor.value, x) {
      assert Indexed(s, s.executor.value, x);
    }
    AddAllFiles(s.executor.value, order, t);
  }

  lemma CreationFollows(m: Memory, x: string, p: Pipeline, enabled: bool, c: string, id: string)
    requires MemoryInv(m) && CanCreate(m, x, p, c)
    ensures Follows(m, PipelineCreated(x, p, enabled, c), id)
  {
    var n := ApplyCreation(m, x, p, enabled, c);
    CreatedIs(m.scheduling, x, p);
    if m.filings.Some? {
      assert Indexed(m.scheduling, m.scheduling.executor.value, x);
      FileCreatedFollows(m.filings.value, x, n.scheduling, n.objects, id);
    }
  }

  lemma FileCreatedFollows(f: Filings, x: string, s: State, o: Objects, id: string)
    requires Filed(Erased(f.entries)) && !Scheduled(Erased(f.entries), x)
    ensures
      var g := FileCreated(f, x, s, o);
      if id == x && ToSchedule(s, x) then
        id in g.last && g.last[id] == RefOf(o, id) && Scheduled(Erased(g.entries), id)
      else
        && (id in g.last ==> id in f.last && g.last[id] == f.last[id])
        && (Scheduled(Erased(g.entries), id) ==> Scheduled(Erased(f.entries), id))
  {
    if ToSchedule(s, x) {
      AddErased(f.entries, Entry(x, RefOf(o, x)), SlotFor(s.pipelines[x]));
      AddFiles(Erased(f.entries), x, SlotFor(s.pipelines[x]));
    }
  }

  lemma EveryEventFollows(m: Memory, a: Event, id: string)
    requires MemoryInv(m)
    ensures Follows(m, a, id)
  {
    match a
    case PipelineCreated(x, p, enabled, c) => if CanCreate(m, x, p, c) { CreationFollows(m, x, p, enabled, c, id); }
    case Notified(step) => if Possible(m.scheduling, step) { StepFollows(m, step, id); }
    case _ =>
  }

  // ---- What becomes of an object -------------------------------------------------------------------------------------

  /** A run of the pipeline is recorded in the object of the state. */
  predicate RecordsRun(o: Objects, a: Event, id: string, r: Ref) { a.RunStarted? && a.id == id && IsPipeline(o, r) }

  /** An object keeps what it was made with. A run is recorded in it only, and a copied connection reaches it only,
      while it is that of the state; and it is so only until it is replaced. */
  ghost predicate Ages(o: Objects, u: Objects, a: Event, r: Ref)
    requires r < |o.pipelines|
  {
    && r < |u.pipelines|
    && var p, q := o.pipelines[r], u.pipelines[r];
       && q.id == p.id && q.enabled == p.enabled && q.period == p.period
       && q.running == (p.running || RecordsRun(o, a, p.id, r))
       && (IsPipeline(u, r) ==> IsPipeline(o, r))
       && q.connection == if a.ConnectionReplaced? && HasConnection(o, a.connection) && IsPipeline(o, r)
                             && p.connection == o.connection[a.connection]
                          then |o.connections| else p.connection
  }

  lemma EveryObjectAges(m: Memory, a: Event, r: Ref)
    requires r < |m.objects.pipelines|
    ensures Ages(m.objects, After(m, a).objects, a, r)
  {
    match a
    case Notified(step) => if Possible(m.scheduling, step) { NotifiedAges(m.objects, m.scheduling, step, r); }
    case _ =>
  }

  lemma NotifiedAges(o: Objects, s: State, step: Step, r: Ref)
    requires r < |o.pipelines|
    ensures Ages(o, ObjectsNotified(o, s, step), Notified(step), r)
  {
  }

  ghost predicate ConnectionAges(o: Objects, u: Objects, a: Event, c: Ref)
    requires c < |o.connections|
  {
    && c < |u.connections| && u.connections[c].id == o.connections[c].id
    && (IsConnection(u, c) <==> IsConnection(o, c) && !(a.ConnectionReplaced? && a.connection == o.connections[c].id))
    && (!IsConnection(u, c) ==> u.connections[c] == o.connections[c])
  }

  lemma EveryConnectionAges(m: Memory, a: Event, c: Ref)
    requires c < |m.objects.connections|
    ensures ConnectionAges(m.objects, After(m, a).objects, a, c)
  {
    match a
    case Notified(step) => NotifiedConnections(m, step);
    case _ =>
  }

  lemma NotifiedConnections(m: Memory, step: Step)
    ensures ApplyStep(m, step).objects.connections == m.objects.connections
    ensures ApplyStep(m, step).objects.connection == m.objects.connection
    ensures ApplyStep(m, step).objects.workspaces == m.objects.workspaces
  {
  }

  lemma WorkspacesStay(m: Memory, a: Event)
    ensures
      var o, u := m.objects, After(m, a).objects;
      |o.workspaces| <= |u.workspaces| && forall x :: 0 <= x < |o.workspaces| ==> u.workspaces[x] == o.workspaces[x]
  {
    if a.Notified? { NotifiedConnections(m, a.step); }
  }

  // ---- The mode that an object sees ----------------------------------------------------------------------------------

  /** The object refers to a connection object of this connection, and that to a workspace object. */
  predicate Refers(o: Objects, r: Ref, c: string) {
    && r < |o.pipelines| && o.pipelines[r].connection < |o.connections| && o.connections[o.pipelines[r].connection].id == c
    && o.connections[o.pipelines[r].connection].workspace < |o.workspaces|
  }

  /** The connection object is that of the state. */
  predicate Attached(o: Objects, r: Ref, c: string) { Refers(o, r, c) && IsConnection(o, o.pipelines[r].connection) }

  /** It is not, and never will be. */
  predicate Detached(o: Objects, r: Ref, c: string) {
    Refers(o, r, c) && !IsConnection(o, o.pipelines[r].connection) && !IsPipeline(o, r)
  }

  predicate SeesNormal(o: Objects, r: Ref) { r < |o.pipelines| && Normal(o, o.pipelines[r].connection) }

  /** The mode of the warehouse, as the state has it. */
  predicate StateNormal(o: Objects, c: string) { HasConnection(o, c) && Normal(o, o.connection[c]) }

  /** A copied connection does not reach the object any more. */
  predicate Detaches(o: Objects, a: Event, r: Ref, c: string) {
    a.ConnectionReplaced? && a.connection == c && !IsPipeline(o, r)
  }

  lemma AttachedNext(m: Memory, a: Event, r: Ref, c: string)
    requires MemoryInv(m) && Attached(m.objects, r, c)
    ensures
      var o, u := m.objects, After(m, a).objects;
      if Detaches(o, a, r, c) then Detached(u, r, c) && (SeesNormal(u, r) <==> SeesNormal(o, r)) else Attached(u, r, c)
  {
    var o := m.objects;
    if a.ConnectionReplaced? && a.connection == c {
      CopiedConnection(o, r, c);
    } else {
      EveryObjectAges(m, a, r);
      EveryConnectionAges(m, a, o.pipelines[r].connection);
      AttachedIsInRange(After(m, a), o.pipelines[r].connection) by { MemoryKept(m, a); }
    }
  }

  lemma CopiedConnection(o: Objects, r: Ref, c: string)
    requires Attached(o, r, c)
    ensures
      var u := ReplaceConnection(o, c);
      if IsPipeline(o, r) then Attached(u, r, c) else Detached(u, r, c) && (SeesNormal(u, r) <==> SeesNormal(o, r))
  {
    assert HasConnection(o, c) && o.connection[c] == o.pipelines[r].connection;
  }

  lemma AttachedIsInRange(m: Memory, c: Ref)
    requires MemoryInv(m) && IsConnection(m.objects, c)
    ensures m.objects.connections[c].workspace < |m.objects.workspaces|
  {
  }

  lemma DetachedNext(m: Memory, a: Event, r: Ref, c: string)
    requires Detached(m.objects, r, c)
    ensures Detached(After(m, a).objects, r, c) && (SeesNormal(After(m, a).objects, r) <==> SeesNormal(m.objects, r))
  {
    EveryObjectAges(m, a, r);
    EveryConnectionAges(m, a, m.objects.pipelines[r].connection);
    WorkspacesStay(m, a);
  }

  // ---- From a filing on ----------------------------------------------------------------------------------------------

  /** The event at `k` filed the pipeline, and none did after it, by the same executor. */
  ghost predicate FiledSince(acts: seq<Event>, k: nat, n: nat, id: string) {
    && k < n <= |acts|
    && if n == k + 1 then Files(At(acts, k), acts[k], id)
       else FiledSince(acts, k, n - 1, id) && !Files(At(acts, n - 1), acts[n - 1], id)
  }

  /** The object that the pipeline had after the event. */
  ghost function FiledAs(acts: seq<Event>, k: nat, id: string): Ref
    requires k < |acts|
  {
    RefOf(At(acts, k + 1).objects, id)
  }

  lemma FilingIs(acts: seq<Event>, k: nat, id: string)
    requires FiledSince(acts, k, k + 1, id)
    ensures
      var m := At(acts, k + 1);
      && m.filings.Some? && id in m.filings.value.last && m.filings.value.last[id] == FiledAs(acts, k, id)
      && IsPipeline(m.objects, FiledAs(acts, k, id)) && m.objects.pipelines[FiledAs(acts, k, id)].id == id
      && IsScheduled(m, id)
  {
    ReachableMemory(acts[..k]);
    AtNext(acts, k);
    EveryEventFollows(At(acts, k), acts[k], id);
  }

  /** Every scheduled pipeline was filed. */
  lemma {:induction false} ScheduledWasFiled(acts: seq<Event>, n: nat, id: string)
    requires n <= |acts| && IsScheduled(At(acts, n), id)
    ensures exists k :: 0 <= k < n && FiledSince(acts, k, n, id)
  {
    if n > 0 {
      ReachableMemory(acts[..n - 1]);
      AtNext(acts, n - 1);
      EveryEventFollows(At(acts, n - 1), acts[n - 1], id);
      if Files(At(acts, n - 1), acts[n - 1], id) {
        assert FiledSince(acts, n - 1, n, id);
      } else {
        ScheduledWasFiled(acts, n - 1, id);
        var k :| 0 <= k < n - 1 && FiledSince(acts, k, n - 1, id);
        assert FiledSince(acts, k, n, id);
      }
    }
  }

  /** As long as it is scheduled, what the ticks find is the object of the last filing. */
  lemma {:induction false} HeldSince(acts: seq<Event>, k: nat, n: nat, id: string)
    requires FiledSince(acts, k, n, id) && At(acts, n).filings.Some? && id in At(acts, n).filings.value.last
    ensures At(acts, n).filings.value.last[id] == FiledAs(acts, k, id)
    decreases n
  {
    if n == k + 1 {
      FilingIs(acts, k, id);
    } else {
      HeldNext(acts, n - 1, id);
      HeldSince(acts, k, n - 1, id);
    }
  }

  lemma HeldNext(acts: seq<Event>, l: nat, id: string)
    requires l < |acts| && !Files(At(acts, l), acts[l], id)
    requires At(acts, l + 1).filings.Some? && id in At(acts, l + 1).filings.value.last
    ensures At(acts, l).filings.Some? && id in At(acts, l).filings.value.last
    ensures At(acts, l + 1).filings.value.last[id] == At(acts, l).filings.value.last[id]
  {
    ReachableMemory(acts[..l]);
    AtNext(acts, l);
    EveryEventFollows(At(acts, l), acts[l], id);
  }

  // ---- The objects in the course of events -----------------------------------------------------------------------------

  /** What may become of the view of an object. */
  predicate SeesNext(o: Objects, u: Objects, a: Event, r: Ref, c: string) {
    && (Attached(o, r, c) ==>
        if Detaches(o, a, r, c) then Detached(u, r, c) && (SeesNormal(u, r) <==> SeesNormal(o, r)) else Attached(u, r, c))
    && (Detached(o, r, c) ==> Detached(u, r, c) && (SeesNormal(u, r) <==> SeesNormal(o, r)))
  }

  /** The objects before, between and after the events. */
  ghost predicate Course(os: seq<Objects>, acts: seq<Event>) {
    && |os| == |acts| + 1
    && (forall l: nat, r: Ref :: l < |acts| && r < |os[l].pipelines| ==> AgesAt(os, acts, l, r))
    && (forall l: nat, r: Ref, c: string :: l < |acts| ==> SeesAt(os, acts, l, r, c))
  }

  ghost predicate AgesAt(os: seq<Objects>, acts: seq<Event>, l: nat, r: Ref)
    requires l < |acts| && |os| == |acts| + 1 && r < |os[l].pipelines|
  {
    Ages(os[l], os[l + 1], acts[l], r)
  }

  ghost predicate SeesAt(os: seq<Objects>, acts: seq<Event>, l: nat, r: Ref, c: string)
    requires l < |acts| && |os| == |acts| + 1
  {
    SeesNext(os[l], os[l + 1], acts[l], r, c)
  }

  ghost function CourseOf(acts: seq<Event>): (os: seq<Objects>)
    ensures |os| == |acts| + 1 && forall k :: 0 <= k <= |acts| ==> os[k] == At(acts, k).objects
  {
    seq(|acts| + 1, k requires 0 <= k <= |acts| => At(acts, k).objects)
  }

  lemma CourseIs(acts: seq<Event>)
    ensures Course(CourseOf(acts), acts)
  {
    var os := CourseOf(acts);
    forall l: nat, r: Ref | l < |acts| && r < |os[l].pipelines| ensures AgesAt(os, acts, l, r) {
      AtNext(acts, l);
      EveryObjectAges(At(acts, l), acts[l], r);
    }
    forall l: nat, r: Ref, c: string | l < |acts| ensures SeesAt(os, acts, l, r, c) {
      AtNext(acts, l);
      ReachableMemory(acts[..l]);
      if Attached(os[l], r, c) { AttachedNext(At(acts, l), acts[l], r, c); }
      if Detached(os[l], r, c) { DetachedNext(At(acts, l), acts[l], r, c); }
    }
  }

  /** A run was recorded in the object: it started while that was the object of the state. */
  ghost predicate RunRecorded(os: seq<Objects>, acts: seq<Event>, i: nat, n: nat, id: string, r: Ref)
    requires i <= n <= |acts| < |os|
  {
    exists l :: i <= l < n && RecordsRun(os[l], acts[l], id, r)
  }

  /** An object is enabled and has the period as it was made with, and has a run exactly if one was recorded in it. */
  lemma {:induction false} AgedSince(os: seq<Objects>, acts: seq<Event>, i: nat, n: nat, r: Ref)
    requires Course(os, acts) && i <= n <= |acts| && r < |os[i].pipelines|
    ensures r < |os[n].pipelines|
    ensures
      var p, q := os[i].pipelines[r], os[n].pipelines[r];
      && q.id == p.id && q.enabled == p.enabled && q.period == p.period
      && (q.running <==> p.running || RunRecorded(os, acts, i, n, p.id, r))
    decreases n
  {
    if n > i {
      AgedSince(os, acts, i, n - 1, r);
      assert AgesAt(os, acts, n - 1, r);
    }
  }

  /** The last time up to `n` at which the object saw the mode of the state. */
  ghost function SeenAt(os: seq<Objects>, acts: seq<Event>, i: nat, n: nat, r: Ref, c: string): (s: nat)
    requires i <= n <= |acts| < |os|
    ensures i <= s <= n
  {
    if n == i then n
    else
      var s := SeenAt(os, acts, i, n - 1, r, c);
      if s == n - 1 && !Detaches(os[n - 1], acts[n - 1], r, c) then n else s
  }

  lemma AttachedSees(o: Objects, r: Ref, c: string)
    requires Attached(o, r, c)
    ensures SeesNormal(o, r) <==> StateNormal(o, c)
  {
  }

  /** An object sees the mode of the state, or the one of the last time at which a copy of its connection reached it. */
  lemma {:induction false} SeenSince(os: seq<Objects>, acts: seq<Event>, i: nat, n: nat, r: Ref, c: string)
    requires Course(os, acts) && i <= n <= |acts| && Attached(os[i], r, c)
    ensures
      var s := SeenAt(os, acts, i, n, r, c);
      && (if s == n then Attached(os[n], r, c) else Detached(os[n], r, c))
      && (SeesNormal(os[n], r) <==> StateNormal(os[s], c))
    decreases n
  {
    if n > i {
      SeenSince(os, acts, i, n - 1, r, c);
      assert SeesAt(os, acts, n - 1, r, c);
    }
    if SeenAt(os, acts, i, n, r, c) == n { AttachedSees(os[n], r, c); }
  }

  // ---- What was filed ------------------------------------------------------------------------------------------------

  /** What the pipeline was when it was filed. */
  ghost function Original(acts: seq<Event>, k: nat, id: string): PipelineObject
    requires FiledSince(acts, k, k + 1, id)
  {
    FilingIs(acts, k, id);
    At(acts, k + 1).objects.pipelines[FiledAs(acts, k, id)]
  }

  /** The connection that the pipeline is of. */
  ghost function ConnectionOf(acts: seq<Event>, k: nat, id: string): string
    requires FiledSince(acts, k, k + 1, id)
  {
    FilingRefers(acts, k, id);
    At(acts, k + 1).objects.connections[Original(acts, k, id).connection].id
  }

  lemma FilingRefers(acts: seq<Event>, k: nat, id: string)
    requires FiledSince(acts, k, k + 1, id)
    ensures
      var o := At(acts, k + 1).objects;
      && Original(acts, k, id).connection < |o.connections|
      && Attached(o, FiledAs(acts, k, id), o.connections[Original(acts, k, id).connection].id)
  {
    FilingIs(acts, k, id);
    ReachableMemory(acts[..k + 1]);
    var o := At(acts, k + 1).objects;
    assert Has(o, id) && IsConnection(o, Current(o, id).connection);
    AttachedIsInRange(At(acts, k + 1), Current(o, id).connection);
  }

  // ---- The ticks -----------------------------------------------------------------------------------------------------

  /** A tick starts a run of the pipeline: it finds it, and what it finds passes the test. */
  ghost predicate Starts(m: Memory, minute: nat, id: string) {
    m.filings.Some?
    && exists e :: e in DueEntries(m.filings.value.entries, minute, 0) && e.id == id && CanExecute(m.objects, e.filed)
  }

  lemma StartsHeld(m: Memory, minute: nat, id: string)
    requires MemoryInv(m) && ToSchedule(m.scheduling, id)
    ensures Starts(m, minute, id) <==>
      && IsScheduled(m, id) && LookedUpAt(m.scheduling.pipelines[id], minute)
      && id in m.filings.value.last && CanExecute(m.objects, m.filings.value.last[id])
  {
    if m.filings.Some? {
      var f := m.filings.value;
      assert Indexed(m.scheduling, m.scheduling.executor.value, id);
      DueAreHeld(f.entries, minute, 0, f.last);
      DueErased(f.entries, minute, 0);
      DueMembers(m.scheduling.executor.value, minute, 0, id);
      var due := DueEntries(f.entries, minute, 0);
      if id in Ids(due) {
        var k :| 0 <= k < |Ids(due)| && Ids(due)[k] == id;
        assert due[k] in due;
      } else {
        forall e | e in due ensures e.id != id {
          var k :| 0 <= k < |due| && due[k] == e;
          assert Ids(due)[k] == e.id;
        }
      }
    }
  }

  /** In every history, a tick starts a pipeline that is to be scheduled if and only if it is scheduled and due, it was
      enabled and without a run when it was last filed, no run was recorded in that object since then, and the mode
      was normal when the object last saw it. */
  lemma StartsExactly(acts: seq<Event>, k: nat, n: nat, id: string, minute: nat)
    requires FiledSince(acts, k, n, id) && FiledSince(acts, k, k + 1, id) && ToSchedule(At(acts, n).scheduling, id)
    ensures
      var os, r, c := CourseOf(acts), FiledAs(acts, k, id), ConnectionOf(acts, k, id);
      Starts(At(acts, n), minute, id) <==>
      && IsScheduled(At(acts, n), id) && LookedUpAt(At(acts, n).scheduling.pipelines[id], minute)
      && Original(acts, k, id).enabled && !Original(acts, k, id).running && !RunRecorded(os, acts, k + 1, n, id, r)
      && StateNormal(os[SeenAt(os, acts, k + 1, n, r, c)], c)
  {
    var m, r := At(acts, n), FiledAs(acts, k, id);
    ReachableMemory(acts[..n]);
    StartsHeld(m, minute, id);
    FilingIs(acts, k, id);
    FilingRefers(acts, k, id);
    CourseIs(acts);
    AgedSince(CourseOf(acts), acts, k + 1, n, r);
    SeenSince(CourseOf(acts), acts, k + 1, n, r, ConnectionOf(acts, k, id));
    OriginalHasPeriod(acts, k, id);
    if IsScheduled(m, id) { ScheduledIsHeld(m, id); HeldSince(acts, k, n, id); }
  }

  lemma ScheduledIsHeld(m: Memory, id: string)
    requires MemoryInv(m) && IsScheduled(m, id)
    ensures id in m.filings.value.last
  {
    var f := m.filings.value.entries;
    var entries := Entries(f, f.indexes[id]);
    var k :| 0 <= k < |Ids(entries)| && Ids(entries)[k] == id;
    assert entries[k] in Entries(f, f.indexes[id]);
  }

  lemma OriginalHasPeriod(acts: seq<Event>, k: nat, id: string)
    requires FiledSince(acts, k, k + 1, id)
    ensures Original(acts, k, id).period != 0
  {
    FilingIs(acts, k, id);
    ReachableMemory(acts[..k + 1]);
    FiledIsToSchedule(acts, k, id);
    HasPeriod(At(acts, k + 1), id);
  }

  lemma HasPeriod(m: Memory, id: string)
    requires MemoryInv(m) && ToSchedule(m.scheduling, id)
    ensures Has(m.objects, id) && Current(m.objects, id).period != 0
  {
  }

  lemma FiledIsToSchedule(acts: seq<Event>, k: nat, id: string)
    requires FiledSince(acts, k, k + 1, id)
    ensures ToSchedule(At(acts, k + 1).scheduling, id)
  {
    AtNext(acts, k);
  }

  // ---- Objects that were left behind ---------------------------------------------------------------------------------

  /** The event replaces the object of the pipeline, or deletes the pipeline. */
  ghost predicate Replaces(m: Memory, a: Event, id: string)
    requires Has(m.objects, id)
  {
    match a
    case PipelineReplaced(x, _) => x == id
    case RunEnded(x) => x == id
    case Notified(step) =>
      && Possible(m.scheduling, step)
      && (match step
          case Delete(x) => x == id && id in m.scheduling.pipelines
          case ChangePeriod(x, period) => x == id && Changes(m.scheduling, id, period)
          case Disable(organization, order) =>
            organization in m.scheduling.enabled && id in order && Current(m.objects, id).running
          case _ => false)
    case _ => false
  }

  /** These events, and no others, leave an object behind. */
  lemma ReplacesExactly(m: Memory, a: Event, id: string)
    requires MemoryInv(m) && Has(m.objects, id)
    ensures IsPipeline(After(m, a).objects, m.objects.pipeline[id]) <==> !Replaces(m, a, id)
  {
    assert id in m.scheduling.pipelines && id in m.scheduling.used;
    KnownReplaces(m, a, id);
  }

  lemma KnownReplaces(m: Memory, a: Event, id: string)
    requires Has(m.objects, id) && id in m.scheduling.pipelines && id in m.scheduling.used
    ensures IsPipeline(After(m, a).objects, m.objects.pipeline[id]) <==> !Replaces(m, a, id)
  {
  }

  ghost predicate ReplacedAt(acts: seq<Event>, l: nat, id: string)
    requires l < |acts|
  {
    Has(At(acts, l).objects, id) && Replaces(At(acts, l), acts[l], id)
  }

  ghost predicate LeftBehind(acts: seq<Event>, i: nat, n: nat, id: string)
    requires i <= n <= |acts|
  {
    n > i && (LeftBehind(acts, i, n - 1, id) || ReplacedAt(acts, n - 1, id))
  }

  /** An object of the state stays it as long as none of these events happens. */
  lemma {:induction false} CurrentUntilReplaced(acts: seq<Event>, i: nat, n: nat, id: string, r: Ref)
    requires i <= n <= |acts| && IsPipeline(At(acts, i).objects, r) && At(acts, i).objects.pipelines[r].id == id
    ensures r < |At(acts, n).objects.pipelines| && At(acts, n).objects.pipelines[r].id == id
    ensures IsPipeline(At(acts, n).objects, r) <==> !LeftBehind(acts, i, n, id)
    decreases n
  {
    if n > i {
      CurrentUntilReplaced(acts, i, n - 1, id, r);
      CurrentNext(acts, n - 1, id, r);
    }
  }

  lemma CurrentNext(acts: seq<Event>, l: nat, id: string, r: Ref)
    requires l < |acts| && r < |At(acts, l).objects.pipelines| && At(acts, l).objects.pipelines[r].id == id
    ensures r < |At(acts, l + 1).objects.pipelines| && At(acts, l + 1).objects.pipelines[r].id == id
    ensures IsPipeline(At(acts, l + 1).objects, r) <==> IsPipeline(At(acts, l).objects, r) && !ReplacedAt(acts, l, id)
  {
    AtNext(acts, l);
    ReachableMemory(acts[..l]);
    EveryObjectAges(At(acts, l), acts[l], r);
    if IsPipeline(At(acts, l).objects, r) { ReplacesExactly(At(acts, l), acts[l], id); }
  }

  /** What a tick starts is what was last filed. */
  lemma StartsWhatIsHeld(m: Memory, minute: nat, id: string)
    requires MemoryInv(m) && Starts(m, minute, id)
    ensures id in m.filings.value.last && CanExecute(m.objects, m.filings.value.last[id])
  {
    DueAreHeld(m.filings.value.entries, minute, 0, m.filings.value.last);
  }

  /** Once a run was recorded in the filed object, no tick starts the pipeline until it is filed anew, though the run
      ended long ago. */
  lemma OneRunPerFiling(acts: seq<Event>, k: nat, l: nat, n: nat, id: string, minute: nat)
    requires k < l < n && FiledSince(acts, k, n, id) && FiledSince(acts, k, k + 1, id)
    requires RecordsRun(At(acts, l).objects, acts[l], id, FiledAs(acts, k, id))
    ensures !Starts(At(acts, n), minute, id)
  {
    ReachableMemory(acts[..n]);
    var r, os := FiledAs(acts, k, id), CourseOf(acts);
    FilingIs(acts, k, id);
    CourseIs(acts);
    AgedSince(os, acts, k + 1, n, r);
    assert RecordsRun(os[l], acts[l], id, r);
    assert At(acts, n).objects.pipelines[r].running;
    if Starts(At(acts, n), minute, id) {
      StartsWhatIsHeld(At(acts, n), minute, id);
      HeldSince(acts, k, n, id);
    }
  }

  /** Nor does one start a pipeline that was filed while it was disabled. */
  lemma DisabledIsNotStarted(acts: seq<Event>, k: nat, n: nat, id: string, minute: nat)
    requires FiledSince(acts, k, n, id) && FiledSince(acts, k, k + 1, id) && !Original(acts, k, id).enabled
    ensures !Starts(At(acts, n), minute, id)
  {
    ReachableMemory(acts[..n]);
    FilingIs(acts, k, id);
    CourseIs(acts);
    AgedSince(CourseOf(acts), acts, k + 1, n, FiledAs(acts, k, id));
    if Starts(At(acts, n), minute, id) {
      StartsWhatIsHeld(At(acts, n), minute, id);
      HeldSince(acts, k, n, id);
    }
  }

  /** As long as the filed object is that of the state, a tick starts what can be executed and is due. */
  lemma CurrentIsTested(acts: seq<Event>, k: nat, n: nat, id: string, minute: nat)
    requires FiledSince(acts, k, n, id) && ToSchedule(At(acts, n).scheduling, id)
    requires Has(At(acts, n).objects, id) && At(acts, n).objects.pipeline[id] == FiledAs(acts, k, id)
    ensures Starts(At(acts, n), minute, id) <==>
      && IsScheduled(At(acts, n), id) && LookedUpAt(At(acts, n).scheduling.pipelines[id], minute)
      && CanExecute(At(acts, n).objects, At(acts, n).objects.pipeline[id])
  {
    ReachableMemory(acts[..n]);
    StartsHeld(At(acts, n), minute, id);
    if IsScheduled(At(acts, n), id) { ScheduledIsHeld(At(acts, n), id); HeldSince(acts, k, n, id); }
  }

  // ---- Two pipelines that are never started --------------------------------------------------------------------------

  /** A leader, and a pipeline that is created with a period. */
  function WithPipelineFiled(enabled: bool): seq<Event> {
    [WorkspaceCreated("w", true), ConnectionCreated("c", "w"), Notified(Enable("o", [])), Notified(Elect([])),
     PipelineCreated("p", Pipeline("o", 5, 0), enabled, "c")]
  }

  /** The state before the pipeline is created. */
  ghost predicate Ready(m: Memory) {
    && m.scheduling == State(map[], {"o"}, {}, Some(Executor(map[], map[])), {})
    && m.objects == Objects([], [ConnectionObject("c", 0)], [WorkspaceObject("w", true)], map[], map["c" := 0], map["w" := 0])
    && m.filings == Some(Filings(Filing(map[], map[]), map[]))
  }

  lemma ReadyIsReached(acts: seq<Event>, enabled: bool)
    requires WithPipelineFiled(enabled) <= acts
    ensures Ready(At(acts, 4))
  {
    FirstTwo(acts, enabled);
    AtNext(acts, 2);
    EnabledFirst(At(acts, 2));
    AtNext(acts, 3);
    ElectedFirst(At(acts, 3));
  }

  lemma FirstTwo(acts: seq<Event>, enabled: bool)
    requires WithPipelineFiled(enabled) <= acts
    ensures At(acts, 2) == EMPTY.(objects :=
      Objects([], [ConnectionObject("c", 0)], [WorkspaceObject("w", true)], map[], map["c" := 0], map["w" := 0]))
  {
    assert At(acts, 0) == EMPTY;
    AtNext(acts, 0);
    AtNext(acts, 1);
  }

  lemma EnabledFirst(m: Memory)
    requires m.scheduling == INITIAL && m.filings == None
    ensures ApplyStep(m, Enable("o", [])) == m.(scheduling := INITIAL.(enabled := {"o"}))
  {
    assert Enumerates([], PipelinesOf(INITIAL, "o"));
  }

  lemma ElectedFirst(m: Memory)
    requires m.scheduling == INITIAL.(enabled := {"o"}) && m.filings == None
    ensures ApplyStep(m, Elect([])) == m.(
      scheduling := State(map[], {"o"}, {}, Some(Executor(map[], map[])), {}),
      filings := Some(Filings(Filing(map[], map[]), map[])))
  {
    assert Enumerates([], m.scheduling.pipelines.Keys);
  }

  lemma CreatedFirst(m: Memory, enabled: bool)
    requires Ready(m)
    ensures
      var a := PipelineCreated("p", Pipeline("o", 5, 0), enabled, "c");
      var n := After(m, a);
      && Files(m, a, "p") && n.scheduling.pipelines == map["p" := Pipeline("o", 5, 0)] && n.scheduling.enabled == {"o"}
      && n.objects == m.objects.(pipelines := [PipelineObject("p", enabled, 5, false, 0)], pipeline := map["p" := 0])
      && n.filings == Some(FileCreated(m.filings.value, "p", n.scheduling, n.objects))
  {
    CreatedIs(m.scheduling, "p", Pipeline("o", 5, 0));
  }

  lemma FirstIsScheduled(f: Filings, s: State, o: Objects)
    requires f == Filings(Filing(map[], map[]), map[]) && ToSchedule(s, "p")
    ensures Scheduled(Erased(FileCreated(f, "p", s, o).entries), "p")
  {
    AddErased(f.entries, Entry("p", RefOf(o, "p")), SlotFor(s.pipelines["p"]));
    AddFiles(Erased(f.entries), "p", SlotFor(s.pipelines["p"]));
  }

  lemma FiledFirst(acts: seq<Event>, enabled: bool)
    requires WithPipelineFiled(enabled) <= acts
    ensures FiledSince(acts, 4, 5, "p") && IsScheduled(At(acts, 5), "p")
    ensures
      var m := At(acts, 5);
      && m.scheduling.pipelines == map["p" := Pipeline("o", 5, 0)] && m.scheduling.enabled == {"o"}
      && m.objects == Objects([PipelineObject("p", enabled, 5, false, 0)], [ConnectionObject("c", 0)],
                              [WorkspaceObject("w", true)], map["p" := 0], map["c" := 0], map["w" := 0])
  {
    ReadyIsReached(acts, enabled);
    assert acts[4] == PipelineCreated("p", Pipeline("o", 5, 0), enabled, "c");
    CreatedFirst(At(acts, 4), enabled);
    FirstIsScheduled(At(acts, 4).filings.value, After(At(acts, 4), acts[4]).scheduling, After(At(acts, 4), acts[4]).objects);
    AtNext(acts, 4);
  }

  /** Nothing keeps the pipeline from running when it is due, but no tick starts it. */
  ghost predicate NeverStarted(m: Memory, id: string) {
    && ToSchedule(m.scheduling, id) && IsScheduled(m, id) && Has(m.objects, id)
    && CanExecute(m.objects, m.objects.pipeline[id]) && forall minute :: !Starts(m, minute, id)
  }

  lemma StaysFiled(acts: seq<Event>, k: nat, n: nat, id: string)
    requires FiledSince(acts, k, n, id) && n < |acts|
    requires acts[n].RunStarted? || acts[n].RunEnded? || acts[n].PipelineReplaced?
    ensures FiledSince(acts, k, n + 1, id)
    ensures At(acts, n + 1).scheduling == At(acts, n).scheduling && At(acts, n + 1).filings == At(acts, n).filings
  {
    AtNext(acts, n);
  }

  lemma ExecutableCopy(m: Memory, n: Memory)
    requires n.scheduling == m.scheduling && n.filings == m.filings
    requires m.scheduling.pipelines == map["p" := Pipeline("o", 5, 0)] && m.scheduling.enabled == {"o"} && IsScheduled(m, "p")
    requires Has(n.objects, "p") && CanExecute(n.objects, n.objects.pipeline["p"])
    requires forall minute :: !Starts(n, minute, "p")
    ensures NeverStarted(n, "p")
  {
  }

  lemma AfterOneRun(m: Memory)
    requires Has(m.objects, "p") && m.objects.pipelines == [PipelineObject("p", true, 5, false, 0)]
    requires Normal(m.objects, 0)
    ensures
      var n := After(After(m, RunStarted("p")), RunEnded("p"));
      Has(n.objects, "p") && CanExecute(n.objects, n.objects.pipeline["p"])
  {
  }

  lemma RunsOnce(acts: seq<Event>)
    requires acts == WithPipelineFiled(true) + [RunStarted("p"), RunEnded("p")]
    ensures FiledSince(acts, 4, 5, "p") && FiledSince(acts, 4, 7, "p")
    ensures At(acts, 7).scheduling == At(acts, 5).scheduling && At(acts, 7).filings == At(acts, 5).filings
    ensures Has(At(acts, 7).objects, "p") && CanExecute(At(acts, 7).objects, At(acts, 7).objects.pipeline["p"])
  {
    FiledFirst(acts, true);
    StaysFiled(acts, 4, 5, "p");
    StaysFiled(acts, 4, 6, "p");
    AfterOneRun(At(acts, 5));
    AtNext(acts, 5);
    AtNext(acts, 6);
  }

  /** A pipeline that has run once. */
  lemma RunOnce()
    ensures
      var acts := WithPipelineFiled(true) + [RunStarted("p"), RunEnded("p")];
      NeverStarted(At(acts, 7), "p")
  {
    var acts := WithPipelineFiled(true) + [RunStarted("p"), RunEnded("p")];
    FiledFirst(acts, true);
    RunsOnce(acts);
    forall minute ensures !Starts(At(acts, 7), minute, "p") { OneRunPerFiling(acts, 4, 5, 7, "p", minute); }
    ExecutableCopy(At(acts, 5), At(acts, 7));
  }

  /** A pipeline that was enabled after it was created. */
  lemma EnabledLater()
    ensures
      var acts := WithPipelineFiled(false) + [PipelineReplaced("p", true)];
      NeverStarted(At(acts, 6), "p")
  {
    var acts := WithPipelineFiled(false) + [PipelineReplaced("p", true)];
    FiledFirst(acts, false);
    FiledDisabled(acts);
    BecomesEnabled(acts);
    forall minute ensures !Starts(At(acts, 6), minute, "p") { DisabledIsNotStarted(acts, 4, 6, "p", minute); }
    ExecutableCopy(At(acts, 5), At(acts, 6));
  }

  lemma FiledDisabled(acts: seq<Event>)
    requires acts == WithPipelineFiled(false) + [PipelineReplaced("p", true)]
    ensures FiledSince(acts, 4, 5, "p") && FiledSince(acts, 4, 6, "p") && !Original(acts, 4, "p").enabled
    ensures At(acts, 6).scheduling == At(acts, 5).scheduling && At(acts, 6).filings == At(acts, 5).filings
  {
    FiledFirst(acts, false);
    StaysFiled(acts, 4, 5, "p");
  }

  lemma BecomesEnabled(acts: seq<Event>)
    requires acts == WithPipelineFiled(false) + [PipelineReplaced("p", true)]
    ensures Has(At(acts, 6).objects, "p") && CanExecute(At(acts, 6).objects, At(acts, 6).objects.pipeline["p"])
  {
    FiledFirst(acts, false);
    AfterEnabling(At(acts, 5));
    AtNext(acts, 5);
  }

  lemma AfterEnabling(m: Memory)
    requires Has(m.objects, "p") && m.objects.pipelines == [PipelineObject("p", false, 5, false, 0)]
    requires Normal(m.objects, 0)
    ensures
      var n := After(m, PipelineReplaced("p", true));
      Has(n.objects, "p") && CanExecute(n.objects, n.objects.pipeline["p"])
  {
  }
}
