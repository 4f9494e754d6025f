/** What a tick of the scheduler tests. The scheduler files the object that a pipeline has at the time; later copies of
    the pipeline leave that object behind (core/pipeline_scheduler.go:78-262, core/pipeline_scheduler.go:289-404,
    core/internal/state/keep.go:1179-1190, core/internal/state/keep.go:1290-1311). */
module PipelineCopies {
  import opened Prelude
  import opened PipelineScheduler
  import opened PipelineTicks
  import opened PipelineFilings
  import opened PipelineObjects

  /** The buckets of the executor with the objects in them, and the object as which it last filed each pipeline. */
  datatype Filings = Filings(entries: Filing<Ref>, last: map<string, Ref>)

  datatype Memory = Memory(scheduling: State, objects: Objects, filings: Option<Filings>)

  const EMPTY := Memory(INITIAL, NONE, None)

  datatype Event =
    | WorkspaceCreated(workspace: string, normal: bool)
    | ConnectionCreated(connection: string, workspace: string)
    | PipelineCreated(id: string, pipeline: Pipeline, enabled: bool, connection: string)
    | Notified(step: Step)                              // any other notification that the scheduler listens to
    | PipelineReplaced(id: string, enabled: bool)       // any other change of a pipeline
    | RunStarted(id: string)
    | RunEnded(id: string)
    | ConnectionReplaced(connection: string)
    | WorkspaceReplaced(workspace: string, normal: bool)

  // ---- Notifications -----------------------------------------------------------------------------------------------

  function RefOf(o: Objects, id: string): Ref { if id in o.pipeline then o.pipeline[id] else 0 }

  function EntriesOf(o: Objects, ids: seq<string>): (entries: seq<Entry<Ref>>)
    ensures Ids(entries) == ids
    ensures forall e :: e in entries ==> e.id in ids && e.filed == RefOf(o, e.id)
  {
    seq(|ids|, k requires 0 <= k < |ids| => Entry(ids[k], RefOf(o, ids[k])))
  }

  /** Files those that are to be scheduled. */
  function FileAll(f: Filings, ids: seq<string>, s: State, o: Objects): Filings {
    Filings(AddEntries(f.entries, EntriesOf(o, ids), s),
            f.last + map id | id in ids && ToSchedule(s, id) :: RefOf(o, id))
  }

  /** What the executor does when a pipeline is created. */
  function FileCreated(f: Filings, id: string, s: State, o: Objects): Filings {
    if ToSchedule(s, id)
    then Filings(AddEntry(f.entries, Entry(id, RefOf(o, id)), SlotFor(s.pipelines[id])), f.last[id := RefOf(o, id)])
    else f
  }

  /** What it does when a period is changed. */
  function FileChanged(f: Filings, id: string, s: State, o: Objects): Filings
    requires id in s.pipelines && ValidPeriod(s.pipelines[id].period)
  {
    var p := s.pipelines[id];
    if p.organization !in s.enabled then f
    else
      Filings(ChangeEntry(f.entries, Entry(id, RefOf(o, id)), p.period, p.start),
              if NamesPeriod(Erased(f.entries), id, p.period) || p.period == 0 then f.last else f.last[id := RefOf(o, id)])
  }

  predicate Changes(s: State, id: string, period: nat) {
    id in s.pipelines && ValidPeriod(period) && s.pipelines[id].period != period
  }

  function ObjectsNotified(o: Objects, s: State, step: Step): Objects {
    match step
    case Delete(id) => if id in s.pipelines then o.(pipeline := o.pipeline - {id}) else o
    case ChangePeriod(id, period) =>
      if Changes(s, id, period) && Has(o, id) then PutPipeline(o, Current(o, id).(period := period)) else o
    case Disable(organization, order) => if organization in s.enabled then EndRuns(o, order) else o
    case _ => o
  }

  /** From the scheduling `s` to `t`, with the objects `o` after the change. */
  function FilingsNotified(f: Option<Filings>, s: State, t: State, o: Objects, step: Step): Option<Filings> {
    match step
    case Elect(order) =>
      if f.None? && t.executor.Some? then Some(FileAll(Filings(Filing(map[], map[]), map[]), order, t, o)) else f
    case Dismiss => None
    case Removed(id) =>
      if f.Some? && id in s.removing then Some(f.value.(entries := RemoveEntry(f.value.entries, id))) else f
    case ChangePeriod(id, period) =>
      if f.Some? && Changes(s, id, period) && id in t.pipelines && t.pipelines[id].period == period
      then Some(FileChanged(f.value, id, t, o)) else f
    case Enable(organization, order) =>
      if f.Some? && organization !in s.enabled then Some(FileAll(f.value, order, t, o)) else f
    case Disable(organization, order) =>
      if f.Some? && organization in s.enabled
      then Some(f.value.(entries := RemoveEntries(f.value.entries, order, t))) else f
    case _ => f
  }

  /** A loop of the scheduler goes over the pipelines that it is about. */
  ghost predicate Possible(s: State, step: Step) {
    match step
    case Create(_, _) => false
    case Enable(organization, order) => Enumerates(order, PipelinesOf(s, organization))
    case Disable(organization, order) => Enumerates(order, PipelinesOf(s, organization))
    case Elect(order) => Enumerates(order, s.pipelines.Keys)
    case _ => true
  }

  /** First the state changes, then the listener of the scheduler is called. */
  ghost function ApplyStep(m: Memory, step: Step): Memory {
    if !Possible(m.scheduling, step) then m
    else
      var t, o := PipelineScheduler.Apply(m.scheduling, step), ObjectsNotified(m.objects, m.scheduling, step);
      Memory(t, o, FilingsNotified(m.filings, m.scheduling, t, o, step))
  }

  predicate CanCreate(m: Memory, id: string, p: Pipeline, c: string) {
    id !in m.scheduling.used && ValidPeriod(p.period) && HasConnection(m.objects, c)
  }

  ghost function ApplyCreation(m: Memory, id: string, p: Pipeline, enabled: bool, c: string): Memory
    requires CanCreate(m, id, p, c)
  {
    var t := PipelineScheduler.Apply(m.scheduling, Create(id, p));
    var o := PutPipeline(m.objects, PipelineObject(id, enabled, p.period, false, m.objects.connection[c]));
    Memory(t, o, if m.filings.Some? then Some(FileCreated(m.filings.value, id, t, o)) else None)
  }

  ghost function After(m: Memory, a: Event): Memory {
    var o := m.objects;
    match a
    case WorkspaceCreated(x, normal) =>
      if x in o.workspace then m else m.(objects := PutWorkspace(o, WorkspaceObject(x, normal)))
    case ConnectionCreated(c, x) =>
      if c in o.connection || !HasWorkspace(o, x) then m
      else m.(objects := PutConnection(o, ConnectionObject(c, o.workspace[x])))
    case PipelineCreated(id, p, enabled, c) => if CanCreate(m, id, p, c) then ApplyCreation(m, id, p, enabled, c) else m
    case Notified(step) => ApplyStep(m, step)
    case PipelineReplaced(id, enabled) => m.(objects := ReplacePipeline(o, id, enabled))
    case RunStarted(id) => m.(objects := StartRun(o, id))
    case RunEnded(id) => m.(objects := EndRun(o, id))
    case ConnectionReplaced(c) => m.(objects := ReplaceConnection(o, c))
    case WorkspaceReplaced(x, normal) => m.(objects := ReplaceWorkspace(o, x, normal))
  }

  ghost function Exec(acts: seq<Event>): Memory {
    if acts == [] then EMPTY else After(Exec(acts[..|acts| - 1]), acts[|acts| - 1])
  }

  ghost function At(acts: seq<Event>, k: nat): Memory
    requires k <= |acts|
  {
    Exec(acts[..k])
  }

  lemma AtNext(acts: seq<Event>, k: nat)
    requires k < |acts|
    ensures At(acts, k + 1) == After(At(acts, k), acts[k])
  {
    assert acts[..k + 1][..k] == acts[..k];
  }

  // ---- Without its objects, the scheduler is the scheduler -----------------------------------------------------------

  /** The pipelines are those that the scheduler is told of, and their objects have their periods. */
  ghost predicate Same(s: State, o: Objects) {
    && s.pipelines.Keys == o.pipeline.Keys
    && forall id :: id in o.pipeline && Has(o, id) ==> Current(o, id).period == s.pipelines[id].period
  }

  /** The entries are those of the executor, each with the object last filed; and that is an object of the pipeline. */
  ghost predicate FilingsInv(s: State, o: Objects, f: Option<Filings>) {
    && (f.Some? <==> s.executor.Some?)
    && (f.Some? ==> Erased(f.value.entries) == s.executor.value && Holds(f.value.entries, f.value.last))
    && (f.Some? ==> LastInv(s, o, f.value.last))
  }

  ghost predicate LastInv(s: State, o: Objects, last: map<string, Ref>) {
    forall id :: id in last ==> id in s.used && last[id] < |o.pipelines| && o.pipelines[last[id]].id == id
  }

  ghost predicate MemoryInv(m: Memory) {
    && PipelineScheduler.Inv(m.scheduling) && Linked(m.objects) && Same(m.scheduling, m.objects)
    && FilingsInv(m.scheduling, m.objects, m.filings)
  }

  lemma LastStays(s: State, t: State, o: Objects, u: Objects, last: map<string, Ref>)
    requires LastInv(s, o, last) && s.used <= t.used && |o.pipelines| <= |u.pipelines|
    requires forall r :: 0 <= r < |o.pipelines| ==> u.pipelines[r].id == o.pipelines[r].id
    ensures LastInv(t, u, last)
  {
  }

  lemma FileAllKeeps(f: Filings, ids: seq<string>, s: State, o: Objects)
    requires Filed(Erased(f.entries)) && Holds(f.entries, f.last) && LastInv(s, o, f.last)
    requires Linked(o) && PipelineScheduler.Inv(s) && Same(s, o)
    requires forall id :: id in ids && ToSchedule(s, id) ==> !Scheduled(Erased(f.entries), id)
    ensures
      var g := FileAll(f, ids, s, o);
      Erased(g.entries) == AddAll(Erased(f.entries), ids, s) && Holds(g.entries, g.last) && LastInv(s, o, g.last)
  {
    var g := FileAll(f, ids, s, o);
    AddAllErased(f.entries, EntriesOf(o, ids), s);
    OthersHold(f.entries, f.last, g.last);
    AddAllHolds(f.entries, EntriesOf(o, ids), s, g.last);
    forall id | id in g.last ensures id in s.used && g.last[id] < |o.pipelines| && o.pipelines[g.last[id]].id == id {
      if id in ids && ToSchedule(s, id) { assert Has(o, id); }
    }
  }

  lemma FileCreatedKeeps(f: Filings, id: string, s: State, o: Objects)
    requires Filed(Erased(f.entries)) && Holds(f.entries, f.last) && LastInv(s, o, f.last)
    requires !Scheduled(Erased(f.entries), id) && Has(o, id) && id in s.used
    ensures
      var g := FileCreated(f, id, s, o);
      && Holds(g.entries, g.last) && LastInv(s, o, g.last)
      && Erased(g.entries) == if ToSchedule(s, id) then Add(Erased(f.entries), id, SlotFor(s.pipelines[id])) else Erased(f.entries)
  {
    if ToSchedule(s, id) {
      var g, entry := FileCreated(f, id, s, o), Entry(id, RefOf(o, id));
      OthersHold(f.entries, f.last, g.last);
      AddHolds(f.entries, entry, SlotFor(s.pipelines[id]), g.last);
      AddErased(f.entries, entry, SlotFor(s.pipelines[id]));
    }
  }

  lemma FileChangedKeeps(f: Filings, id: string, s: State, o: Objects)
    requires Filed(Erased(f.entries)) && Holds(f.entries, f.last) && LastInv(s, o, f.last)
    requires id in s.pipelines && ValidPeriod(s.pipelines[id].period) && Has(o, id) && id in s.used
    ensures
      var g, p := FileChanged(f, id, s, o), s.pipelines[id];
      && Holds(g.entries, g.last) && LastInv(s, o, g.last)
      && Erased(g.entries) == if p.organization in s.enabled
           then PipelineScheduler.SetPeriod(Erased(f.entries), id, p.period, p.start) else Erased(f.entries)
  {
    var p, entry := s.pipelines[id], Entry(id, RefOf(o, id));
    var g := FileChanged(f, id, s, o);
    ChangeErased(f.entries, entry, p.period, p.start);
    if p.organization in s.enabled && !NamesPeriod(Erased(f.entries), id, p.period) {
      RemoveHolds(f.entries, id, f.last);
      RemoveErased(f.entries, id);
      RemoveUnfiles(Erased(f.entries), id);
      var h := if id in f.entries.indexes then RemoveEntry(f.entries, id) else f.entries;
      if p.period != 0 {
        OthersHold(h, f.last, g.last);
        AddHolds(h, entry, SlotOf(p.period, p.start), g.last);
      }
    }
  }

  lemma SameStays(s: State, o: Objects, u: Objects)
    requires Same(s, o) && Kept(o, u) && forall id :: id in o.pipeline ==> Has(o, id)
    ensures Same(s, u)
  {
  }

  /** A change of objects that the scheduler is not told of. */
  lemma ObjectsChange(m: Memory, o: Objects)
    requires MemoryInv(m) && Linked(o) && Kept(m.objects, o)
    ensures MemoryInv(m.(objects := o))
  {
    HasAll(m.objects);
    SameStays(m.scheduling, m.objects, o);
    if m.filings.Some? { LastStays(m.scheduling, m.scheduling, m.objects, o, m.filings.value.last); }
  }

  lemma ReplacementKeeps(m: Memory, p: PipelineObject)
    requires MemoryInv(m) && Has(m.objects, p.id) && p.connection == Current(m.objects, p.id).connection
    requires p.period == Current(m.objects, p.id).period
    ensures MemoryInv(m.(objects := PutPipeline(m.objects, p)))
  {
    PutPipelineKeeps(m.objects, p);
    ReplacementKept(m.objects, p);
    ObjectsChange(m, PutPipeline(m.objects, p));
  }

  lemma NewObjectsKeep(m: Memory, a: Event)
    requires MemoryInv(m) && (a.WorkspaceCreated? || a.ConnectionCreated?)
    ensures MemoryInv(After(m, a))
  {
    var o := m.objects;
    if a.WorkspaceCreated? {
      if a.workspace !in o.workspace {
        PutWorkspaceKeeps(o, WorkspaceObject(a.workspace, a.normal));
        ObjectsChange(m, PutWorkspace(o, WorkspaceObject(a.workspace, a.normal)));
      }
    } else if a.connection !in o.connection && HasWorkspace(o, a.workspace) {
      PutConnectionKeeps(o, ConnectionObject(a.connection, o.workspace[a.workspace]));
      ObjectsChange(m, PutConnection(o, ConnectionObject(a.connection, o.workspace[a.workspace])));
    }
  }

  lemma ObjectEventsKeep(m: Memory, a: Event)
    requires MemoryInv(m) && !a.Notified? && !a.PipelineCreated? && !a.WorkspaceCreated? && !a.ConnectionCreated?
    ensures MemoryInv(After(m, a))
  {
    var o := m.objects;
    match a
    case PipelineReplaced(id, enabled) => if Has(o, id) { ReplacementKeeps(m, Current(o, id).(enabled := enabled)); }
    case RunEnded(id) => if Has(o, id) { ReplacementKeeps(m, Current(o, id).(running := false)); }
    case RunStarted(id) => StartRunKeeps(o, id); StartKept(o, id); ObjectsChange(m, StartRun(o, id));
    case ConnectionReplaced(c) =>
      ReplaceConnectionKeeps(o, c);
      ConnectionKept(o, c);
      ObjectsChange(m, ReplaceConnection(o, c));
    case WorkspaceReplaced(x, normal) =>
      ReplaceWorkspaceKeeps(o, x, normal);
      ObjectsChange(m, ReplaceWorkspace(o, x, normal));
  }

  lemma CreatedIs(s: State, id: string, p: Pipeline)
    requires id !in s.used && ValidPeriod(p.period)
    ensures
      var t := PipelineScheduler.Apply(s, Create(id, p));
      && t.pipelines == s.pipelines[id := p] && t.used == s.used + {id} && t.enabled == s.enabled
      && t.executor == if s.executor.Some? && ToSchedule(t, id)
                       then Some(Add(s.executor.value, id, SlotFor(p))) else s.executor
  {
  }

  lemma NewPipelineIsSame(s: State, t: State, o: Objects, p: PipelineObject)
    requires Same(s, o) && forall id :: id in o.pipeline ==> Has(o, id)
    requires t.pipelines.Keys == s.pipelines.Keys + {p.id} && t.pipelines[p.id].period == p.period
    requires forall id :: id in s.pipelines && id != p.id ==> t.pipelines[id] == s.pipelines[id]
    ensures Same(t, PutPipeline(o, p)) && Has(PutPipeline(o, p), p.id)
  {
  }

  lemma CreationKeeps(m: Memory, id: string, p: Pipeline, enabled: bool, c: string)
    requires MemoryInv(m) && CanCreate(m, id, p, c)
    ensures MemoryInv(ApplyCreation(m, id, p, enabled, c))
  {
    var s, t := m.scheduling, PipelineScheduler.Apply(m.scheduling, Create(id, p));
    var made := PipelineObject(id, enabled, p.period, false, m.objects.connection[c]);
    PipelineScheduler.InvKept(s, Create(id, p));
    CreatedIs(s, id, p);
    PutPipelineKeeps(m.objects, made);
    HasAll(m.objects);
    NewPipelineIsSame(s, t, m.objects, made);
    if m.filings.Some? {
      assert Indexed(s, s.executor.value, id);
      LastStays(s, t, m.objects, PutPipeline(m.objects, made), m.filings.value.last);
      FileCreatedKeeps(m.filings.value, id, t, PutPipeline(m.objects, made));
    }
  }

  lemma ChangedIs(s: State, id: string, period: nat)
    requires Changes(s, id, period)
    ensures
      var t, p := PipelineScheduler.Apply(s, ChangePeriod(id, period)), s.pipelines[id].(period := period);
      && t.pipelines == s.pipelines[id := p] && t.used == s.used && t.enabled == s.enabled
      && t.executor == if s.executor.Some? && p.organization in s.enabled
                       then Some(PipelineScheduler.SetPeriod(s.executor.value, id, period, p.start)) else s.executor
  {
  }

  lemma UnchangedIs(s: State, id: string, period: nat)
    requires !Changes(s, id, period)
    ensures PipelineScheduler.Apply(s, ChangePeriod(id, period)) == s
  {
  }

  lemma PipelinesStay(s: State, step: Step)
    requires !step.Create? && !step.Delete? && !step.ChangePeriod?
    ensures PipelineScheduler.Apply(s, step).pipelines == s.pipelines && PipelineScheduler.Apply(s, step).used == s.used
  {
  }

  /** What a notification does to the objects. */
  ghost predicate ObjectsFollow(s: State, t: State, o: Objects, u: Objects) {
    && Linked(u) && Same(t, u) && s.used <= t.used
    && |o.pipelines| <= |u.pipelines| && forall r :: 0 <= r < |o.pipelines| ==> u.pipelines[r].id == o.pipelines[r].id
  }

  lemma NotifiedObjectsKeep(s: State, o: Objects, step: Step)
    requires Linked(o) && Same(s, o) && Possible(s, step)
    ensures ObjectsFollow(s, PipelineScheduler.Apply(s, step), o, ObjectsNotified(o, s, step))
  {
    match step
    case Delete(id) => DeletedKeeps(s, o, id);
    case ChangePeriod(id, period) => ChangedKeeps(s, o, id, period);
    case Disable(organization, order) =>
      PipelinesStay(s, step);
      EndRunsKeep(o, order);
      EndRunsKept(o, order);
      HasAll(o);
      SameStays(s, o, EndRuns(o, order));
    case _ => PipelinesStay(s, step);
  }

  lemma DeletedKeeps(s: State, o: Objects, id: string)
    requires Linked(o) && Same(s, o)
    ensures ObjectsFollow(s, PipelineScheduler.Apply(s, Delete(id)), o, ObjectsNotified(o, s, Delete(id)))
  {
    HasAll(o);
    UnlinkedKeeps(o, id);
  }

  lemma UnlinkedKeeps(o: Objects, id: string)
    requires Linked(o)
    ensures Linked(o.(pipeline := o.pipeline - {id}))
  {
  }

  lemma ChangedKeeps(s: State, o: Objects, id: string, period: nat)
    requires Linked(o) && Same(s, o)
    ensures
      ObjectsFollow(s, PipelineScheduler.Apply(s, ChangePeriod(id, period)), o, ObjectsNotified(o, s, ChangePeriod(id, period)))
  {
    HasAll(o);
    if Changes(s, id, period) {
      ChangedIs(s, id, period);
      PutPipelineKeeps(o, Current(o, id).(period := period));
      NewPipelineIsSame(s, PipelineScheduler.Apply(s, ChangePeriod(id, period)), o, Current(o, id).(period := period));
    } else {
      UnchangedIs(s, id, period);
    }
  }

  /** The executor after a notification. */
  lemma NotifiedFilingsKeep(m: Memory, step: Step)
    requires MemoryInv(m) && Possible(m.scheduling, step)
    ensures
      var n := ApplyStep(m, step);
      FilingsInv(n.scheduling, n.objects, n.filings)
  {
    var s, t := m.scheduling, PipelineScheduler.Apply(m.scheduling, step);
    var o := ObjectsNotified(m.objects, s, step);
    NotifiedObjectsKeep(s, m.objects, step);
    PipelineScheduler.InvKept(s, step);
    if m.filings.Some? { LastStays(s, t, m.objects, o, m.filings.value.last); }
    match step
    case Elect(order) => if m.filings.None? { ElectedAreFiled(s, order, o); }
    case Removed(id) => if m.filings.Some? { RemovedIsFiled(s, id, m.filings.value); }
    case ChangePeriod(id, period) => if m.filings.Some? { ChangedIsFiled(s, id, period, o, m.filings.value); }
    case Enable(organization, order) =>
      if m.filings.Some? && organization !in s.enabled { EnabledAreFiled(s, organization, order, o, m.filings.value); }
    case Disable(organization, order) => if m.filings.Some? { DisabledAreFiled(s, organization, order, m.filings.value); }
    case _ =>
  }

  lemma ElectedAreFiled(s: State, order: seq<string>, o: Objects)
    requires PipelineScheduler.Inv(s) && Linked(o) && Same(s, o) && s.executor.None? && Enumerates(order, s.pipelines.Keys)
    ensures
      var t := PipelineScheduler.Apply(s, Elect(order));
      FilingsInv(t, o, Some(FileAll(Filings(Filing(map[], map[]), map[]), order, t, o)))
  {
    var t := PipelineScheduler.Apply(s, Elect(order));
    PipelineScheduler.InvKept(s, Elect(order));
    FileAllKeeps(Filings(Filing(map[], map[]), map[]), order, t, o);
    assert Erased<Ref>(Filing(map[], map[])) == Executor(map[], map[]);
    SameScheduling(Executor(map[], map[]), order, t, s);
  }

  lemma RemovedIsFiled(s: State, id: string, f: Filings)
    requires s.executor.Some? && Erased(f.entries) == s.executor.value && Holds(f.entries, f.last)
    ensures
      var t := PipelineScheduler.Apply(s, Removed(id));
      var g := if id in s.removing then RemoveEntry(f.entries, id) else f.entries;
      t.executor == Some(Erased(g)) && Holds(g, f.last)
  {
    RemoveErased(f.entries, id);
    RemoveHolds(f.entries, id, f.last);
  }

  lemma ChangedIsFiled(s: State, id: string, period: nat, o: Objects, f: Filings)
    requires PipelineScheduler.Inv(s) && s.executor.Some? && Erased(f.entries) == s.executor.value
    requires Holds(f.entries, f.last) && LastInv(s, o, f.last) && (Changes(s, id, period) ==> Has(o, id))
    ensures
      var t := PipelineScheduler.Apply(s, ChangePeriod(id, period));
      FilingsInv(t, o, FilingsNotified(Some(f), s, t, o, ChangePeriod(id, period)))
  {
    var t := PipelineScheduler.Apply(s, ChangePeriod(id, period));
    if Changes(s, id, period) {
      ChangedIs(s, id, period);
      FileChangedKeeps(f, id, t, o);
    } else {
      UnchangedIs(s, id, period);
    }
  }

  lemma EnabledAreFiled(s: State, organization: string, order: seq<string>, o: Objects, f: Filings)
    requires PipelineScheduler.Inv(s) && s.executor.Some? && Erased(f.entries) == s.executor.value
    requires Holds(f.entries, f.last) && LastInv(s, o, f.last) && Linked(o) && Same(s, o)
    requires organization !in s.enabled && Enumerates(order, PipelinesOf(s, organization))
    ensures
      var t := PipelineScheduler.Apply(s, Enable(organization, order));
      FilingsInv(t, o, Some(FileAll(f, order, t, o)))
  {
    var t := PipelineScheduler.Apply(s, Enable(organization, order));
    PipelineScheduler.InvKept(s, Enable(organization, order));
    forall id | id in order && ToSchedule(t, id) ensures !Scheduled(Erased(f.entries), id) {
      assert Indexed(s, s.executor.value, id);
    }
    FileAllKeeps(f, order, t, o);
    SameScheduling(Erased(f.entries), order, t, s.(enabled := s.enabled + {organization}));
  }

  lemma DisabledAreFiled(s: State, organization: string, order: seq<string>, f: Filings)
    requires s.executor.Some? && Erased(f.entries) == s.executor.value && Holds(f.entries, f.last)
    requires Enumerates(order, PipelinesOf(s, organization))
    ensures
      var t := PipelineScheduler.Apply(s, Disable(organization, order));
      var g := if organization in s.enabled then RemoveEntries(f.entries, order, t) else f.entries;
      t.executor == Some(Erased(g)) && Holds(g, f.last)
  {
    var t := PipelineScheduler.Apply(s, Disable(organization, order));
    RemoveAllErased(f.entries, order, t);
    RemoveAllHolds(f.entries, order, t, f.last);
    SameScheduling(Erased(f.entries), order, t, s.(enabled := s.enabled - {organization}));
  }

  lemma {:induction false} SameScheduling(e: Executor, ids: seq<string>, s: State, t: State)
    requires s.pipelines == t.pipelines && s.enabled == t.enabled
    ensures AddAll(e, ids, s) == AddAll(e, ids, t) && RemoveAll(e, ids, s) == RemoveAll(e, ids, t)
  {
    if ids != [] { SameScheduling(e, ids[..|ids| - 1], s, t); }
  }

  lemma MemoryKept(m: Memory, a: Event)
    requires MemoryInv(m)
    ensures MemoryInv(After(m, a))
  {
    match a
    case PipelineCreated(id, p, enabled, c) => if CanCreate(m, id, p, c) { CreationKeeps(m, id, p, enabled, c); }
    case Notified(step) =>
      if Possible(m.scheduling, step) {
        NotifiedObjectsKeep(m.scheduling, m.objects, step);
        NotifiedFilingsKeep(m, step);
        PipelineScheduler.InvKept(m.scheduling, step);
      }
    case WorkspaceCreated(_, _) => NewObjectsKeep(m, a);
    case ConnectionCreated(_, _) => NewObjectsKeep(m, a);
    case _ => ObjectEventsKeep(m, a);
  }

  lemma {:induction false} ReachableMemory(acts: seq<Event>)
    ensures MemoryInv(Exec(acts))
  {
    if acts != [] {
      ReachableMemory(acts[..|acts| - 1]);
      MemoryKept(Exec(acts[..|acts| - 1]), acts[|acts| - 1]);
    }
  }
}
