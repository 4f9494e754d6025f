/** The scheduler of pipeline runs: buckets of pipelines by period and by minute, kept up to date by listeners
    and looked up by a tick every minute (core/pipeline_scheduler.go:19-29, core/pipeline_scheduler.go:78-262,
    core/pipeline_scheduler.go:271-390). */
module PipelineScheduler {
  import opened Prelude

  /** Minutes; zero is no schedule. */
  const PERIODS := [5, 15, 30, 60, 120, 180, 360, 480, 720, 1440]
  const DAY := 1440

  function PeriodIndex(period: nat): (i: nat)
    requires period in PERIODS
    ensures i < |PERIODS| && PERIODS[i] == period
  {
    Find(period, 0)
  }

  function Find(period: nat, from: nat): (i: nat)
    requires from <= |PERIODS| && period in PERIODS[from..]
    ensures i < |PERIODS| && PERIODS[i] == period
    decreases |PERIODS| - from
  {
    if PERIODS[from] == period then from
    else
      assert PERIODS[from..] == [PERIODS[from]] + PERIODS[from + 1..];
      Find(period, from + 1)
  }

  /** The bucket of a pipeline: the index of its period, and the minute of it in which it is due. */
  datatype Slot = Slot(i: nat, j: nat)

  function SlotOf(period: nat, start: nat): Slot
    requires period in PERIODS
  {
    Slot(PeriodIndex(period), start % period)
  }

  datatype Executor = Executor(buckets: map<Slot, seq<string>>, indexes: map<string, Slot>)

  function Bucket(e: Executor, slot: Slot): seq<string> { if slot in e.buckets then e.buckets[slot] else [] }

  function Add(e: Executor, id: string, slot: Slot): Executor {
    Executor(e.buckets[slot := Bucket(e, slot) + [id]], e.indexes[id := slot])
  }

  function Position(ids: seq<string>, id: string): (k: nat)
    requires id in ids
    ensures k < |ids| && ids[k] == id && id !in ids[..k]
  {
    if ids[0] == id then 0 else 1 + Position(ids[1..], id)
  }

  /** Takes the pipeline out of the bucket that its index names. The index stays. */
  function Remove(e: Executor, id: string): Executor {
    if id !in e.indexes || id !in Bucket(e, e.indexes[id]) then e
    else
      var slot := e.indexes[id];
      SetBucket(e, slot, RemoveAt(Bucket(e, slot), Position(Bucket(e, slot), id)))
  }

  /** There are no empty buckets. */
  function SetBucket(e: Executor, slot: Slot, ids: seq<string>): Executor {
    e.(buckets := if ids == [] then e.buckets - {slot} else e.buckets[slot := ids])
  }

  /** The index, stale or not, already names the period. */
  predicate NamesPeriod(e: Executor, id: string, period: nat) {
    id in e.indexes && e.indexes[id].i < |PERIODS| && PERIODS[e.indexes[id].i] == period
  }

  function SetPeriod(e: Executor, id: string, period: nat, start: nat): Executor
    requires period == 0 || period in PERIODS
  {
    if NamesPeriod(e, id, period) then e
    else
      var f := if id in e.indexes then Remove(e, id) else e;
      if period != 0 then Add(f, id, SlotOf(period, start)) else f
  }

  // ---- The system ----------------------------------------------------------------------------------------------

  datatype Pipeline = Pipeline(organization: string, period: nat, start: nat)

  /** What a node knows: the pipelines, the enabled organizations, its executor while it is the leader, and the
      deleted pipelines whose removal from the executor was started but has not happened. `used` has all
      identifiers there have ever been. */
  datatype State = State(
    pipelines: map<string, Pipeline>, enabled: set<string>, used: set<string>,
    executor: Option<Executor>, removing: set<string>)

  const INITIAL := State(map[], {}, {}, None, {})

  datatype Step =
    | Create(id: string, pipeline: Pipeline)
    | Delete(id: string)
    | Removed(id: string)                       // the removal that a deletion started happens
    | ChangePeriod(id: string, period: nat)
    | Enable(organization: string, order: seq<string>)   // order is that of the pipelines in the loop
    | Disable(organization: string, order: seq<string>)
    | Elect(order: seq<string>)                 // becomes the leader
    | Dismiss                                   // is the leader no longer

  predicate ValidPeriod(period: nat) { period == 0 || period in PERIODS }

  /** A pipeline that is to be scheduled. */
  predicate ToSchedule(s: State, id: string) {
    id in s.pipelines && s.pipelines[id].organization in s.enabled && s.pipelines[id].period in PERIODS
  }

  function SlotFor(p: Pipeline): Slot
    requires p.period in PERIODS
  {
    SlotOf(p.period, p.start)
  }

  /** Adds, in some order, those of some pipelines that have a period and satisfy a test. */
  function AddAll(e: Executor, ids: seq<string>, s: State): Executor {
    if ids == [] then e
    else
      var f := AddAll(e, ids[..|ids| - 1], s);
      var id := ids[|ids| - 1];
      if ToSchedule(s, id) then Add(f, id, SlotFor(s.pipelines[id])) else f
  }

  /** Removes, in some order, those that have a period. */
  function RemoveAll(e: Executor, ids: seq<string>, s: State): Executor {
    if ids == [] then e
    else
      var f := RemoveAll(e, ids[..|ids| - 1], s);
      var id := ids[|ids| - 1];
      if id in s.pipelines && s.pipelines[id].period != 0 then Remove(f, id) else f
  }

  /** A loop goes over each of the pipelines once. */
  ghost predicate Enumerates(order: seq<string>, ids: set<string>) {
    && Distinct(order)
    && (forall id :: id in order <==> id in ids)
  }

  function PipelinesOf(s: State, organization: string): set<string> {
    set id | id in s.pipelines && s.pipelines[id].organization == organization
  }

  /** A notification and what the listener of the scheduler does on it. What cannot be changes nothing: a second
      creation with an identifier, a change to the period or status that already is. */
  ghost function Apply(s: State, step: Step): State {
    match step
    case Create(id, p) =>
      if id in s.used || !ValidPeriod(p.period) then s
      else
        var t := s.(pipelines := s.pipelines[id := p], used := s.used + {id});
        if t.executor.Some? && ToSchedule(t, id) then t.(executor := Some(Add(t.executor.value, id, SlotFor(p)))) else t
    case Delete(id) =>
      if id !in s.pipelines then s
      else
        var t := s.(pipelines := s.pipelines - {id});
        if s.executor.Some? && s.pipelines[id].organization in s.enabled
        then t.(removing := s.removing + {id})
        else t
    case Removed(id) =>
      if id !in s.removing || s.executor.None? then s
      else s.(executor := Some(Remove(s.executor.value, id)), removing := s.removing - {id})
    case ChangePeriod(id, period) =>
      if id !in s.pipelines || !ValidPeriod(period) || s.pipelines[id].period == period then s
      else
        var p := s.pipelines[id].(period := period);
        var t := s.(pipelines := s.pipelines[id := p]);
        if s.executor.Some? && p.organization in s.enabled
        then t.(executor := Some(SetPeriod(s.executor.value, id, period, p.start)))
        else t
    case Enable(o, order) =>
      if o in s.enabled || !Enumerates(order, PipelinesOf(s, o)) then s
      else
        var t := s.(enabled := s.enabled + {o});
        if s.executor.Some? then t.(executor := Some(AddAll(s.executor.value, order, t))) else t
    case Disable(o, order) =>
      if o !in s.enabled || !Enumerates(order, PipelinesOf(s, o)) then s
      else
        var t := s.(enabled := s.enabled - {o});
        if s.executor.Some? then t.(executor := Some(RemoveAll(s.executor.value, order, t))) else t
    case Elect(order) =>
      if s.executor.Some? || !Enumerates(order, s.pipelines.Keys) then s
      else s.(executor := Some(AddAll(Executor(map[], map[]), order, s)), removing := {})
    case Dismiss => s.(executor := None, removing := {})
  }

  ghost function Run(steps: seq<Step>): State {
    if steps == [] then INITIAL else Apply(Run(steps[..|steps| - 1]), steps[|steps| - 1])
  }

  // ---- One bucket each -----------------------------------------------------------------------------------------

  predicate Scheduled(e: Executor, id: string) { id in e.indexes && id in Bucket(e, e.indexes[id]) }

  /** A pipeline in a bucket is there once, and its index names that bucket: so it is in no other. */
  ghost predicate Filed(e: Executor) {
    && (forall slot, id :: id in Bucket(e, slot) ==> id in e.indexes && e.indexes[id] == slot)
    && (forall slot :: Distinct(Bucket(e, slot)))
  }

  lemma AddFiles(e: Executor, id: string, slot: Slot)
    requires Filed(e) && !Scheduled(e, id)
    ensures Filed(Add(e, id, slot)) && Scheduled(Add(e, id, slot), id)
    ensures forall x :: x != id ==> (Scheduled(Add(e, id, slot), x) <==> Scheduled(e, x))
  {
    var f := Add(e, id, slot);
    assert id !in Bucket(e, slot);
    assert Bucket(f, slot)[|Bucket(e, slot)|] == id;
    forall s, x | x in Bucket(f, s) ensures x in f.indexes && f.indexes[x] == s {
      assert x in Bucket(e, s) || (s == slot && x == id);
    }
    forall s ensures Distinct(Bucket(f, s)) { assert s != slot ==> Bucket(f, s) == Bucket(e, s); }
    forall x | x != id ensures Scheduled(f, x) <==> Scheduled(e, x) {
      assert x in Bucket(f, slot) <==> x in Bucket(e, slot);
    }
  }

  lemma RemovedFromDistinct(ids: seq<string>, k: nat)
    requires Distinct(ids) && k < |ids|
    ensures Distinct(RemoveAt(ids, k))
    ensures forall x :: x in RemoveAt(ids, k) <==> x in ids && x != ids[k]
  {
    var rest := RemoveAt(ids, k);
    assert forall i :: 0 <= i < |rest| ==> rest[i] == ids[if i < k then i else i + 1];
    forall x | x in ids && x != ids[k] ensures x in rest {
      var i :| 0 <= i < |ids| && ids[i] == x;
      assert rest[if i < k then i else i - 1] == x;
    }
  }

  lemma BucketSet(e: Executor, slot: Slot, ids: seq<string>, s: Slot)
    ensures Bucket(SetBucket(e, slot, ids), s) == if s == slot then ids else Bucket(e, s)
  {
  }

  lemma RemoveUnfiles(e: Executor, id: string)
    requires Filed(e)
    ensures Filed(Remove(e, id)) && Remove(e, id).indexes == e.indexes && !Scheduled(Remove(e, id), id)
    ensures forall x :: x != id ==> (Scheduled(Remove(e, id), x) <==> Scheduled(e, x))
  {
    if Scheduled(e, id) {
      var slot := e.indexes[id];
      var ids := Bucket(e, slot);
      assert Distinct(ids);
      RemovedFromDistinct(ids, Position(ids, id));
      SetFiled(e, id, slot, RemoveAt(ids, Position(ids, id)));
    }
  }

  lemma SetFiled(e: Executor, id: string, slot: Slot, rest: seq<string>)
    requires Filed(e) && id in e.indexes && e.indexes[id] == slot
    requires Distinct(rest) && forall x :: x in rest <==> x in Bucket(e, slot) && x != id
    ensures
      var f := SetBucket(e, slot, rest);
      Filed(f) && !Scheduled(f, id) && forall x :: x != id ==> (Scheduled(f, x) <==> Scheduled(e, x))
  {
    var f := SetBucket(e, slot, rest);
    forall s ensures Bucket(f, s) == if s == slot then rest else Bucket(e, s) { BucketSet(e, slot, rest, s); }
  }

  lemma {:induction false} AddAllFiles(e: Executor, ids: seq<string>, s: State)
    requires Filed(e) && Distinct(ids) && forall id :: id in ids && ToSchedule(s, id) ==> !Scheduled(e, id)
    ensures
      var f := AddAll(e, ids, s);
      && Filed(f)
      && (forall id :: Scheduled(f, id) <==> Scheduled(e, id) || (id in ids && ToSchedule(s, id)))
      && (forall id :: id in ids && ToSchedule(s, id) ==> id in f.indexes && f.indexes[id] == SlotFor(s.pipelines[id]))
      && (forall id :: !(id in ids && ToSchedule(s, id)) ==>
            (id in f.indexes <==> id in e.indexes) && (id in e.indexes ==> f.indexes[id] == e.indexes[id]))
  {
    if ids != [] {
      var init, id := ids[..|ids| - 1], ids[|ids| - 1];
      AddAllFiles(e, init, s);
      assert id !in init && forall x :: x in ids <==> x in init || x == id;
      if ToSchedule(s, id) { AddFiles(AddAll(e, init, s), id, SlotFor(s.pipelines[id])); }
    }
  }

  lemma {:induction false} RemoveAllUnfiles(e: Executor, ids: seq<string>, s: State)
    requires Filed(e)
    ensures
      var f := RemoveAll(e, ids, s);
      && Filed(f) && f.indexes == e.indexes
      && (forall id :: Scheduled(f, id) <==>
            Scheduled(e, id) && !(id in ids && id in s.pipelines && s.pipelines[id].period != 0))
  {
    if ids != [] {
      var init, id := ids[..|ids| - 1], ids[|ids| - 1];
      RemoveAllUnfiles(e, init, s);
      assert forall x :: x in ids <==> x in init || x == id;
      RemoveUnfiles(RemoveAll(e, init, s), id);
    }
  }

  // ---- What every notification keeps -----------------------------------------------------------------------------

  /** The index entry of a pipeline is that of some period and of its start; and of its own period if it is to
      be scheduled, whether or not it is in that bucket. */
  ghost predicate Indexed(s: State, e: Executor, id: string) {
    && (id in e.indexes && id in s.pipelines ==>
        e.indexes[id].i < |PERIODS| && e.indexes[id] == SlotOf(PERIODS[e.indexes[id].i], s.pipelines[id].start))
    && (ToSchedule(s, id) ==> id in e.indexes && e.indexes[id] == SlotFor(s.pipelines[id]))
    && (Scheduled(e, id) ==> ToSchedule(s, id) || (id in s.removing && id !in s.pipelines))
    && (id in e.indexes ==> id in s.used)
  }

  ghost predicate Inv(s: State) {
    && s.pipelines.Keys <= s.used
    && (forall id :: id in s.pipelines ==> ValidPeriod(s.pipelines[id].period))
    && (forall id :: id in s.removing ==> id in s.used && id !in s.pipelines)
    && (s.executor.Some? ==> Filed(s.executor.value))
    && (s.executor.Some? ==> forall id :: Indexed(s, s.executor.value, id))
  }

  lemma PeriodIndexOf(i: nat)
    requires i < |PERIODS|
    ensures PeriodIndex(PERIODS[i]) == i
  {
    var k := PeriodIndex(PERIODS[i]);
    assert PERIODS[k] == PERIODS[i];
  }

  lemma CreateKeeps(s: State, id: string, p: Pipeline)
    requires Inv(s)
    ensures Inv(Apply(s, Create(id, p)))
  {
    if s.executor.Some? && id !in s.used && p.period in PERIODS {
      var e := s.executor.value;
      assert Indexed(s, e, id);
      AddFiles(e, id, SlotFor(p));
      PeriodIndexOf(PeriodIndex(p.period));
      var t := Apply(s, Create(id, p));
      forall x ensures Indexed(t, t.executor.value, x) { assert Indexed(s, e, x); }
    }
    if s.executor.Some? {
      var t := Apply(s, Create(id, p));
      forall x ensures Indexed(t, t.executor.value, x) { assert Indexed(s, s.executor.value, x); }
    }
  }

  lemma DeleteKeeps(s: State, id: string)
    requires Inv(s)
    ensures Inv(Apply(s, Delete(id))) && Inv(Apply(s, Removed(id)))
  {
    if s.executor.Some? {
      var e := s.executor.value;
      RemoveUnfiles(e, id);
      var t, u := Apply(s, Delete(id)), Apply(s, Removed(id));
      forall x ensures Indexed(t, e, x) { assert Indexed(s, e, x); }
      forall x ensures Indexed(u, u.executor.value, x) { assert Indexed(s, e, x); }
    }
  }

  /** The change is lost on a pipeline that is in no bucket, but has an index entry of the new period. */
  ghost predicate Stale(s: State, step: Step) {
    && step.ChangePeriod? && s.executor.Some?
    && NamesPeriod(s.executor.value, step.id, step.period) && !Scheduled(s.executor.value, step.id)
  }

  lemma SetPeriodFiles(e: Executor, id: string, period: nat, start: nat)
    requires Filed(e) && ValidPeriod(period)
    ensures
      var f := SetPeriod(e, id, period, start);
      && Filed(f)
      && (forall x :: x != id ==>
            (Scheduled(f, x) <==> Scheduled(e, x)) && (x in f.indexes <==> x in e.indexes)
            && (x in e.indexes ==> f.indexes[x] == e.indexes[x]))
      && (NamesPeriod(e, id, period) ==> f == e)
      && (!NamesPeriod(e, id, period) ==>
          if period == 0 then
            && !Scheduled(f, id) && f.indexes == e.indexes
          else
            && Scheduled(f, id) && id in f.indexes && f.indexes[id] == SlotOf(period, start))
  {
    if !NamesPeriod(e, id, period) {
      RemoveUnfiles(e, id);
      var f := if id in e.indexes then Remove(e, id) else e;
      if period != 0 { AddFiles(f, id, SlotOf(period, start)); }
    }
  }

  /** The change reaches the executor. */
  ghost predicate Reaches(s: State, id: string, period: nat) {
    && s.executor.Some? && id in s.pipelines && ValidPeriod(period) && s.pipelines[id].period != period
    && s.pipelines[id].organization in s.enabled
  }

  lemma ChangedIndexed(s: State, id: string, period: nat)
    requires Inv(s) && Reaches(s, id, period)
    ensures
      var t := Apply(s, ChangePeriod(id, period));
      Filed(t.executor.value) && Indexed(t, t.executor.value, id)
  {
    var e := s.executor.value;
    assert Indexed(s, e, id);
    SetPeriodFiles(e, id, period, s.pipelines[id].start);
    if period != 0 { PeriodIndexOf(PeriodIndex(period)); }
    if NamesPeriod(e, id, period) { PeriodIndexOf(e.indexes[id].i); }
  }

  lemma OthersIndexed(s: State, id: string, period: nat, x: string)
    requires Inv(s) && Reaches(s, id, period) && x != id
    ensures
      var t := Apply(s, ChangePeriod(id, period));
      Indexed(t, t.executor.value, x)
  {
    var e := s.executor.value;
    assert Indexed(s, e, x);
    SetPeriodFiles(e, id, period, s.pipelines[id].start);
  }

  lemma ChangePeriodKeeps(s: State, id: string, period: nat)
    requires Inv(s)
    ensures Inv(Apply(s, ChangePeriod(id, period)))
  {
    var t := Apply(s, ChangePeriod(id, period));
    if Reaches(s, id, period) {
      ChangedIndexed(s, id, period);
      forall x | x != id ensures Indexed(t, t.executor.value, x) { OthersIndexed(s, id, period, x); }
    } else if s.executor.Some? {
      forall x ensures Indexed(t, s.executor.value, x) { assert Indexed(s, s.executor.value, x); }
    }
  }

  lemma EnableKeeps(s: State, o: string, order: seq<string>)
    requires Inv(s)
    ensures Inv(Apply(s, Enable(o, order)))
  {
    var t := Apply(s, Enable(o, order));
    if s.executor.Some? && t != s {
      var e, enabled := s.executor.value, s.(enabled := s.enabled + {o});
      forall id | id in order && ToSchedule(enabled, id) ensures !Scheduled(e, id) { assert Indexed(s, e, id); }
      AddAllFiles(e, order, enabled);
      forall x ensures Indexed(t, t.executor.value, x) {
        assert Indexed(s, e, x);
        if ToSchedule(enabled, x) { PeriodIndexOf(PeriodIndex(s.pipelines[x].period)); }
      }
    }
  }

  lemma DisableKeeps(s: State, o: string, order: seq<string>)
    requires Inv(s)
    ensures Inv(Apply(s, Disable(o, order)))
  {
    var t := Apply(s, Disable(o, order));
    if s.executor.Some? && t != s {
      RemoveAllUnfiles(s.executor.value, order, s.(enabled := s.enabled - {o}));
      forall x ensures Indexed(t, t.executor.value, x) { assert Indexed(s, s.executor.value, x); }
    }
  }

  lemma ElectKeeps(s: State, order: seq<string>)
    requires Inv(s)
    ensures Inv(Apply(s, Elect(order)))
  {
    var t := Apply(s, Elect(order));
    if t != s {
      AddAllFiles(Executor(map[], map[]), order, s);
      forall x ensures Indexed(t, t.executor.value, x) {
        if ToSchedule(s, x) { PeriodIndexOf(PeriodIndex(s.pipelines[x].period)); }
      }
    }
  }

  lemma InvKept(s: State, step: Step)
    requires Inv(s)
    ensures Inv(Apply(s, step))
  {
    match step
    case Create(id, p) => CreateKeeps(s, id, p);
    case Delete(id) => DeleteKeeps(s, id);
    case Removed(id) => DeleteKeeps(s, id);
    case ChangePeriod(id, period) => ChangePeriodKeeps(s, id, period);
    case Enable(o, order) => EnableKeeps(s, o, order);
    case Disable(o, order) => DisableKeeps(s, o, order);
    case Elect(order) => ElectKeeps(s, order);
    case Dismiss =>
  }

  lemma {:induction false} ReachableInv(steps: seq<Step>)
    ensures Inv(Run(steps))
  {
    if steps != [] {
      ReachableInv(steps[..|steps| - 1]);
      InvKept(Run(steps[..|steps| - 1]), steps[|steps| - 1]);
    }
  }

  // ---- What holds over every sequence of notifications -------------------------------------------------------------

  /** A pipeline is in at most one bucket, once; its index entry names it; and it is the bucket of its period and
      start, unless the pipeline was deleted and its removal is still to happen. */
  lemma OneBucketNamedByTheIndex(steps: seq<Step>, id: string, slot: Slot)
    requires Run(steps).executor.Some? && id in Bucket(Run(steps).executor.value, slot)
    ensures
      var s := Run(steps);
      var e := s.executor.value;
      && id in e.indexes && e.indexes[id] == slot
      && (forall other :: id in Bucket(e, other) ==> other == slot)
      && Distinct(Bucket(e, slot))
      && (if ToSchedule(s, id) then slot == SlotFor(s.pipelines[id]) else id in s.removing && id !in s.pipelines)
  {
    ReachableInv(steps);
    assert Indexed(Run(steps), Run(steps).executor.value, id);
  }

  /** All that is to be scheduled is. */
  ghost predicate Complete(s: State) {
    s.executor.Some? ==> forall id :: ToSchedule(s, id) ==> Scheduled(s.executor.value, id)
  }

  /** An index entry stays, and is new only if it is that of the pipeline's bucket; and only a stale change makes a pipeline
      that is to be scheduled miss its bucket. */
  ghost predicate Faithful(s: State, step: Step, id: string)
    requires s.executor.Some? && Apply(s, step).executor.Some?
  {
    var t := Apply(s, step);
    var e, f := s.executor.value, t.executor.value;
    && (id in f.indexes ==>
        || (id in e.indexes && f.indexes[id] == e.indexes[id])
        || (ToSchedule(t, id) && f.indexes[id] == SlotFor(t.pipelines[id])))
    && (id in e.indexes ==> id in f.indexes)
    && (ToSchedule(t, id) && !Scheduled(f, id) ==>
        (ToSchedule(s, id) && !Scheduled(e, id)) || (Stale(s, step) && step.id == id))
  }

  lemma CreateIsFaithful(s: State, x: string, p: Pipeline, id: string)
    requires Inv(s) && s.executor.Some?
    ensures Faithful(s, Create(x, p), id)
  {
    assert Indexed(s, s.executor.value, x);
    if x !in s.used && p.period in PERIODS { AddFiles(s.executor.value, x, SlotFor(p)); }
  }

  lemma ChangePeriodIsFaithful(s: State, x: string, period: nat, id: string)
    requires Inv(s) && s.executor.Some?
    ensures Faithful(s, ChangePeriod(x, period), id)
  {
    if Reaches(s, x, period) {
      if id == x { ChangedIsFaithful(s, x, period); } else { OthersAreFaithful(s, x, period, id); }
    }
  }

  lemma ChangedIsFaithful(s: State, id: string, period: nat)
    requires Inv(s) && Reaches(s, id, period)
    ensures Faithful(s, ChangePeriod(id, period), id)
  {
    var e, t := s.executor.value, Apply(s, ChangePeriod(id, period));
    SetPeriodFiles(e, id, period, s.pipelines[id].start);
    if NamesPeriod(e, id, period) {
      assert t.executor.value == e;
    } else if period != 0 {
      assert Scheduled(t.executor.value, id) && ToSchedule(t, id);
    } else {
      assert t.executor.value.indexes == e.indexes && !ToSchedule(t, id);
    }
  }

  lemma OthersAreFaithful(s: State, x: string, period: nat, id: string)
    requires Inv(s) && Reaches(s, x, period) && id != x
    ensures Faithful(s, ChangePeriod(x, period), id)
  {
    SetPeriodFiles(s.executor.value, x, period, s.pipelines[x].start);
  }

  lemma EnableIsFaithful(s: State, o: string, order: seq<string>, id: string)
    requires Inv(s) && s.executor.Some?
    ensures Faithful(s, Enable(o, order), id)
  {
    var e, t := s.executor.value, s.(enabled := s.enabled + {o});
    if Apply(s, Enable(o, order)) != s {
      forall x | x in order && ToSchedule(t, x) ensures !Scheduled(e, x) { assert Indexed(s, e, x); }
      AddAllFiles(e, order, t);
    }
  }

  lemma DisableIsFaithful(s: State, o: string, order: seq<string>, id: string)
    requires Inv(s) && s.executor.Some?
    ensures Faithful(s, Disable(o, order), id)
  {
    if o in s.enabled { RemoveAllUnfiles(s.executor.value, order, s.(enabled := s.enabled - {o})); }
  }

  lemma RemovedIsFaithful(s: State, x: string, id: string)
    requires Inv(s) && s.executor.Some?
    ensures Faithful(s, Removed(x), id)
  {
    RemoveUnfiles(s.executor.value, x);
  }

  lemma EveryStepIsFaithful(s: State, step: Step, id: string)
    requires Inv(s) && s.executor.Some? && Apply(s, step).executor.Some?
    ensures Faithful(s, step, id)
  {
    match step
    case Create(x, p) => CreateIsFaithful(s, x, p, id);
    case Removed(x) => RemovedIsFaithful(s, x, id);
    case ChangePeriod(x, period) => ChangePeriodIsFaithful(s, x, period, id);
    case Enable(o, order) => EnableIsFaithful(s, o, order, id);
    case Disable(o, order) => DisableIsFaithful(s, o, order, id);
    case _ =>
  }

  /** When no change of a period was stale, exactly what is to be scheduled, in its bucket, is scheduled. */
  lemma {:induction false} ScheduledUnlessStale(steps: seq<Step>)
    requires forall i :: 0 <= i < |steps| ==> !Stale(Run(steps[..i]), steps[i])
    ensures Complete(Run(steps))
  {
    if steps != [] {
      var init, step := steps[..|steps| - 1], steps[|steps| - 1];
      forall i | 0 <= i < |init| ensures !Stale(Run(init[..i]), init[i]) { assert init[..i] == steps[..i]; }
      ScheduledUnlessStale(init);
      ReachableInv(init);
      assert steps[..|steps| - 1] == init && !Stale(Run(init), step);
      CompleteKept(Run(init), step);
    }
  }

  lemma CompleteKept(s: State, step: Step)
    requires Inv(s) && Complete(s) && !Stale(s, step)
    ensures Complete(Apply(s, step))
  {
    if s.executor.None? {
      ElectedIsComplete(s, step);
    } else if Apply(s, step).executor.Some? {
      forall id | ToSchedule(Apply(s, step), id) ensures Scheduled(Apply(s, step).executor.value, id) {
        EveryStepIsFaithful(s, step, id);
      }
    }
  }

  lemma ElectedIsComplete(s: State, step: Step)
    requires s.executor.None?
    ensures Complete(Apply(s, step))
    ensures Apply(s, step).executor.Some? ==> forall id :: id in Apply(s, step).executor.value.indexes ==>
      ToSchedule(s, id) && Apply(s, step).executor.value.indexes[id] == SlotFor(s.pipelines[id])
  {
    if step.Elect? && Enumerates(step.order, s.pipelines.Keys) {
      AddAllFiles(Executor(map[], map[]), step.order, s);
    }
  }

  /** The period for which the present executor last had the pipeline to schedule. */
  ghost function LastScheduled(steps: seq<Step>, id: string): Option<nat> {
    var s := Run(steps);
    if s.executor.None? then None
    else if ToSchedule(s, id) then Some(s.pipelines[id].period)
    else if steps == [] then None
    else LastScheduled(steps[..|steps| - 1], id)
  }

  lemma {:induction false} NeverScheduled(steps: seq<Step>, id: string)
    requires id !in Run(steps).used
    ensures LastScheduled(steps, id) == None
  {
    ReachableInv(steps);
    if steps != [] { NeverScheduled(steps[..|steps| - 1], id); }
  }

  /** An index entry names the period for which the pipeline was last scheduled. */
  lemma {:induction false} EntryIsLastScheduled(steps: seq<Step>, id: string, period: nat)
    requires Run(steps).executor.Some? && id in Run(steps).pipelines
    ensures NamesPeriod(Run(steps).executor.value, id, period) <==> LastScheduled(steps, id) == Some(period)
  {
    ReachableInv(steps);
    var s := Run(steps);
    assert Indexed(s, s.executor.value, id);
    if ToSchedule(s, id) {
      PeriodIndexOf(PeriodIndex(s.pipelines[id].period));
    } else {
      var init, step := steps[..|steps| - 1], steps[|steps| - 1];
      ReachableInv(init);
      if Run(init).executor.None? {
        ElectedIsComplete(Run(init), step);
      } else {
        EntryIsOlder(Run(init), step, id);
        OnlyCreationCreates(Run(init), step, id);
        assert Indexed(Run(init), Run(init).executor.value, id);
        if id in Run(init).pipelines { EntryIsLastScheduled(init, id, period); } else { NeverScheduled(init, id); }
      }
    }
  }

  /** The entry of a pipeline that is not to be scheduled was there before. */
  lemma EntryIsOlder(s: State, step: Step, id: string)
    requires Inv(s) && s.executor.Some? && Apply(s, step).executor.Some? && !ToSchedule(Apply(s, step), id)
    ensures
      var e, f := s.executor.value, Apply(s, step).executor.value;
      && (id in f.indexes <==> id in e.indexes)
      && (id in f.indexes ==> f.indexes[id] == e.indexes[id])
  {
    EveryStepIsFaithful(s, step, id);
  }

  lemma OnlyCreationCreates(s: State, step: Step, id: string)
    requires id in Apply(s, step).pipelines
    ensures id in s.pipelines || id !in s.used
  {
  }

  /** A change to a period schedules the pipeline if and only if it is not the one that it was last scheduled for. */
  lemma ChangeTakesEffect(steps: seq<Step>, id: string, period: nat)
    requires
      var s := Run(steps);
      && s.executor.Some? && id in s.pipelines && s.pipelines[id].organization in s.enabled
      && period in PERIODS && period != s.pipelines[id].period
    ensures
      var t := Apply(Run(steps), ChangePeriod(id, period));
      && (Scheduled(t.executor.value, id) <==> LastScheduled(steps, id) != Some(period))
      && (Stale(Run(steps), ChangePeriod(id, period)) <==> LastScheduled(steps, id) == Some(period))
  {
    ReachableInv(steps);
    var s := Run(steps);
    assert Indexed(s, s.executor.value, id);
    SetPeriodFiles(s.executor.value, id, period, s.pipelines[id].start);
    if NamesPeriod(s.executor.value, id, period) { PeriodIndexOf(s.executor.value.indexes[id].i); }
    EntryIsLastScheduled(steps, id, period);
  }

  lemma {:induction false} LastScheduledStays(steps: seq<Step>, later: seq<Step>, id: string)
    requires Run(steps).executor.Some? && ToSchedule(Run(steps), id)
    requires forall k :: 0 < k <= |later| ==>
      Run(steps + later[..k]).executor.Some? && !ToSchedule(Run(steps + later[..k]), id)
    ensures LastScheduled(steps + later, id) == Some(Run(steps).pipelines[id].period)
  {
    if later == [] {
      assert steps + later == steps;
    } else {
      var init := later[..|later| - 1];
      forall k | 0 < k <= |init| ensures init[..k] == later[..k] {}
      LastScheduledStays(steps, init, id);
      assert later[..|later|] == later;
      assert (steps + later)[..|steps + later| - 1] == steps + init;
    }
  }

  /** From any state in which a pipeline is to be scheduled: its period is cleared, or its organization disabled, and
      for a while it is not to be scheduled. Then a period is set. It is scheduled if and only if that is another
      period than before. */
  lemma SetBackIsNotScheduled(steps: seq<Step>, later: seq<Step>, id: string, period: nat)
    requires Run(steps).executor.Some? && ToSchedule(Run(steps), id) && later != []
    requires forall k :: 0 < k <= |later| ==>
      Run(steps + later[..k]).executor.Some? && !ToSchedule(Run(steps + later[..k]), id)
    requires
      var s := Run(steps + later);
      id in s.pipelines && s.pipelines[id].organization in s.enabled && period in PERIODS
    ensures
      var t := Run(steps + later + [ChangePeriod(id, period)]);
      && t.executor.Some? && ToSchedule(t, id)
      && (Scheduled(t.executor.value, id) <==> period != Run(steps).pipelines[id].period)
  {
    var all := steps + later;
    assert later[..|later|] == later;
    LastScheduledStays(steps, later, id);
    ReachableInv(all);
    ChangeTakesEffect(all, id, period);
    assert (all + [ChangePeriod(id, period)])[..|all|] == all;
  }

  /** The period is cleared and set back. */
  lemma ClearedAndSetBack()
    ensures
      var steps := [Enable("o", []), Elect([]), Create("p", Pipeline("o", 5, 0)), ChangePeriod("p", 0), ChangePeriod("p", 5)];
      var s := Run(steps);
      s.executor.Some? && ToSchedule(s, "p") && !Scheduled(s.executor.value, "p")
  {
    var steps := [Enable("o", []), Elect([]), Create("p", Pipeline("o", 5, 0))];
    var later := [ChangePeriod("p", 0)];
    CreatedIsScheduled(steps);
    ClearedIsNot(steps);
    assert later[..1] == later;
    SetBackIsNotScheduled(steps, later, "p", 5);
    assert steps + later + [ChangePeriod("p", 5)] ==
      [Enable("o", []), Elect([]), Create("p", Pipeline("o", 5, 0)), ChangePeriod("p", 0), ChangePeriod("p", 5)];
  }

  lemma CreatedIsScheduled(steps: seq<Step>)
    requires steps == [Enable("o", []), Elect([]), Create("p", Pipeline("o", 5, 0))]
    ensures
      var s := Run(steps);
      s.executor.Some? && s.pipelines == map["p" := Pipeline("o", 5, 0)] && s.enabled == {"o"}
  {
    assert steps[..2][..1] == [Enable("o", [])] && steps[..2][1] == Elect([]);
    assert [Enable("o", [])][..0] == [];
    assert Enumerates([], PipelinesOf(INITIAL, "o"));
    assert Run([Enable("o", [])]) == INITIAL.(enabled := {"o"});
    assert Enumerates([], Run([Enable("o", [])]).pipelines.Keys);
  }

  lemma ClearedIsNot(steps: seq<Step>)
    requires
      var s := Run(steps);
      s.executor.Some? && s.pipelines == map["p" := Pipeline("o", 5, 0)] && s.enabled == {"o"}
    ensures
      var s := Run(steps + [ChangePeriod("p", 0)]);
      && s.executor.Some? && !ToSchedule(s, "p") && "p" in s.pipelines && s.pipelines["p"].organization in s.enabled
  {
    RunNext(steps, ChangePeriod("p", 0));
    Cleared(Run(steps));
  }

  lemma RunNext(steps: seq<Step>, step: Step)
    ensures Run(steps + [step]) == Apply(Run(steps), step)
  {
    assert (steps + [step])[..|steps|] == steps;
  }

  lemma Cleared(s: State)
    requires s.executor.Some? && s.pipelines == map["p" := Pipeline("o", 5, 0)] && s.enabled == {"o"}
    ensures
      var t := Apply(s, ChangePeriod("p", 0));
      && t.executor.Some? && !ToSchedule(t, "p") && "p" in t.pipelines && t.pipelines["p"].organization in t.enabled
  {
  }

  // ---- What every notification changes ---------------------------------------------------------------------------------

  /** The pipelines, the organizations and the leadership that a node knows after a notification that can be. */
  lemma NotificationsAre(s: State, step: Step)
    ensures
      var t := Apply(s, step);
      match step
      case Create(id, p) =>
        if id in s.used || !ValidPeriod(p.period) then t == s
        else t.pipelines == s.pipelines[id := p] && t.enabled == s.enabled && t.used == s.used + {id} && t.removing == s.removing
      case Delete(id) =>
        && t.pipelines == s.pipelines - {id} && t.enabled == s.enabled && t.used == s.used && t.executor == s.executor
        && t.removing == if id in s.pipelines && s.executor.Some? && s.pipelines[id].organization in s.enabled
                         then s.removing + {id} else s.removing
      case Removed(id) =>
        && t.pipelines == s.pipelines && t.enabled == s.enabled && t.used == s.used
        && t.removing == if s.executor.Some? then s.removing - {id} else s.removing
      case ChangePeriod(id, period) =>
        && t.enabled == s.enabled && t.used == s.used && t.removing == s.removing && t.pipelines.Keys == s.pipelines.Keys
        && (forall x :: x in s.pipelines && x != id ==> t.pipelines[x] == s.pipelines[x])
        && (id in s.pipelines && ValidPeriod(period) ==>
              t.pipelines[id] == Pipeline(s.pipelines[id].organization, period, s.pipelines[id].start))
      case Enable(o, order) =>
        && t.pipelines == s.pipelines && t.used == s.used && t.removing == s.removing
        && (Enumerates(order, PipelinesOf(s, o)) ==> t.enabled == s.enabled + {o})
      case Disable(o, order) =>
        && t.pipelines == s.pipelines && t.used == s.used && t.removing == s.removing
        && (Enumerates(order, PipelinesOf(s, o)) ==> t.enabled == s.enabled - {o})
      case Elect(order) =>
        && t.pipelines == s.pipelines && t.enabled == s.enabled && t.used == s.used
        && (Enumerates(order, s.pipelines.Keys) ==> t.executor.Some?)
      case Dismiss =>
        t == s.(executor := None, removing := {})
  {
  }
}
