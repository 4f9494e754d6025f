/** The executor of the scheduler as an object. Its buckets are slices of storage that refers to objects of the state, and
    that is shifted in place while a tick goes over it (core/pipeline_scheduler.go:244-404). */
module PipelineExecutors {
  import opened Prelude
  import opened PipelineScheduler
  import opened PipelineTicks
  import opened PipelineFilings
  import opened PipelineObjects

  // ---- The objects that are filed ----------------------------------------------------------------------------------

  class StateWorkspace {
    const normal: bool

    constructor (normal: bool)
      ensures this.normal == normal
    {
      this.normal := normal;
    }
  }

  class StateConnection {
    var workspace: StateWorkspace

    constructor (workspace: StateWorkspace)
      ensures this.workspace == workspace
    {
      this.workspace := workspace;
    }
  }

  /** What is constant here changes by a copy of the object; a run and a copied connection are set in it. */
  class StatePipeline {
    const id: string
    const enabled: bool
    const period: nat
    const start: nat
    var running: bool
    var connection: StateConnection

    constructor (id: string, enabled: bool, period: nat, start: nat, connection: StateConnection)
      ensures this.id == id && this.enabled == enabled && this.period == period && this.start == start
      ensures !running && this.connection == connection
    {
      this.id, this.enabled, this.period, this.start := id, enabled, period, start;
      this.connection, running := connection, false;
    }

    /** It is enabled and has a period, its workspace is in the normal mode, and no run is recorded in it. */
    predicate ToExecute()
      reads this, connection
    {
      enabled && period != 0 && connection.workspace.normal && !running
    }
  }

  // ---- Slices ------------------------------------------------------------------------------------------------------

  /** The first entries of some storage. A slice that was copied still refers to the same storage. */
  datatype Slice = Slice(storage: array<StatePipeline?>, length: nat)

  ghost predicate Sound(b: Slice)
    reads b.storage
  {
    b.length <= b.storage.Length && forall i :: 0 <= i < b.length ==> b.storage[i] != null
  }

  function EntriesIn(objects: seq<StatePipeline?>): (entries: seq<Entry<StatePipeline>>)
    requires forall i :: 0 <= i < |objects| ==> objects[i] != null
    ensures |entries| == |objects|
    ensures forall i :: 0 <= i < |entries| ==> entries[i].id == objects[i].id && entries[i].filed == objects[i]
  {
    seq(|objects|, i requires 0 <= i < |objects| => (var p: StatePipeline := objects[i]; Entry(p.id, p)))
  }

  ghost function Contents(b: Slice): seq<Entry<StatePipeline>>
    requires Sound(b)
    reads b.storage
  {
    EntriesIn(b.storage[..b.length])
  }

  /** A copy with one entry more, in storage of its own. */
  method Appended(b: Slice, p: StatePipeline) returns (c: Slice)
    requires Sound(b)
    ensures Sound(c) && fresh(c.storage) && Contents(c) == Contents(b) + [Entry(p.id, p)]
  {
    var storage := new StatePipeline?[b.length + 1](_ => null);
    forall i | 0 <= i < b.length {
      storage[i] := b.storage[i];
    }
    storage[b.length] := p;
    c := Slice(storage, b.length + 1);
  }

  /** A removal shifts the entries behind it, in the storage, and clears the last one. */
  function Shifted(entries: seq<StatePipeline?>, k: nat): (r: seq<StatePipeline?>)
    requires k < |entries|
    ensures |r| == |entries|
  {
    entries[..k] + entries[k + 1..] + [null]
  }

  method Deleted(b: Slice, k: nat) returns (c: Slice)
    requires Sound(b) && k < b.length
    modifies b.storage
    ensures c == Slice(b.storage, b.length - 1) && Sound(c)
    ensures b.storage[..b.length] == Shifted(old(b.storage[..b.length]), k)
    ensures Contents(c) == RemoveAt(old(Contents(b)), k)
  {
    for i := k to b.length - 1
      invariant k <= i <= b.length - 1
      invariant forall j :: 0 <= j < k ==> b.storage[j] == old(b.storage[j])
      invariant forall j :: k <= j < i ==> b.storage[j] == old(b.storage[j + 1])
      invariant forall j :: i <= j < b.length ==> b.storage[j] == old(b.storage[j])
    {
      b.storage[i] := b.storage[i + 1];
    }
    b.storage[b.length - 1] := null;
    c := Slice(b.storage, b.length - 1);
    ghost var before := old(b.storage[..b.length]);
    assert b.storage[..b.length] == Shifted(before, k);
    assert c.storage[..c.length] == Shifted(before, k)[..|before| - 1];
    EntriesShifted(before, k);
  }

  lemma EntriesShifted(entries: seq<StatePipeline?>, k: nat)
    requires k < |entries| && forall i :: 0 <= i < |entries| ==> entries[i] != null
    ensures forall i :: 0 <= i < |entries| - 1 ==> Shifted(entries, k)[i] != null
    ensures EntriesIn(Shifted(entries, k)[..|entries| - 1]) == RemoveAt(EntriesIn(entries), k)
  {
    var shifted := Shifted(entries, k)[..|entries| - 1];
    assert forall i :: 0 <= i < |shifted| ==> shifted[i] == entries[if i < k then i else i + 1];
  }

  // ---- The executor --------------------------------------------------------------------------------------------------

  class PipelineExecutor {
    var buckets: map<Slot, Slice>
    var indexes: map<string, Slot>

    ghost function Storage(): set<array<StatePipeline?>>
      reads this
    {
      set slot | slot in buckets :: buckets[slot].storage
    }

    /** No two buckets share storage. */
    ghost predicate Valid()
      reads this, Storage()
    {
      && (forall slot :: slot in buckets ==> buckets[slot].storage in Storage() && Sound(buckets[slot]))
      && (forall s, t :: s in buckets && t in buckets && s != t ==> buckets[s].storage != buckets[t].storage)
    }

    ghost function Value(): Filing<StatePipeline>
      requires Valid()
      reads this, Storage()
    {
      Filing(map slot | slot in buckets :: Contents(buckets[slot]), indexes)
    }

    lemma ValueIs(f: Filing<StatePipeline>)
      requires Valid() && f.indexes == indexes && f.buckets.Keys == buckets.Keys
      requires forall slot :: slot in buckets ==> Contents(buckets[slot]) == f.buckets[slot]
      ensures Value() == f
    {
      assert Value().buckets == f.buckets;
    }

    /** Goes over the objects of the state when the executor is made. */
    constructor (order: seq<StatePipeline>, s: State)
      requires forall p :: p in order ==> Describes(s, p)
      ensures Valid() && fresh(Storage())
      ensures Value() == AddEntries(Filing(map[], map[]), EntriesIn(order), s)
    {
      buckets, indexes := map[], map[];
      new;
      AddObjects(order, s);
    }

    method AddObjects(order: seq<StatePipeline>, s: State)
      requires Valid() && forall p :: p in order ==> Describes(s, p)
      modifies this
      ensures Valid() && fresh(Storage() - old(Storage()))
      ensures Value() == AddEntries(old(Value()), EntriesIn(order), s)
    {
      for k := 0 to |order|
        invariant Valid() && fresh(Storage() - old(Storage()))
        invariant Value() == AddEntries(old(Value()), EntriesIn(order[..k]), s)
      {
        assert order[k] in order;
        AddEntriesNext(old(Value()), order, k, s);
        AddKnown(order[k], s);
      }
      assert order[..|order|] == order;
    }

    method AddKnown(p: StatePipeline, s: State)
      requires Valid() && Describes(s, p)
      modifies this
      ensures Valid() && fresh(Storage() - old(Storage()))
      ensures Value() == if ToSchedule(s, p.id) then AddEntry(old(Value()), Entry(p.id, p), SlotFor(s.pipelines[p.id]))
                         else old(Value())
    {
      if p.period == 0 {
        return;
      }
      if s.pipelines[p.id].organization !in s.enabled {
        return;
      }
      AddPipeline(p);
    }

    /** The slice of a bucket; one that is not there is empty. */
    method Lookup(slot: Slot) returns (b: Slice)
      requires Valid()
      ensures Sound(b) && Contents(b) == Entries(Value(), slot)
      ensures if slot in buckets then b == buckets[slot] else fresh(b.storage)
    {
      if slot in buckets {
        b := buckets[slot];
      } else {
        var none := new StatePipeline?[0];
        b := Slice(none, 0);
      }
    }

    method AddPipeline(p: StatePipeline)
      requires Valid() && p.period in PERIODS
      modifies this
      ensures Valid() && fresh(Storage() - old(Storage()))
      ensures Value() == AddEntry(old(Value()), Entry(p.id, p), SlotOf(p.period, p.start))
    {
      var slot := Slot(PeriodIndex(p.period), p.start % p.period);
      var b := Cloned(slot, p);
      Put(slot, b, p.id);
    }

    method Cloned(slot: Slot, p: StatePipeline) returns (b: Slice)
      requires Valid()
      ensures Valid() && Value() == old(Value()) && Sound(b) && fresh(b.storage)
      ensures Contents(b) == Entries(Value(), slot) + [Entry(p.id, p)]
    {
      var before := Lookup(slot);
      b := Appended(before, p);
    }

    method Put(slot: Slot, b: Slice, id: string)
      requires Valid() && Sound(b) && b.storage !in Storage()
      modifies this
      ensures Valid() && Storage() <= old(Storage()) + {b.storage}
      ensures Value() == Filing(old(Value()).buckets[slot := Contents(b)], old(indexes)[id := slot])
    {
      buckets := buckets[slot := b];
      indexes := indexes[id := slot];
      ValueIs(Filing(old(Value()).buckets[slot := Contents(b)], indexes));
    }

    method RemovePipeline(id: string)
      requires Valid()
      modifies this, Storage()
      ensures Valid() && Storage() <= old(Storage())
      ensures Value() == RemoveEntry(old(Value()), id)
      ensures id in old(indexes) && old(indexes[id] in buckets && id in Ids(Contents(buckets[indexes[id]]))) ==>
        var b := old(buckets[indexes[id]]);
        b.storage[..b.length] == Shifted(old(b.storage[..b.length]), Position(Ids(old(Contents(b))), id))
      ensures forall t :: t in old(buckets) && !old(id in indexes && indexes[id] == t && id in Ids(Contents(buckets[t]))) ==>
        old(buckets[t]).storage[..] == old(buckets[t].storage[..])
    {
      if id !in indexes || indexes[id] !in buckets {
        return;
      }
      var slot := indexes[id];
      var b := buckets[slot];
      for k := 0 to b.length
        invariant id !in Ids(Contents(b))[..k]
      {
        if b.storage[k].id == id {
          PositionIs(Ids(Contents(b)), id, k);
          DeleteAt(slot, k);
          return;
        }
      }
    }

    method DeleteAt(slot: Slot, k: nat)
      requires Valid() && slot in buckets && k < buckets[slot].length
      modifies this, Storage()
      ensures Valid() && Storage() <= old(Storage())
      ensures Value() == SetEntries(old(Value()), slot, RemoveAt(old(Contents(buckets[slot])), k))
      ensures old(buckets[slot]).storage[..old(buckets[slot]).length]
           == Shifted(old(buckets[slot].storage[..buckets[slot].length]), k)
      ensures forall t :: t in old(buckets) && t != slot ==>
        old(buckets[t]).storage[..] == old(buckets[t].storage[..])
    {
      ghost var entries := Contents(buckets[slot]);
      var b := Deleted(buckets[slot], k);
      forall t | t in buckets && t != slot
        ensures Sound(buckets[t]) && Contents(buckets[t]) == old(Contents(buckets[t]))
      {
        assert buckets[t].storage != b.storage;
      }
      SetSlice(slot, b, RemoveAt(entries, k), old(Value()));
    }

    /** Replaces the header of a slice, or deletes an empty one. */
    method SetSlice(slot: Slot, b: Slice, ghost entries: seq<Entry<StatePipeline>>,
                    ghost before: Filing<StatePipeline>)
      requires slot in buckets && b.storage == buckets[slot].storage && Sound(b) && Contents(b) == entries
      requires before.indexes == indexes && before.buckets.Keys == buckets.Keys
      requires forall t :: t in buckets && t != slot ==> Sound(buckets[t]) && Contents(buckets[t]) == before.buckets[t]
      requires forall s, t :: s in buckets && t in buckets && s != t ==> buckets[s].storage != buckets[t].storage
      modifies this`buckets
      ensures Valid() && Storage() <= old(Storage())
      ensures Value() == SetEntries(before, slot, entries)
    {
      if b.length == 0 {
        buckets := buckets - {slot};
      } else {
        buckets := buckets[slot := b];
      }
      ValueIs(SetEntries(before, slot, entries));
    }

    method SetPeriod(p: StatePipeline)
      requires Valid() && ValidPeriod(p.period) && forall x :: x in indexes ==> indexes[x].i < |PERIODS|
      modifies this, Storage()
      ensures Valid() && fresh(Storage() - old(Storage()))
      ensures Value() == ChangeEntry(old(Value()), Entry(p.id, p), p.period, p.start)
    {
      if p.id in indexes {
        if PERIODS[indexes[p.id].i] == p.period {
          return;
        }
        RemovePipeline(p.id);
      }
      if p.period != 0 {
        AddPipeline(p);
      }
    }

    /** The pipelines that a tick starts: of those it looks up, the ones whose filed objects pass the test. */
    method Tick(minute: nat) returns (started: seq<StatePipeline>)
      requires Valid()
      ensures started == Startable(DueEntries(Value(), minute, 0), Able(DueEntries(Value(), minute, 0)))
      ensures forall p :: p in started ==>
        && p.enabled && p.period != 0 && p.connection.workspace.normal && !p.running
        && exists e :: e in DueEntries(Value(), minute, 0) && e.filed == p
      ensures forall e :: e in DueEntries(Value(), minute, 0) ==>
        var p := e.filed;
        p.enabled && p.period != 0 && p.connection.workspace.normal && !p.running ==> p in started
    {
      ghost var f := Value();
      ghost var due := DueEntries(f, minute, 0);
      ghost var able := Able(due);
      started := [];
      for i := 0 to |PERIODS|
        invariant Valid() && Value() == f && Judges(able, due)
        invariant Startable(due, able) == started + Startable(DueEntries(f, minute, i), able)
        invariant forall e :: e in DueEntries(f, minute, i) ==> e in due
      {
        StartableNext(f, minute, i, able, started);
        var s := StartAll(SlotAt(minute, i), able, due);
        started := started + s;
      }
      StartedAre(due, started);
    }

    method StartAll(slot: Slot, ghost able: set<StatePipeline>, ghost due: seq<Entry<StatePipeline>>)
      returns (started: seq<StatePipeline>)
      requires Valid() && Judges(able, due) && forall e :: e in Entries(Value(), slot) ==> e in due
      ensures Valid() && Value() == old(Value()) && Judges(able, due)
      ensures started == Startable(Entries(Value(), slot), able)
    {
      started := [];
      if slot !in buckets {
        return;
      }
      var b := buckets[slot];
      ghost var entries := Entries(Value(), slot);
      for k := 0 to b.length
        invariant started == Startable(entries[..k], able)
      {
        StartableOne(entries, k, able);
        var p: StatePipeline := b.storage[k];
        assert entries[k] in due;
        if !p.ToExecute() {
          continue;
        }
        started := started + [p];
      }
      assert entries[..|entries|] == entries;
    }

    // ---- Changes during a tick -----------------------------------------------------------------------------------

    /** A tick has copied the header of a slice, without its entries, and read n of these when another goroutine
        removes a pipeline; then it reads the others. */
    method ReadAcrossRemoval(slot: Slot, n: nat, id: string) returns (read: seq<StatePipeline?>)
      requires Valid() && slot in buckets && n <= buckets[slot].length
      modifies this, Storage()
      ensures
        var b := old(buckets[slot]);
        var entries, ids := old(b.storage[..b.length]), Ids(old(Contents(b)));
        read == if id in old(indexes) && old(indexes[id]) == slot && id in ids
                then ReadAcross(entries, Position(ids, id), n) else entries
    {
      var b := buckets[slot];
      var first := ReadEntries(b.storage, 0, n);
      ghost var entries := b.storage[..b.length];
      RemovePipeline(id);
      var others := ReadEntries(b.storage, n, b.length);
      read := first + others;
      assert first == entries[..n] && others == b.storage[..b.length][n..];
      assert entries[..n] + entries[n..] == entries;
    }

    /** When it is an addition that comes between, the entries read are those the header was copied for: the slice
        of the bucket is cloned. */
    method ReadAcrossAddition(slot: Slot, n: nat, p: StatePipeline) returns (read: seq<StatePipeline?>)
      requires Valid() && slot in buckets && n <= buckets[slot].length && p.period in PERIODS
      modifies this
      ensures read == old(buckets[slot].storage[..buckets[slot].length])
    {
      var b := buckets[slot];
      var first := ReadEntries(b.storage, 0, n);
      AddPipeline(p);
      var others := ReadEntries(b.storage, n, b.length);
      read := first + others;
    }
  }

  /** The object is that of the pipeline as the scheduler knows it. */
  predicate Describes(s: State, p: StatePipeline) {
    && p.id in s.pipelines && p.period == s.pipelines[p.id].period && p.start == s.pipelines[p.id].start
    && ValidPeriod(p.period)
  }

  lemma AddEntriesNext(f: Filing<StatePipeline>, order: seq<StatePipeline>, k: nat, s: State)
    requires k < |order|
    ensures AddEntries(f, EntriesIn(order[..k + 1]), s)
         == var g := AddEntries(f, EntriesIn(order[..k]), s);
            if ToSchedule(s, order[k].id)
            then AddEntry(g, Entry(order[k].id, order[k]), SlotFor(s.pipelines[order[k].id])) else g
  {
    assert EntriesIn(order[..k + 1])[..k] == EntriesIn(order[..k]);
  }

  lemma StartableNext(f: Filing<StatePipeline>, minute: nat, i: nat, able: set<StatePipeline>, started: seq<StatePipeline>)
    requires i < |PERIODS|
    ensures DueEntries(f, minute, i) == Entries(f, SlotAt(minute, i)) + DueEntries(f, minute, i + 1)
    ensures started + Startable(DueEntries(f, minute, i), able)
         == (started + Startable(Entries(f, SlotAt(minute, i)), able)) + Startable(DueEntries(f, minute, i + 1), able)
  {
    StartableConcat(Entries(f, SlotAt(minute, i)), DueEntries(f, minute, i + 1), able);
  }

  method ReadEntries(storage: array<StatePipeline?>, from: nat, to: nat) returns (read: seq<StatePipeline?>)
    requires from <= to <= storage.Length
    ensures read == storage[from..to]
  {
    read := [];
    for i := from to to
      invariant read == storage[from..i]
    {
      read := read + [storage[i]];
    }
  }

  /** What a tick reads when the entry k is removed after it read n entries. */
  function ReadAcross(entries: seq<StatePipeline?>, k: nat, n: nat): seq<StatePipeline?>
    requires k < |entries| && n <= |entries|
  {
    entries[..n] + Shifted(entries, k)[n..]
  }

  /** It reads no cleared entry exactly if it had read all before the removal; and it misses a pipeline that was
      not removed exactly if the removed one was read before and there was still one to read: the next one. */
  lemma RemovalDuringATick(entries: seq<StatePipeline?>, k: nat, n: nat)
    requires k < |entries| && n <= |entries|
    requires forall i :: 0 <= i < |entries| ==> entries[i] != null
    requires forall i, j :: 0 <= i < j < |entries| ==> entries[i] != entries[j]
    ensures null in ReadAcross(entries, k, n) <==> n < |entries|
    ensures (forall i :: 0 <= i < |entries| && i != k ==> entries[i] in ReadAcross(entries, k, n)) <==>
            !(k < n < |entries|)
    ensures k < n < |entries| ==> entries[n] !in ReadAcross(entries, k, n)
  {
    var read := ReadAcross(entries, k, n);
    assert forall i :: 0 <= i < n ==> read[i] == entries[i];
    assert forall i :: n <= i < |entries| - 1 ==> read[i] == if i < k then entries[i] else entries[i + 1];
    if n < |entries| { assert read[|entries| - 1] == null; }
    if k < n < |entries| {
      assert entries[n] !in read;
    } else {
      forall i | 0 <= i < |entries| && i != k ensures entries[i] in read {
        assert read[if i < n || i < k then i else i - 1] == entries[i];
      }
    }
  }

  /** The objects that pass the test. */
  ghost function Able(entries: seq<Entry<StatePipeline>>): (able: set<StatePipeline>)
    reads set e | e in entries :: e.filed, set e | e in entries :: e.filed.connection
    ensures Judges(able, entries)
  {
    set e | e in entries && e.filed.ToExecute() :: e.filed
  }

  ghost predicate Judges(able: set<StatePipeline>, entries: seq<Entry<StatePipeline>>)
    reads set e | e in entries :: e.filed, set e | e in entries :: e.filed.connection
  {
    forall e :: e in entries ==> (e.filed in able <==> e.filed.ToExecute())
  }

  function Startable(entries: seq<Entry<StatePipeline>>, able: set<StatePipeline>): seq<StatePipeline> {
    if entries == [] then []
    else
      var init, e := entries[..|entries| - 1], entries[|entries| - 1];
      Startable(init, able) + if e.filed in able then [e.filed] else []
  }

  lemma StartableOne(entries: seq<Entry<StatePipeline>>, k: nat, able: set<StatePipeline>)
    requires k < |entries|
    ensures Startable(entries[..k + 1], able)
         == Startable(entries[..k], able) + if entries[k].filed in able then [entries[k].filed] else []
  {
    assert entries[..k + 1][..k] == entries[..k];
  }

  lemma {:induction false} StartableConcat(a: seq<Entry<StatePipeline>>, b: seq<Entry<StatePipeline>>,
                                          able: set<StatePipeline>)
    ensures Startable(a + b, able) == Startable(a, able) + Startable(b, able)
  {
    if b == [] {
      assert a + b == a;
    } else {
      assert (a + b)[..|a + b| - 1] == a + b[..|b| - 1];
      StartableConcat(a, b[..|b| - 1], able);
    }
  }

  /** Those that are started are those that are able, of those that are looked up. */
  lemma {:induction false} StartableAre(entries: seq<Entry<StatePipeline>>, able: set<StatePipeline>, p: StatePipeline)
    ensures p in Startable(entries, able) <==> p in able && exists e :: e in entries && e.filed == p
  {
    if entries != [] {
      var init, last := entries[..|entries| - 1], entries[|entries| - 1];
      StartableAre(init, able, p);
      assert entries == init + [last];
    }
  }

  lemma StartedAre(entries: seq<Entry<StatePipeline>>, started: seq<StatePipeline>)
    requires started == Startable(entries, Able(entries))
    ensures forall p :: p in started ==>
      && p.enabled && p.period != 0 && p.connection.workspace.normal && !p.running
      && exists e :: e in entries && e.filed == p
    ensures forall e :: e in entries ==>
      var p := e.filed;
      p.enabled && p.period != 0 && p.connection.workspace.normal && !p.running ==> p in started
  {
    forall p | p in started
      ensures p.enabled && p.period != 0 && p.connection.workspace.normal && !p.running
      ensures exists e :: e in entries && e.filed == p
    {
      StartableAre(entries, Able(entries), p);
    }
    forall e | e in entries && e.filed.ToExecute() ensures e.filed in started {
      StartableAre(entries, Able(entries), e.filed);
    }
  }

  /** The objects in the heap are, at this moment, those of the memory of the node. */
  predicate Represents(o: Objects, r: Ref, p: StatePipeline)
    reads p, p.connection
  {
    && r < |o.pipelines| && o.pipelines[r].connection < |o.connections|
    && o.connections[o.pipelines[r].connection].workspace < |o.workspaces|
    && o.pipelines[r].id == p.id && o.pipelines[r].enabled == p.enabled && o.pipelines[r].period == p.period
    && o.pipelines[r].running == p.running
    && o.workspaces[o.connections[o.pipelines[r].connection].workspace].normal == p.connection.workspace.normal
  }

  /** So the test of a tick in the heap is the test on the memory. */
  lemma TestedAlike(o: Objects, r: Ref, p: StatePipeline)
    requires Represents(o, r, p)
    ensures p.ToExecute() <==> CanExecute(o, r)
    ensures p.ToExecute() <==> p.enabled && p.period != 0 && p.connection.workspace.normal && !p.running
  {
  }

  lemma {:induction false} PositionIs(ids: seq<string>, id: string, k: nat)
    requires k < |ids| && ids[k] == id && id !in ids[..k]
    ensures Position(ids, id) == k
  {
    assert k > 0 ==> ids[..k][0] == ids[0];
    if ids[0] != id {
      assert ids[1..][..k - 1] == ids[..k][1..];
      PositionIs(ids[1..], id, k - 1);
    }
  }
}
