/** The buckets of the scheduler with the objects that are filed in them. A pipeline is filed as the object that it was
    at that time; without the objects, the buckets are those of identifiers
    (core/pipeline_scheduler.go:244-262, core/pipeline_scheduler.go:339-390). */
module PipelineFilings {
  import opened Prelude
  import opened PipelineScheduler
  import opened PipelineTicks

  datatype Entry<T> = Entry(id: string, filed: T)

  datatype Filing<T> = Filing(buckets: map<Slot, seq<Entry<T>>>, indexes: map<string, Slot>)

  function Ids<T>(entries: seq<Entry<T>>): (ids: seq<string>)
    ensures |ids| == |entries| && forall i :: 0 <= i < |ids| ==> ids[i] == entries[i].id
  {
    seq(|entries|, i requires 0 <= i < |entries| => entries[i].id)
  }

  function Erased<T>(f: Filing<T>): Executor {
    Executor(map slot | slot in f.buckets :: Ids(f.buckets[slot]), f.indexes)
  }

  function Entries<T>(f: Filing<T>, slot: Slot): (entries: seq<Entry<T>>)
    ensures Bucket(Erased(f), slot) == Ids(entries)
  {
    if slot in f.buckets then f.buckets[slot] else []
  }

  function AddEntry<T>(f: Filing<T>, entry: Entry<T>, slot: Slot): Filing<T> {
    Filing(f.buckets[slot := Entries(f, slot) + [entry]], f.indexes[entry.id := slot])
  }

  function SetEntries<T>(f: Filing<T>, slot: Slot, entries: seq<Entry<T>>): Filing<T> {
    f.(buckets := if entries == [] then f.buckets - {slot} else f.buckets[slot := entries])
  }

  function RemoveEntry<T>(f: Filing<T>, id: string): Filing<T> {
    if id !in f.indexes || id !in Ids(Entries(f, f.indexes[id])) then f
    else
      var slot := f.indexes[id];
      SetEntries(f, slot, RemoveAt(Entries(f, slot), Position(Ids(Entries(f, slot)), id)))
  }

  function ChangeEntry<T>(f: Filing<T>, entry: Entry<T>, period: nat, start: nat): Filing<T>
    requires ValidPeriod(period)
  {
    if NamesPeriod(Erased(f), entry.id, period) then f
    else
      var g := if entry.id in f.indexes then RemoveEntry(f, entry.id) else f;
      if period != 0 then AddEntry(g, entry, SlotOf(period, start)) else g
  }

  function AddEntries<T>(f: Filing<T>, entries: seq<Entry<T>>, s: State): Filing<T> {
    if entries == [] then f
    else
      var g := AddEntries(f, entries[..|entries| - 1], s);
      var entry := entries[|entries| - 1];
      if ToSchedule(s, entry.id) then AddEntry(g, entry, SlotFor(s.pipelines[entry.id])) else g
  }

  function RemoveEntries<T>(f: Filing<T>, ids: seq<string>, s: State): Filing<T> {
    if ids == [] then f
    else
      var g := RemoveEntries(f, ids[..|ids| - 1], s);
      var id := ids[|ids| - 1];
      if id in s.pipelines && s.pipelines[id].period != 0 then RemoveEntry(g, id) else g
  }

  // ---- Without the objects ---------------------------------------------------------------------------------------

  lemma AddErased<T>(f: Filing<T>, entry: Entry<T>, slot: Slot)
    ensures Erased(AddEntry(f, entry, slot)) == Add(Erased(f), entry.id, slot)
  {
    assert Ids(Entries(f, slot) + [entry]) == Ids(Entries(f, slot)) + [entry.id];
    assert Erased(AddEntry(f, entry, slot)).buckets == Add(Erased(f), entry.id, slot).buckets;
  }

  lemma SetErased<T>(f: Filing<T>, slot: Slot, entries: seq<Entry<T>>)
    ensures Erased(SetEntries(f, slot, entries)) == SetBucket(Erased(f), slot, Ids(entries))
  {
    assert Erased(SetEntries(f, slot, entries)).buckets == SetBucket(Erased(f), slot, Ids(entries)).buckets;
  }

  lemma IdsRemoved<T>(entries: seq<Entry<T>>, k: nat)
    requires k < |entries|
    ensures Ids(RemoveAt(entries, k)) == RemoveAt(Ids(entries), k)
  {
  }

  lemma RemoveErased<T>(f: Filing<T>, id: string)
    ensures Erased(RemoveEntry(f, id)) == Remove(Erased(f), id)
  {
    if id in f.indexes && id in Ids(Entries(f, f.indexes[id])) {
      var entries := Entries(f, f.indexes[id]);
      var k := Position(Ids(entries), id);
      IdsRemoved(entries, k);
      SetErased(f, f.indexes[id], RemoveAt(entries, k));
    }
  }

  lemma ChangeErased<T>(f: Filing<T>, entry: Entry<T>, period: nat, start: nat)
    requires ValidPeriod(period)
    ensures Erased(ChangeEntry(f, entry, period, start)) == SetPeriod(Erased(f), entry.id, period, start)
  {
    RemoveErased(f, entry.id);
    if period != 0 {
      AddErased(if entry.id in f.indexes then RemoveEntry(f, entry.id) else f, entry, SlotOf(period, start));
    }
  }

  lemma {:induction false} AddAllErased<T>(f: Filing<T>, entries: seq<Entry<T>>, s: State)
    ensures Erased(AddEntries(f, entries, s)) == AddAll(Erased(f), Ids(entries), s)
  {
    if entries != [] {
      var init, entry := entries[..|entries| - 1], entries[|entries| - 1];
      AddAllErased(f, init, s);
      assert Ids(entries)[..|entries| - 1] == Ids(init);
      if ToSchedule(s, entry.id) { AddErased(AddEntries(f, init, s), entry, SlotFor(s.pipelines[entry.id])); }
    }
  }

  lemma {:induction false} RemoveAllErased<T>(f: Filing<T>, ids: seq<string>, s: State)
    ensures Erased(RemoveEntries(f, ids, s)) == RemoveAll(Erased(f), ids, s)
  {
    if ids != [] {
      RemoveAllErased(f, ids[..|ids| - 1], s);
      RemoveErased(RemoveEntries(f, ids[..|ids| - 1], s), ids[|ids| - 1]);
    }
  }

  // ---- The object of a pipeline ------------------------------------------------------------------------------------

  /** Every entry of a pipeline has the object as which the pipeline was last filed. */
  ghost predicate Holds<T(!new)>(f: Filing<T>, filed: map<string, T>) {
    forall slot, entry :: entry in Entries(f, slot) ==> entry.id in filed && filed[entry.id] == entry.filed
  }

  lemma EntriesSet<T>(f: Filing<T>, slot: Slot, entries: seq<Entry<T>>, s: Slot)
    ensures Entries(SetEntries(f, slot, entries), s) == if s == slot then entries else Entries(f, s)
  {
  }

  lemma AddHolds<T(!new)>(f: Filing<T>, entry: Entry<T>, slot: Slot, filed: map<string, T>)
    requires Holds(f, filed) && entry.id in filed && filed[entry.id] == entry.filed
    ensures Holds(AddEntry(f, entry, slot), filed)
  {
    forall s, e | e in Entries(AddEntry(f, entry, slot), s) ensures e.id in filed && filed[e.id] == e.filed {
      assert e in Entries(f, s) || e == entry;
    }
  }

  lemma RemoveHolds<T(!new)>(f: Filing<T>, id: string, filed: map<string, T>)
    requires Holds(f, filed)
    ensures Holds(RemoveEntry(f, id), filed)
  {
    if id in f.indexes && id in Ids(Entries(f, f.indexes[id])) {
      var slot := f.indexes[id];
      var rest := RemoveAt(Entries(f, slot), Position(Ids(Entries(f, slot)), id));
      forall s, e | e in Entries(SetEntries(f, slot, rest), s) ensures e.id in filed && filed[e.id] == e.filed {
        EntriesSet(f, slot, rest, s);
        assert e in Entries(f, s);
      }
    }
  }

  lemma {:induction false} AddAllHolds<T(!new)>(f: Filing<T>, entries: seq<Entry<T>>, s: State, filed: map<string, T>)
    requires Holds(f, filed)
    requires forall e :: e in entries && ToSchedule(s, e.id) ==> e.id in filed && filed[e.id] == e.filed
    ensures Holds(AddEntries(f, entries, s), filed)
  {
    if entries != [] {
      var init, entry := entries[..|entries| - 1], entries[|entries| - 1];
      AddAllHolds(f, init, s, filed);
      if ToSchedule(s, entry.id) { AddHolds(AddEntries(f, init, s), entry, SlotFor(s.pipelines[entry.id]), filed); }
    }
  }

  lemma {:induction false} RemoveAllHolds<T(!new)>(f: Filing<T>, ids: seq<string>, s: State, filed: map<string, T>)
    requires Holds(f, filed)
    ensures Holds(RemoveEntries(f, ids, s), filed)
  {
    if ids != [] {
      RemoveAllHolds(f, ids[..|ids| - 1], s, filed);
      RemoveHolds(RemoveEntries(f, ids[..|ids| - 1], s), ids[|ids| - 1], filed);
    }
  }

  /** What is not scheduled may be filed next as anything. */
  lemma OthersHold<T(!new)>(f: Filing<T>, filed: map<string, T>, next: map<string, T>)
    requires Filed(Erased(f)) && Holds(f, filed)
    requires forall id :: id in filed && Scheduled(Erased(f), id) ==> id in next && next[id] == filed[id]
    ensures Holds(f, next)
  {
    forall slot, e | e in Entries(f, slot) ensures e.id in next && next[e.id] == e.filed {
      var k :| 0 <= k < |Entries(f, slot)| && Entries(f, slot)[k] == e;
      assert Ids(Entries(f, slot))[k] == e.id;
      assert e.id in Bucket(Erased(f), slot);
    }
  }

  // ---- A tick ------------------------------------------------------------------------------------------------------

  /** The entries that the tick of a minute of the day looks up, from the i-th period on. */
  function DueEntries<T>(f: Filing<T>, minute: nat, i: nat): seq<Entry<T>>
    requires i <= |PERIODS|
    decreases |PERIODS| - i, minute
  {
    if i == |PERIODS| then [] else Entries(f, SlotAt(minute, i)) + DueEntries(f, minute, i + 1)
  }

  lemma {:induction false} DueErased<T>(f: Filing<T>, minute: nat, i: nat)
    requires i <= |PERIODS|
    ensures Ids(DueEntries(f, minute, i)) == DueFrom(Erased(f), minute, i)
    decreases |PERIODS| - i
  {
    if i < |PERIODS| {
      DueErased(f, minute, i + 1);
      IdsConcat(Entries(f, SlotAt(minute, i)), DueEntries(f, minute, i + 1));
    }
  }

  lemma IdsConcat<T>(a: seq<Entry<T>>, b: seq<Entry<T>>)
    ensures Ids(a + b) == Ids(a) + Ids(b)
  {
  }

  /** A tick finds each pipeline as the object as which it was last filed. */
  lemma {:induction false} DueAreHeld<T(!new)>(f: Filing<T>, minute: nat, i: nat, filed: map<string, T>)
    requires Holds(f, filed) && i <= |PERIODS|
    ensures forall e :: e in DueEntries(f, minute, i) ==> e.id in filed && filed[e.id] == e.filed
    decreases |PERIODS| - i
  {
    if i < |PERIODS| { DueAreHeld(f, minute, i + 1, filed); }
  }
}
