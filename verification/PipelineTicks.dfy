/** The ticks of the scheduler: which pipelines they look up, and when. Whether they start them depends on what they find
    (core/pipeline_scheduler.go:289-331). */
module PipelineTicks {
  import opened Prelude
  import opened PipelineScheduler

  // ---- A tick ----------------------------------------------------------------------------------------------------

  /** The bucket of a period that the tick of a minute of the day looks up. */
  function SlotAt(minute: nat, i: nat): (slot: Slot)
    requires i < |PERIODS|
    ensures slot.i == i
  {
    Slot(i, minute % PERIODS[i])
  }

  /** The pipelines that the tick of a minute of the day looks up, from the i-th period on. */
  function DueFrom(e: Executor, minute: nat, i: nat): seq<string>
    requires i <= |PERIODS|
    decreases |PERIODS| - i, minute
  {
    if i == |PERIODS| then [] else Bucket(e, SlotAt(minute, i)) + DueFrom(e, minute, i + 1)
  }

  lemma DueNext(e: Executor, minute: nat, i: nat, found: seq<string>)
    requires i < |PERIODS|
    ensures found + DueFrom(e, minute, i) == found + Bucket(e, SlotAt(minute, i)) + DueFrom(e, minute, i + 1)
  {
  }

  lemma {:induction false} DueMembers(e: Executor, minute: nat, i: nat, id: string)
    requires Filed(e) && i <= |PERIODS|
    ensures id in DueFrom(e, minute, i) <==>
      Scheduled(e, id) && i <= e.indexes[id].i < |PERIODS| && e.indexes[id].j == minute % PERIODS[e.indexes[id].i]
    decreases |PERIODS| - i
  {
    if i < |PERIODS| {
      DueMembers(e, minute, i + 1, id);
      if id in Bucket(e, SlotAt(minute, i)) { assert e.indexes[id] == SlotAt(minute, i); }
    }
  }

  lemma DistinctConcat(a: seq<string>, b: seq<string>)
    requires Distinct(a) && Distinct(b) && forall id :: id in a ==> id !in b
    ensures Distinct(a + b)
  {
    forall i, j | 0 <= i < j < |a + b| ensures (a + b)[i] != (a + b)[j] {
      if i < |a| <= j { assert a[i] in a && b[j - |a|] in b; }
    }
  }

  lemma {:induction false} DueOnce(e: Executor, minute: nat, i: nat)
    requires Filed(e) && i <= |PERIODS|
    ensures Distinct(DueFrom(e, minute, i))
    decreases |PERIODS| - i
  {
    if i < |PERIODS| {
      DueOnce(e, minute, i + 1);
      forall id | id in Bucket(e, SlotAt(minute, i)) ensures id !in DueFrom(e, minute, i + 1) {
        NotDueAgain(e, minute, i, id);
      }
      DistinctConcat(Bucket(e, SlotAt(minute, i)), DueFrom(e, minute, i + 1));
    }
  }

  lemma NotDueAgain(e: Executor, minute: nat, i: nat, id: string)
    requires Filed(e) && i < |PERIODS| && id in Bucket(e, SlotAt(minute, i))
    ensures id !in DueFrom(e, minute, i + 1)
  {
    DueMembers(e, minute, i + 1, id);
  }

  /** The minutes in which a pipeline is due are those congruent to its start. */
  predicate LookedUpAt(p: Pipeline, minute: nat)
    requires p.period in PERIODS
  {
    minute % p.period == p.start % p.period
  }

  /** In every reachable state, a tick looks up each scheduled pipeline that is due at its minute, once, and no other
      that is to be scheduled. */
  lemma TickLooksUpWhatIsDue(steps: seq<Step>, minute: nat, id: string)
    requires
      var s := Run(steps);
      s.executor.Some? && ToSchedule(s, id)
    ensures
      var s := Run(steps);
      var due := DueFrom(s.executor.value, minute, 0);
      && (id in due <==> Scheduled(s.executor.value, id) && LookedUpAt(s.pipelines[id], minute))
      && Distinct(due)
  {
    ReachableInv(steps);
    var s := Run(steps);
    assert Indexed(s, s.executor.value, id);
    DueMembers(s.executor.value, minute, 0, id);
    DueOnce(s.executor.value, minute, 0);
  }

  // ---- A day -----------------------------------------------------------------------------------------------------

  /** The periods, in minutes: five minutes to a day. */
  lemma PeriodsAre(period: nat)
    ensures period in PERIODS <==> period in {5, 15, 30, 60, 120, 180, 360, 480, 720, 1440}
    ensures DAY == 24 * 60
  {
  }

  lemma PeriodsDivideTheDay(period: nat)
    requires period in PERIODS
    ensures period > 0 && DAY % period == 0 && DAY == DAY / period * period
  {
    var i := PeriodIndex(period);
    assert i == 0 || i == 1 || i == 2 || i == 3 || i == 4 || i == 5 || i == 6 || i == 7 || i == 8 || i == 9;
  }

  lemma MultipleIsFar(d: int, period: nat)
    ensures d >= 1 ==> d * period >= period
    ensures d <= -1 ==> d * period <= -(period as int)
  {
  }

  lemma DivModAre(period: nat, q: nat, r: nat)
    requires r < period
    ensures (q * period + r) / period == q && (q * period + r) % period == r
  {
    var n := q * period + r;
    assert n == n / period * period + n % period;
    var d: int := n / period - q;
    assert d * period == r - n % period;
    MultipleIsFar(d, period);
  }

  lemma MultipleAdded(period: nat, k: nat, m: nat)
    requires period > 0
    ensures (k * period + m) % period == m % period
  {
    assert m == m / period * period + m % period;
    assert k * period + m == (k + m / period) * period + m % period;
    DivModAre(period, k + m / period, m % period);
  }

  lemma NextCongruent(period: nat, m: nat, d: nat)
    requires 0 < d <= period
    ensures (m + d) % period == m % period <==> d == period
  {
    var q, r := m / period, m % period;
    assert m == q * period + r;
    if r + d < period {
      DivModAre(period, q, r + d);
    } else if d < period {
      assert m + d == (q + 1) * period + (r + d - period);
      DivModAre(period, q + 1, r + d - period);
    } else {
      MultipleAdded(period, 1, m);
    }
  }

  lemma MidnightKeeps(period: nat, m: nat)
    requires period in PERIODS && m < DAY + DAY
    ensures period > 0 && m % DAY % period == m % period
  {
    PeriodsDivideTheDay(period);
    if m >= DAY {
      assert m % DAY == m - DAY;
      MultipleAdded(period, DAY / period, m - DAY);
    }
  }

  lemma DueAgain(p: Pipeline, minute: nat, d: nat)
    requires p.period in PERIODS && minute < DAY && LookedUpAt(p, minute)
    requires 0 < d <= p.period
    ensures LookedUpAt(p, (minute + d) % DAY) <==> d == p.period
  {
    NextCongruent(p.period, minute, d);
    assert p.period <= DAY by { var i := PeriodIndex(p.period); }
    MidnightKeeps(p.period, minute + d);
  }

  /** The tick that looks a pipeline up is followed by the next one that does after exactly the period, across midnight
      as well. */
  lemma GapsAreEqual(steps: seq<Step>, id: string, minute: nat, d: nat)
    requires Run(steps).executor.Some? && ToSchedule(Run(steps), id) && minute < DAY
    requires id in DueFrom(Run(steps).executor.value, minute, 0) && 0 < d <= Run(steps).pipelines[id].period
    ensures id in DueFrom(Run(steps).executor.value, (minute + d) % DAY, 0) <==> d == Run(steps).pipelines[id].period
  {
    TickLooksUpWhatIsDue(steps, minute, id);
    TickLooksUpWhatIsDue(steps, (minute + d) % DAY, id);
    DueAgain(Run(steps).pipelines[id], minute, d);
  }

  /** How many of the first n minutes are congruent to r. */
  function Congruent(period: nat, r: nat, n: nat): nat
    requires period > 0
  {
    if n == 0 then 0 else Congruent(period, r, n - 1) + if (n - 1) % period == r then 1 else 0
  }

  lemma {:induction false} CongruentAre(period: nat, r: nat, q: nat, rest: nat)
    requires r < period && rest < period
    ensures Congruent(period, r, q * period + rest) == q + if r < rest then 1 else 0
    decreases q * period + rest
  {
    if rest > 0 {
      DivModAre(period, q, rest - 1);
      CongruentAre(period, r, q, rest - 1);
    } else if q > 0 {
      DivModAre(period, q - 1, period - 1);
      assert q * period == (q - 1) * period + period;
      CongruentAre(period, r, q - 1, period - 1);
    }
  }

  /** The minutes, of the first n, whose tick looks a pipeline up. */
  ghost function LookupsUpTo(e: Executor, id: string, n: nat): set<nat> {
    set m: nat | m < n && id in DueFrom(e, m, 0)
  }

  ghost function DueUpTo(p: Pipeline, n: nat): set<nat>
    requires p.period in PERIODS
  {
    set m: nat | m < n && LookedUpAt(p, m)
  }

  lemma {:induction false} DueAreCongruent(p: Pipeline, n: nat)
    requires p.period in PERIODS && p.period > 0
    ensures |DueUpTo(p, n)| == Congruent(p.period, p.start % p.period, n)
  {
    if n == 0 {
      assert DueUpTo(p, 0) == {};
    } else {
      DueAreCongruent(p, n - 1);
      assert DueUpTo(p, n) == DueUpTo(p, n - 1) + if LookedUpAt(p, n - 1) then {n - 1} else {};
    }
  }

  lemma LookupsAreDue(steps: seq<Step>, id: string, n: nat)
    requires Run(steps).executor.Some? && ToSchedule(Run(steps), id) && Scheduled(Run(steps).executor.value, id)
    ensures LookupsUpTo(Run(steps).executor.value, id, n) == DueUpTo(Run(steps).pipelines[id], n)
  {
    forall m: nat | m < n
      ensures id in DueFrom(Run(steps).executor.value, m, 0) <==> LookedUpAt(Run(steps).pipelines[id], m)
    {
      TickLooksUpWhatIsDue(steps, m, id);
    }
  }

  lemma DuePerDay(p: Pipeline)
    requires p.period in PERIODS
    ensures p.period > 0 && |DueUpTo(p, DAY)| == DAY / p.period
  {
    PeriodsDivideTheDay(p.period);
    DueAreCongruent(p, DAY);
    CongruentAre(p.period, p.start % p.period, DAY / p.period, 0);
  }

  /** The ticks of a day look a scheduled pipeline up as often as its period is in a day. */
  lemma LookupsPerDay(steps: seq<Step>, id: string)
    requires Run(steps).executor.Some? && ToSchedule(Run(steps), id) && Scheduled(Run(steps).executor.value, id)
    ensures
      var p := Run(steps).pipelines[id];
      p.period > 0 && |LookupsUpTo(Run(steps).executor.value, id, DAY)| == DAY / p.period
  {
    DuePerDay(Run(steps).pipelines[id]);
    LookupsAreDue(steps, id, DAY);
  }
}
