/** What a run is credited with, and what a pipeline's cursor remembers, in every history. */
module PipelineRunAccounting {
  import opened Prelude
  import opened PipelineRuns
  import opened PipelineRunHistory

  // ---- Cursors ------------------------------------------------------------------------------------

  /** The action at `k` writes the cursor of pipeline `p`. */
  ghost predicate WritesCursor(acts: seq<Action>, k: nat, p: PipelineId)
    requires k < |acts|
  {
    var s := At(acts, k);
    match acts[k]
    case CreatePipeline(q, o, _, _, _) => q == p && p !in s.pipelines && o in s.organizations
    case UpdatePipeline(q, _, _, reset) => q == p && reset && p in s.pipelines
    case EndRun(r, q, reason, _) => q == p && reason.Normal? && CanEnd(s, r, p) && p in s.pipelines
    case _ => false
  }

  /** What it writes: the cursor held by the run it ends, or the zero time. */
  ghost function WrittenCursor(acts: seq<Action>, k: nat, p: PipelineId): Time
    requires k < |acts| && WritesCursor(acts, k, p)
  {
    if acts[k].EndRun? then At(acts, k).runs[acts[k].run].cursor else ZERO_TIME
  }

  ghost predicate LastCursorWrite(acts: seq<Action>, k: nat, p: PipelineId) {
    && k < |acts| && WritesCursor(acts, k, p)
    && forall l :: k < l < |acts| ==> !WritesCursor(acts, l, p)
  }

  lemma CursorStep(s: Store, a: Action, p: PipelineId)
    requires p in Apply(s, a).pipelines && p in s.pipelines
    requires !(a.UpdatePipeline? && a.pipeline == p && a.resetCursor)
    requires !(a.EndRun? && a.pipeline == p && a.reason.Normal? && CanEnd(s, a.run, p))
    ensures Apply(s, a).pipelines[p].cursor == s.pipelines[p].cursor
  {
  }

  lemma PipelinesComeFromCreations(s: Store, a: Action, p: PipelineId)
    requires p in Apply(s, a).pipelines && p !in s.pipelines
    ensures a.CreatePipeline? && a.pipeline == p && a.organization in s.organizations
  {
  }

  lemma CursorUntouched(acts: seq<Action>, k: nat, p: PipelineId)
    requires k < |acts| && !WritesCursor(acts, k, p) && p in At(acts, k + 1).pipelines
    ensures p in At(acts, k).pipelines && At(acts, k + 1).pipelines[p].cursor == At(acts, k).pipelines[p].cursor
  {
    AtNext(acts, k);
    if p !in At(acts, k).pipelines { PipelinesComeFromCreations(At(acts, k), acts[k], p); assert false; }
    CursorStep(At(acts, k), acts[k], p);
  }

  lemma CursorWritten(acts: seq<Action>, k: nat, p: PipelineId)
    requires k < |acts| && WritesCursor(acts, k, p) && p in At(acts, k + 1).pipelines
    ensures At(acts, k + 1).pipelines[p].cursor == WrittenCursor(acts, k, p)
  {
    AtNext(acts, k);
  }

  lemma AtPrefix(acts: seq<Action>, n: nat, k: nat)
    requires k <= n <= |acts|
    ensures At(acts[..n], k) == At(acts, k)
  {
    assert acts[..n][..k] == acts[..k];
  }

  lemma WritesInPrefix(acts: seq<Action>, n: nat, p: PipelineId)
    requires n <= |acts|
    ensures forall k :: 0 <= k < n ==>
      && WritesCursor(acts[..n], k, p) == WritesCursor(acts, k, p)
      && (WritesCursor(acts, k, p) ==> WrittenCursor(acts[..n], k, p) == WrittenCursor(acts, k, p))
  {
    forall k: nat | k < n ensures At(acts[..n], k) == At(acts, k) && acts[..n][k] == acts[k] { AtPrefix(acts, n, k); }
  }

  lemma LastWriteExtends(acts: seq<Action>, k: nat, p: PipelineId)
    requires acts != [] && LastCursorWrite(acts[..|acts| - 1], k, p) && !WritesCursor(acts, |acts| - 1, p)
    ensures LastCursorWrite(acts, k, p)
    ensures WrittenCursor(acts, k, p) == WrittenCursor(acts[..|acts| - 1], k, p)
  {
    WritesInPrefix(acts, |acts| - 1, p);
  }

  /** The cursor of a pipeline is what the last action that wrote it left: the cursor held by the
      run that action ended normally, or zero for a creation or a resetting update. Failed, orphaned
      and disabled runs, and cursors saved after the end, never move it. */
  lemma {:induction false} PipelineCursorHistory(acts: seq<Action>, p: PipelineId)
    requires p in Exec(acts).pipelines
    ensures exists k :: LastCursorWrite(acts, k, p) && Exec(acts).pipelines[p].cursor == WrittenCursor(acts, k, p)
  {
    var n := |acts|;
    assert acts[..n] == acts;
    assert n > 0;
    if WritesCursor(acts, n - 1, p) {
      CursorWritten(acts, n - 1, p);
      assert LastCursorWrite(acts, n - 1, p);
    } else {
      CursorUntouched(acts, n - 1, p);
      var init := acts[..n - 1];
      PipelineCursorHistory(init, p);
      var k :| LastCursorWrite(init, k, p) && Exec(init).pipelines[p].cursor == WrittenCursor(init, k, p);
      LastWriteExtends(acts, k, p);
    }
  }

  /** The action at `k` writes the cursor of run `r`: its insertion, or a save. */
  ghost predicate WritesRunCursor(acts: seq<Action>, k: nat, r: RunId)
    requires k < |acts|
  {
    Inserts(acts, k, r) || (acts[k].SaveCursor? && acts[k].run == r && r in At(acts, k).runs)
  }

  ghost predicate LastRunCursorWrite(acts: seq<Action>, k: nat, r: RunId) {
    && k < |acts| && WritesRunCursor(acts, k, r)
    && forall l :: k < l < |acts| ==> !WritesRunCursor(acts, l, r)
  }

  /** What it writes: the saved cursor, or the one read when the run's creation was checked. */
  ghost function WrittenRunCursor(acts: seq<Action>, k: nat, r: RunId): Time
    requires k < |acts| && WritesRunCursor(acts, k, r)
  {
    if acts[k].SaveCursor? then acts[k].cursor else At(acts, k).creating[acts[k].tx].cursor
  }

  lemma RunCursorStep(s: Store, a: Action, r: RunId)
    requires r in s.runs && r in Apply(s, a).runs && !(a.SaveCursor? && a.run == r)
    ensures Apply(s, a).runs[r].cursor == s.runs[r].cursor
  {
  }

  lemma RunCursorUntouched(acts: seq<Action>, k: nat, r: RunId)
    requires k < |acts| && !WritesRunCursor(acts, k, r) && r in At(acts, k + 1).runs
    ensures r in At(acts, k).runs && At(acts, k + 1).runs[r].cursor == At(acts, k).runs[r].cursor
  {
    AtNext(acts, k);
    if r !in At(acts, k).runs { RowsComeFromInserts(At(acts, k), acts[k], r); assert false; }
    RunCursorStep(At(acts, k), acts[k], r);
  }

  lemma RunCursorWritten(acts: seq<Action>, k: nat, r: RunId)
    requires k < |acts| && WritesRunCursor(acts, k, r) && r in At(acts, k + 1).runs
    ensures At(acts, k + 1).runs[r].cursor == WrittenRunCursor(acts, k, r)
  {
    AtNext(acts, k);
  }

  lemma RunWritesInPrefix(acts: seq<Action>, n: nat, r: RunId)
    requires n <= |acts|
    ensures forall k :: 0 <= k < n ==>
      && WritesRunCursor(acts[..n], k, r) == WritesRunCursor(acts, k, r)
      && (WritesRunCursor(acts, k, r) ==> WrittenRunCursor(acts[..n], k, r) == WrittenRunCursor(acts, k, r))
  {
    forall k: nat | k < n ensures At(acts[..n], k) == At(acts, k) && acts[..n][k] == acts[k] { AtPrefix(acts, n, k); }
  }

  lemma LastRunWriteExtends(acts: seq<Action>, k: nat, r: RunId)
    requires acts != [] && LastRunCursorWrite(acts[..|acts| - 1], k, r) && !WritesRunCursor(acts, |acts| - 1, r)
    ensures LastRunCursorWrite(acts, k, r)
    ensures WrittenRunCursor(acts, k, r) == WrittenRunCursor(acts[..|acts| - 1], k, r)
  {
    RunWritesInPrefix(acts, |acts| - 1, r);
  }

  /** The cursor a run holds is the last one saved for it, or the one it was created with. */
  lemma {:induction false} RunCursorHistory(acts: seq<Action>, r: RunId)
    requires r in Exec(acts).runs
    ensures exists k :: LastRunCursorWrite(acts, k, r) && Exec(acts).runs[r].cursor == WrittenRunCursor(acts, k, r)
  {
    var n := |acts|;
    assert acts[..n] == acts;
    assert n > 0;
    if WritesRunCursor(acts, n - 1, r) {
      RunCursorWritten(acts, n - 1, r);
      assert LastRunCursorWrite(acts, n - 1, r);
    } else {
      RunCursorUntouched(acts, n - 1, r);
      var init := acts[..n - 1];
      RunCursorHistory(init, r);
      var k :| LastRunCursorWrite(init, k, r) && Exec(init).runs[r].cursor == WrittenRunCursor(init, k, r);
      LastRunWriteExtends(acts, k, r);
    }
  }

  // ---- Counters -----------------------------------------------------------------------------------

  /** The metrics stored for `p` by a stretch of history. */
  function MetricSum(acts: seq<Action>, p: PipelineId): Counters {
    if acts == [] then Zero()
    else
      var last := acts[|acts| - 1];
      var sum := MetricSum(acts[..|acts| - 1], p);
      if last.StoreMetrics? && last.pipeline == p then Plus(sum, last.increment) else sum
  }

  lemma TotalStep(s: Store, a: Action, p: PipelineId)
    ensures Total(Apply(s, a), p) ==
      if a.StoreMetrics? && a.pipeline == p then Plus(Total(s, p), a.increment) else Total(s, p)
  {
  }

  lemma {:induction false} TotalIsSum(acts: seq<Action>, p: PipelineId)
    ensures Total(Exec(acts), p) == MetricSum(acts, p)
  {
    if acts != [] {
      TotalIsSum(acts[..|acts| - 1], p);
      TotalStep(Exec(acts[..|acts| - 1]), acts[|acts| - 1], p);
    }
  }

  lemma {:induction false} MetricSumSplits(a: seq<Action>, b: seq<Action>, p: PipelineId)
    ensures MetricSum(a + b, p) == Plus(MetricSum(a, p), MetricSum(b, p))
    decreases |b|
  {
    if b == [] {
      assert a + b == a;
      assert Plus(MetricSum(a, p), Zero()) == MetricSum(a, p);
    } else {
      var b' := b[..|b| - 1];
      MetricSumSplits(a, b', p);
      assert (a + b)[..|a + b| - 1] == a + b';
      var x, y, z := MetricSum(a, p), MetricSum(b', p), b[|b| - 1];
      if z.StoreMetrics? {
        assert Plus(Plus(x, y), z.increment) == Plus(x, Plus(y, z.increment));
      }
    }
  }

  lemma {:induction false} MetricSumNonNegative(acts: seq<Action>, p: PipelineId)
    ensures NonNegative(MetricSum(acts, p))
  {
    if acts != [] { MetricSumNonNegative(acts[..|acts| - 1], p); }
  }

  /** Between its preparation at `j` and its end at `i`, run `r` of `p` is neither prepared again nor re-created. */
  ghost predicate Window(acts: seq<Action>, j: nat, i: nat, r: RunId, p: PipelineId) {
    && j < i < |acts|
    && acts[j] == Prepare(r, p) && r in At(acts, j).runs
    && Ends(acts, i, r) && At(acts, i).runs[r].pipeline == p
    && forall k :: j < k < i ==> !Inserts(acts, k, r) && !Prepares(acts, k, r)
  }

  /** What run `r` was credited with when it ended at `i`. */
  ghost function Credit(acts: seq<Action>, i: nat, r: RunId): Counters
    requires i < |acts| && Ends(acts, i, r)
  {
    At(acts, i + 1).runs[r].counters
  }

  lemma CountersStep(s: Store, a: Action, r: RunId)
    requires r in s.runs && r in Apply(s, a).runs && Live(Apply(s, a).runs[r]) && !(a.Prepare? && a.run == r)
    ensures Live(s.runs[r]) && Apply(s, a).runs[r].counters == s.runs[r].counters
  {
  }

  lemma CountersAtEnd(s: Store, a: Action, r: RunId)
    requires r in s.runs && Live(s.runs[r]) && r in Apply(s, a).runs && !Live(Apply(s, a).runs[r])
    ensures Apply(s, a).runs[r].counters == Plus(s.runs[r].counters, Total(s, s.runs[r].pipeline))
  {
  }

  /** While it is live and not touched again, a prepared run holds minus the totals at its preparation. */
  lemma {:induction false} BaselineHeld(acts: seq<Action>, j: nat, k: nat, r: RunId, p: PipelineId)
    requires j < k <= |acts| && acts[j] == Prepare(r, p) && r in At(acts, j).runs
    requires r in At(acts, k).runs && Live(At(acts, k).runs[r])
    requires forall l :: j < l < k ==> !Inserts(acts, l, r) && !Prepares(acts, l, r)
    ensures At(acts, k).runs[r].counters == Negated(Total(At(acts, j), p))
    decreases k
  {
    AtNext(acts, k - 1);
    if k > j + 1 {
      var s, a := At(acts, k - 1), acts[k - 1];
      assert !Inserts(acts, k - 1, r) && !Prepares(acts, k - 1, r);
      if r !in s.runs { RowsComeFromInserts(s, a, r); assert false; }
      CountersStep(s, a, r);
      BaselineHeld(acts, j, k - 1, r, p);
    }
  }

  lemma PlusNegated(a: Counters, b: Counters)
    ensures Plus(Negated(a), Plus(a, b)) == b
  {
  }

  /** A run prepared before its end is credited with exactly the metrics stored for its pipeline
      between the two, and so never with a negative count. */
  lemma CreditIsTheWindow(acts: seq<Action>, j: nat, i: nat, r: RunId, p: PipelineId)
    requires Window(acts, j, i, r, p)
    ensures Credit(acts, i, r) == MetricSum(acts[j..i], p)
    ensures NonNegative(Credit(acts, i, r))
  {
    AtNext(acts, i);
    BaselineHeld(acts, j, i, r, p);
    CountersAtEnd(At(acts, i), acts[i], r);
    TotalIsSum(acts[..j], p);
    TotalIsSum(acts[..i], p);
    assert acts[..i] == acts[..j] + acts[j..i];
    MetricSumSplits(acts[..j], acts[j..i], p);
    PlusNegated(MetricSum(acts[..j], p), MetricSum(acts[j..i], p));
    MetricSumNonNegative(acts[j..i], p);
  }

  lemma {:induction false} LiveSince(acts: seq<Action>, k: nat, i: nat, r: RunId)
    requires k <= i <= |acts| && r in At(acts, i).runs && Live(At(acts, i).runs[r])
    requires NotReinserted(acts, k, i, r)
    ensures r in At(acts, k).runs && Live(At(acts, k).runs[r]) && At(acts, k).runs[r].pipeline == At(acts, i).runs[r].pipeline
    decreases i - k
  {
    if k < i {
      LiveSince(acts, k + 1, i, r);
      AtNext(acts, k);
      assert !Inserts(acts, k, r);
      if r !in At(acts, k).runs { RowsComeFromInserts(At(acts, k), acts[k], r); assert false; }
      RowKept(At(acts, k), acts[k], r);
    }
  }

  lemma OverlapIsOneRun(acts: seq<Action>, j: nat, i: nat, r: RunId, j': nat, i': nat, r': RunId, p: PipelineId)
    requires Window(acts, j, i, r, p) && Window(acts, j', i', r', p) && i < i' && j' <= i
    ensures r == r'
  {
    var k := if j <= j' then j' else j;
    assert !Inserts(acts, j, r) && !Inserts(acts, j', r');
    LiveSince(acts, k, i, r);
    LiveSince(acts, k, i', r');
    ReachableInv(acts[..k]);
  }

  /** The windows of two runs of one pipeline never overlap. */
  lemma WindowsAreDisjoint(acts: seq<Action>, j: nat, i: nat, r: RunId, j': nat, i': nat, r': RunId, p: PipelineId)
    requires Window(acts, j, i, r, p) && Window(acts, j', i', r', p) && i < i'
    ensures i < j'
  {
    if j' <= i {
      OverlapIsOneRun(acts, j, i, r, j', i', r', p);
      LiveSince(acts, i + 1, i', r);
      assert false;
    }
  }

  datatype Credited = Credited(prepared: nat, ended: nat, run: RunId)

  /** Runs of one pipeline, each prepared and then ended, in the order of their ends. */
  ghost predicate Succession(acts: seq<Action>, runs: seq<Credited>, p: PipelineId) {
    && (forall m :: 0 <= m < |runs| ==> Window(acts, runs[m].prepared, runs[m].ended, runs[m].run, p))
    && (forall m, n :: 0 <= m < n < |runs| ==> runs[m].ended < runs[n].ended)
  }

  ghost function CreditSum(acts: seq<Action>, runs: seq<Credited>, p: PipelineId): Counters
    requires Succession(acts, runs, p)
  {
    if runs == [] then Zero()
    else
      var n := |runs| - 1;
      assert Window(acts, runs[n].prepared, runs[n].ended, runs[n].run, p);
      Plus(CreditSum(acts, runs[..n], p), Credit(acts, runs[n].ended, runs[n].run))
  }

  lemma StretchesFit(acts: seq<Action>, i: nat, j: nat, k: nat, p: PipelineId)
    requires i <= j <= k <= |acts|
    ensures AtMost(Plus(MetricSum(acts[..i], p), MetricSum(acts[j..k], p)), MetricSum(acts[..k], p))
  {
    MetricSumNonNegative(acts[i..j], p);
    MetricSumSplits(acts[..i], acts[i..j], p);
    assert acts[..i] + acts[i..j] == acts[..j];
    MetricSumSplits(acts[..j], acts[j..k], p);
    assert acts[..j] + acts[j..k] == acts[..k];
  }

  /** The last of them was prepared after the one before had ended. */
  lemma LastBegins(acts: seq<Action>, runs: seq<Credited>, p: PipelineId)
    requires Succession(acts, runs, p) && runs != []
    ensures
      var rest, w := runs[..|runs| - 1], runs[|runs| - 1];
      (if rest == [] then 0 else rest[|rest| - 1].ended) <= w.prepared <= w.ended <= |acts|
  {
    var w := runs[|runs| - 1];
    assert Window(acts, w.prepared, w.ended, w.run, p);
    if |runs| > 1 {
      var v := runs[|runs| - 2];
      assert Window(acts, v.prepared, v.ended, v.run, p);
      WindowsAreDisjoint(acts, v.prepared, v.ended, v.run, w.prepared, w.ended, w.run, p);
    }
  }

  /** No increment is counted twice: the credits of successive runs add up to at most the metrics
      stored up to the last of their ends. */
  lemma {:induction false} NothingCountedTwice(acts: seq<Action>, runs: seq<Credited>, p: PipelineId)
    requires Succession(acts, runs, p)
    ensures AtMost(CreditSum(acts, runs, p), MetricSum(if runs == [] then [] else acts[..runs[|runs| - 1].ended], p))
  {
    if runs != [] {
      var rest, w := runs[..|runs| - 1], runs[|runs| - 1];
      assert Window(acts, w.prepared, w.ended, w.run, p);
      NothingCountedTwice(acts, rest, p);
      CreditIsTheWindow(acts, w.prepared, w.ended, w.run, p);
      LastBegins(acts, runs, p);
      var from := if rest == [] then 0 else rest[|rest| - 1].ended;
      assert acts[..0] == [];
      StretchesFit(acts, from, w.prepared, w.ended, p);
    }
  }
}
