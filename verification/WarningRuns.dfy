/** Whole runs of the warning sink: what a reported batch says about what was recorded. */
module WarningRuns {
  import opened Numbers
  import opened Seqs
  import opened Warnings

  // ---- what was recorded -----------------------------------------------------

  /** The recorded findings, each once, in the order they were first seen. */
  function Distinct(trace: Findings): Findings {
    if trace == [] then []
    else PushUnique(Distinct(trace[..|trace| - 1]), trace[|trace| - 1])
  }

  function First64(d: Findings): Findings {
    if |d| <= 64 then d else d[..64]
  }

  /** How many distinct recorded findings a batch of 64 cannot carry. */
  function Lost(trace: Findings): nat {
    if |Distinct(trace)| <= 64 then 0 else |Distinct(trace)| - 64
  }

  lemma {:induction false} DistinctIs(trace: Findings)
    ensures NoRepeats(Distinct(trace))
    ensures forall w :: w in Distinct(trace) <==> w in trace
  {
    if trace != [] {
      var init := trace[..|trace| - 1];
      DistinctIs(init);
      assert trace == init + [trace[|trace| - 1]];
    }
  }

  lemma DistinctSnoc(trace: Findings, w: LocalStateWarning)
    ensures Distinct(trace + [w]) == PushUnique(Distinct(trace), w)
  {
    assert (trace + [w])[..|trace|] == trace;
  }

  lemma {:induction false} DistinctGrows(a: Findings, b: Findings)
    ensures Distinct(a) <= Distinct(a + b)
  {
    if b == [] {
      assert a + b == a;
    } else {
      var init := b[..|b| - 1];
      DistinctGrows(a, init);
      assert (a + b)[..|a + b| - 1] == a + init;
    }
  }

  /** Recording again what is there already adds nothing. */
  lemma {:induction false} DistinctAbsorbs(a: Findings, b: Findings)
    requires forall w :: w in b ==> w in a
    ensures Distinct(a + b) == Distinct(a)
  {
    if b == [] {
      assert a + b == a;
    } else {
      var init, last := b[..|b| - 1], b[|b| - 1];
      DistinctAbsorbs(a, init);
      assert a + b == (a + init) + [last];
      DistinctSnoc(a + init, last);
      DistinctIs(a);
    }
  }

  /** Only the distinct findings of what comes second matter. */
  lemma {:induction false} DistinctTail(a: Findings, b: Findings)
    ensures Distinct(a + Distinct(b)) == Distinct(a + b)
  {
    if b == [] {
    } else {
      var init, last := b[..|b| - 1], b[|b| - 1];
      DistinctTail(a, init);
      assert a + b == (a + init) + [last];
      DistinctSnoc(a + init, last);
      DistinctIs(init);
      if last in Distinct(init) {
        DistinctIs(a + init);
      } else {
        assert a + Distinct(b) == (a + Distinct(init)) + [last];
        DistinctSnoc(a + Distinct(init), last);
      }
    }
  }

  /** Once 64 findings are known, nothing recorded later changes which 64. */
  lemma First64Stable(a: Findings, b: Findings)
    requires |Distinct(a)| >= MAX_LOCAL_STATE_WARNINGS
    ensures First64(Distinct(a + b)) == First64(Distinct(a))
  {
    DistinctGrows(a, b);
  }

  // ---- what a sink says about what was recorded ---------------------------------

  /**
   * A batch tells the truth about a trace: it carries the first 64 distinct
   * findings in order, its count never exceeds what is missing, and it is zero
   * exactly when nothing is.
   */
  ghost predicate Truthful(batch: Batch, trace: Findings) {
    batch.warnings == First64(Distinct(trace))
    && batch.dropped <= 64 && batch.dropped <= Lost(trace)
    && (batch.dropped == 0 <==> Lost(trace) == 0)
  }

  ghost predicate Faithful(sink: Sink, trace: Findings) {
    Truthful(IntoBatch(sink), trace)
    && NoRepeats(sink.dropped)
    && (forall w :: w in sink.dropped ==> w in trace && w !in sink.warnings)
  }

  /** Either the count is saturated or every recorded finding is known by name. */
  ghost predicate Complete(sink: Sink, trace: Findings) {
    IntoBatch(sink).dropped == MAX_LOCAL_STATE_WARNINGS
    || forall w :: w in trace ==> w in sink.warnings || w in sink.dropped
  }

  lemma DroppedAreLost(sink: Sink, trace: Findings)
    requires sink.warnings == First64(Distinct(trace)) && NoRepeats(sink.dropped)
    requires forall w :: w in sink.dropped ==> w in trace && w !in sink.warnings
    ensures |sink.dropped| <= Lost(trace)
  {
    DistinctIs(trace);
    var d := Distinct(trace);
    if |d| <= MAX_LOCAL_STATE_WARNINGS {
      SubsetCount(sink.dropped, []);
    } else {
      var rest := d[MAX_LOCAL_STATE_WARNINGS..];
      assert d == sink.warnings + rest;
      SubsetCount(sink.dropped, rest);
    }
  }

  /** A sink whose names are complete counts exactly what is missing, up to 64. */
  lemma CompleteIsExact(sink: Sink, trace: Findings)
    requires Faithful(sink, trace) && Complete(sink, trace)
    ensures IntoBatch(sink).dropped
         == if Lost(trace) <= MAX_LOCAL_STATE_WARNINGS then Lost(trace) else MAX_LOCAL_STATE_WARNINGS
  {
    DistinctIs(trace);
    if IntoBatch(sink).dropped < MAX_LOCAL_STATE_WARNINGS && Lost(trace) > 0 {
      var rest := Distinct(trace)[MAX_LOCAL_STATE_WARNINGS..];
      assert Distinct(trace) == sink.warnings + rest;
      forall w | w in rest ensures w in sink.dropped {
        assert w in trace;
      }
      SubsetCount(rest, sink.dropped);
    }
  }

  lemma RecordKeepsFaithful(sink: Sink, trace: Findings, w: LocalStateWarning)
    requires Faithful(sink, trace)
    ensures Faithful(Recorded(sink, w), trace + [w])
    ensures Complete(sink, trace) ==> Complete(Recorded(sink, w), trace + [w])
  {
    var next := Recorded(sink, w);
    DistinctSnoc(trace, w);
    DistinctIs(trace);
    DistinctIs(trace + [w]);
    assert |sink.warnings| < MAX_LOCAL_STATE_WARNINGS ==> sink.dropped == [] by {
      DroppedAreLost(sink, trace);
    }
    DroppedAreLost(next, trace + [w]);
  }

  /** Recording a finding that was recorded before changes nothing that is claimed. */
  lemma {:induction false} RepeatsKeepFaithful(sink: Sink, trace: Findings, more: Findings)
    requires Faithful(sink, trace)
    requires forall w :: w in more ==> w in trace
    ensures Faithful(RecordedAll(sink, more), trace)
    ensures Complete(sink, trace) ==> Complete(RecordedAll(sink, more), trace)
  {
    RecordAllKeepsFaithful(sink, trace, more);
    DistinctAbsorbs(trace, more);
  }

  lemma {:induction false} RecordAllKeepsFaithful(sink: Sink, trace: Findings, more: Findings)
    requires Faithful(sink, trace)
    ensures Faithful(RecordedAll(sink, more), trace + more)
    ensures Complete(sink, trace) ==> Complete(RecordedAll(sink, more), trace + more)
  {
    if more == [] {
      assert trace + more == trace;
    } else {
      var init, last := more[..|more| - 1], more[|more| - 1];
      RecordAllKeepsFaithful(sink, trace, init);
      RecordKeepsFaithful(RecordedAll(sink, init), trace + init, last);
      assert trace + more == (trace + init) + [last];
    }
  }

  // ---- restoring and merging ------------------------------------------------------

  lemma {:induction false} FloorIsApart(sink: Sink, floor: nat, more: Findings)
    ensures RecordedAll(sink.(droppedFloor := floor), more) == RecordedAll(sink, more).(droppedFloor := floor)
  {
    if more != [] {
      FloorIsApart(sink, floor, more[..|more| - 1]);
    }
  }

  lemma {:induction false} RecordedAllConcat(sink: Sink, a: Findings, b: Findings)
    ensures RecordedAll(sink, a + b) == RecordedAll(RecordedAll(sink, a), b)
  {
    if b == [] {
      assert a + b == a;
    } else {
      RecordedAllConcat(sink, a, b[..|b| - 1]);
      assert (a + b)[..|a + b| - 1] == a + b[..|b| - 1];
    }
  }

  lemma LostGrows(a: Findings, b: Findings)
    requires forall w :: w in a ==> w in b
    ensures Lost(a) <= Lost(b)
  {
    DistinctIs(a);
    DistinctIs(b);
    SubsetCount(Distinct(a), Distinct(b));
  }

  /** A batch stands in for the trace it was taken from. */
  lemma BatchStandsIn(trace: Findings, batch: Batch, other: Findings)
    requires Truthful(batch, other)
    ensures First64(Distinct(trace + batch.warnings)) == First64(Distinct(trace + other))
    ensures batch.dropped == 0 ==> Distinct(trace + batch.warnings) == Distinct(trace + other)
  {
    var d := Distinct(other);
    DistinctTail(trace, other);
    if |d| <= MAX_LOCAL_STATE_WARNINGS {
      assert batch.warnings == d;
    } else {
      var known, rest := batch.warnings, d[MAX_LOCAL_STATE_WARNINGS..];
      assert known + rest == d && trace + d == (trace + known) + rest;
      assert |Distinct(trace + known)| >= MAX_LOCAL_STATE_WARNINGS by {
        DistinctIs(other);
        DistinctIs(trace + known);
        SubsetCount(known, Distinct(trace + known));
      }
      First64Stable(trace + known, rest);
    }
  }

  lemma RestoreKeepsFaithful(sink: Sink, trace: Findings, batch: Batch, other: Findings)
    requires Faithful(sink, trace) && Truthful(batch, other)
    ensures Faithful(Restored(sink, batch), trace + other)
  {
    var named := RecordedAll(sink, batch.warnings);
    RecordAllKeepsFaithful(sink, trace, batch.warnings);
    FloorIsApart(sink, Max(sink.droppedFloor, batch.dropped), batch.warnings);
    FloorIsApart(sink, sink.droppedFloor, batch.warnings);
    assert sink.(droppedFloor := sink.droppedFloor) == sink;
    var result := Restored(sink, batch);
    BatchStandsIn(trace, batch, other);
    DistinctIs(other);
    assert forall w :: w in batch.warnings ==> w in other;
    DroppedAreLost(result, trace + other);
    LostGrows(trace, trace + other);
    LostGrows(other, trace + other);
    LostGrows(trace + batch.warnings, trace + other);
  }

  /** A batch that lost nothing, or whose count is saturated, is as good as its trace. */
  predicate IsHarmless(batch: Batch) {
    batch.dropped == 0 || batch.dropped == 64
  }

  lemma RestoreKeepsComplete(sink: Sink, trace: Findings, batch: Batch, other: Findings)
    requires Faithful(sink, trace) && Complete(sink, trace) && Truthful(batch, other) && IsHarmless(batch)
    ensures Complete(Restored(sink, batch), trace + other)
  {
    RestoreKeepsFaithful(sink, trace, batch, other);
    RecordAllKeepsFaithful(sink, trace, batch.warnings);
    FloorIsApart(sink, Max(sink.droppedFloor, batch.dropped), batch.warnings);
    FloorIsApart(sink, sink.droppedFloor, batch.warnings);
    assert sink.(droppedFloor := sink.droppedFloor) == sink;
    if batch.dropped == 0 {
      DistinctIs(other);
      assert forall w :: w in other ==> w in batch.warnings;
    }
  }

  lemma MergeIsRestore(sink: Sink, other: Sink)
    ensures Merged(sink, other) == RecordedAll(Restored(sink, IntoBatch(other)), other.dropped)
  {
    var floor := Max(sink.droppedFloor, IntoBatch(other).dropped);
    RecordedAllConcat(sink.(droppedFloor := floor), other.warnings, other.dropped);
  }

  lemma MergeKeepsFaithful(sink: Sink, trace: Findings, other: Sink, otherTrace: Findings)
    requires Faithful(sink, trace) && Faithful(other, otherTrace)
    ensures Faithful(Merged(sink, other), trace + otherTrace)
  {
    MergeIsRestore(sink, other);
    RestoreKeepsFaithful(sink, trace, IntoBatch(other), otherTrace);
    RepeatsKeepFaithful(Restored(sink, IntoBatch(other)), trace + otherTrace, other.dropped);
  }

  lemma MergeKeepsComplete(sink: Sink, trace: Findings, other: Sink, otherTrace: Findings)
    requires Faithful(sink, trace) && Faithful(other, otherTrace)
    requires Complete(sink, trace) && Complete(other, otherTrace)
    ensures Complete(Merged(sink, other), trace + otherTrace)
  {
    MergeKeepsFaithful(sink, trace, other, otherTrace);
    var names := other.warnings + other.dropped;
    var floor := Max(Max(sink.droppedFloor, other.droppedFloor), |other.dropped|);
    FloorIsApart(sink, floor, names);
    FloorIsApart(sink, sink.droppedFloor, names);
    assert sink.(droppedFloor := sink.droppedFloor) == sink;
    RecordAllKeepsFaithful(sink, trace, names);
    if IntoBatch(other).dropped < MAX_LOCAL_STATE_WARNINGS {
      assert forall w :: w in otherTrace ==> w in names;
    }
  }

  // ---- runs ------------------------------------------------------------------------

  /** One call on the thread's warnings. `Restore(i)` gives back the `i`-th batch still handed out. */
  datatype Op =
    | Record(warning: LocalStateWarning)
    | BeginCapture
    | FinishCapture
    | DropCapture
    | Take
    | Restore(i: nat)
    | Clear

  datatype Taken = Taken(batch: Batch, trace: Findings)

  /** The thread's sinks, and beside each sink what was recorded on its behalf. */
  datatype Run = Run(view: ThreadView, current: Findings, suspended: seq<Findings>, taken: seq<Taken>)

  const START := Run(ThreadView(EMPTY_SINK, []), [], [], [])

  predicate Enabled(run: Run, op: Op) {
    match op
    case FinishCapture => run.suspended != [] && |run.suspended| == |run.view.suspended|
    case DropCapture => run.suspended != [] && |run.suspended| == |run.view.suspended|
    case Restore(i) => i < |run.taken|
    case _ => true
  }

  function Step(run: Run, op: Op): Run
    requires Enabled(run, op)
  {
    var view, outer := run.view, run.view.suspended;
    match op
    case Record(w) =>
      run.(view := view.(current := Recorded(view.current, w)), current := run.current + [w])
    case BeginCapture =>
      run.(view := ThreadView(EMPTY_SINK, outer + [view.current]),
           current := [], suspended := run.suspended + [run.current])
    case FinishCapture =>
      run.(view := ThreadView(outer[|outer| - 1], outer[..|outer| - 1]),
           current := run.suspended[|outer| - 1], suspended := run.suspended[..|outer| - 1],
           taken := run.taken + [Taken(IntoBatch(view.current), run.current)])
    case DropCapture =>
      run.(view := ThreadView(Merged(outer[|outer| - 1], view.current), outer[..|outer| - 1]),
           current := run.suspended[|outer| - 1] + run.current, suspended := run.suspended[..|outer| - 1])
    case Take =>
      run.(view := view.(current := EMPTY_SINK), current := [],
           taken := run.taken + [Taken(IntoBatch(view.current), run.current)])
    case Restore(i) =>
      run.(view := view.(current := Restored(view.current, run.taken[i].batch)),
           current := run.current + run.taken[i].trace,
           taken := run.taken[..i] + run.taken[i + 1..])
    case Clear =>
      run.(view := view.(current := EMPTY_SINK), current := [])
  }

  predicate Follows(before: Run, op: Op, end: Run) {
    Enabled(before, op) && end == Step(before, op)
  }

  /** A run of calls from an empty thread, each possible when it is made. */
  ghost predicate IsRun(ops: seq<Op>, end: Run) {
    if ops == [] then end == START
    else
      var init, last := ops[..|ops| - 1], ops[|ops| - 1];
      exists before :: IsRun(init, before) && Follows(before, last, end)
  }

  ghost predicate AllTruthful(run: Run) {
    Faithful(run.view.current, run.current)
    && |run.suspended| == |run.view.suspended|
    && (forall i :: 0 <= i < |run.suspended| ==> Faithful(run.view.suspended[i], run.suspended[i]))
    && (forall i :: 0 <= i < |run.taken| ==> Truthful(run.taken[i].batch, run.taken[i].trace))
  }

  ghost predicate AllComplete(run: Run) {
    AllTruthful(run)
    && Complete(run.view.current, run.current)
    && (forall i :: 0 <= i < |run.suspended| ==> Complete(run.view.suspended[i], run.suspended[i]))
    && (forall i :: 0 <= i < |run.taken| ==> Exact(run.taken[i].batch, run.taken[i].trace))
  }

  ghost predicate Exact(batch: Batch, trace: Findings) {
    batch.dropped == if Lost(trace) <= 64 then Lost(trace) else 64
  }

  lemma StepKeepsTruthful(run: Run, op: Op)
    requires AllTruthful(run) && Enabled(run, op)
    ensures AllTruthful(Step(run, op))
  {
    match op
    case Record(w) => RecordKeepsFaithful(run.view.current, run.current, w);
    case DropCapture =>
      var n := |run.suspended| - 1;
      MergeKeepsFaithful(run.view.suspended[n], run.suspended[n], run.view.current, run.current);
    case Restore(i) =>
      RestoreKeepsFaithful(run.view.current, run.current, run.taken[i].batch, run.taken[i].trace);
    case _ =>
  }

  /** Whatever is given back lost nothing or is saturated. */
  predicate GivesBackHarmless(run: Run, op: Op) {
    op.Restore? && op.i < |run.taken| ==> IsHarmless(run.taken[op.i].batch)
  }

  lemma StepKeepsComplete(run: Run, op: Op)
    requires AllComplete(run) && Enabled(run, op) && GivesBackHarmless(run, op)
    ensures AllComplete(Step(run, op))
  {
    StepKeepsTruthful(run, op);
    match op
    case Record(w) => RecordKeepsFaithful(run.view.current, run.current, w);
    case FinishCapture => CompleteIsExact(run.view.current, run.current);
    case Take => CompleteIsExact(run.view.current, run.current);
    case DropCapture =>
      var n := |run.suspended| - 1;
      MergeKeepsComplete(run.view.suspended[n], run.suspended[n], run.view.current, run.current);
    case Restore(i) =>
      RestoreKeepsComplete(run.view.current, run.current, run.taken[i].batch, run.taken[i].trace);
    case _ =>
  }

  /**
   * In every run, whatever captures were opened, completed, abandoned, taken
   * and given back: each batch handed out carries the first 64 distinct findings
   * in order, and its count is a sound floor that is zero only when it is whole.
   */
  lemma {:induction false} EveryRunIsTruthful(ops: seq<Op>, end: Run)
    requires IsRun(ops, end)
    ensures AllTruthful(end)
  {
    if ops != [] {
      var before :| IsRun(ops[..|ops| - 1], before) && Follows(before, ops[|ops| - 1], end);
      EveryRunIsTruthful(ops[..|ops| - 1], before);
      StepKeepsTruthful(before, ops[|ops| - 1]);
    }
  }

  /** A run in which every batch given back is harmless when it is given back. */
  ghost predicate IsHarmlessRun(ops: seq<Op>, end: Run) {
    if ops == [] then end == START
    else
      var init, last := ops[..|ops| - 1], ops[|ops| - 1];
      exists before :: IsHarmlessRun(init, before) && Follows(before, last, end) && GivesBackHarmless(before, last)
  }

  /**
   * As long as every batch given back lost nothing or is saturated, each count is
   * exact up to its cap of 64, however the findings were split between nested
   * captures.
   */
  lemma {:induction false} CountsAreExactInHarmlessRuns(ops: seq<Op>, end: Run)
    requires IsHarmlessRun(ops, end)
    ensures forall i :: 0 <= i < |end.taken| ==> Exact(end.taken[i].batch, end.taken[i].trace)
    ensures AllComplete(end)
  {
    if ops != [] {
      var init, last := ops[..|ops| - 1], ops[|ops| - 1];
      var before :| IsHarmlessRun(init, before) && Follows(before, last, end) && GivesBackHarmless(before, last);
      CountsAreExactInHarmlessRuns(init, before);
      StepKeepsComplete(before, last);
    }
  }

  /** A run without restores is one of them. */
  lemma {:induction false} RunsWithoutRestoresAreHarmless(ops: seq<Op>, end: Run)
    requires IsRun(ops, end)
    requires forall i :: 0 <= i < |ops| ==> !ops[i].Restore?
    ensures IsHarmlessRun(ops, end)
  {
    if ops != [] {
      var init, last := ops[..|ops| - 1], ops[|ops| - 1];
      var before :| IsRun(init, before) && Follows(before, last, end);
      RunsWithoutRestoresAreHarmless(init, before);
      assert GivesBackHarmless(before, last);
    }
  }

  lemma RestoredIntoEmpty(batch: Batch, trace: Findings)
    requires Truthful(batch, trace)
    ensures Restored(EMPTY_SINK, batch) == Sink(batch.warnings, [], batch.dropped)
  {
    DistinctIs(trace);
    NamesOnly(EMPTY_SINK.(droppedFloor := batch.dropped), batch.warnings);
  }

  /**
   * After an exact batch is given back to an empty sink, the count stays exact
   * under one more new finding if and only if the batch lost nothing or was
   * saturated. Otherwise the finding raises what is missing and not the count,
   * which already stands for some other finding.
   */
  lemma RestoredCountIsExactExactly(batch: Batch, trace: Findings, w: LocalStateWarning)
    requires Truthful(batch, trace) && Exact(batch, trace) && w !in trace
    ensures Exact(IntoBatch(Recorded(Restored(EMPTY_SINK, batch), w)), trace + [w]) <==> IsHarmless(batch)
  {
    DistinctIs(trace);
    DistinctSnoc(trace, w);
    RestoredIntoEmpty(batch, trace);
  }

  lemma EmptyIsComplete()
    ensures Faithful(EMPTY_SINK, []) && Complete(EMPTY_SINK, [])
  {
  }

  /** A reason longer than any in the trace. */
  function LongerReason(trace: Findings): (reason: string)
    ensures forall i :: 0 <= i < |trace| ==> |trace[i].reason| < |reason|
  {
    if trace == [] then "" else LongerReason(trace[..|trace| - 1]) + trace[|trace| - 1].reason + "."
  }

  ghost predicate StaysExact(batch: Batch, trace: Findings, more: Findings) {
    Exact(IntoBatch(RecordedAll(Restored(EMPTY_SINK, batch), more)), trace + more)
  }

  /** What a batch shows before it is given back decides whether its count can be relied on ever after. */
  lemma RestoredFutureIsExactExactly(batch: Batch, trace: Findings)
    requires Truthful(batch, trace) && Exact(batch, trace)
    ensures (forall more :: StaysExact(batch, trace, more)) <==> IsHarmless(batch)
  {
    if IsHarmless(batch) {
      forall more
        ensures StaysExact(batch, trace, more)
      {
        HarmlessStaysExact(batch, trace, more);
      }
    } else {
      var w := LocalStateWarning(Permissions, "", LongerReason(trace));
      RestoredCountIsExactExactly(batch, trace, w);
      assert [w][..0] == [];
      var restored := Restored(EMPTY_SINK, batch);
      assert RecordedAll(restored, [w]) == Recorded(restored, w);
      assert !StaysExact(batch, trace, [w]);
    }
  }

  lemma HarmlessStaysExact(batch: Batch, trace: Findings, more: Findings)
    requires Truthful(batch, trace) && IsHarmless(batch)
    ensures StaysExact(batch, trace, more)
  {
    EmptyIsComplete();
    RestoreKeepsFaithful(EMPTY_SINK, [], batch, trace);
    RestoreKeepsComplete(EMPTY_SINK, [], batch, trace);
    assert [] + trace == trace;
    RecordAllKeepsFaithful(Restored(EMPTY_SINK, batch), trace, more);
    CompleteIsExact(RecordedAll(Restored(EMPTY_SINK, batch), more), trace + more);
  }

  lemma {:induction false} NamesOnly(sink: Sink, more: Findings)
    requires sink.warnings == [] && sink.dropped == []
    requires NoRepeats(more) && |more| <= MAX_LOCAL_STATE_WARNINGS
    ensures RecordedAll(sink, more) == sink.(warnings := more)
  {
    if more != [] {
      NamesOnly(sink, more[..|more| - 1]);
    }
  }
}
