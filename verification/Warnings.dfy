/**
 * The bounded, deduplicating sink for local state warnings: its operations as
 * values, and the objects that carry them out in place.
 */
module Warnings {
  import opened Numbers
  import opened Seqs

  const MAX_LOCAL_STATE_WARNINGS: nat := 64

  datatype WarningCode = Permissions | GlobalWorkspacePermissions

  datatype LocalStateWarning = LocalStateWarning(code: WarningCode, path: string, reason: string)

  type Findings = seq<LocalStateWarning>

  /** The warnings one take carries, and a floor on how many it could not carry. */
  datatype Batch = Batch(warnings: Findings, dropped: nat)

  datatype Sink = Sink(warnings: Findings, dropped: Findings, droppedFloor: nat)

  const EMPTY_SINK := Sink([], [], 0)

  function Recorded(sink: Sink, warning: LocalStateWarning): Sink {
    if |sink.warnings| < MAX_LOCAL_STATE_WARNINGS then
      sink.(warnings := PushUnique(sink.warnings, warning))
    else if warning in sink.warnings || |sink.dropped| >= MAX_LOCAL_STATE_WARNINGS then
      sink
    else
      sink.(dropped := PushUnique(sink.dropped, warning))
  }

  function RecordedAll(sink: Sink, warnings: Findings): Sink {
    if warnings == [] then sink
    else Recorded(RecordedAll(sink, warnings[..|warnings| - 1]), warnings[|warnings| - 1])
  }

  function Restored(sink: Sink, batch: Batch): Sink {
    RecordedAll(sink.(droppedFloor := Max(sink.droppedFloor, batch.dropped)), batch.warnings)
  }

  function Merged(sink: Sink, other: Sink): Sink {
    var floor := Max(Max(sink.droppedFloor, other.droppedFloor), |other.dropped|);
    RecordedAll(sink.(droppedFloor := floor), other.warnings + other.dropped)
  }

  function IntoBatch(sink: Sink): Batch {
    Batch(sink.warnings, Max(sink.droppedFloor, |sink.dropped|))
  }

  class LocalStateWarningSink {
    var warnings: Findings
    var dropped: Findings
    var droppedFloor: nat

    ghost function View(): Sink
      reads this
    {
      Sink(warnings, dropped, droppedFloor)
    }

    constructor ()
      ensures View() == EMPTY_SINK
    {
      warnings, dropped, droppedFloor := [], [], 0;
    }

    method Record(warning: LocalStateWarning)
      modifies this
      ensures View() == Recorded(old(View()), warning)
    {
      if |warnings| < MAX_LOCAL_STATE_WARNINGS {
        warnings := PushUnique(warnings, warning);
        return;
      }
      if warning in warnings || |dropped| >= MAX_LOCAL_STATE_WARNINGS {
        return;
      }
      dropped := PushUnique(dropped, warning);
    }

    method RecordAll(more: Findings)
      modifies this
      ensures View() == RecordedAll(old(View()), more)
    {
      for i := 0 to |more|
        invariant View() == RecordedAll(old(View()), more[..i])
      {
        Record(more[i]);
        assert more[..i + 1][..i] == more[..i];
      }
      assert more[..|more|] == more;
    }

    method Merge(other: LocalStateWarningSink)
      requires other != this
      modifies this
      ensures View() == Merged(old(View()), old(other.View()))
    {
      droppedFloor := Max(Max(droppedFloor, other.droppedFloor), |other.dropped|);
      RecordAll(other.warnings + other.dropped);
    }

    method RestoreBatch(batch: Batch)
      modifies this
      ensures View() == Restored(old(View()), batch)
    {
      droppedFloor := Max(droppedFloor, batch.dropped);
      RecordAll(batch.warnings);
    }

    method TakeBatch() returns (batch: Batch)
      ensures batch == IntoBatch(View())
    {
      batch := Batch(warnings, Max(droppedFloor, |dropped|));
    }
  }

  /** The sink a command records into, and the sinks set aside by its open captures. */
  datatype ThreadView = ThreadView(current: Sink, suspended: seq<Sink>)

  /**
   * The thread-local sink. A capture moves it aside for a fresh one; the
   * innermost open capture is the last of `suspended`.
   */
  class WarningThread {
    var current: LocalStateWarningSink
    var suspended: seq<LocalStateWarningSink>

    ghost predicate Valid()
      reads this
    {
      current !in suspended
      && forall i, j :: 0 <= i < j < |suspended| ==> suspended[i] != suspended[j]
    }

    ghost function View(): ThreadView
      reads this, current, suspended
    {
      ThreadView(current.View(), seq(|suspended|, i requires 0 <= i < |suspended| reads this, suspended =>
                                                  suspended[i].View()))
    }

    constructor ()
      ensures Valid() && fresh(current) && View() == ThreadView(EMPTY_SINK, [])
    {
      current := new LocalStateWarningSink();
      suspended := [];
    }

    method Record(warning: LocalStateWarning)
      requires Valid()
      modifies current
      ensures Valid()
      ensures View() == old(View()).(current := Recorded(old(View()).current, warning))
    {
      current.Record(warning);
    }

    method Restore(batch: Batch)
      requires Valid()
      modifies current
      ensures Valid()
      ensures View() == old(View()).(current := Restored(old(View()).current, batch))
    {
      current.RestoreBatch(batch);
    }

    /** Hand over what was recorded and go on with an empty sink. */
    method Take() returns (batch: Batch)
      requires Valid()
      modifies this
      ensures Valid() && fresh(current) && suspended == old(suspended)
      ensures batch == IntoBatch(old(View()).current)
      ensures View() == old(View()).(current := EMPTY_SINK)
    {
      var taken := current;
      current := new LocalStateWarningSink();
      batch := taken.TakeBatch();
    }

    /** Drop what was recorded without reporting it. */
    method Clear()
      requires Valid()
      modifies this
      ensures Valid() && fresh(current) && suspended == old(suspended)
      ensures View() == old(View()).(current := EMPTY_SINK)
    {
      current := new LocalStateWarningSink();
    }

    method BeginCapture()
      requires Valid()
      modifies this
      ensures Valid() && fresh(current) && suspended == old(suspended) + [old(current)]
      ensures View() == ThreadView(EMPTY_SINK, old(View()).suspended + [old(View()).current])
    {
      suspended := suspended + [current];
      current := new LocalStateWarningSink();
    }

    /** Complete the innermost capture: its caller gets the batch, the sink comes back. */
    method FinishCapture() returns (batch: Batch)
      requires Valid() && suspended != []
      modifies this
      ensures Valid()
      ensures batch == IntoBatch(old(View()).current)
      ensures var outer := old(View()).suspended;
              View() == ThreadView(outer[|outer| - 1], outer[..|outer| - 1])
    {
      var captured := current;
      current, suspended := suspended[|suspended| - 1], suspended[..|suspended| - 1];
      batch := captured.TakeBatch();
    }

    /** Abandon the innermost capture: what it recorded rejoins the outer sink. */
    method DropCapture()
      requires Valid() && suspended != []
      modifies this, suspended[|suspended| - 1]
      ensures Valid()
      ensures var outer := old(View()).suspended;
              View() == ThreadView(Merged(outer[|outer| - 1], old(View()).current), outer[..|outer| - 1])
    {
      var captured := current;
      current, suspended := suspended[|suspended| - 1], suspended[..|suspended| - 1];
      current.Merge(captured);
    }
  }
}
