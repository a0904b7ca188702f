/**
 * The disclosure history of an artifact: who could read it before, one record
 * for each key id. Timestamps are passed in.
 */
module Disclosure {
  import opened Wrappers

  datatype RemovedRecipient = RemovedRecipient(recipientHandle: string, kid: string, removedAt: string)

  type History = seq<RemovedRecipient>

  predicate HasKid(list: History, kid: string) {
    exists i :: 0 <= i < |list| && list[i].kid == kid
  }

  function PositionOf(list: History, kid: string): (position: Option<nat>)
    ensures position.None? <==> !HasKid(list, kid)
    ensures position.Some? ==> position.value < |list| && list[position.value].kid == kid
                               && !HasKid(list[..position.value], kid)
  {
    if list == [] then None
    else
      var init, last := list[..|list| - 1], list[|list| - 1];
      assert list == init + [last];
      var earlier := PositionOf(init, kid);
      if earlier.Some? then
        assert list[..earlier.value] == init[..earlier.value];
        earlier
      else if last.kid == kid then Some(|init|)
      else None
  }

  /** `list` followed by the records of `source` whose key id is not there yet. */
  function Appended(list: History, source: History): History {
    if source == [] then list
    else
      var earlier, last := Appended(list, source[..|source| - 1]), source[|source| - 1];
      if HasKid(earlier, last.kid) then earlier else earlier + [last]
  }

  function Unique(source: History): History {
    Appended([], source)
  }

  function Upserted(list: History, removed: RemovedRecipient): History {
    match PositionOf(list, removed.kid)
    case Some(index) => Unique(list[index := removed])
    case None => list + [removed]
  }

  function Added(history: Option<History>, removed: RemovedRecipient): Option<History> {
    match history
    case Some(list) => Some(Upserted(list, removed))
    case None => Some([removed])
  }

  function Merged(target: Option<History>, source: Option<History>): Option<History> {
    match source
    case None => target
    case Some(carried) =>
      match target
      case Some(list) => Some(Appended(Unique(list), carried))
      case None => Some(Unique(carried))
  }

  /** The `removed_recipients` member of a document, updated in place. */
  class RemovedHistory {
    var recipients: Option<History>

    constructor (recipients: Option<History>)
      ensures this.recipients == recipients
    {
      this.recipients := recipients;
    }

    method BuildUnique(source: History) returns (deduped: History)
      ensures deduped == Unique(source)
    {
      deduped := [];
      for i := 0 to |source|
        invariant deduped == Unique(source[..i])
      {
        assert source[..i + 1][..i] == source[..i];
        if HasKid(deduped, source[i].kid) {
          continue;
        }
        deduped := deduped + [source[i]];
      }
      assert source[..|source|] == source;
    }

    method AddToRemovedHistory(recipientHandle: string, kid: string, timestamp: string)
      modifies this
      ensures recipients == Added(old(recipients), RemovedRecipient(recipientHandle, kid, timestamp))
    {
      var removed := RemovedRecipient(recipientHandle, kid, timestamp);
      if recipients.None? {
        recipients := Some([removed]);
        return;
      }
      var list := recipients.value;
      var position := PositionOf(list, kid);
      if position.Some? {
        list := list[position.value := removed];
        list := BuildUnique(list);
      } else {
        list := list + [removed];
      }
      recipients := Some(list);
    }

    method MergeRemovedHistory(source: Option<History>)
      modifies this
      ensures recipients == Merged(old(recipients), source)
    {
      if source.None? {
        return;
      }
      var oldRemoved := source.value;
      if recipients.None? {
        var deduped := BuildUnique(oldRemoved);
        recipients := Some(deduped);
        return;
      }
      var newList := BuildUnique(recipients.value);
      for i := 0 to |oldRemoved|
        invariant newList == Appended(Unique(old(recipients).value), oldRemoved[..i])
        invariant recipients == old(recipients)
      {
        assert oldRemoved[..i + 1][..i] == oldRemoved[..i];
        if HasKid(newList, oldRemoved[i].kid) {
          continue;
        }
        newList := newList + [oldRemoved[i]];
      }
      assert oldRemoved[..|oldRemoved|] == oldRemoved;
      recipients := Some(newList);
    }
  }
}

/** What every sequence of adds and merges keeps. */
module DisclosureRuns {
  import opened Wrappers
  import opened Disclosure

  // ---- the meaning of a history -------------------------------------------------

  /** What a reader of the history learns about a key id: its first record. */
  function RecordOf(list: History, kid: string): (record: Option<RemovedRecipient>)
    ensures record.Some? <==> HasKid(list, kid)
  {
    if list == [] then None
    else
      var init, last := list[..|list| - 1], list[|list| - 1];
      assert list == init + [last];
      if RecordOf(init, kid).Some? then RecordOf(init, kid)
      else if last.kid == kid then Some(last)
      else None
  }

  function Entry(history: Option<History>, kid: string): Option<RemovedRecipient> {
    if history.Some? then RecordOf(history.value, kid) else None
  }

  ghost predicate OnePerKid(list: History) {
    forall i, j :: 0 <= i < j < |list| ==> list[i].kid != list[j].kid
  }

  ghost predicate Clean(history: Option<History>) {
    history.Some? ==> OnePerKid(history.value)
  }

  /** The key ids in the order the history lists them. */
  function Kids(history: Option<History>): seq<string> {
    if history.Some? then seq(|history.value|, i requires 0 <= i < |history.value| => history.value[i].kid) else []
  }

  // ---- runs -----------------------------------------------------------------

  datatype Step = Add(removed: RemovedRecipient) | Merge(source: Option<History>)

  function Do(history: Option<History>, step: Step): Option<History> {
    match step
    case Add(removed) => Added(history, removed)
    case Merge(source) => Merged(history, source)
  }

  function Run(start: Option<History>, steps: seq<Step>): Option<History> {
    if steps == [] then start else Do(Run(start, steps[..|steps| - 1]), steps[|steps| - 1])
  }

  /** What the step means to one key id: an add overwrites, a merge only fills a gap. */
  function DoEntry(entry: Option<RemovedRecipient>, kid: string, step: Step): Option<RemovedRecipient> {
    match step
    case Add(removed) => if removed.kid == kid then Some(removed) else entry
    case Merge(source) => if entry.Some? then entry else Entry(source, kid)
  }

  function RunEntry(entry: Option<RemovedRecipient>, kid: string, steps: seq<Step>): Option<RemovedRecipient> {
    if steps == [] then entry else DoEntry(RunEntry(entry, kid, steps[..|steps| - 1]), kid, steps[|steps| - 1])
  }

  // ---- the list operations ------------------------------------------------------

  lemma {:induction false} RecordOfConcat(a: History, b: History, kid: string)
    ensures RecordOf(a + b, kid) == if RecordOf(a, kid).Some? then RecordOf(a, kid) else RecordOf(b, kid)
  {
    if b == [] {
      assert a + b == a;
    } else {
      assert (a + b)[..|a + b| - 1] == a + b[..|b| - 1];
      RecordOfConcat(a, b[..|b| - 1], kid);
    }
  }

  lemma {:induction false} AppendedRecord(list: History, source: History, kid: string)
    ensures RecordOf(Appended(list, source), kid)
         == if RecordOf(list, kid).Some? then RecordOf(list, kid) else RecordOf(source, kid)
  {
    if source == [] {
    } else {
      var init, last := source[..|source| - 1], source[|source| - 1];
      AppendedRecord(list, init, kid);
      RecordOfConcat(Appended(list, init), [last], kid);
    }
  }

  lemma {:induction false} AppendedKeeps(list: History, source: History)
    requires OnePerKid(list)
    ensures OnePerKid(Appended(list, source))
    ensures list <= Appended(list, source)
  {
    if source == [] {
    } else {
      AppendedKeeps(list, source[..|source| - 1]);
    }
  }

  lemma {:induction false} AppendedNothingNew(list: History, source: History)
    requires forall i :: 0 <= i < |source| ==> HasKid(list, source[i].kid)
    ensures Appended(list, source) == list
  {
    if source == [] {
    } else {
      AppendedNothingNew(list, source[..|source| - 1]);
    }
  }

  lemma {:induction false} UniqueOfClean(list: History)
    requires OnePerKid(list)
    ensures Unique(list) == list
  {
    if list == [] {
    } else {
      UniqueOfClean(list[..|list| - 1]);
      assert list == list[..|list| - 1] + [list[|list| - 1]];
    }
  }

  lemma UniqueMeans(list: History, kid: string)
    ensures OnePerKid(Unique(list)) && RecordOf(Unique(list), kid) == RecordOf(list, kid)
  {
    AppendedKeeps([], list);
    AppendedRecord([], list, kid);
  }

  lemma RecordReplaced(list: History, index: nat, removed: RemovedRecipient, kid: string)
    requires index < |list| && list[index].kid == removed.kid && !HasKid(list[..index], removed.kid)
    ensures RecordOf(list[index := removed], kid)
         == if kid == removed.kid then Some(removed) else RecordOf(list, kid)
  {
    var before, after := list[..index], list[index + 1..];
    assert list == before + ([list[index]] + after) && list[index := removed] == before + ([removed] + after);
    RecordOfConcat(before, [list[index]] + after, kid);
    RecordOfConcat(before, [removed] + after, kid);
    RecordOfConcat([list[index]], after, kid);
    RecordOfConcat([removed], after, kid);
  }

  // ---- steps --------------------------------------------------------------------

  lemma StepMeans(history: Option<History>, kid: string, step: Step)
    ensures Entry(Do(history, step), kid) == DoEntry(Entry(history, kid), kid, step)
  {
    match step
    case Add(removed) =>
      if history.Some? {
        var position := PositionOf(history.value, removed.kid);
        if position.Some? {
          RecordReplaced(history.value, position.value, removed, kid);
          UniqueMeans(history.value[position.value := removed], kid);
        } else {
          RecordOfConcat(history.value, [removed], kid);
        }
      }
    case Merge(source) =>
      if source.Some? {
        UniqueMeans(source.value, kid);
        if history.Some? {
          UniqueMeans(history.value, kid);
          AppendedRecord(Unique(history.value), source.value, kid);
        }
      }
  }

  lemma StepKeeps(history: Option<History>, step: Step)
    requires Clean(history)
    ensures Clean(Do(history, step))
    ensures Kids(history) <= Kids(Do(history, step))
  {
    match step
    case Add(removed) =>
      if history.Some? {
        var list := history.value;
        var position := PositionOf(list, removed.kid);
        if position.Some? {
          UniqueOfClean(list[position.value := removed]);
        } else {
          assert OnePerKid(list + [removed]);
        }
      }
    case Merge(source) =>
      if source.Some? {
        AppendedKeeps([], source.value);
        if history.Some? {
          UniqueOfClean(history.value);
          AppendedKeeps(history.value, source.value);
        }
      }
  }

  // ---- runs -----------------------------------------------------------------

  /**
   * From any start whatever, the record a key id ends up with is the one of its
   * last add; without an add it is the one it started with; without either, the
   * first one merged in.
   */
  lemma {:induction false} RunMeans(start: Option<History>, kid: string, steps: seq<Step>)
    ensures Entry(Run(start, steps), kid) == RunEntry(Entry(start, kid), kid, steps)
  {
    if steps == [] {
    } else {
      RunMeans(start, kid, steps[..|steps| - 1]);
      StepMeans(Run(start, steps[..|steps| - 1]), kid, steps[|steps| - 1]);
    }
  }

  /**
   * From a start without duplicates there is one record per key id after any
   * adds and merges, and no key id is lost or moved: new ones come after.
   */
  lemma {:induction false} EveryRunKeepsOneRecordPerKid(start: Option<History>, steps: seq<Step>)
    requires Clean(start)
    ensures Clean(Run(start, steps))
    ensures Kids(start) <= Kids(Run(start, steps))
  {
    if steps == [] {
    } else {
      EveryRunKeepsOneRecordPerKid(start, steps[..|steps| - 1]);
      StepKeeps(Run(start, steps[..|steps| - 1]), steps[|steps| - 1]);
    }
  }

  /** Whatever was recorded twice before, a merge leaves one record per key id. */
  lemma MergeCleans(target: Option<History>, source: History)
    ensures Clean(Merged(target, Some(source)))
  {
    AppendedKeeps([], source);
    if target.Some? {
      AppendedKeeps([], target.value);
      AppendedKeeps(Unique(target.value), source);
    }
  }

  lemma MergeTwiceIsMergeOnce(target: Option<History>, source: Option<History>)
    ensures Merged(Merged(target, source), source) == Merged(target, source)
  {
    if source.Some? {
      MergeCleans(target, source.value);
      var once := Merged(target, source).value;
      UniqueOfClean(once);
      forall i | 0 <= i < |source.value|
        ensures HasKid(once, source.value[i].kid)
      {
        StepMeans(target, source.value[i].kid, Merge(source));
        assert HasKid(source.value, source.value[i].kid);
      }
      AppendedNothingNew(once, source.value);
    }
  }
}
