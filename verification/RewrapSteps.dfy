/** The steps of a rewrap, seen as changes to the set of people it is addressed to. */
module RewrapSteps {
  import opened Wrappers
  import opened Seqs
  import opened Wire
  import opened Disclosure
  import opened DisclosureRuns
  import opened Primitives
  import opened Envelope
  import opened EnvelopeProofs
  import opened Recipients
  import opened RecipientProofs
  import opened RewrapPlan
  import opened RewrapPlanProofs
  import Ordering

  // ---- who is removed --------------------------------------------------------------------

  /** The recipients that have a wrap, each with the key id of its wrap. */
  function ToRemove(items: seq<WrapItem>, recipients: seq<string>): seq<Addressee> {
    if recipients == [] then []
    else
      var earlier, last := ToRemove(items, recipients[..|recipients| - 1]), recipients[|recipients| - 1];
      match FindItem(items, last)
      case None => earlier
      case Some(wrap) => earlier + [Addressee(last, wrap.kid)]
  }

  /** The history after these removals are recorded one by one. */
  function Recorded(history: Option<History>, removed: seq<Addressee>, now: string): Option<History> {
    if removed == [] then history
    else
      var earlier, last := Recorded(history, removed[..|removed| - 1], now), removed[|removed| - 1];
      Added(earlier, RemovedRecipient(last.handle, last.kid, now))
  }

  lemma {:induction false} ToRemoveIs(items: seq<WrapItem>, recipients: seq<string>)
    requires DistinctHandles(items)
    ensures forall a :: a in ToRemove(items, recipients) <==> a in Addressees(items) && a.handle in recipients
  {
    if recipients == [] {
    } else {
      var init, last := recipients[..|recipients| - 1], recipients[|recipients| - 1];
      ToRemoveIs(items, init);
      assert recipients == init + [last];
      FoundItem(items, last);
      forall a | a in Addressees(items) && a.handle == last
        ensures FindItem(items, last).Some? && a == Addressee(last, FindItem(items, last).value.kid)
      {
        HandlesAre(items, a);
        var w :| w in items && a == Addressee(w.recipientHandle, w.kid);
        var i :| 0 <= i < |items| && items[i] == w;
        var j :| 0 <= j < |items| && items[j] == FindItem(items, last).value;
      }
    }
  }

  method CollectToRemove(items: seq<WrapItem>, recipients: seq<string>) returns (toRemove: seq<Addressee>)
    ensures toRemove == ToRemove(items, recipients)
  {
    toRemove := [];
    for i := 0 to |recipients|
      invariant toRemove == ToRemove(items, recipients[..i])
    {
      assert recipients[..i + 1][..i] == recipients[..i];
      var found := FindItem(items, recipients[i]);
      if found.Some? {
        toRemove := toRemove + [Addressee(recipients[i], found.value.kid)];
      }
    }
    assert recipients[..|recipients|] == recipients;
  }

  method RecordRemovals(history: Option<History>, removed: seq<Addressee>, now: string)
    returns (recorded: Option<History>)
    ensures recorded == Recorded(history, removed, now)
  {
    var kept := new RemovedHistory(history);
    for i := 0 to |removed|
      invariant fresh(kept) && kept.recipients == Recorded(history, removed[..i], now)
    {
      assert removed[..i + 1][..i] == removed[..i];
      kept.AddToRemovedHistory(removed[i].handle, removed[i].kid, now);
    }
    assert removed[..|removed|] == removed;
    recorded := kept.recipients;
  }

  ghost predicate RemovesKid(removed: seq<Addressee>, kid: string) {
    exists i :: 0 <= i < |removed| && removed[i].kid == kid
  }

  /** The record is that of one of the removed under this key id, dated now. */
  ghost predicate IsRecordOf(record: RemovedRecipient, removed: seq<Addressee>, now: string, kid: string) {
    exists i :: 0 <= i < |removed| && removed[i].kid == kid && record == RemovedRecipient(removed[i].handle, kid, now)
  }

  /** What a key id's entry becomes when removals are recorded. */
  ghost predicate IsRecordedEntry(entry: Option<RemovedRecipient>, before: Option<RemovedRecipient>,
                                  removed: seq<Addressee>, now: string, kid: string)
  {
    if RemovesKid(removed, kid) then entry.Some? && IsRecordOf(entry.value, removed, now, kid)
    else entry == before
  }

  lemma RecordedSnoc(history: Option<History>, init: seq<Addressee>, last: Addressee, now: string)
    ensures Recorded(history, init + [last], now)
         == Added(Recorded(history, init, now), RemovedRecipient(last.handle, last.kid, now))
  {
    assert (init + [last])[..|init|] == init;
  }

  lemma RecordedStep(history: Option<History>, init: seq<Addressee>, last: Addressee, now: string, kid: string)
    requires IsRecordedEntry(Entry(Recorded(history, init, now), kid), Entry(history, kid), init, now, kid)
    ensures IsRecordedEntry(Entry(Recorded(history, init + [last], now), kid), Entry(history, kid), init + [last], now,
                            kid)
  {
    RecordedSnoc(history, init, last, now);
    OneMoreRecorded(Recorded(history, init, now), last, now, kid);
    OneMoreRemoved(init, last, kid);
    var entry := Entry(Recorded(history, init + [last], now), kid);
    if last.kid == kid {
      assert (init + [last])[|init|] == last;
    } else if i :| 0 <= i < |init| && init[i].kid == kid
                   && entry == Some(RemovedRecipient(init[i].handle, kid, now)) {
      assert (init + [last])[i] == init[i];
    }
  }

  /**
   * A recorded removal names who was removed and carries this rewrap's timestamp;
   * every other key id keeps its record.
   */
  lemma {:induction false} RecordedMeans(history: Option<History>, removed: seq<Addressee>, now: string, kid: string)
    ensures IsRecordedEntry(Entry(Recorded(history, removed, now), kid), Entry(history, kid), removed, now, kid)
  {
    if removed != [] {
      var init, last := removed[..|removed| - 1], removed[|removed| - 1];
      RecordedMeans(history, init, now, kid);
      RecordedStep(history, init, last, now, kid);
      assert removed == init + [last];
    }
  }

  lemma OneMoreRecorded(earlier: Option<History>, last: Addressee, now: string, kid: string)
    ensures Entry(Added(earlier, RemovedRecipient(last.handle, last.kid, now)), kid)
         == if last.kid == kid then Some(RemovedRecipient(last.handle, last.kid, now)) else Entry(earlier, kid)
  {
    StepMeans(earlier, kid, Add(RemovedRecipient(last.handle, last.kid, now)));
  }

  lemma OneMoreRemoved(init: seq<Addressee>, last: Addressee, kid: string)
    ensures RemovesKid(init + [last], kid) <==> RemovesKid(init, kid) || last.kid == kid
  {
    if i :| 0 <= i < |init| && init[i].kid == kid {
      assert (init + [last])[i].kid == kid;
    }
    assert (init + [last])[|init|] == last;
  }

  /** Among all who are removed under a key id, its record names one. */
  ghost predicate NamesRemoved(entry: Option<RemovedRecipient>, items: seq<WrapItem>, recipients: seq<string>,
                               now: string, kid: string)
  {
    exists a :: a in Addressees(items) && a.handle in recipients && a.kid == kid
                && entry == Some(RemovedRecipient(a.handle, kid, now))
  }

  lemma RecordNamesRemoved(record: RemovedRecipient, items: seq<WrapItem>, recipients: seq<string>, now: string,
                           kid: string)
    requires DistinctHandles(items) && IsRecordOf(record, ToRemove(items, recipients), now, kid)
    ensures NamesRemoved(Some(record), items, recipients, now, kid)
  {
    ToRemoveIs(items, recipients);
    var removed := ToRemove(items, recipients);
    var i :| 0 <= i < |removed| && removed[i].kid == kid && record == RemovedRecipient(removed[i].handle, kid, now);
    assert removed[i] in removed;
  }

  lemma {:induction false} RecordedIsClean(history: Option<History>, removed: seq<Addressee>, now: string)
    requires Clean(history)
    ensures Clean(Recorded(history, removed, now))
  {
    if removed == [] {
    } else {
      var init, last := removed[..|removed| - 1], removed[|removed| - 1];
      RecordedIsClean(history, init, now);
      StepKeeps(Recorded(history, init, now), Add(RemovedRecipient(last.handle, last.kid, now)));
    }
  }

  // ---- who stays -----------------------------------------------------------------------

  /** What is left when the recipients are gone. */
  ghost function Remaining(items: seq<WrapItem>, recipients: seq<string>): set<Addressee> {
    set a | a in Addressees(items) && a.handle !in recipients
  }

  ghost predicate HasOneOf(addressees: set<Addressee>, handle: string) {
    exists a :: a in addressees && a.handle == handle
  }

  /** The members that already are among the addressees, each under its own key id. */
  ghost function Renewed(members: seq<Member>, addressees: set<Addressee>): set<Addressee> {
    set a | a in AddresseesOf(members) && HasOneOf(addressees, a.handle)
  }

  ghost predicate AllAreMembers(members: seq<Member>, addressees: set<Addressee>) {
    forall a :: a in addressees ==> IsMember(members, a.handle)
  }

  lemma AmongHandles(members: seq<Member>, items: seq<WrapItem>)
    ensures Among(members, HandlesOf(items)) == Renewed(members, Addressees(items))
    ensures AllMembers(members, HandlesOf(items)) <==> AllAreMembers(members, Addressees(items))
  {
    forall a | a in AddresseesOf(members)
      ensures a.handle in HandlesOf(items) <==> HasOneOf(Addressees(items), a.handle)
    {
      HasHandle(items, a.handle);
    }
    if AllMembers(members, HandlesOf(items)) {
      forall a | a in Addressees(items)
        ensures IsMember(members, a.handle)
      {
        HandlesAre(items, a);
      }
    }
    if AllAreMembers(members, Addressees(items)) {
      forall h | h in HandlesOf(items)
        ensures IsMember(members, h)
      {
        HasHandle(items, h);
      }
    }
  }

  lemma DistinctAreNoRepeats(items: seq<WrapItem>)
    requires DistinctHandles(items)
    ensures NoRepeats(HandlesOf(items))
  {
  }

  // ---- what a plan adds up to ---------------------------------------------------------

  /** After removals and refreshes: those who stay, each under the key id they have now. */
  lemma StayersAreCurrent(items: seq<WrapItem>, members: seq<Member>, options: Options, after: set<Addressee>)
    requires DistinctHandles(items) && DistinctMembers(members)
    requires var plan := PlanFor(items, members, options);
             after == if plan.remove == [] then Addressees(items)
                      else Renewed(members, Remaining(items, plan.remove))
    ensures var stale := PlanFor(items, members, options).stale;
            (set a | a in after && a.handle !in stale) + Among(members, stale) == Renewed(members, Addressees(items))
            && (stale == [] ==> after == Renewed(members, Addressees(items)))
            && NoRepeats(stale) && AllMembers(members, stale)
  {
    PlanIs(items, members, options);
    var plan := PlanFor(items, members, options);
    var result := (set a | a in after && a.handle !in plan.stale) + Among(members, plan.stale);
    forall a | a in result
      ensures a in Renewed(members, Addressees(items))
    {
      StayerIsCurrent(items, members, options, after, a);
    }
    forall a | a in Renewed(members, Addressees(items))
      ensures a in result
    {
      CurrentStays(items, members, options, after, a);
    }
  }

  lemma StayerIsCurrent(items: seq<WrapItem>, members: seq<Member>, options: Options, after: set<Addressee>,
                        a: Addressee)
    requires DistinctHandles(items) && DistinctMembers(members)
    requires var plan := PlanFor(items, members, options);
             && after == (if plan.remove == [] then Addressees(items)
                          else Renewed(members, Remaining(items, plan.remove)))
             && a in (set a | a in after && a.handle !in plan.stale) + Among(members, plan.stale)
    ensures a in Renewed(members, Addressees(items))
  {
    PlanIs(items, members, options);
    var plan := PlanFor(items, members, options);
    if a in Among(members, plan.stale) {
      var i :| 0 <= i < |members| && members[i].handle == a.handle && IsStale(items, members[i]);
      assert HasOneOf(Addressees(items), a.handle);
    } else if plan.remove == [] {
      HandlesAre(items, a);
      assert a.handle !in plan.remove;
      var i :| 0 <= i < |members| && members[i].handle == a.handle;
      assert !IsStale(items, members[i]);
      assert members[i] in members && a == Addressee(members[i].handle, members[i].kid);
      assert HasOneOf(Addressees(items), a.handle);
    }
  }

  lemma CurrentStays(items: seq<WrapItem>, members: seq<Member>, options: Options, after: set<Addressee>,
                     a: Addressee)
    requires DistinctHandles(items) && DistinctMembers(members)
    requires var plan := PlanFor(items, members, options);
             after == if plan.remove == [] then Addressees(items)
                      else Renewed(members, Remaining(items, plan.remove))
    requires a in Renewed(members, Addressees(items))
    ensures var stale := PlanFor(items, members, options).stale;
            a in (set a | a in after && a.handle !in stale) + Among(members, stale)
  {
    PlanIs(items, members, options);
    var plan := PlanFor(items, members, options);
    var m :| m in members && a == Addressee(m.handle, m.kid);
    var i :| 0 <= i < |members| && members[i] == m;
    var b :| b in Addressees(items) && b.handle == a.handle;
    if a.handle !in plan.stale {
      assert !IsStale(items, members[i]);
      assert b == a;
      assert IsMember(members, a.handle) by { assert members[i].handle == a.handle; }
      assert a.handle !in plan.remove;
      assert a in Remaining(items, plan.remove);
    }
  }

  /** Adding the rest completes the target set, one wrap for each member. */
  lemma AddingCompletes(items: seq<WrapItem>, members: seq<Member>, options: Options, now: seq<WrapItem>)
    requires DistinctHandles(items) && DistinctMembers(members) && DistinctHandles(now)
    requires Addressees(now) == Renewed(members, Addressees(items))
    ensures var add := PlanFor(items, members, options).add;
            && Addressees(now) + Fresh(members, add, now) == AddresseesOf(members)
            && |now| + |Fresh(members, add, now)| == |members|
            && |now| <= |items|
            && (add == [] ==> Fresh(members, add, now) == {}) && NoRepeats(add) && AllMembers(members, add)
  {
    PlanIs(items, members, options);
    var add := PlanFor(items, members, options).add;
    var rest := Fresh(members, add, now);
    forall a | a in AddresseesOf(members)
      ensures a in Addressees(now) || a in rest
    {
      HasMember(members, a.handle);
      if a.handle in HandlesOf(items) {
        HasHandle(items, a.handle);
      } else {
        HasHandle(now, a.handle);
        HasHandle(items, a.handle);
      }
    }
    assert Addressees(now) + rest == AddresseesOf(members);
    forall a | a in rest
      ensures a !in Addressees(now)
    {
      HasHandle(now, a.handle);
    }
    AddresseesCount(now);
    AddresseesCount(items);
    MembersCount(members);
    assert |Addressees(now) + rest| == |Addressees(now)| + |rest|;
    NoMoreThanBefore(items, members, Addressees(now));
  }

  /** Renewing cannot make more wraps than there were: a handle has one member. */
  lemma NoMoreThanBefore(items: seq<WrapItem>, members: seq<Member>, renewed: set<Addressee>)
    requires DistinctHandles(items) && DistinctMembers(members)
    requires renewed == Renewed(members, Addressees(items))
    ensures |renewed| <= |items|
  {
    AddresseesCount(items);
    var before := set a | a in Addressees(items) :: a.handle;
    var after := set a | a in renewed :: a.handle;
    ImageIsNoLarger(Addressees(items), before);
    DistinctImage(members, renewed, after);
    assert after <= before;
    SubsetIsNoLarger(after, before);
  }

  lemma {:induction false} ImageIsNoLarger(addressees: set<Addressee>, handles: set<string>)
    requires handles == set a | a in addressees :: a.handle
    ensures |handles| <= |addressees|
  {
    if addressees == {} {
      assert handles == {};
    } else {
      var a :| a in addressees;
      var rest := addressees - {a};
      var others := set b | b in rest :: b.handle;
      ImageIsNoLarger(rest, others);
      assert handles == others + {a.handle};
    }
  }

  lemma {:induction false} DistinctImage(members: seq<Member>, addressees: set<Addressee>, handles: set<string>)
    requires DistinctMembers(members) && addressees <= AddresseesOf(members)
    requires handles == set a | a in addressees :: a.handle
    ensures |handles| == |addressees|
  {
    if addressees == {} {
      assert handles == {};
    } else {
      var a :| a in addressees;
      var rest := addressees - {a};
      var others := set b | b in rest :: b.handle;
      DistinctImage(members, rest, others);
      assert a.handle !in others;
      assert handles == others + {a.handle};
    }
  }

  lemma SubsetIsNoLarger(a: set<string>, b: set<string>)
    requires a <= b
    ensures |a| <= |b|
  {
    assert b == a + (b - a);
  }

  // ---- the order of the wraps -----------------------------------------------------------------

  ghost function HandlesAfterRefresh(items: seq<WrapItem>, members: seq<Member>, options: Options): seq<string> {
    var plan := PlanFor(items, members, options);
    Minus(Minus(HandlesOf(items), plan.remove), plan.stale) + plan.stale
  }

  /**
   * The handles a rewrap leaves, in order: the old ones that stay as they are, then those
   * refreshed in the order of the members, then those added in ascending order.
   */
  ghost function FinalHandles(items: seq<WrapItem>, members: seq<Member>, options: Options): seq<string> {
    HandlesAfterRefresh(items, members, options) + PlanFor(items, members, options).add
  }

  lemma {:induction false} MinusNone(a: seq<string>, b: seq<string>)
    requires forall i :: 0 <= i < |a| ==> a[i] !in b
    ensures Minus(a, b) == a
  {
    if a != [] {
      MinusNone(a[..|a| - 1], b);
      assert a == a[..|a| - 1] + [a[|a| - 1]];
    }
  }

  lemma {:induction false} MinusTwice(a: seq<string>, b: seq<string>, c: seq<string>)
    ensures Minus(Minus(a, b), c) == Minus(a, b + c)
  {
    if a != [] {
      MinusTwice(a[..|a| - 1], b, c);
    }
  }

  lemma {:induction false} MinusSame(a: seq<string>, b: seq<string>, c: seq<string>)
    requires forall h :: h in a ==> (h in b <==> h in c)
    ensures Minus(a, b) == Minus(a, c)
  {
    if a != [] {
      MinusSame(a[..|a| - 1], b, c);
    }
  }

  /** Where nobody is stale the refresh changes nothing, as the plan says. */
  lemma NothingRefreshed(items: seq<WrapItem>, members: seq<Member>, options: Options)
    requires PlanFor(items, members, options).stale == []
    ensures HandlesAfterRefresh(items, members, options)
         == Minus(HandlesOf(items), PlanFor(items, members, options).remove)
  {
    MinusNone(Minus(HandlesOf(items), PlanFor(items, members, options).remove), []);
  }

  /** Nobody who is to be added has a wrap by then. */
  lemma AdditionsAreNew(items: seq<WrapItem>, members: seq<Member>, options: Options)
    requires DistinctHandles(items) && DistinctMembers(members)
    ensures var add := PlanFor(items, members, options).add;
            Minus(add, HandlesAfterRefresh(items, members, options)) == add
  {
    var plan := PlanFor(items, members, options);
    PlanIs(items, members, options);
    MinusIs(HandlesOf(items), plan.remove);
    MinusIs(Minus(HandlesOf(items), plan.remove), plan.stale);
    forall h | h in HandlesAfterRefresh(items, members, options)
      ensures h in HandlesOf(items)
    {
      if h in plan.stale {
        HasHandle(items, h);
      }
    }
    forall i | 0 <= i < |plan.add|
      ensures plan.add[i] !in HandlesAfterRefresh(items, members, options)
    {
      assert plan.add[i] in plan.add;
    }
    MinusNone(plan.add, HandlesAfterRefresh(items, members, options));
  }

  // ---- which wraps are left alone ----------------------------------------------------------

  ghost function WrapsIn(items: seq<WrapItem>): set<WrapItem> {
    set w | w in items
  }

  /** The wraps that are addressed to a target under its current key id already. */
  ghost function CurrentWraps(items: seq<WrapItem>, members: seq<Member>): set<WrapItem> {
    set w | w in items && Addressee(w.recipientHandle, w.kid) in AddresseesOf(members)
  }

  /** The very wraps of the targets that need no change are still there. */
  ghost predicate KeepsWraps(items: seq<WrapItem>, members: seq<Member>, after: seq<WrapItem>) {
    CurrentWraps(items, members) <= WrapsIn(after)
  }

  lemma AllKept(items: seq<WrapItem>, members: seq<Member>)
    ensures KeepsWraps(items, members, items)
  {
  }

  lemma StillKept(items: seq<WrapItem>, members: seq<Member>, before: seq<WrapItem>, after: seq<WrapItem>)
    requires KeepsWraps(items, members, before) && before <= after
    ensures KeepsWraps(items, members, after)
  {
  }

  /** A refresh replaces the stale wraps only. */
  lemma RefreshKeeps(items: seq<WrapItem>, members: seq<Member>, options: Options, after: seq<WrapItem>)
    requires DistinctHandles(items) && DistinctMembers(members)
    requires Without(items, PlanFor(items, members, options).stale) <= after
    ensures KeepsWraps(items, members, after)
  {
    var stale := PlanFor(items, members, options).stale;
    PlanIs(items, members, options);
    WithoutIs(items, stale);
    forall w | w in items && Addressee(w.recipientHandle, w.kid) in AddresseesOf(members)
      ensures w in after
    {
      if w.recipientHandle in stale {
        CurrentIsNotStale(items, members, w);
      }
      assert w in Without(items, stale);
    }
  }

  lemma CurrentIsNotStale(items: seq<WrapItem>, members: seq<Member>, w: WrapItem)
    requires DistinctHandles(items) && DistinctMembers(members) && w in items
    requires Addressee(w.recipientHandle, w.kid) in AddresseesOf(members)
    ensures forall i :: 0 <= i < |members| && members[i].handle == w.recipientHandle ==> !IsStale(items, members[i])
  {
    var k :| 0 <= k < |items| && items[k] == w;
    forall i | 0 <= i < |members| && members[i].handle == w.recipientHandle
      ensures !IsStale(items, members[i])
    {
      assert members[i] in members;
      OneKidEach(members, members[i]);
    }
  }

  // ---- the steps, in order ------------------------------------------------------------------

  /** A refresh moves the stale to the end, and touches nobody else. */
  lemma RefreshedInOrder(suite: Suite, items: seq<WrapItem>, members: seq<Member>, options: Options,
                         before: seq<WrapItem>, after: seq<WrapItem>, sid: Uuid, format: WrapFormat, masterKey: Key,
                         drawn: nat)
    requires DistinctHandles(items) && DistinctMembers(members)
    requires HandlesOf(before) == Minus(HandlesOf(items), PlanFor(items, members, options).remove)
    requires var stale := PlanFor(items, members, options).stale;
             Appends(suite, Without(before, stale), after, stale, sid, format, masterKey, drawn)
    ensures HandlesOf(after) == HandlesAfterRefresh(items, members, options)
    ensures before == items ==> KeepsWraps(items, members, after)
  {
    var stale := PlanFor(items, members, options).stale;
    HandlesWithout(before, stale);
    AppendedHandles(suite, Without(before, stale), after, stale, sid, format, masterKey, drawn);
    if before == items {
      RefreshKeeps(items, members, options, after);
    }
  }

  /** Those added come last, in ascending order. */
  lemma CompletedInOrder(suite: Suite, items: seq<WrapItem>, members: seq<Member>, options: Options,
                         before: seq<WrapItem>, after: seq<WrapItem>, sid: Uuid, format: WrapFormat, masterKey: Key,
                         drawn: nat)
    requires DistinctHandles(items) && DistinctMembers(members)
    requires HandlesOf(before) == HandlesAfterRefresh(items, members, options)
    requires Appends(suite, before, after, Minus(PlanFor(items, members, options).add, HandlesOf(before)), sid, format,
                     masterKey, drawn)
    ensures HandlesOf(after) == FinalHandles(items, members, options)
    ensures Ordering.StrictlyAscending(Itself(), HandlesOf(after)[|before|..])
  {
    AdditionsAreNew(items, members, options);
    AdditionsAscend(items, members, options);
    AppendedHandles(suite, before, after, PlanFor(items, members, options).add, sid, format, masterKey, drawn);
    assert HandlesOf(after)[|before|..] == PlanFor(items, members, options).add;
  }

  /** Exactly the targets without a wrap before come last, in ascending order. */
  lemma NewcomersComeLast(items: seq<WrapItem>, members: seq<Member>, options: Options, after: seq<WrapItem>)
    requires DistinctHandles(items) && DistinctMembers(members)
    requires HandlesOf(after) == FinalHandles(items, members, options)
    ensures var n := |HandlesAfterRefresh(items, members, options)|;
            n <= |after| && Ordering.StrictlyAscending(Itself(), HandlesOf(after)[n..])
            && forall h :: h in HandlesOf(after)[n..] <==> IsMember(members, h) && h !in HandlesOf(items)
  {
    AdditionsAscend(items, members, options);
    PlanIs(items, members, options);
    var n := |HandlesAfterRefresh(items, members, options)|;
    assert HandlesOf(after)[n..] == PlanFor(items, members, options).add;
  }

  // ---- before and after ---------------------------------------------------------------

  ghost predicate Removes(items: seq<WrapItem>, members: seq<Member>, options: Options) {
    PlanFor(items, members, options).remove != []
  }

  ghost predicate SomebodyStays(items: seq<WrapItem>, members: seq<Member>, options: Options) {
    Remaining(items, PlanFor(items, members, options).remove) != {}
  }

  /** The wraps are one for each member, under its current key id. */
  ghost predicate Reaches(members: seq<Member>, items: seq<WrapItem>) {
    DistinctHandles(items) && Addressees(items) == AddresseesOf(members) && |items| == |members|
  }

  lemma AllReached(members: seq<Member>, items: seq<WrapItem>)
    requires DistinctHandles(items) && DistinctMembers(members) && Addressees(items) == AddresseesOf(members)
    ensures Reaches(members, items)
  {
    AddresseesCount(items);
    MembersCount(members);
  }

  lemma AllTargetsRenewed(members: seq<Member>, items: seq<WrapItem>)
    requires Reaches(members, items)
    ensures AllMembers(members, HandlesOf(items))
    ensures Among(members, HandlesOf(items)) == AddresseesOf(members)
  {
    AmongHandles(members, items);
    forall a | a in AddresseesOf(members)
      ensures IsMember(members, a.handle) && HasOneOf(Addressees(items), a.handle)
    {
      HasMember(members, a.handle);
    }
  }

  /** The handles of the wraps are those of the members, in some order. */
  lemma ReachedHandles(members: seq<Member>, items: seq<WrapItem>)
    requires Reaches(members, items) && DistinctMembers(members)
    ensures multiset(HandlesOf(items)) == multiset(MemberHandles(members))
  {
    forall h
      ensures h in HandlesOf(items) <==> h in MemberHandles(members)
    {
      HasHandle(items, h);
      HasMember(members, h);
      if h in MemberHandles(members) {
        var i :| 0 <= i < |members| && MemberHandles(members)[i] == h;
        assert members[i].handle == h;
      }
      if IsMember(members, h) {
        var i :| 0 <= i < |members| && members[i].handle == h;
        assert MemberHandles(members)[i] == h;
      }
    }
    SameElements(HandlesOf(items), MemberHandles(members));
  }

  /** Who a wrap list admits depends only on whom it is addressed to. */
  lemma AdmitsAddressees(items: seq<WrapItem>, handle: string, keys: KeyContext)
    ensures Admits(items, handle, keys)
       <==> exists a :: a in Addressees(items) && a.handle == handle && Selectable(keys, handle, a.kid)
  {
    if i :| Names(items, i, handle) && Selectable(keys, handle, items[i].kid) {
      assert items[i] in items;
      assert Addressee(handle, items[i].kid) in Addressees(items);
    }
    if a :| a in Addressees(items) && a.handle == handle && Selectable(keys, handle, a.kid) {
      var w :| w in items && a == Addressee(w.recipientHandle, w.kid);
      var i :| 0 <= i < |items| && items[i] == w;
      assert Names(items, i, handle);
    }
  }

  lemma AdmitsMemberAddressees(members: seq<Member>, handle: string, keys: KeyContext)
    ensures AdmitsMember(members, handle, keys)
       <==> exists a :: a in AddresseesOf(members) && a.handle == handle && Selectable(keys, handle, a.kid)
  {
    if i :| 0 <= i < |members| && members[i].handle == handle && Selectable(keys, handle, members[i].kid) {
      assert members[i] in members;
      assert Addressee(handle, members[i].kid) in AddresseesOf(members);
    }
    if a :| a in AddresseesOf(members) && a.handle == handle && Selectable(keys, handle, a.kid) {
      var m :| m in members && a == Addressee(m.handle, m.kid);
      var i :| 0 <= i < |members| && members[i] == m;
      assert members[i].handle == handle;
    }
  }

  lemma AdmitsTargets(members: seq<Member>, items: seq<WrapItem>, handle: string, keys: KeyContext)
    requires Reaches(members, items)
    ensures Admits(items, handle, keys) <==> AdmitsMember(members, handle, keys)
  {
    AdmitsAddressees(items, handle, keys);
    AdmitsMemberAddressees(members, handle, keys);
  }

  /** Planning again for the same targets finds nothing to do. */
  lemma ReplanIsEmpty(members: seq<Member>, items: seq<WrapItem>, options: Options)
    requires Reaches(members, items) && DistinctMembers(members)
    ensures NothingToDo(PlanFor(items, members, options))
  {
    EmptyPlanExactly(items, members, options);
  }

  /** Nobody who is not a target keeps a wrap, and every target has exactly one, for its current key. */
  lemma OneWrapPerTarget(members: seq<Member>, items: seq<WrapItem>, handle: string)
    requires Reaches(members, items) && DistinctMembers(members)
    ensures handle in HandlesOf(items) <==> IsMember(members, handle)
    ensures forall i, j :: (Names(items, i, handle) && Names(items, j, handle)) ==> i == j
    ensures forall i, m :: (Names(items, i, handle) && m in members && m.handle == handle) ==> items[i].kid == m.kid
  {
    HasHandle(items, handle);
    HasMember(members, handle);
    forall i, m | Names(items, i, handle) && m in members && m.handle == handle
      ensures items[i].kid == m.kid
    {
      assert items[i] in items;
      assert Addressee(handle, items[i].kid) in AddresseesOf(members);
      OneKidEach(members, m);
    }
  }

  /**
   * Removals come before additions, so replacing every recipient in one rewrap is
   * refused: somebody stays exactly when a current recipient is among the targets.
   */
  lemma SomebodyStaysExactly(items: seq<WrapItem>, members: seq<Member>, options: Options)
    requires DistinctHandles(items) && DistinctMembers(members)
    ensures SomebodyStays(items, members, options)
       <==> exists a :: a in Addressees(items) && IsMember(members, a.handle)
  {
    PlanIs(items, members, options);
    var kept := Remaining(items, PlanFor(items, members, options).remove);
    forall a | a in Addressees(items)
      ensures a in kept <==> IsMember(members, a.handle)
    {
      HandlesAre(items, a);
    }
    if kept != {} {
      var a :| a in kept;
      assert a in Addressees(items) && IsMember(members, a.handle);
    }
  }
}
