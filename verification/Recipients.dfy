/** Resolving recipients, and adding, replacing and removing their wrap items. */
module Recipients {
  import opened Limits
  import opened Wrappers
  import opened Wire
  import opened Primitives
  import opened Envelope

  function FindMember(members: seq<Member>, handle: string): Option<Member> {
    if members == [] then None
    else if members[0].handle == handle then Some(members[0])
    else FindMember(members[1..], handle)
  }

  /** The first `n` handles looked up in the fixed set of members. */
  function ResolveFirst(members: seq<Member>, handles: seq<string>, n: nat): Result<seq<Member>, EnvelopeError>
    requires n <= |handles|
  {
    if n == 0 then Ok([])
    else
      var earlier :- ResolveFirst(members, handles, n - 1);
      match FindMember(members, handles[n - 1])
      case None => Err(MemberNotFound)
      case Some(member) => Ok(earlier + [member])
  }

  function ResolveSnapshot(members: seq<Member>, handles: seq<string>): Result<seq<Member>, EnvelopeError> {
    ResolveFirst(members, handles, |handles|)
  }

  /** The members that are not recipients yet, in order. */
  function NotAmong(members: seq<Member>, current: seq<string>): seq<Member> {
    if members == [] then []
    else
      var earlier, last := NotAmong(members[..|members| - 1], current), members[|members| - 1];
      if last.handle in current then earlier else earlier + [last]
  }

  method FilterExistingRecipients(recipients: seq<Member>, current: seq<string>) returns (filtered: seq<Member>)
    ensures filtered == NotAmong(recipients, current)
  {
    filtered := [];
    for i := 0 to |recipients|
      invariant filtered == NotAmong(recipients[..i], current)
    {
      assert recipients[..i + 1][..i] == recipients[..i];
      if recipients[i].handle in current {
        continue;
      }
      filtered := filtered + [recipients[i]];
    }
    assert recipients[..|recipients|] == recipients;
  }

  /** The items that remain when those of the handles are dropped. */
  function Without(items: seq<WrapItem>, handles: seq<string>): seq<WrapItem> {
    if items == [] then []
    else
      var earlier, last := Without(items[..|items| - 1], handles), items[|items| - 1];
      if last.recipientHandle in handles then earlier else earlier + [last]
  }

  /** Wrap items for those of the new recipients who are not recipients yet. */
  method BuildNewWrapItems(suite: Suite, drawn: nat, current: seq<string>, currentWrapCount: nat,
                           newRecipients: seq<string>, targets: seq<Member>, sid: Uuid, masterKey: Key,
                           format: WrapFormat) returns (r: Result<seq<WrapItem>, EnvelopeError>)
    ensures var resolved := ResolveSnapshot(targets, newRecipients);
            if resolved.Err? then r == Err(resolved.error)
            else
              var added := NotAmong(resolved.value, current);
              if currentWrapCount + |added| > MAX_WRAP_ITEMS then r == Err(TooManyWraps)
              else r == BuildEach(suite, drawn, added, sid, masterKey, format)
  {
    var resolved := ResolveSnapshot(targets, newRecipients);
    if resolved.Err? {
      return Err(resolved.error);
    }
    var added := FilterExistingRecipients(resolved.value, current);
    var count := CheckWrapCount(currentWrapCount + |added|);
    if count.Err? {
      return Err(count.error);
    }
    r := BuildEach(suite, drawn, added, sid, masterKey, format);
  }

  lemma {:induction false} BuildFailureStays(suite: Suite, drawn: nat, members: seq<Member>, n: nat, m: nat,
                                             sid: Uuid, masterKey: Key, format: WrapFormat)
    requires n <= m <= |members| && BuildFirst(suite, drawn, members, n, sid, masterKey, format).Err?
    ensures BuildFirst(suite, drawn, members, m, sid, masterKey, format)
         == BuildFirst(suite, drawn, members, n, sid, masterKey, format)
  {
    if n < m {
      BuildFailureStays(suite, drawn, members, n, m - 1, sid, masterKey, format);
    }
  }

  method PushWraps(suite: Suite, drawn: nat, wrapItems: seq<WrapItem>, members: seq<Member>, sid: Uuid,
                   masterKey: Key, format: WrapFormat) returns (r: Result<seq<WrapItem>, EnvelopeError>)
    ensures r == match BuildEach(suite, drawn, members, sid, masterKey, format)
                 case Ok(built) => Ok(wrapItems + built)
                 case Err(e) => Err(e)
  {
    var items := wrapItems;
    ghost var pushed: seq<WrapItem> := [];
    for i := 0 to |members|
      invariant items == wrapItems + pushed
      invariant BuildFirst(suite, drawn, members, i, sid, masterKey, format) == Ok(pushed)
    {
      var item := BuildWrapItem(suite, members[i], sid, masterKey, format, drawn + i);
      if item.Err? {
        BuildFailureStays(suite, drawn, members, i + 1, |members|, sid, masterKey, format);
        return Err(item.error);
      }
      items := items + [item.value];
      pushed := pushed + [item.value];
    }
    return Ok(items);
  }

  /** Drop the items of the recipients, then push a fresh one for each of them. */
  method ReplaceRecipientWrapItems(suite: Suite, drawn: nat, wrapItems: seq<WrapItem>, recipients: seq<string>,
                                   targets: seq<Member>, sid: Uuid, masterKey: Key, format: WrapFormat)
    returns (r: Result<seq<WrapItem>, EnvelopeError>)
    ensures var resolved := ResolveSnapshot(targets, recipients);
            if resolved.Err? then r == Err(resolved.error)
            else
              var built := BuildEach(suite, drawn, resolved.value, sid, masterKey, format);
              if built.Err? then r == Err(built.error) else r == Ok(Without(wrapItems, recipients) + built.value)
  {
    var resolved := ResolveSnapshot(targets, recipients);
    if resolved.Err? {
      return Err(resolved.error);
    }
    var retained := Without(wrapItems, recipients);
    r := PushWraps(suite, drawn, retained, resolved.value, sid, masterKey, format);
  }
}

/** What these operations do to the set of people a wrap list is addressed to. */
module RecipientProofs {
  import opened Limits
  import opened Wrappers
  import opened Seqs
  import opened Wire
  import opened Primitives
  import opened Envelope
  import opened EnvelopeProofs
  import opened Recipients
  import opened RewrapPlan

  /** A recipient under a key id. */
  datatype Addressee = Addressee(handle: string, kid: string)

  ghost function Addressees(items: seq<WrapItem>): set<Addressee> {
    set w | w in items :: Addressee(w.recipientHandle, w.kid)
  }

  ghost function AddresseesOf(members: seq<Member>): set<Addressee> {
    set m | m in members :: Addressee(m.handle, m.kid)
  }

  /** Those of the members whose handle is on the list. */
  ghost function Among(members: seq<Member>, handles: seq<string>): set<Addressee> {
    set a | a in AddresseesOf(members) && a.handle in handles
  }

  /** No handle twice, and every item opens to the master key. */
  ghost predicate SoundWraps(suite: Suite, dir: Directory, items: seq<WrapItem>, sid: Uuid, format: WrapFormat,
                             masterKey: Key)
  {
    DistinctHandles(items) && AllDeliver(suite, dir, items, sid, format, masterKey)
  }

  lemma SoundWrapsAreAccepted(suite: Suite, dir: Directory, items: seq<WrapItem>, sid: Uuid, format: WrapFormat,
                              masterKey: Key)
    requires SoundWraps(suite, dir, items, sid, format, masterKey)
    ensures CheckWrapItems(suite.texts, items) == Ok(()) <==> |items| <= MAX_WRAP_ITEMS
  {
    forall i | 0 <= i < |items|
      ensures CheckWrapItem(suite.texts, items[i]) == Ok(())
    {
      assert Delivers(suite, items[i], dir(items[i].kid), sid, format, masterKey);
    }
    SetAcceptedExactly(suite.texts, items);
  }

  // ---- counting -----------------------------------------------------------------------

  lemma {:induction false} AddresseesCount(items: seq<WrapItem>)
    requires DistinctHandles(items)
    ensures |Addressees(items)| == |items|
  {
    if items == [] {
    } else {
      var init, last := items[..|items| - 1], items[|items| - 1];
      AddresseesCount(init);
      assert items == init + [last];
      assert Addressees(items) == Addressees(init) + {Addressee(last.recipientHandle, last.kid)};
    }
  }

  lemma {:induction false} MembersCount(members: seq<Member>)
    requires DistinctMembers(members)
    ensures |AddresseesOf(members)| == |members|
  {
    if members == [] {
    } else {
      var init, last := members[..|members| - 1], members[|members| - 1];
      MembersCount(init);
      assert members == init + [last];
      assert AddresseesOf(members) == AddresseesOf(init) + {Addressee(last.handle, last.kid)};
    }
  }

  // ---- dropping ------------------------------------------------------------------------

  lemma {:induction false} WithoutIs(items: seq<WrapItem>, handles: seq<string>)
    ensures forall w :: w in Without(items, handles) <==> w in items && w.recipientHandle !in handles
    ensures DistinctHandles(items) ==> DistinctHandles(Without(items, handles))
    ensures |Without(items, handles)| <= |items|
  {
    if items == [] {
    } else {
      var init, last := items[..|items| - 1], items[|items| - 1];
      WithoutIs(init, handles);
      assert items == init + [last];
      if DistinctHandles(items) {
        StillDistinct(init, last, Without(init, handles));
      }
    }
  }

  /** One more item after some of those before it. */
  lemma StillDistinct(init: seq<WrapItem>, last: WrapItem, kept: seq<WrapItem>)
    requires DistinctHandles(init + [last]) && (DistinctHandles(init) ==> DistinctHandles(kept))
    requires forall w :: w in kept ==> w in init
    ensures DistinctHandles(kept) && DistinctHandles(kept + [last])
  {
    var items := init + [last];
    assert forall i :: 0 <= i < |init| ==> items[i] == init[i];
    assert items[|init|] == last;
    forall i | 0 <= i < |kept|
      ensures kept[i].recipientHandle != last.recipientHandle
    {
      assert kept[i] in kept;
      var j :| 0 <= j < |init| && init[j] == kept[i];
      assert items[j].recipientHandle != items[|init|].recipientHandle;
    }
  }

  lemma WithoutSound(suite: Suite, dir: Directory, items: seq<WrapItem>, handles: seq<string>, sid: Uuid,
                     format: WrapFormat, masterKey: Key)
    requires SoundWraps(suite, dir, items, sid, format, masterKey)
    ensures SoundWraps(suite, dir, Without(items, handles), sid, format, masterKey)
    ensures Addressees(Without(items, handles)) == set a | a in Addressees(items) && a.handle !in handles
  {
    WithoutIs(items, handles);
    var kept := Without(items, handles);
    forall i | 0 <= i < |kept|
      ensures Delivers(suite, kept[i], dir(kept[i].kid), sid, format, masterKey)
    {
      assert kept[i] in kept;
      var j :| 0 <= j < |items| && items[j] == kept[i];
    }
  }

  // ---- joining --------------------------------------------------------------------------

  lemma JoinSound(suite: Suite, dir: Directory, a: seq<WrapItem>, b: seq<WrapItem>, sid: Uuid, format: WrapFormat,
                  masterKey: Key)
    requires SoundWraps(suite, dir, a, sid, format, masterKey) && SoundWraps(suite, dir, b, sid, format, masterKey)
    requires forall x, y :: x in Addressees(a) && y in Addressees(b) ==> x.handle != y.handle
    ensures SoundWraps(suite, dir, a + b, sid, format, masterKey)
    ensures Addressees(a + b) == Addressees(a) + Addressees(b)
  {
    forall i, j | 0 <= i < j < |a + b|
      ensures (a + b)[i].recipientHandle != (a + b)[j].recipientHandle
    {
      if i < |a| <= j {
        assert Addressee(a[i].recipientHandle, a[i].kid) in Addressees(a);
        assert Addressee(b[j - |a|].recipientHandle, b[j - |a|].kid) in Addressees(b);
      }
    }
  }

  lemma BuiltSound(suite: Suite, dir: Directory, items: seq<WrapItem>, members: seq<Member>, sid: Uuid,
                   format: WrapFormat, masterKey: Key)
    requires WrapsFor(suite, dir, items, members, sid, format, masterKey) && DistinctMembers(members)
    ensures SoundWraps(suite, dir, items, sid, format, masterKey)
    ensures Addressees(items) == AddresseesOf(members)
  {
    WrapsAllDeliver(suite, dir, items, members, sid, format, masterKey);
    forall i | 0 <= i < |items|
      ensures items[i].recipientHandle == members[i].handle && items[i].kid == members[i].kid
    {
      assert ItemFor(suite, dir, items[i], members[i], sid, format, masterKey);
    }
    SameAddressees(items, members);
  }

  lemma SameAddressees(items: seq<WrapItem>, members: seq<Member>)
    requires |items| == |members|
    requires forall i :: 0 <= i < |items| ==>
                           items[i].recipientHandle == members[i].handle && items[i].kid == members[i].kid
    ensures Addressees(items) == AddresseesOf(members)
  {
    forall a | a in Addressees(items)
      ensures a in AddresseesOf(members)
    {
      var w :| w in items && a == Addressee(w.recipientHandle, w.kid);
      var i :| 0 <= i < |items| && items[i] == w;
      assert members[i] in members;
    }
    forall a | a in AddresseesOf(members)
      ensures a in Addressees(items)
    {
      var m :| m in members && a == Addressee(m.handle, m.kid);
      var i :| 0 <= i < |members| && members[i] == m;
      assert items[i] in items;
    }
  }

  // ---- resolving --------------------------------------------------------------------------

  ghost predicate IsMember(members: seq<Member>, handle: string) {
    exists i :: 0 <= i < |members| && members[i].handle == handle
  }

  lemma {:induction false} FoundMember(members: seq<Member>, handle: string)
    ensures FindMember(members, handle).Some? <==> IsMember(members, handle)
    ensures FindMember(members, handle).Some? ==>
              FindMember(members, handle).value in members && FindMember(members, handle).value.handle == handle
  {
    if members != [] {
      FoundMember(members[1..], handle);
      if IsMember(members, handle) && members[0].handle != handle {
        var i :| 0 <= i < |members| && members[i].handle == handle;
        assert members[1..][i - 1] == members[i];
      }
      if IsMember(members[1..], handle) {
        var i :| 0 <= i < |members[1..]| && members[1..][i].handle == handle;
        assert members[i + 1] == members[1..][i];
      }
    }
  }

  /** The only reason there is for a resolution to fail. */
  lemma {:induction false} UnresolvedIsUnknown(members: seq<Member>, handles: seq<string>, n: nat)
    requires n <= |handles| && ResolveFirst(members, handles, n).Err?
    ensures ResolveFirst(members, handles, n) == Err(MemberNotFound)
  {
    if ResolveFirst(members, handles, n - 1).Err? {
      UnresolvedIsUnknown(members, handles, n - 1);
    }
  }

  lemma {:induction false} ResolvedFirst(members: seq<Member>, handles: seq<string>, n: nat)
    requires n <= |handles|
    ensures var r := ResolveFirst(members, handles, n);
            && (r.Ok? <==> forall i :: 0 <= i < n ==> IsMember(members, handles[i]))
            && (r.Ok? ==> |r.value| == n
                          && forall i :: 0 <= i < n ==> r.value[i] in members && r.value[i].handle == handles[i])
  {
    if n > 0 {
      ResolvedFirst(members, handles, n - 1);
      FoundMember(members, handles[n - 1]);
    }
  }

  /** Resolution finds every handle that is a member's, and fails on any other. */
  lemma ResolvedExactly(suite: Suite, dir: Directory, members: seq<Member>, handles: seq<string>)
    requires GoodMembers(suite, dir, members) && DistinctMembers(members) && NoRepeats(handles)
    ensures var r := ResolveSnapshot(members, handles);
            && (r.Ok? <==> forall h :: h in handles ==> IsMember(members, h))
            && (r.Ok? ==> |r.value| == |handles| && GoodMembers(suite, dir, r.value) && DistinctMembers(r.value)
                          && AddresseesOf(r.value) == Among(members, handles))
  {
    ResolvedFirst(members, handles, |handles|);
    var r := ResolveSnapshot(members, handles);
    if r.Ok? {
      var found := r.value;
      forall i | 0 <= i < |found|
        ensures GoodMember(suite, dir, found[i])
      {
        var j :| 0 <= j < |members| && members[j] == found[i];
      }
      ResolvedAddressees(members, handles, found);
    }
  }

  lemma ResolvedHandles(members: seq<Member>, handles: seq<string>)
    ensures ResolveSnapshot(members, handles).Ok? ==>
              MemberHandles(ResolveSnapshot(members, handles).value) == handles
  {
    ResolvedFirst(members, handles, |handles|);
  }

  lemma ResolvedAddressees(members: seq<Member>, handles: seq<string>, found: seq<Member>)
    requires DistinctMembers(members) && |found| == |handles|
    requires forall i :: 0 <= i < |found| ==> found[i] in members && found[i].handle == handles[i]
    ensures AddresseesOf(found) == Among(members, handles)
  {
    forall a | a in Among(members, handles)
      ensures a in AddresseesOf(found)
    {
      var m :| m in members && a == Addressee(m.handle, m.kid);
      var i :| 0 <= i < |handles| && handles[i] == m.handle;
      assert found[i] in members && found[i] == m;
    }
  }

  lemma {:induction false} NotAmongIs(members: seq<Member>, current: seq<string>)
    ensures forall m :: m in NotAmong(members, current) <==> m in members && m.handle !in current
    ensures DistinctMembers(members) ==> DistinctMembers(NotAmong(members, current))
  {
    if members == [] {
    } else {
      var init, last := members[..|members| - 1], members[|members| - 1];
      NotAmongIs(init, current);
      assert members == init + [last];
      var kept := NotAmong(init, current);
      forall i | 0 <= i < |kept|
        ensures kept[i] in init
      {
        assert kept[i] in kept;
      }
    }
  }

  /** Of the resolved members, those that are new: good, distinct, and none of the current ones. */
  lemma NewMembers(suite: Suite, dir: Directory, members: seq<Member>, current: seq<string>)
    requires GoodMembers(suite, dir, members) && DistinctMembers(members)
    ensures var added := NotAmong(members, current);
            GoodMembers(suite, dir, added) && DistinctMembers(added)
            && AddresseesOf(added) == set a | a in AddresseesOf(members) && a.handle !in current
  {
    NotAmongIs(members, current);
    var added := NotAmong(members, current);
    forall i | 0 <= i < |added|
      ensures GoodMember(suite, dir, added[i])
    {
      assert added[i] in added;
      var j :| 0 <= j < |members| && members[j] == added[i];
    }
  }

  // ---- the three ways a wrap list changes -----------------------------------------------

  /** Those of the recipients that have no wrap yet. */
  ghost function Fresh(members: seq<Member>, recipients: seq<string>, items: seq<WrapItem>): set<Addressee> {
    set a | a in Among(members, recipients) && a.handle !in HandlesOf(items)
  }

  /** The wraps there are and those to be added are not too many together. */
  ghost predicate HasRoom(members: seq<Member>, recipients: seq<string>, items: seq<WrapItem>) {
    |items| + |Fresh(members, recipients, items)| <= MAX_WRAP_ITEMS
  }

  ghost predicate AllMembers(members: seq<Member>, handles: seq<string>) {
    forall h :: h in handles ==> IsMember(members, h)
  }

  lemma HandlesAre(items: seq<WrapItem>, a: Addressee)
    requires a in Addressees(items)
    ensures a.handle in HandlesOf(items)
  {
    var w :| w in items && a == Addressee(w.recipientHandle, w.kid);
    var i :| 0 <= i < |items| && items[i] == w;
    assert HandlesOf(items)[i] == a.handle;
  }

  /** Adding: new wraps for those that have none, beside the old ones. */
  lemma AddedExactly(suite: Suite, dir: Directory, members: seq<Member>, items: seq<WrapItem>,
                     recipients: seq<string>, drawn: nat, sid: Uuid, format: WrapFormat, masterKey: Key)
    requires Ideal(suite) && VerifiedMembers(suite, dir, members) && NoRepeats(recipients)
    requires SoundWraps(suite, dir, items, sid, format, masterKey)
    ensures var resolved := ResolveSnapshot(members, recipients);
            && (resolved.Ok? <==> AllMembers(members, recipients))
            && (resolved.Ok? ==>
                  var added := NotAmong(resolved.value, HandlesOf(items));
                  var built := BuildEach(suite, drawn, added, sid, masterKey, format);
                  |added| == |Fresh(members, recipients, items)| && built.Ok?
                  && SoundWraps(suite, dir, items + built.value, sid, format, masterKey)
                  && Addressees(items + built.value) == Addressees(items) + Fresh(members, recipients, items))
  {
    ResolvedExactly(suite, dir, members, recipients);
    var resolved := ResolveSnapshot(members, recipients);
    if resolved.Ok? {
      NewMembers(suite, dir, resolved.value, HandlesOf(items));
      var added := NotAmong(resolved.value, HandlesOf(items));
      assert AddresseesOf(added) == Fresh(members, recipients, items);
      MembersCount(added);
      BuiltEach(suite, dir, drawn, added, sid, masterKey, format);
      var built := BuildEach(suite, drawn, added, sid, masterKey, format).value;
      BuiltSound(suite, dir, built, added, sid, format, masterKey);
      forall x, y | x in Addressees(items) && y in Addressees(built)
        ensures x.handle != y.handle
      {
        HandlesAre(items, x);
      }
      JoinSound(suite, dir, items, built, sid, format, masterKey);
    }
  }

  /** Refreshing: the wraps of these recipients are made anew, the others stay. */
  lemma ReplacedExactly(suite: Suite, dir: Directory, members: seq<Member>, items: seq<WrapItem>,
                        recipients: seq<string>, drawn: nat, sid: Uuid, format: WrapFormat, masterKey: Key)
    requires Ideal(suite) && VerifiedMembers(suite, dir, members) && NoRepeats(recipients)
    requires SoundWraps(suite, dir, items, sid, format, masterKey)
    ensures var resolved := ResolveSnapshot(members, recipients);
            && (resolved.Ok? <==> AllMembers(members, recipients))
            && (resolved.Ok? ==>
                  var built := BuildEach(suite, drawn, resolved.value, sid, masterKey, format);
                  built.Ok?
                  && var replaced := Without(items, recipients) + built.value;
                     SoundWraps(suite, dir, replaced, sid, format, masterKey)
                     && Addressees(replaced)
                        == (set a | a in Addressees(items) && a.handle !in recipients) + Among(members, recipients))
  {
    ResolvedExactly(suite, dir, members, recipients);
    var resolved := ResolveSnapshot(members, recipients);
    if resolved.Ok? {
      BuiltEach(suite, dir, drawn, resolved.value, sid, masterKey, format);
      var built := BuildEach(suite, drawn, resolved.value, sid, masterKey, format).value;
      BuiltSound(suite, dir, built, resolved.value, sid, format, masterKey);
      WithoutSound(suite, dir, items, recipients, sid, format, masterKey);
      JoinSound(suite, dir, Without(items, recipients), built, sid, format, masterKey);
    }
  }

  /** Wrapping another key: the same recipients, each under its member's key id. */
  lemma RewrappedExactly(suite: Suite, dir: Directory, members: seq<Member>, handles: seq<string>, drawn: nat,
                         sid: Uuid, format: WrapFormat, masterKey: Key)
    requires Ideal(suite) && VerifiedMembers(suite, dir, members) && NoRepeats(handles)
    ensures var resolved := ResolveSnapshot(members, handles);
            && (resolved.Ok? <==> AllMembers(members, handles))
            && (resolved.Ok? ==>
                  |resolved.value| == |handles|
                  && var built := BuildEach(suite, drawn, resolved.value, sid, masterKey, format);
                     built.Ok? && |built.value| == |handles|
                     && SoundWraps(suite, dir, built.value, sid, format, masterKey)
                     && Addressees(built.value) == Among(members, handles))
  {
    ResolvedExactly(suite, dir, members, handles);
    var resolved := ResolveSnapshot(members, handles);
    if resolved.Ok? {
      BuiltEach(suite, dir, drawn, resolved.value, sid, masterKey, format);
      var built := BuildEach(suite, drawn, resolved.value, sid, masterKey, format).value;
      BuiltSound(suite, dir, built, resolved.value, sid, format, masterKey);
    }
  }

  // ---- which wraps stand where ------------------------------------------------------------

  lemma {:induction false} HandlesNotAmong(members: seq<Member>, current: seq<string>)
    ensures MemberHandles(NotAmong(members, current)) == Minus(MemberHandles(members), current)
  {
    if members == [] {
    } else {
      var init, last := members[..|members| - 1], members[|members| - 1];
      HandlesNotAmong(init, current);
      assert MemberHandles(members)[..|members| - 1] == MemberHandles(init);
      assert MemberHandles(NotAmong(init, current) + [last]) == MemberHandles(NotAmong(init, current)) + [last.handle];
    }
  }

  lemma {:induction false} HandlesWithout(items: seq<WrapItem>, handles: seq<string>)
    ensures HandlesOf(Without(items, handles)) == Minus(HandlesOf(items), handles)
  {
    if items == [] {
    } else {
      var init, last := items[..|items| - 1], items[|items| - 1];
      HandlesWithout(init, handles);
      assert HandlesOf(items)[..|items| - 1] == HandlesOf(init);
      assert HandlesOf(Without(init, handles) + [last]) == HandlesOf(Without(init, handles)) + [last.recipientHandle];
    }
  }

  /** Adding puts the new ones at the end, in the order they were asked for. */
  lemma AddedInOrder(suite: Suite, members: seq<Member>, items: seq<WrapItem>, recipients: seq<string>, drawn: nat,
                     sid: Uuid, format: WrapFormat, masterKey: Key, built: seq<WrapItem>)
    requires ResolveSnapshot(members, recipients).Ok?
    requires BuildEach(suite, drawn, NotAmong(ResolveSnapshot(members, recipients).value, HandlesOf(items)), sid,
                       masterKey, format) == Ok(built)
    ensures Appends(suite, items, items + built, Minus(recipients, HandlesOf(items)), sid, format, masterKey, drawn)
  {
    var resolved := ResolveSnapshot(members, recipients).value;
    ResolvedHandles(members, recipients);
    HandlesNotAmong(resolved, HandlesOf(items));
    AppendedInOrder(suite, items, drawn, NotAmong(resolved, HandlesOf(items)), sid, masterKey, format, built);
  }

  /** Replacing moves the recipients to the end, in the order they were asked for; wrapping anew keeps the order. */
  lemma ReplacedInOrder(suite: Suite, members: seq<Member>, kept: seq<WrapItem>, recipients: seq<string>, drawn: nat,
                        sid: Uuid, format: WrapFormat, masterKey: Key, built: seq<WrapItem>)
    requires ResolveSnapshot(members, recipients).Ok?
    requires BuildEach(suite, drawn, ResolveSnapshot(members, recipients).value, sid, masterKey, format) == Ok(built)
    ensures Appends(suite, kept, kept + built, recipients, sid, format, masterKey, drawn)
  {
    ResolvedHandles(members, recipients);
    AppendedInOrder(suite, kept, drawn, ResolveSnapshot(members, recipients).value, sid, masterKey, format, built);
  }
}
