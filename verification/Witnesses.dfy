/** What documents that show something are made of. */
module Witnesses {
  import opened Wrappers
  import opened Codec
  import opened Wire
  import opened Disclosure
  import opened Primitives
  import opened Envelope
  import opened EnvelopeProofs
  import opened WireText
  import opened PartText
  import opened RecipientProofs
  import opened RewrapPlan
  import opened RewrapPlanProofs
  import opened RewrapSteps
  import Handles
  import KidProofs

  // ---- recipients ---------------------------------------------------------------------------

  lemma AmongMembers(members: seq<Member>, operator: Member, keys: KeyContext)
    requires Selectable(keys, operator.handle, operator.kid) && operator in members
    ensures AdmitsMember(members, operator.handle, keys)
  {
    var i :| 0 <= i < |members| && members[i] == operator;
    assert members[i].handle == operator.handle;
  }

  lemma MembersHaveHandles(suite: Suite, dir: Directory, members: seq<Member>)
    requires GoodMembers(suite, dir, members)
    ensures forall h :: h in MemberHandles(members) ==> suite.texts.handle(h)
  {
    forall i | 0 <= i < |members|
      ensures suite.texts.handle(members[i].handle)
    {
      assert GoodMember(suite, dir, members[i]);
    }
  }

  lemma NobodyIsMissing(items: seq<WrapItem>, members: seq<Member>, targets: seq<Member>, options: Options)
    requires DistinctHandles(items) && HandlesOf(items) == MemberHandles(members)
    requires members <= targets && DistinctMembers(targets)
    ensures !Removes(items, targets, options)
  {
    PlanIs(items, targets, options);
    EmptyOrNot(PlanFor(items, targets, options).remove);
    forall h | h in HandlesOf(items)
      ensures IsMember(targets, h)
    {
      var i :| 0 <= i < |members| && MemberHandles(members)[i] == h;
      assert targets[i].handle == h;
    }
  }

  // ---- there are such members, dates and histories ------------------------------------------

  lemma SomeMember(suite: Suite, dir: Directory, key: Key, handle: string) returns (member: Member)
    requires suite == Transparent() && Handles.IsMemberHandle(handle) && forall kid: string :: dir(kid) == key
    ensures member.handle == handle && GoodMember(suite, dir, member)
    ensures HoldsSecret(suite, dir, member.kid, member.kemX)
  {
    member := Member(handle, seq(32, _ => '0'), Encoded(key, UrlSafe));
    WireTextsAreFaithful();
    assert RoundTrips(WireTexts(), key);
    KidProofs.FromCanonicalExactly(member.kid);
    assert suite.publicOf(key) == dir(member.kid);
  }

  lemma SomeMembers(key: Key) returns (suite: Suite, dir: Directory, a: Member, b: Member, keys: KeyContext)
    ensures Ideal(suite) && GoodMember(suite, dir, a) && GoodMember(suite, dir, b) && a.handle != b.handle
    ensures KeysMatch(suite, dir, keys) && Selectable(keys, a.handle, a.kid)
  {
    suite, dir := Transparent(), (kid: string) => key;
    IdealIsSatisfiable();
    a := SomeMember(suite, dir, key, "a");
    b := SomeMember(suite, dir, key, "b");
    keys := KeyContext(a.kid, a.kemX, None, (handle: string, kid: string) => Missing);
  }

  lemma SomeDate() returns (now: string)
    ensures IsTimestamp(now) && |now| <= MODEST_DATE_LENGTH
  {
    now := "2024-01-01T00:00:00Z";
    assert now[19..] == "Z";
  }

  lemma SomeHistory(texts: Texts, member: Member, n: nat, now: string) returns (history: History)
    requires texts.handle(member.handle) && texts.kid(member.kid).Ok?
    requires IsTimestamp(now) && |now| <= MODEST_DATE_LENGTH
    ensures |history| == n && HistoryPasses(texts, Some(history)) && ModestDates(Some(history))
  {
    history := seq(n, _ => RemovedRecipient(member.handle, member.kid, now));
  }
}
