/** Wrap items are accepted exactly when well formed, looked up uniquely, and opened by whom they name. */
module EnvelopeProofs {
  import opened Limits
  import opened Wrappers
  import opened Bits
  import opened Codec
  import opened Wire
  import opened Primitives
  import opened Envelope

  // ---- which wrap sets are accepted --------------------------------------------------

  ghost predicate DistinctHandles(items: seq<WrapItem>) {
    forall i, j :: 0 <= i < j < |items| ==> items[i].recipientHandle != items[j].recipientHandle
  }

  ghost predicate AllPass(texts: Texts, items: seq<WrapItem>) {
    forall i :: 0 <= i < |items| ==> CheckWrapItem(texts, items[i]) == Ok(())
  }

  /** A stored item spells its fields in the one way the wire format allows. */
  lemma ItemPassesExactly(texts: Texts, item: WrapItem)
    requires Faithful(texts)
    ensures CheckWrapItem(texts, item) == Ok(()) <==>
            texts.handle(item.recipientHandle) && texts.kid(item.kid).Ok?
            && item.alg == HpkeX25519ChaCha20Poly1305
            && exists enc: Bytes, ct: Bytes ::
              |enc| == 32 && |ct| == 48 && item.enc == texts.encode(enc) && item.ct == texts.encode(ct)
  {
    assert IsStrict(texts, item.enc, 32) && IsStrict(texts, item.ct, 48);
    if CheckWrapItem(texts, item) == Ok(()) {
      var enc, ct := texts.sized(item.enc, 32).value, texts.sized(item.ct, 48).value;
      assert item.enc == texts.encode(enc) && item.ct == texts.encode(ct);
    } else if enc: Bytes, ct: Bytes :| |enc| == 32 && |ct| == 48 && item.enc == texts.encode(enc)
                                      && item.ct == texts.encode(ct) {
      assert RoundTrips(texts, enc) && RoundTrips(texts, ct);
    }
  }

  lemma {:induction false} FirstPassExactly(texts: Texts, items: seq<WrapItem>, n: nat)
    requires n <= |items|
    ensures CheckFirst(texts, items, n) == Ok(()) <==>
            (forall i, j :: 0 <= i < j < n ==> items[i].recipientHandle != items[j].recipientHandle)
            && forall i :: 0 <= i < n ==> CheckWrapItem(texts, items[i]) == Ok(())
  {
    if n > 0 {
      FirstPassExactly(texts, items, n - 1);
    }
  }

  lemma SetAcceptedExactly(texts: Texts, items: seq<WrapItem>)
    ensures CheckWrapItems(texts, items) == Ok(()) <==>
            |items| <= MAX_WRAP_ITEMS && DistinctHandles(items) && AllPass(texts, items)
  {
    FirstPassExactly(texts, items, |items|);
  }

  // ---- the parsed set -------------------------------------------------------------------

  lemma ParsedItem(texts: Texts, item: WrapItem)
    requires Faithful(texts) && CheckWrapItem(texts, item) == Ok(())
    ensures ParseWrap(texts, item).Ok?
    ensures ParseWrap(texts, item).value.recipientHandle == item.recipientHandle
    ensures ParseWrap(texts, item).value.kid == item.kid
  {
    assert KeepsSpelling(texts, item.kid);
  }

  lemma {:induction false} ParsedEach(texts: Texts, items: seq<WrapItem>)
    requires Faithful(texts) && AllPass(texts, items)
    ensures ParseEach(texts, items).Ok? && |ParseEach(texts, items).value| == |items|
    ensures forall i :: 0 <= i < |items| ==>
                          var w := ParseEach(texts, items).value[i];
                          Ok(w) == ParseWrap(texts, items[i])
                          && w.recipientHandle == items[i].recipientHandle && w.kid == items[i].kid
  {
    if items == [] {
    } else {
      ParsedEach(texts, items[..|items| - 1]);
      ParsedItem(texts, items[|items| - 1]);
    }
  }

  lemma {:induction false} FoundIs(wraps: WrapSet, wanted: RecipientWrap -> bool, i: nat)
    requires i < |wraps| && wanted(wraps[i])
    requires forall j :: 0 <= j < |wraps| && wanted(wraps[j]) ==> j == i
    ensures FindWrap(wraps, wanted) == Some(wraps[i])
  {
    if i > 0 {
      assert !wanted(wraps[0]);
      FoundIs(wraps[1..], wanted, i - 1);
    }
  }

  lemma {:induction false} FoundNone(wraps: WrapSet, wanted: RecipientWrap -> bool)
    requires forall j :: 0 <= j < |wraps| ==> !wanted(wraps[j])
    ensures FindWrap(wraps, wanted) == None
  {
    if wraps != [] {
      FoundNone(wraps[1..], wanted);
    }
  }

  lemma {:induction false} FoundSome(wraps: WrapSet, wanted: RecipientWrap -> bool)
    ensures FindWrap(wraps, wanted).Some? <==> exists j :: 0 <= j < |wraps| && wanted(wraps[j])
  {
    if wraps != [] && !wanted(wraps[0]) {
      FoundSome(wraps[1..], wanted);
      assert wraps == [wraps[0]] + wraps[1..];
    }
  }

  ghost predicate Unique(wraps: WrapSet) {
    forall i, j :: 0 <= i < j < |wraps| ==> wraps[i].recipientHandle != wraps[j].recipientHandle
  }

  /** Why there is no wrap for a member under a key id: it is somebody else's, or nobody's. */
  ghost predicate NotTheirs(wraps: WrapSet, kid: string, found: Result<RecipientWrap, EnvelopeError>) {
    found == Err(if exists j :: 0 <= j < |wraps| && wraps[j].kid == kid then WrapOfAnotherMember else NoWrap)
  }

  /** The entry that names a member is the one found for it, under its own key id only. */
  lemma LookupOfMember(wraps: WrapSet, i: nat, kid: string)
    requires Unique(wraps) && i < |wraps|
    ensures SelfWrapKid(wraps, wraps[i].recipientHandle) == Some(wraps[i].kid)
    ensures FindByKidForMember(wraps, wraps[i].kid, wraps[i].recipientHandle) == Ok(wraps[i])
    ensures kid != wraps[i].kid ==> NotTheirs(wraps, kid, FindByKidForMember(wraps, kid, wraps[i].recipientHandle))
  {
    var handle := wraps[i].recipientHandle;
    FoundIs(wraps, (w: RecipientWrap) => w.recipientHandle == handle, i);
    var own := wraps[i].kid;
    FoundIs(wraps, (w: RecipientWrap) => w.kid == own && w.recipientHandle == handle, i);
    if kid != own {
      FoundNone(wraps, (w: RecipientWrap) => w.kid == kid && w.recipientHandle == handle);
      FoundSome(wraps, (w: RecipientWrap) => w.kid == kid);
    }
  }

  lemma LookupOfStranger(wraps: WrapSet, handle: string, kid: string)
    requires forall i :: 0 <= i < |wraps| ==> wraps[i].recipientHandle != handle
    ensures SelfWrapKid(wraps, handle) == None
    ensures NotTheirs(wraps, kid, FindByKidForMember(wraps, kid, handle))
  {
    FoundSome(wraps, (w: RecipientWrap) => w.kid == kid);
    FoundNone(wraps, (w: RecipientWrap) => w.recipientHandle == handle);
    FoundNone(wraps, (w: RecipientWrap) => w.kid == kid && w.recipientHandle == handle);
  }

  // ---- who can open what -------------------------------------------------------------

  /** Every secret with this public key opens the item to the master key. */
  ghost predicate Delivers(suite: Suite, item: WrapItem, pk: Key, sid: Uuid, format: WrapFormat, masterKey: Key) {
    CheckWrapItem(suite.texts, item) == Ok(())
    && forall sk: Key :: suite.publicOf(sk) == pk ==>
         ParseWrap(suite.texts, item).Ok?
         && UnwrapMasterKey(suite, ParseWrap(suite.texts, item).value, sid, sk, format) == Ok(masterKey)
  }

  /** The public key behind each key id; a key id is a digest of the statement that holds the key. */
  type Directory = string -> Key

  ghost predicate AllDeliver(suite: Suite, dir: Directory, items: seq<WrapItem>, sid: Uuid, format: WrapFormat,
                             masterKey: Key)
  {
    forall i :: 0 <= i < |items| ==> Delivers(suite, items[i], dir(items[i].kid), sid, format, masterKey)
  }

  ghost predicate HoldsSecret(suite: Suite, dir: Directory, kid: string, kemD: Text) {
    Array(suite.texts, kemD, 32).Ok? && suite.publicOf(Array(suite.texts, kemD, 32).value) == dir(kid)
  }

  /** Whatever local key is yielded under a key id is the secret of that key id. */
  ghost predicate KeysMatch(suite: Suite, dir: Directory, keys: KeyContext) {
    HoldsSecret(suite, dir, keys.activeKid, keys.activeKemD)
    && forall handle: string, kid: string :: keys.keystore(handle, kid).Loaded? ==>
         HoldsSecret(suite, dir, kid, keys.keystore(handle, kid).kemD)
  }

  /** The key is at hand, and no explicit choice of another one stands in its way. */
  predicate Selectable(keys: KeyContext, handle: string, kid: string) {
    (keys.overrideKid.Some? ==> keys.overrideKid.value == kid)
    && (kid == keys.activeKid || keys.keystore(handle, kid).Loaded?)
  }

  /** The local key under a key id that can be selected. */
  function LocalKey(keys: KeyContext, handle: string, kid: string): Text
    requires Selectable(keys, handle, kid)
  {
    if kid == keys.activeKid then keys.activeKemD else keys.keystore(handle, kid).kemD
  }

  lemma SelectionFor(texts: Texts, keys: KeyContext, wraps: WrapSet, handle: string, kid: string)
    requires texts.handle(handle) && SelfWrapKid(wraps, handle) == Some(kid)
    ensures var selection := SelectLocalKey(texts, keys, wraps, handle);
            if Selectable(keys, handle, kid) then selection == Ok(Selected(kid, LocalKey(keys, handle, kid)))
            else selection.Err? || selection.value.kid != kid
  {
  }

  ghost predicate Names(items: seq<WrapItem>, i: int, handle: string) {
    0 <= i < |items| && items[i].recipientHandle == handle
  }

  /** The document names the handle under a key that can be selected. */
  ghost predicate Admits(items: seq<WrapItem>, handle: string, keys: KeyContext) {
    exists i :: Names(items, i, handle) && Selectable(keys, handle, items[i].kid)
  }

  /** The wrap of the member an item names is located if, and only if, its key can be selected. */
  lemma NamedMemberLocates(texts: Texts, items: seq<WrapItem>, i: nat, keys: KeyContext)
    requires Faithful(texts) && CheckWrapItems(texts, items) == Ok(()) && i < |items|
    ensures var located := LocateWrap(texts, items, items[i].recipientHandle, keys);
            && (located.Ok? <==> Selectable(keys, items[i].recipientHandle, items[i].kid))
            && (located.Ok? ==> Ok(located.value.wrap) == ParseWrap(texts, items[i])
                                && located.value.kemD == LocalKey(keys, items[i].recipientHandle, items[i].kid))
  {
    SetAcceptedExactly(texts, items);
    ParsedEach(texts, items);
    var wraps := ParseEach(texts, items).value;
    var handle, kid := items[i].recipientHandle, items[i].kid;
    assert CheckWrapItem(texts, items[i]) == Ok(());
    assert Ok(wraps[i]) == ParseWrap(texts, items[i]);
    var selection := SelectLocalKey(texts, keys, wraps, handle);
    LookupOfMember(wraps, i, if selection.Ok? then selection.value.kid else kid);
    SelectionFor(texts, keys, wraps, handle, kid);
  }

  /** The member an item names opens it if, and only if, its key can be selected. */
  lemma NamedMemberOpens(suite: Suite, dir: Directory, items: seq<WrapItem>, sid: Uuid, format: WrapFormat,
                         masterKey: Key, i: nat, keys: KeyContext)
    requires Faithful(suite.texts) && CheckWrapItems(suite.texts, items) == Ok(())
    requires AllDeliver(suite, dir, items, sid, format, masterKey) && KeysMatch(suite, dir, keys)
    requires i < |items|
    ensures var r := UnwrapWithContext(suite, items, sid, items[i].recipientHandle, keys, format);
            if Selectable(keys, items[i].recipientHandle, items[i].kid) then r == Ok(masterKey) else r.Err?
  {
    var handle, kid := items[i].recipientHandle, items[i].kid;
    NamedMemberLocates(suite.texts, items, i, keys);
    if Selectable(keys, handle, kid) {
      assert HoldsSecret(suite, dir, kid, LocalKey(keys, handle, kid));
      assert Delivers(suite, items[i], dir(kid), sid, format, masterKey);
    }
  }

  lemma StrangerLocatesNothing(texts: Texts, items: seq<WrapItem>, handle: string, keys: KeyContext)
    requires Faithful(texts)
    requires forall i :: 0 <= i < |items| ==> items[i].recipientHandle != handle
    ensures LocateWrap(texts, items, handle, keys).Err?
  {
    if CheckWrapItems(texts, items) == Ok(()) {
      SetAcceptedExactly(texts, items);
      ParsedEach(texts, items);
      var wraps := ParseEach(texts, items).value;
      forall i | 0 <= i < |wraps| ensures wraps[i].recipientHandle != handle {
        assert wraps[i].recipientHandle == items[i].recipientHandle;
      }
      var selection := SelectLocalKey(texts, keys, wraps, handle);
      LookupOfStranger(wraps, handle, if selection.Ok? then selection.value.kid else "");
    }
  }

  /** Somebody opens a sound wrap set exactly when it names them under a key they can select. */
  lemma OpensExactly(suite: Suite, dir: Directory, items: seq<WrapItem>, sid: Uuid, format: WrapFormat,
                     masterKey: Key, handle: string, keys: KeyContext)
    requires Faithful(suite.texts) && CheckWrapItems(suite.texts, items) == Ok(())
    requires AllDeliver(suite, dir, items, sid, format, masterKey) && KeysMatch(suite, dir, keys)
    ensures var r := UnwrapWithContext(suite, items, sid, handle, keys, format);
            && (r.Ok? <==> Admits(items, handle, keys))
            && (r.Ok? ==> r.value == masterKey)
  {
    SetAcceptedExactly(suite.texts, items);
    if i :| Names(items, i, handle) {
      NamedMemberOpens(suite, dir, items, sid, format, masterKey, i, keys);
      forall j | Names(items, j, handle) ensures j == i {
      }
    } else {
      forall i | 0 <= i < |items| ensures items[i].recipientHandle != handle {
        assert !Names(items, i, handle);
      }
      StrangerLocatesNothing(suite.texts, items, handle, keys);
    }
  }

  // ---- building wrap items -----------------------------------------------------------

  /** A verified recipient: a valid handle, a key id, and the public key of somebody under it. */
  ghost predicate GoodMember(suite: Suite, dir: Directory, member: Member) {
    suite.texts.handle(member.handle) && suite.texts.kid(member.kid).Ok?
    && Array(suite.texts, member.kemX, 32) == Ok(dir(member.kid))
    && exists sk: Key :: suite.publicOf(sk) == dir(member.kid)
  }

  ghost predicate GoodMembers(suite: Suite, dir: Directory, members: seq<Member>) {
    forall i :: 0 <= i < |members| ==> GoodMember(suite, dir, members[i])
  }

  ghost predicate DistinctMembers(members: seq<Member>) {
    forall i, j :: 0 <= i < j < |members| ==> members[i].handle != members[j].handle
  }

  /** Verified recipients, no two of them under one handle. */
  ghost predicate VerifiedMembers(suite: Suite, dir: Directory, members: seq<Member>) {
    GoodMembers(suite, dir, members) && DistinctMembers(members)
  }

  /** The item is addressed to the member under its key id, and opens to the master key. */
  ghost predicate ItemFor(suite: Suite, dir: Directory, item: WrapItem, member: Member, sid: Uuid,
                          format: WrapFormat, masterKey: Key)
  {
    item.recipientHandle == member.handle && item.kid == member.kid
    && Delivers(suite, item, dir(member.kid), sid, format, masterKey)
  }

  /** One item for each of the first `n` members, in order. */
  ghost predicate WrapsForFirst(suite: Suite, dir: Directory, items: seq<WrapItem>, members: seq<Member>, n: nat,
                                sid: Uuid, format: WrapFormat, masterKey: Key)
  {
    |items| == n <= |members|
    && forall i :: 0 <= i < n ==> ItemFor(suite, dir, items[i], members[i], sid, format, masterKey)
  }

  ghost predicate WrapsFor(suite: Suite, dir: Directory, items: seq<WrapItem>, members: seq<Member>, sid: Uuid,
                           format: WrapFormat, masterKey: Key)
  {
    WrapsForFirst(suite, dir, items, members, |members|, sid, format, masterKey)
  }

  lemma SpelledItemPasses(texts: Texts, handle: string, kid: string, enc: Bytes, ct: Bytes)
    requires Faithful(texts) && texts.handle(handle) && texts.kid(kid).Ok? && |enc| == 32 && |ct| == 48
    ensures CheckWrapItem(texts, WrapItem(handle, kid, HpkeX25519ChaCha20Poly1305,
                                          texts.encode(enc), texts.encode(ct))) == Ok(())
  {
    assert RoundTrips(texts, enc) && RoundTrips(texts, ct);
  }

  lemma SealedItem(suite: Suite, dir: Directory, member: Member, sid: Uuid, masterKey: Key, format: WrapFormat,
                   rand: nat)
    requires Ideal(suite) && GoodMember(suite, dir, member)
    ensures var info := WrapInfo(format, sid, member.kid);
            var sealed := suite.seal(dir(member.kid), info, info, masterKey, rand);
            sealed.Some? && |sealed.value.enc| == 32 && |sealed.value.ct| == 48
            && BuildWrapItem(suite, member, sid, masterKey, format, rand)
               == Ok(WrapItem(member.handle, member.kid, HpkeX25519ChaCha20Poly1305,
                              suite.texts.encode(sealed.value.enc), suite.texts.encode(sealed.value.ct)))
  {
    var info := WrapInfo(format, sid, member.kid);
    var sk: Key :| suite.publicOf(sk) == dir(member.kid);
    assert SealsAndOpens(suite, sk, info, info, masterKey, rand);
  }

  lemma BuiltItemPasses(suite: Suite, dir: Directory, member: Member, sid: Uuid, masterKey: Key, format: WrapFormat,
                        rand: nat)
    requires Ideal(suite) && GoodMember(suite, dir, member)
    ensures var r := BuildWrapItem(suite, member, sid, masterKey, format, rand);
            r.Ok? && r.value.recipientHandle == member.handle && r.value.kid == member.kid
            && CheckWrapItem(suite.texts, r.value) == Ok(())
  {
    var info := WrapInfo(format, sid, member.kid);
    SealedItem(suite, dir, member, sid, masterKey, format, rand);
    var sealed := suite.seal(dir(member.kid), info, info, masterKey, rand).value;
    SpelledItemPasses(suite.texts, member.handle, member.kid, sealed.enc, sealed.ct);
  }

  lemma BuiltItemOpens(suite: Suite, dir: Directory, member: Member, sid: Uuid, masterKey: Key, format: WrapFormat,
                       rand: nat, sk: Key)
    requires Ideal(suite) && GoodMember(suite, dir, member) && suite.publicOf(sk) == dir(member.kid)
    requires BuildWrapItem(suite, member, sid, masterKey, format, rand).Ok?
    ensures var parsed := ParseWrap(suite.texts, BuildWrapItem(suite, member, sid, masterKey, format, rand).value);
            parsed.Ok? && UnwrapMasterKey(suite, parsed.value, sid, sk, format) == Ok(masterKey)
  {
    var info := WrapInfo(format, sid, member.kid);
    assert SealsAndOpens(suite, sk, info, info, masterKey, rand);
    BuiltItemPasses(suite, dir, member, sid, masterKey, format, rand);
    ParsedItem(suite.texts, BuildWrapItem(suite, member, sid, masterKey, format, rand).value);
    var sealed := suite.seal(dir(member.kid), info, info, masterKey, rand).value;
    assert RoundTrips(suite.texts, sealed.enc) && RoundTrips(suite.texts, sealed.ct);
  }

  lemma BuiltItemDelivers(suite: Suite, dir: Directory, member: Member, sid: Uuid, masterKey: Key,
                          format: WrapFormat, rand: nat)
    requires Ideal(suite) && GoodMember(suite, dir, member)
    ensures var r := BuildWrapItem(suite, member, sid, masterKey, format, rand);
            r.Ok? && ItemFor(suite, dir, r.value, member, sid, format, masterKey)
  {
    BuiltItemPasses(suite, dir, member, sid, masterKey, format, rand);
    forall sk: Key | suite.publicOf(sk) == dir(member.kid)
      ensures var parsed := ParseWrap(suite.texts, BuildWrapItem(suite, member, sid, masterKey, format, rand).value);
              parsed.Ok? && UnwrapMasterKey(suite, parsed.value, sid, sk, format) == Ok(masterKey)
    {
      BuiltItemOpens(suite, dir, member, sid, masterKey, format, rand, sk);
    }
  }

  lemma OneMore(suite: Suite, dir: Directory, items: seq<WrapItem>, item: WrapItem, members: seq<Member>, n: nat,
                sid: Uuid, format: WrapFormat, masterKey: Key)
    requires 0 < n <= |members| && WrapsForFirst(suite, dir, items, members, n - 1, sid, format, masterKey)
    requires ItemFor(suite, dir, item, members[n - 1], sid, format, masterKey)
    ensures WrapsForFirst(suite, dir, items + [item], members, n, sid, format, masterKey)
  {
  }

  lemma BuildStep(suite: Suite, drawn: nat, members: seq<Member>, n: nat, sid: Uuid, masterKey: Key,
                  format: WrapFormat, earlier: seq<WrapItem>, item: WrapItem)
    requires 0 < n <= |members|
    requires BuildFirst(suite, drawn, members, n - 1, sid, masterKey, format) == Ok(earlier)
    requires BuildWrapItem(suite, members[n - 1], sid, masterKey, format, drawn + n - 1) == Ok(item)
    ensures BuildFirst(suite, drawn, members, n, sid, masterKey, format) == Ok(earlier + [item])
  {
  }

  lemma {:induction false} BuiltFirst(suite: Suite, dir: Directory, drawn: nat,
                                      members: seq<Member>, n: nat, sid: Uuid, masterKey: Key, format: WrapFormat)
    requires Ideal(suite) && GoodMembers(suite, dir, members) && n <= |members|
    ensures var r := BuildFirst(suite, drawn, members, n, sid, masterKey, format);
            r.Ok? && WrapsForFirst(suite, dir, r.value, members, n, sid, format, masterKey)
  {
    if n > 0 {
      BuiltFirst(suite, dir, drawn, members, n - 1, sid, masterKey, format);
      BuiltItemDelivers(suite, dir, members[n - 1], sid, masterKey, format, drawn + n - 1);
      var earlier := BuildFirst(suite, drawn, members, n - 1, sid, masterKey, format).value;
      var item := BuildWrapItem(suite, members[n - 1], sid, masterKey, format, drawn + n - 1).value;
      OneMore(suite, dir, earlier, item, members, n, sid, format, masterKey);
      BuildStep(suite, drawn, members, n, sid, masterKey, format, earlier, item);
    }
  }

  /** A build for verified recipients never fails, and addresses each of them. */
  lemma BuiltEach(suite: Suite, dir: Directory, drawn: nat, members: seq<Member>, sid: Uuid,
                  masterKey: Key, format: WrapFormat)
    requires Ideal(suite) && GoodMembers(suite, dir, members)
    ensures var r := BuildEach(suite, drawn, members, sid, masterKey, format);
            r.Ok? && WrapsFor(suite, dir, r.value, members, sid, format, masterKey)
  {
    BuiltFirst(suite, dir, drawn, members, |members|, sid, masterKey, format);
  }

  lemma WrapsAllDeliver(suite: Suite, dir: Directory, items: seq<WrapItem>, members: seq<Member>, sid: Uuid,
                        format: WrapFormat, masterKey: Key)
    requires WrapsFor(suite, dir, items, members, sid, format, masterKey)
    ensures AllDeliver(suite, dir, items, sid, format, masterKey)
  {
    forall i | 0 <= i < |items|
      ensures Delivers(suite, items[i], dir(items[i].kid), sid, format, masterKey)
    {
      assert ItemFor(suite, dir, items[i], members[i], sid, format, masterKey);
    }
  }

  lemma WrapsAreAccepted(suite: Suite, dir: Directory, items: seq<WrapItem>, members: seq<Member>, sid: Uuid,
                         format: WrapFormat, masterKey: Key)
    requires WrapsFor(suite, dir, items, members, sid, format, masterKey) && |members| <= MAX_WRAP_ITEMS
    requires DistinctMembers(members)
    ensures CheckWrapItems(suite.texts, items) == Ok(())
    ensures AllDeliver(suite, dir, items, sid, format, masterKey)
  {
    WrapsAllDeliver(suite, dir, items, members, sid, format, masterKey);
    forall i, j | 0 <= i < j < |items|
      ensures items[i].recipientHandle != items[j].recipientHandle
    {
      assert ItemFor(suite, dir, items[i], members[i], sid, format, masterKey);
      assert ItemFor(suite, dir, items[j], members[j], sid, format, masterKey);
    }
    forall i | 0 <= i < |items|
      ensures CheckWrapItem(suite.texts, items[i]) == Ok(())
    {
      assert Delivers(suite, items[i], dir(items[i].kid), sid, format, masterKey);
    }
    SetAcceptedExactly(suite.texts, items);
  }

  ghost predicate AdmitsMember(members: seq<Member>, handle: string, keys: KeyContext) {
    exists i :: 0 <= i < |members| && members[i].handle == handle && Selectable(keys, handle, members[i].kid)
  }

  /** Wraps built for members carry their handles, in order. */
  lemma AddressedHandles(suite: Suite, dir: Directory, items: seq<WrapItem>, members: seq<Member>, sid: Uuid,
                         format: WrapFormat, masterKey: Key)
    requires WrapsFor(suite, dir, items, members, sid, format, masterKey)
    ensures HandlesOf(items) == MemberHandles(members)
  {
    forall i | 0 <= i < |items|
      ensures items[i].recipientHandle == members[i].handle
    {
      assert ItemFor(suite, dir, items[i], members[i], sid, format, masterKey);
    }
  }

  /** Wraps built for members admit exactly those whose key can be selected. */
  lemma AdmittedExactly(suite: Suite, dir: Directory, items: seq<WrapItem>, members: seq<Member>, sid: Uuid,
                        format: WrapFormat, masterKey: Key, handle: string, keys: KeyContext)
    requires WrapsFor(suite, dir, items, members, sid, format, masterKey)
    ensures Admits(items, handle, keys) <==> AdmitsMember(members, handle, keys)
  {
    if k :| Names(items, k, handle) && Selectable(keys, handle, items[k].kid) {
      assert ItemFor(suite, dir, items[k], members[k], sid, format, masterKey);
    }
    if i :| 0 <= i < |members| && members[i].handle == handle && Selectable(keys, handle, members[i].kid) {
      assert ItemFor(suite, dir, items[i], members[i], sid, format, masterKey);
      assert Names(items, i, handle);
    }
  }

  // ---- any wrap set, sound or not ------------------------------------------------------

  /** Item `i` is the handle's, its key is at hand as `sk`, and what was sealed for its context is the master key. */
  ghost predicate OpensAt(suite: Suite, items: seq<WrapItem>, sid: Uuid, format: WrapFormat, handle: string,
                          keys: KeyContext, i: int, sk: Key, masterKey: Key)
  {
    Names(items, i, handle) && Selectable(keys, handle, items[i].kid)
    && Array(suite.texts, LocalKey(keys, handle, items[i].kid), 32) == Ok(sk)
    && Array(suite.texts, items[i].enc, 32).Ok? && Array(suite.texts, items[i].ct, 48).Ok?
    && var info := WrapContext(if format.File? then HpkeInfoFileWrapV1 else HpkeInfoKvWrapV1, sid, items[i].kid);
       suite.open(sk, Array(suite.texts, items[i].enc, 32).value, info, info, Array(suite.texts, items[i].ct, 48).value)
       == Some(masterKey)
  }

  lemma OpensAtExactly(suite: Suite, items: seq<WrapItem>, sid: Uuid, format: WrapFormat, handle: string,
                       keys: KeyContext, i: int, masterKey: Key)
    requires Faithful(suite.texts) && CheckWrapItems(suite.texts, items) == Ok(()) && Names(items, i, handle)
    ensures UnwrapWithContext(suite, items, sid, handle, keys, format) == Ok(masterKey)
       <==> exists sk: Key :: OpensAt(suite, items, sid, format, handle, keys, i, sk, masterKey)
  {
    NamedMemberLocates(suite.texts, items, i, keys);
    SetAcceptedExactly(suite.texts, items);
    assert CheckWrapItem(suite.texts, items[i]) == Ok(());
    ParsedItem(suite.texts, items[i]);
    if Selectable(keys, handle, items[i].kid) {
      var local := Array(suite.texts, LocalKey(keys, handle, items[i].kid), 32);
      if local.Ok? && UnwrapWithContext(suite, items, sid, handle, keys, format) == Ok(masterKey) {
        assert OpensAt(suite, items, sid, format, handle, keys, i, local.value, masterKey);
      }
    }
  }

  /**
   * Whatever the document: a master key comes out exactly when every item passes, the
   * handles are distinct and not too many, and the item of this handle opens to it with
   * the handle's own key, in the context of this very document, format and key id.
   */
  lemma UnwrapsExactly(suite: Suite, items: seq<WrapItem>, sid: Uuid, format: WrapFormat, handle: string,
                       keys: KeyContext, masterKey: Key)
    requires Faithful(suite.texts)
    ensures UnwrapWithContext(suite, items, sid, handle, keys, format) == Ok(masterKey)
       <==> |items| <= MAX_WRAP_ITEMS && DistinctHandles(items) && AllPass(suite.texts, items)
            && exists i, sk: Key :: OpensAt(suite, items, sid, format, handle, keys, i, sk, masterKey)
  {
    SetAcceptedExactly(suite.texts, items);
    if CheckWrapItems(suite.texts, items) == Ok(()) {
      if i :| Names(items, i, handle) {
        OpensAtExactly(suite, items, sid, format, handle, keys, i, masterKey);
        forall j | Names(items, j, handle) ensures j == i {
        }
      } else {
        forall i | 0 <= i < |items| ensures items[i].recipientHandle != handle {
          assert !Names(items, i, handle);
        }
        StrangerLocatesNothing(suite.texts, items, handle, keys);
      }
    }
  }

  // ---- which wraps stand where, and which draws they are sealed with ----------------------

  ghost predicate IsSealedWith(suite: Suite, item: WrapItem, sid: Uuid, format: WrapFormat, masterKey: Key, draw: nat) {
    exists member: Member :: BuildWrapItem(suite, member, sid, masterKey, format, draw) == Ok(item)
  }

  /** After `items` there is a new wrap for each of the handles in order, each sealed with a draw of its own. */
  ghost predicate Appends(suite: Suite, items: seq<WrapItem>, after: seq<WrapItem>, handles: seq<string>, sid: Uuid,
                          format: WrapFormat, masterKey: Key, drawn: nat)
  {
    items <= after && HandlesOf(after[|items|..]) == handles
    && forall i :: |items| <= i < |after| ==>
         IsSealedWith(suite, after[i], sid, format, masterKey, drawn + i - |items|)
  }

  lemma {:induction false} BuiltInOrder(suite: Suite, drawn: nat, members: seq<Member>, n: nat, sid: Uuid,
                                        masterKey: Key, format: WrapFormat)
    requires n <= |members| && BuildFirst(suite, drawn, members, n, sid, masterKey, format).Ok?
    ensures var built := BuildFirst(suite, drawn, members, n, sid, masterKey, format).value;
            |built| == n
            && forall i :: 0 <= i < n ==>
                 BuildWrapItem(suite, members[i], sid, masterKey, format, drawn + i) == Ok(built[i])
  {
    if n > 0 {
      BuiltInOrder(suite, drawn, members, n - 1, sid, masterKey, format);
    }
  }

  lemma AppendedInOrder(suite: Suite, items: seq<WrapItem>, drawn: nat, members: seq<Member>, sid: Uuid,
                        masterKey: Key, format: WrapFormat, built: seq<WrapItem>)
    requires BuildEach(suite, drawn, members, sid, masterKey, format) == Ok(built)
    ensures Appends(suite, items, items + built, MemberHandles(members), sid, format, masterKey, drawn)
  {
    BuiltInOrder(suite, drawn, members, |members|, sid, masterKey, format);
    var after := items + built;
    assert after[|items|..] == built;
    forall i | |items| <= i < |after|
      ensures IsSealedWith(suite, after[i], sid, format, masterKey, drawn + i - |items|)
    {
      assert after[i] == built[i - |items|];
    }
  }

  lemma AppendedHandles(suite: Suite, items: seq<WrapItem>, after: seq<WrapItem>, handles: seq<string>, sid: Uuid,
                        format: WrapFormat, masterKey: Key, drawn: nat)
    requires Appends(suite, items, after, handles, sid, format, masterKey, drawn)
    ensures HandlesOf(after) == HandlesOf(items) + handles && |after| == |items| + |handles|
  {
    assert after == items + after[|items|..];
  }
}
