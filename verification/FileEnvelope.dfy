/** Encrypting a file to its recipients, and decrypting it as one of them. */
module FileEnvelope {
  import opened Wrappers
  import opened Bits
  import opened Wire
  import opened Primitives
  import opened Envelope
  import Ordering

  // ---- decryption -------------------------------------------------------------------

  function CheckFileFormat(protected: FileProtected): Checked {
    if protected.format != FileEncV1 then Err(InvalidFormat)
    else if protected.payload.header.format != FilePayloadV1 then Err(InvalidFormat)
    else if protected.payload.header.aead != XChaCha20Poly1305 then Err(UnsupportedAlgorithm)
    else if protected.payload.header.sid != protected.sid then Err(SidMismatch)
    else Ok(())
  }

  function CheckFilePossession(suite: Suite, doc: FileDocument, masterKey: Key): Checked {
    CheckPossession(suite, FileBody(doc.protected), FileMacKey(suite, masterKey, doc.protected.sid), doc.signature)
  }

  /** The master key, once the document is shown to have been written by somebody who held it. */
  function OpenFileKey(suite: Suite, doc: FileDocument, handle: string, keys: KeyContext): Result<Key, EnvelopeError> {
    var masterKey :- UnwrapWithContext(suite, doc.protected.wrap, doc.protected.sid, handle, keys, File);
    var _ :- CheckFilePossession(suite, doc, masterKey);
    Ok(masterKey)
  }

  function DecryptFile(suite: Suite, doc: FileDocument, handle: string, keys: KeyContext)
    : Result<Bytes, EnvelopeError>
  {
    var _ :- CheckFileFormat(doc.protected);
    var masterKey :- OpenFileKey(suite, doc, handle, keys);
    DecryptPayload(suite, doc.protected.payload, FileContentKey(suite, masterKey, doc.protected.sid))
  }

  // ---- encryption -------------------------------------------------------------------

  function HandleOf(): Member -> string {
    (m: Member) => m.handle
  }

  /** The members by handle, and of those with one handle the first that was given. */
  function Ordered(members: seq<Member>): seq<Member> {
    Ordering.DedupedBy(HandleOf(), Ordering.SortedBy(HandleOf(), members))
  }

  function CheckRecipients(handles: seq<string>, members: seq<Member>): Checked {
    if handles == MemberHandles(members) then Ok(()) else Err(RecipientMismatch)
  }

  function SignFile(suite: Suite, protected: FileProtected, masterKey: Key, signerKid: string): FileDocument {
    FileDocument(protected,
                 ProvePossession(suite, FileBody(protected), FileMacKey(suite, masterKey, protected.sid), signerKid))
  }

  /** Draws: the document id, the master key, the payload nonce, then one for each wrap. */
  function EncryptFileDocument(suite: Suite, entropy: Entropy, content: Bytes, handles: seq<string>,
                               members: seq<Member>, signerKid: string, now: string)
    : Result<FileDocument, EnvelopeError>
  {
    var _ :- CheckRecipients(handles, members);
    var sid, masterKey := entropy.uuids(0), entropy.keys(1);
    var header := PayloadHeader(FilePayloadV1, sid, XChaCha20Poly1305);
    var key := FileContentKey(suite, masterKey, sid);
    var payload := FilePayload(header, EncryptPayload(suite, content, key, header, entropy.nonces(2)));
    var wrap :- BuildWraps(suite, 3, members, sid, masterKey, File);
    Ok(SignFile(suite, FileProtected(FileEncV1, sid, wrap, None, payload, now, now), masterKey, signerKid))
  }

  function EncryptFile(suite: Suite, entropy: Entropy, content: Bytes, members: seq<Member>, signerKid: string,
                       now: string): Result<FileDocument, EnvelopeError>
  {
    EncryptFileDocument(suite, entropy, content, MemberHandles(Ordered(members)), Ordered(members), signerKid, now)
  }
}

/** A file decrypts to what was encrypted, for its recipients and for nobody else. */
module FileEnvelopeProofs {
  import opened Limits
  import opened Wrappers
  import opened Bits
  import opened Codec
  import opened Wire
  import opened Primitives
  import opened Envelope
  import opened EnvelopeProofs
  import opened FileEnvelope
  import Ordering
  import Seqs

  // ---- the payload --------------------------------------------------------------------

  /** The ciphertext limit is the plaintext limit. */
  lemma CiphertextFitsExactly(n: nat)
    ensures EncodedLen(n + AEAD_TAG_LENGTH) <= MAX_BASE64_CIPHERTEXT_LENGTH <==> n <= MAX_PLAINTEXT_INPUT_SIZE
  {
    var m := n + AEAD_TAG_LENGTH;
    assert m == m / 3 * 3 + m % 3;
  }

  /** Encrypted text under a key decrypts to its plaintext, unless it is too long to be read at all. */
  lemma DecryptUndoesEncrypt(suite: Suite, key: Key, nonce: Nonce, aad: Context, plaintext: Bytes)
    requires Ideal(suite)
    ensures Decrypt(suite, key, suite.texts.encode(nonce),
                    suite.texts.encode(suite.encrypt(key, nonce, aad, plaintext)), aad)
         == if |plaintext| <= MAX_PLAINTEXT_INPUT_SIZE then Ok(plaintext) else Err(BadBase64(TooLong))
  {
    var ct := suite.encrypt(key, nonce, aad, plaintext);
    assert EncryptsAndDecrypts(suite, key, nonce, aad, plaintext);
    assert RoundTrips(suite.texts, nonce) && RoundTrips(suite.texts, ct);
    CiphertextFitsExactly(|plaintext|);
  }

  ghost predicate PayloadHolds(suite: Suite, payload: FilePayload, key: Key, content: Bytes) {
    exists nonce: Nonce :: payload.encrypted == EncryptPayload(suite, content, key, payload.header, nonce)
  }

  lemma PayloadDecrypts(suite: Suite, payload: FilePayload, key: Key, content: Bytes)
    requires Ideal(suite) && PayloadHolds(suite, payload, key, content)
    ensures DecryptPayload(suite, payload, key)
         == if |content| <= MAX_PLAINTEXT_INPUT_SIZE then Ok(content) else Err(BadBase64(TooLong))
  {
    var nonce: Nonce :| payload.encrypted == EncryptPayload(suite, content, key, payload.header, nonce);
    DecryptUndoesEncrypt(suite, key, nonce, HeaderContext(payload.header), content);
  }

  // ---- sound documents ---------------------------------------------------------------

  /** Every stored wrap opens to the master key, and the payload is the content under it. */
  ghost predicate SoundFile(suite: Suite, dir: Directory, protected: FileProtected, masterKey: Key, content: Bytes) {
    CheckFileFormat(protected) == Ok(())
    && CheckWrapItems(suite.texts, protected.wrap) == Ok(())
    && AllDeliver(suite, dir, protected.wrap, protected.sid, File, masterKey)
    && PayloadHolds(suite, protected.payload, FileContentKey(suite, masterKey, protected.sid), content)
  }

  ghost predicate SoundDocument(suite: Suite, dir: Directory, doc: FileDocument, masterKey: Key, content: Bytes) {
    SoundFile(suite, dir, doc.protected, masterKey, content) && CheckFilePossession(suite, doc, masterKey) == Ok(())
  }

  lemma KeyOpensExactly(suite: Suite, dir: Directory, doc: FileDocument, masterKey: Key, content: Bytes,
                        handle: string, keys: KeyContext)
    requires Ideal(suite) && SoundDocument(suite, dir, doc, masterKey, content) && KeysMatch(suite, dir, keys)
    ensures OpenFileKey(suite, doc, handle, keys).ToOption()
         == if Admits(doc.protected.wrap, handle, keys) then Some(masterKey) else None
  {
    OpensExactly(suite, dir, doc.protected.wrap, doc.protected.sid, File, masterKey, handle, keys);
  }

  /** Decryption of a sound document succeeds exactly for those it admits, with the content. */
  lemma DecryptsExactly(suite: Suite, dir: Directory, doc: FileDocument, masterKey: Key, content: Bytes,
                        handle: string, keys: KeyContext)
    requires Ideal(suite) && SoundDocument(suite, dir, doc, masterKey, content) && KeysMatch(suite, dir, keys)
    ensures DecryptFile(suite, doc, handle, keys).ToOption()
         == if Admits(doc.protected.wrap, handle, keys) && |content| <= MAX_PLAINTEXT_INPUT_SIZE then Some(content)
            else None
  {
    KeyOpensExactly(suite, dir, doc, masterKey, content, handle, keys);
    PayloadDecrypts(suite, doc.protected.payload, FileContentKey(suite, masterKey, doc.protected.sid), content);
  }

  // ---- any document, sound or not ------------------------------------------------------

  /** The tag is the one of this body and signer under the document's own key. */
  ghost predicate IsTagged(suite: Suite, doc: FileDocument, masterKey: Key) {
    doc.signature.mac == suite.tag(FileMacKey(suite, masterKey, doc.protected.sid), FileBody(doc.protected),
                                   doc.signature.kid)
  }

  /** A master key comes out of a document exactly when a wrap yields it and the tag is right under it. */
  lemma OpensOnlyTagged(suite: Suite, doc: FileDocument, handle: string, keys: KeyContext, masterKey: Key)
    requires UnwrapWithContext(suite, doc.protected.wrap, doc.protected.sid, handle, keys, File) == Ok(masterKey)
    ensures OpenFileKey(suite, doc, handle, keys)
         == if IsTagged(suite, doc, masterKey) then Ok(masterKey) else Err(KeyPossessionInvalid)
  {
  }

  /** The two format names, the algorithm and the document id of the payload are those of this format. */
  ghost predicate IsFileFormat(p: FileProtected) {
    Spelled(p.format) == "kapsaro:format:file-enc@1"
    && Spelled(p.payload.header.format) == "kapsaro:format:file-enc:payload@1"
    && Spelled(p.payload.header.aead) == "xchacha20-poly1305" && p.payload.header.sid == p.sid
    && !p.format.Other? && !p.payload.header.format.Other? && !p.payload.header.aead.Other?
  }

  lemma FormatPassesExactly(p: FileProtected)
    ensures CheckFileFormat(p) == Ok(()) <==> IsFileFormat(p)
    ensures CheckFileFormat(p) == Err(InvalidFormat)
       <==> p.format != FileEncV1 || p.payload.header.format != FilePayloadV1
    ensures CheckFileFormat(p) == Err(SidMismatch)
       <==> p.format == FileEncV1 && p.payload.header.format == FilePayloadV1
            && p.payload.header.aead == XChaCha20Poly1305 && p.payload.header.sid != p.sid
  {
    NamesAreSpelledApart(Spelled(p.format), FileEncV1);
    NamesAreSpelledApart(Spelled(p.payload.header.format), FilePayloadV1);
    NamesAreSpelledApart(Spelled(p.payload.header.aead), XChaCha20Poly1305);
  }

  /** The nonce and the ciphertext decode, and the ciphertext opens to the content bound to its header. */
  ghost predicate PayloadOpens(suite: Suite, payload: FilePayload, key: Key, content: Bytes) {
    Array(suite.texts, payload.encrypted.nonce, 24).Ok? && Ciphertext(suite.texts, payload.encrypted.ct).Ok?
    && suite.decrypt(key, Array(suite.texts, payload.encrypted.nonce, 24).value, HeaderContext(payload.header),
                     Ciphertext(suite.texts, payload.encrypted.ct).value) == Some(content)
  }

  ghost predicate OpensFile(suite: Suite, doc: FileDocument, handle: string, keys: KeyContext, masterKey: Key,
                            content: Bytes)
  {
    UnwrapWithContext(suite, doc.protected.wrap, doc.protected.sid, handle, keys, File) == Ok(masterKey)
    && IsTagged(suite, doc, masterKey)
    && PayloadOpens(suite, doc.protected.payload, FileContentKey(suite, masterKey, doc.protected.sid), content)
  }

  /**
   * Whatever the document: content comes out of it exactly when the format is this one,
   * a wrap yields a master key, the tag proves that the writer had it, and the payload
   * opens under the key derived from it.
   */
  lemma FileDecryptsOnlyIf(suite: Suite, doc: FileDocument, handle: string, keys: KeyContext, content: Bytes)
    ensures DecryptFile(suite, doc, handle, keys) == Ok(content)
       <==> IsFileFormat(doc.protected)
            && exists masterKey: Key :: OpensFile(suite, doc, handle, keys, masterKey, content)
  {
    FormatPassesExactly(doc.protected);
    var unwrapped := UnwrapWithContext(suite, doc.protected.wrap, doc.protected.sid, handle, keys, File);
    if unwrapped.Ok? {
      OpensOnlyTagged(suite, doc, handle, keys, unwrapped.value);
      if DecryptFile(suite, doc, handle, keys) == Ok(content) {
        assert OpensFile(suite, doc, handle, keys, unwrapped.value, content);
      }
    }
  }

  /**
   * A body, or a signer, put in the place of a sound document's own is refused for
   * everybody it admits, if the tag tells the two apart.
   */
  lemma TamperedFileIsRefused(suite: Suite, dir: Directory, doc: FileDocument, masterKey: Key, content: Bytes,
                              tampered: FileProtected, signerKid: string, handle: string, keys: KeyContext)
    requires Ideal(suite) && SoundDocument(suite, dir, doc, masterKey, content) && KeysMatch(suite, dir, keys)
    requires tampered.sid == doc.protected.sid && tampered.wrap == doc.protected.wrap
    requires suite.tag(FileMacKey(suite, masterKey, tampered.sid), FileBody(tampered), signerKid)
          != suite.tag(FileMacKey(suite, masterKey, tampered.sid), FileBody(doc.protected), doc.signature.kid)
    ensures var forged := FileDocument(tampered, Signature(signerKid, doc.signature.mac));
            DecryptFile(suite, forged, handle, keys).Err?
            && (Admits(doc.protected.wrap, handle, keys) && IsFileFormat(tampered) ==>
                  DecryptFile(suite, forged, handle, keys) == Err(KeyPossessionInvalid))
  {
    FormatPassesExactly(tampered);
    OpensExactly(suite, dir, doc.protected.wrap, doc.protected.sid, File, masterKey, handle, keys);
    if Admits(doc.protected.wrap, handle, keys) {
      OpensOnlyTagged(suite, FileDocument(tampered, Signature(signerKid, doc.signature.mac)), handle, keys, masterKey);
    }
  }

  // ---- encrypting ---------------------------------------------------------------------

  lemma OrderedIsDistinct(members: seq<Member>)
    ensures DistinctMembers(Ordered(members))
  {
    Ordering.OneOfEachInOrder(HandleOf(), members, "");
    Ordering.StrictHasNoRepeats(HandleOf(), Ordered(members));
    forall i, j | 0 <= i < j < |Ordered(members)|
      ensures Ordered(members)[i].handle != Ordered(members)[j].handle
    {
      assert HandleOf()(Ordered(members)[i]) != HandleOf()(Ordered(members)[j]);
    }
  }

  /** The member an encryption uses for a handle: the first one given under it. */
  ghost predicate FirstGiven(members: seq<Member>, i: int, handle: string) {
    0 <= i < |members| && members[i].handle == handle && forall j :: 0 <= j < i ==> members[j].handle != handle
  }

  lemma OrderedExactly(members: seq<Member>, member: Member)
    ensures member in Ordered(members) <==> exists i :: FirstGiven(members, i, member.handle) && members[i] == member
  {
    Ordering.KeptExactlyFirst(HandleOf(), members, member);
    assert HandleOf()(member) == member.handle;
    forall i
      ensures Ordering.IsFirst(HandleOf(), members, member.handle, i) <==> FirstGiven(members, i, member.handle)
    {
      assert forall j :: 0 <= j < |members| ==> HandleOf()(members[j]) == members[j].handle;
    }
  }

  /** The id, the key, the payload nonce and every wrap have a draw of their own, and the wraps stand in order. */
  ghost predicate TakesDraws(suite: Suite, entropy: Entropy, p: FileProtected, handles: seq<string>) {
    p.sid == entropy.uuids(0) && p.payload.encrypted.nonce == suite.texts.encode(entropy.nonces(2))
    && Appends(suite, [], p.wrap, handles, p.sid, File, entropy.keys(1), 3)
  }

  /** The handles must be those of the members, one by one; nothing is encrypted for anybody else. */
  lemma OtherHandlesAreRefused(suite: Suite, entropy: Entropy, content: Bytes, handles: seq<string>,
                               members: seq<Member>, signerKid: string, now: string)
    requires handles != MemberHandles(members)
    ensures EncryptFileDocument(suite, entropy, content, handles, members, signerKid, now) == Err(RecipientMismatch)
  {
  }

  lemma EncryptedDocumentIsSound(suite: Suite, dir: Directory, entropy: Entropy, content: Bytes,
                                 members: seq<Member>, signerKid: string, now: string)
    requires Ideal(suite) && GoodMembers(suite, dir, members) && |members| <= MAX_WRAP_ITEMS
    requires DistinctMembers(members)
    ensures var r := EncryptFileDocument(suite, entropy, content, MemberHandles(members), members, signerKid, now);
            r.Ok? && SoundDocument(suite, dir, r.value, entropy.keys(1), content)
            && WrapsFor(suite, dir, r.value.protected.wrap, members, r.value.protected.sid, File, entropy.keys(1))
            && TakesDraws(suite, entropy, r.value.protected, MemberHandles(members))
  {
    var sid, masterKey := entropy.uuids(0), entropy.keys(1);
    BuiltEach(suite, dir, 3, members, sid, masterKey, File);
    var wrap := BuildEach(suite, 3, members, sid, masterKey, File).value;
    WrapsAreAccepted(suite, dir, wrap, members, sid, File, masterKey);
    var header := PayloadHeader(FilePayloadV1, sid, XChaCha20Poly1305);
    var encrypted := EncryptPayload(suite, content, FileContentKey(suite, masterKey, sid), header, entropy.nonces(2));
    assert PayloadHolds(suite, FilePayload(header, encrypted), FileContentKey(suite, masterKey, sid), content);
    AppendedInOrder(suite, [], 3, members, sid, masterKey, File, wrap);
    assert [] + wrap == wrap;
  }

  lemma OrderedAreGood(suite: Suite, dir: Directory, members: seq<Member>)
    requires GoodMembers(suite, dir, members)
    ensures GoodMembers(suite, dir, Ordered(members))
  {
    var ordered := Ordered(members);
    forall k | 0 <= k < |ordered|
      ensures GoodMember(suite, dir, ordered[k])
    {
      OrderedExactly(members, ordered[k]);
      var i :| FirstGiven(members, i, ordered[k].handle) && members[i] == ordered[k];
    }
  }

  /** A wrap for a handle carries the key id of the member first given under it. */
  lemma NamedExactly(suite: Suite, dir: Directory, items: seq<WrapItem>, members: seq<Member>, sid: Uuid,
                     masterKey: Key, handle: string, keys: KeyContext)
    requires WrapsFor(suite, dir, items, Ordered(members), sid, File, masterKey)
    ensures Admits(items, handle, keys)
       <==> exists i :: FirstGiven(members, i, handle) && Selectable(keys, handle, members[i].kid)
  {
    var ordered := Ordered(members);
    if k :| Names(items, k, handle) && Selectable(keys, handle, items[k].kid) {
      assert ItemFor(suite, dir, items[k], ordered[k], sid, File, masterKey);
      OrderedExactly(members, ordered[k]);
    }
    if i :| FirstGiven(members, i, handle) && Selectable(keys, handle, members[i].kid) {
      OrderedExactly(members, members[i]);
      var k :| 0 <= k < |ordered| && ordered[k] == members[i];
      assert ItemFor(suite, dir, items[k], ordered[k], sid, File, masterKey);
      assert Names(items, k, handle);
    }
  }

  /** The handles that occur among the members. */
  ghost function HandlesGiven(members: seq<Member>): set<string> {
    set m | m in members :: m.handle
  }

  lemma OrderedCount(members: seq<Member>)
    ensures |Ordered(members)| == |HandlesGiven(members)|
  {
    var ordered := Ordered(members);
    var handles := MemberHandles(ordered);
    OrderedIsDistinct(members);
    Seqs.NoRepeatsCount(handles);
    forall h
      ensures h in handles <==> h in HandlesGiven(members)
    {
      if h in handles {
        var k :| 0 <= k < |handles| && handles[k] == h;
        OrderedExactly(members, ordered[k]);
        var i :| FirstGiven(members, i, ordered[k].handle) && members[i] == ordered[k];
        assert members[i] in members;
      }
      if h in HandlesGiven(members) {
        var m :| m in members && m.handle == h;
        var n :| 0 <= n < |members| && members[n] == m;
        var i := FirstOf(members, n);
        OrderedExactly(members, members[i]);
        var k :| 0 <= k < |ordered| && ordered[k] == members[i];
        assert handles[k] == h;
      }
    }
    assert (set h | h in handles) == HandlesGiven(members);
  }

  /** Where the handle of a member was first given. */
  lemma FirstOf(members: seq<Member>, n: nat) returns (i: nat)
    requires n < |members|
    ensures FirstGiven(members, i, members[n].handle)
  {
    i := 0;
    while members[i].handle != members[n].handle
      invariant i <= n && forall j :: 0 <= j < i ==> members[j].handle != members[n].handle
      decreases n - i
    {
      i := i + 1;
    }
  }

  /** A handle has a wrap exactly when it was given, and under the key id of the member first given under it. */
  ghost predicate NamesFirstGiven(items: seq<WrapItem>, members: seq<Member>) {
    forall handle, kid :: NamesUnder(items, handle, kid) <==> GivenFirstUnder(members, handle, kid)
  }

  ghost predicate NamesUnder(items: seq<WrapItem>, handle: string, kid: string) {
    exists i :: Names(items, i, handle) && items[i].kid == kid
  }

  ghost predicate GivenFirstUnder(members: seq<Member>, handle: string, kid: string) {
    exists i :: FirstGiven(members, i, handle) && members[i].kid == kid
  }

  lemma WrapsNameFirstGiven(suite: Suite, dir: Directory, items: seq<WrapItem>, members: seq<Member>, sid: Uuid,
                            masterKey: Key)
    requires WrapsFor(suite, dir, items, Ordered(members), sid, File, masterKey)
    ensures NamesFirstGiven(items, members)
  {
    var ordered := Ordered(members);
    forall handle, kid
      ensures NamesUnder(items, handle, kid) <==> GivenFirstUnder(members, handle, kid)
    {
      if k :| Names(items, k, handle) && items[k].kid == kid {
        assert ItemFor(suite, dir, items[k], ordered[k], sid, File, masterKey);
        OrderedExactly(members, ordered[k]);
      }
      if i :| FirstGiven(members, i, handle) && members[i].kid == kid {
        OrderedExactly(members, members[i]);
        var k :| 0 <= k < |ordered| && ordered[k] == members[i];
        assert ItemFor(suite, dir, items[k], ordered[k], sid, File, masterKey);
        assert Names(items, k, handle);
      }
    }
  }

  /** The wraps stand in the order of their handles, each handle once. */
  ghost predicate InHandleOrder(items: seq<WrapItem>) {
    forall i, j :: 0 <= i < j < |items| ==> Ordering.Less(items[i].recipientHandle, items[j].recipientHandle)
  }

  lemma WrapsInHandleOrder(suite: Suite, dir: Directory, items: seq<WrapItem>, members: seq<Member>, sid: Uuid,
                           masterKey: Key)
    requires WrapsFor(suite, dir, items, Ordered(members), sid, File, masterKey)
    ensures InHandleOrder(items)
  {
    var ordered := Ordered(members);
    Ordering.OneOfEachInOrder(HandleOf(), members, "");
    forall i, j | 0 <= i < j < |items|
      ensures Ordering.Less(items[i].recipientHandle, items[j].recipientHandle)
    {
      assert ItemFor(suite, dir, items[i], ordered[i], sid, File, masterKey);
      assert ItemFor(suite, dir, items[j], ordered[j], sid, File, masterKey);
      assert Ordering.Less(HandleOf()(ordered[i]), HandleOf()(ordered[j]));
    }
  }

  ghost predicate HoldsFirstKey(members: seq<Member>, handle: string, keys: KeyContext) {
    exists i :: FirstGiven(members, i, handle) && Selectable(keys, handle, members[i].kid)
  }

  /**
   * End to end: whatever the content and whichever verified members are given,
   * up to a thousand handles, the file is encrypted; and it decrypts to the
   * content for exactly those who hold the key of a member first given under
   * their handle. Content past the limit encrypts but never decrypts.
   */
  lemma RecipientsRecoverExactly(suite: Suite, dir: Directory, entropy: Entropy, content: Bytes,
                                 members: seq<Member>, signerKid: string, now: string, handle: string,
                                 keys: KeyContext)
    requires Ideal(suite) && GoodMembers(suite, dir, members) && KeysMatch(suite, dir, keys)
    ensures var encrypted := EncryptFile(suite, entropy, content, members, signerKid, now);
            if |HandlesGiven(members)| > MAX_WRAP_ITEMS then encrypted == Err(TooManyWraps)
            else
              encrypted.Ok?
              && DecryptFile(suite, encrypted.value, handle, keys).ToOption()
                 == if |content| <= MAX_PLAINTEXT_INPUT_SIZE && HoldsFirstKey(members, handle, keys)
                    then Some(content) else None
  {
    var ordered := Ordered(members);
    OrderedCount(members);
    if |ordered| <= MAX_WRAP_ITEMS {
      OrderedIsDistinct(members);
      OrderedAreGood(suite, dir, members);
      EncryptedDocumentIsSound(suite, dir, entropy, content, ordered, signerKid, now);
      var doc := EncryptFile(suite, entropy, content, members, signerKid, now).value;
      DecryptsExactly(suite, dir, doc, entropy.keys(1), content, handle, keys);
      NamedExactly(suite, dir, doc.protected.wrap, members, doc.protected.sid, entropy.keys(1), handle, keys);
    }
  }

  /** Exactly the holders of the key of a member first given under their handle recover the content. */
  ghost predicate RecoveredExactly(suite: Suite, dir: Directory, doc: FileDocument, content: Bytes,
                                   members: seq<Member>)
  {
    forall handle, keys :: KeysMatch(suite, dir, keys) ==>
                             DecryptFile(suite, doc, handle, keys).ToOption()
                             == if |content| <= MAX_PLAINTEXT_INPUT_SIZE && HoldsFirstKey(members, handle, keys)
                                then Some(content) else None
  }

  /**
   * Encrypting to verified members: more than a thousand handles are refused;
   * otherwise the document is sound, names each handle given once, in order, under the
   * key id of the member first given under it, and is recovered by exactly those.
   */
  method EncryptFileContent(suite: Suite, entropy: Entropy, content: Bytes, members: seq<Member>, signerKid: string,
                            now: string, ghost dir: Directory) returns (r: Result<FileDocument, EnvelopeError>)
    ensures |HandlesGiven(members)| > MAX_WRAP_ITEMS ==> r == Err(TooManyWraps)
    ensures |HandlesGiven(members)| <= MAX_WRAP_ITEMS && Ideal(suite) && GoodMembers(suite, dir, members) ==>
              r.Ok? && SoundDocument(suite, dir, r.value, entropy.keys(1), content)
              && NamesFirstGiven(r.value.protected.wrap, members) && InHandleOrder(r.value.protected.wrap)
              && RecoveredExactly(suite, dir, r.value, content, members)
              && TakesDraws(suite, entropy, r.value.protected, MemberHandles(Ordered(members)))
    ensures r.Ok? ==> r.value.protected.removedRecipients == None && r.value.signature.kid == signerKid
                      && r.value.protected.createdAt == r.value.protected.updatedAt == now
  {
    var membersOrdered := members;
    membersOrdered := Ordering.SortedBy(HandleOf(), membersOrdered);
    membersOrdered := Ordering.DedupedBy(HandleOf(), membersOrdered);
    var recipientIds := MemberHandles(membersOrdered);
    OrderedCount(members);
    r := EncryptFileDocument(suite, entropy, content, recipientIds, membersOrdered, signerKid, now);
    if Ideal(suite) && GoodMembers(suite, dir, members) && |membersOrdered| <= MAX_WRAP_ITEMS {
      OrderedIsDistinct(members);
      OrderedAreGood(suite, dir, members);
      EncryptedDocumentIsSound(suite, dir, entropy, content, membersOrdered, signerKid, now);
      var protected := r.value.protected;
      WrapsNameFirstGiven(suite, dir, protected.wrap, members, protected.sid, entropy.keys(1));
      WrapsInHandleOrder(suite, dir, protected.wrap, members, protected.sid, entropy.keys(1));
      forall handle, keys | KeysMatch(suite, dir, keys)
        ensures DecryptFile(suite, r.value, handle, keys).ToOption()
             == if |content| <= MAX_PLAINTEXT_INPUT_SIZE && HoldsFirstKey(members, handle, keys)
                then Some(content) else None
      {
        RecipientsRecoverExactly(suite, dir, entropy, content, members, signerKid, now, handle, keys);
      }
    }
  }
}
