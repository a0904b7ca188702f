/** What wraps, derived keys and ciphertexts are bound to, and that they are worth nothing elsewhere. */
module BindingProofs {
  import opened Limits
  import opened Wrappers
  import opened Bits
  import opened Codec
  import opened Wire
  import opened Primitives
  import opened Envelope
  import opened EnvelopeProofs

  // ---- a wrap moved elsewhere ----------------------------------------------------------------

  /** What was sealed opens in no other context, whatever the secret. */
  ghost predicate SealedFor(suite: Suite, sealed: Sealed, info: Context) {
    forall sk: Key, other: Context, aad: Context ::
      suite.open(sk, sealed.enc, other, aad, sealed.ct).Some? ==> other == info && aad == info
  }

  /** A wrap does not open in another document, for the other format, or under another key id. */
  lemma MovedWrapIsRefused(suite: Suite, dir: Directory, member: Member, sid: Uuid, masterKey: Key,
                           format: WrapFormat, rand: nat, info: Context, otherSid: Uuid, otherFormat: WrapFormat,
                           otherKid: string, sk: Key)
    requires Ideal(suite) && GoodMember(suite, dir, member) && suite.texts.kid(otherKid).Ok?
    requires info == WrapContext(if format.File? then HpkeInfoFileWrapV1 else HpkeInfoKvWrapV1, sid, member.kid)
    requires var sealed := suite.seal(dir(member.kid), info, info, masterKey, rand);
             sealed.Some? && SealedFor(suite, sealed.value, info)
    requires otherSid != sid || otherFormat != format || otherKid != member.kid
    ensures var item := BuildWrapItem(suite, member, sid, masterKey, format, rand).value.(kid := otherKid);
            ParseWrap(suite.texts, item).Ok?
            && UnwrapMasterKey(suite, ParseWrap(suite.texts, item).value, otherSid, sk, otherFormat) == Err(OpenFailed)
  {
    BuiltItemPasses(suite, dir, member, sid, masterKey, format, rand);
    var sealed := suite.seal(dir(member.kid), info, info, masterKey, rand).value;
    assert KeepsSpelling(suite.texts, otherKid) && KeepsSpelling(suite.texts, member.kid);
    assert RoundTrips(suite.texts, sealed.enc) && RoundTrips(suite.texts, sealed.ct);
    var w := BuildWrapItem(suite, member, sid, masterKey, format, rand).value;
    var sk1: Key :| suite.publicOf(sk1) == dir(member.kid);
    assert SealsAndOpens(suite, sk1, info, info, masterKey, rand);
    assert w.enc == suite.texts.encode(sealed.enc) && w.ct == suite.texts.encode(sealed.ct);
  }

  // ---- derived keys --------------------------------------------------------------------------

  /** What a key is derived for. */
  datatype KeyUse =
    | FileContent(masterKey: Key, sid: Uuid)
    | FileMac(masterKey: Key, sid: Uuid)
    | KvMac(masterKey: Key, sid: Uuid)
    | KvEntryKey(masterKey: Key, sid: Uuid, key: string, nonce: Text)

  function DerivedKey(suite: Suite, use: KeyUse): Key {
    match use
    case FileContent(masterKey, sid) => FileContentKey(suite, masterKey, sid)
    case FileMac(masterKey, sid) => FileMacKey(suite, masterKey, sid)
    case KvMac(masterKey, sid) => KvMacKey(suite, masterKey, sid)
    case KvEntryKey(masterKey, sid, key, nonce) => EntryKey(suite, masterKey, sid, key, nonce)
  }

  /** The keys, document ids, entry names and nonces in use: finitely many. */
  datatype Vocabulary = Vocabulary(keys: set<Key>, sids: set<Uuid>, names: set<string>, nonces: set<Text>)

  predicate ContextOver(v: Vocabulary, c: Context) {
    match c
    case SidContext(_, sid) => sid in v.sids
    case CekContext(_, sid, key, nonce) => sid in v.sids && key in v.names && nonce in v.nonces
    case _ => false
  }

  predicate UseOver(v: Vocabulary, use: KeyUse) {
    use.masterKey in v.keys && use.sid in v.sids
    && (use.KvEntryKey? ==> use.key in v.names && use.nonce in v.nonces)
  }

  ghost predicate ExtractsApart(suite: Suite, v: Vocabulary, k: Key, salt: Context, l: Key, other: Context) {
    (k in v.keys && l in v.keys && ContextOver(v, salt) && ContextOver(v, other)
     && suite.extract(k, salt) == suite.extract(l, other)) ==> k == l && salt == other
  }

  ghost predicate ExpandsApart(suite: Suite, v: Vocabulary, p: Key, info: Context, q: Key, other: Context) {
    (ContextOver(v, info) && ContextOver(v, other) && suite.expand(p, info) == suite.expand(q, other)) ==>
      p == q && info == other
  }

  ghost predicate IsExtracted(suite: Suite, v: Vocabulary, p: Key) {
    exists k: Key, salt: Context :: k in v.keys && ContextOver(v, salt) && p == suite.extract(k, salt)
  }

  /** HKDF does not collide on the finitely many inputs there are. */
  ghost predicate TellsApart(suite: Suite, v: Vocabulary) {
    (forall k: Key, salt: Context, l: Key, other: Context :: ExtractsApart(suite, v, k, salt, l, other))
    && forall p: Key, info: Context, q: Key, other: Context ::
         IsExtracted(suite, v, p) && IsExtracted(suite, v, q) ==> ExpandsApart(suite, v, p, info, q, other)
  }

  lemma ExpandedApart(suite: Suite, v: Vocabulary, k: Key, salt: Context, info: Context, l: Key, salt2: Context,
                      info2: Context)
    requires TellsApart(suite, v) && k in v.keys && l in v.keys
    requires ContextOver(v, salt) && ContextOver(v, salt2) && ContextOver(v, info) && ContextOver(v, info2)
    requires suite.expand(suite.extract(k, salt), info) == suite.expand(suite.extract(l, salt2), info2)
    ensures k == l && salt == salt2 && info == info2
  {
    var p, q := suite.extract(k, salt), suite.extract(l, salt2);
    assert IsExtracted(suite, v, p) && IsExtracted(suite, v, q);
    assert ExpandsApart(suite, v, p, info, q, info2);
    assert ExtractsApart(suite, v, k, salt, l, salt2);
  }

  /** No two keys derived for different purposes, documents, master keys, entries or nonces are the same. */
  lemma KeysAreApart(suite: Suite, v: Vocabulary, a: KeyUse, b: KeyUse)
    requires TellsApart(suite, v) && UseOver(v, a) && UseOver(v, b)
    requires DerivedKey(suite, a) == DerivedKey(suite, b)
    ensures a == b
  {
    var (salt, info) := Schedule(a);
    var (salt2, info2) := Schedule(b);
    ExpandedApart(suite, v, a.masterKey, salt, info, b.masterKey, salt2, info2);
  }

  /** The salt and the info of a use. */
  function Schedule(use: KeyUse): (Context, Context) {
    match use
    case FileContent(_, sid) => (SidContext(HkdfSaltFileV1, sid), SidContext(HkdfInfoFileContentKeyV1, sid))
    case FileMac(_, sid) => (SidContext(HkdfSaltFileV1, sid), SidContext(HkdfInfoFileMacKeyV1, sid))
    case KvMac(_, sid) => (SidContext(HkdfSaltKvV1, sid), SidContext(HkdfInfoKvMacKeyV1, sid))
    case KvEntryKey(_, sid, key, nonce) => (SidContext(HkdfSaltKvV1, sid), CekContext(HkdfInfoKvCekV1, sid, key, nonce))
  }

  // ---- ciphertexts moved elsewhere -----------------------------------------------------------

  /** A ciphertext under this nonce opens under one key and in one context only. */
  ghost predicate EncryptedFor(suite: Suite, key: Key, nonce: Nonce, aad: Context, ct: Bytes) {
    forall k: Key, other: Context :: suite.decrypt(k, nonce, other, ct).Some? ==> k == key && other == aad
  }

  lemma MovedCiphertextIsRefused(suite: Suite, key: Key, nonce: Nonce, aad: Context, plaintext: Bytes, k: Key,
                                 other: Context)
    requires Ideal(suite) && |plaintext| + AEAD_TAG_LENGTH <= MAX_BASE64_CIPHERTEXT_LENGTH / 4 * 3
    requires EncryptedFor(suite, key, nonce, aad, suite.encrypt(key, nonce, aad, plaintext)) && other != aad
    ensures var ct := suite.texts.encode(suite.encrypt(key, nonce, aad, plaintext));
            Decrypt(suite, k, suite.texts.encode(nonce), ct, other) == Err(DecryptionFailed)
  {
    var ct := suite.encrypt(key, nonce, aad, plaintext);
    assert EncryptsAndDecrypts(suite, key, nonce, aad, plaintext);
    assert RoundTrips(suite.texts, nonce) && RoundTrips(suite.texts, ct);
    assert |ct| == |ct| / 3 * 3 + |ct| % 3;
  }

  /** An entry's value does not decrypt under another name or in another document. */
  lemma MovedEntryIsRefused(suite: Suite, masterKey: Key, sid: Uuid, key: string, value: Bytes, nonce: Nonce,
                            disclosed: bool, otherMasterKey: Key, otherSid: Uuid, otherKey: string)
    requires Ideal(suite) && |value| + AEAD_TAG_LENGTH <= MAX_BASE64_CIPHERTEXT_LENGTH / 4 * 3
    requires var cek := EntryKey(suite, masterKey, sid, key, suite.texts.encode(nonce));
             var aad := EntryContext(AadKvEntryPayloadV1, sid, key);
             EncryptedFor(suite, cek, nonce, aad, suite.encrypt(cek, nonce, aad, value))
    requires otherSid != sid || otherKey != key
    ensures DecryptEntry(suite, otherMasterKey, otherSid, XChaCha20Poly1305,
                         KvEntry(otherKey, EncryptEntry(suite, masterKey, sid, key, value, nonce, disclosed)))
         == Err(DecryptionFailed)
  {
    var nonceText := suite.texts.encode(nonce);
    MovedCiphertextIsRefused(suite, EntryKey(suite, masterKey, sid, key, nonceText), nonce,
                             EntryContext(AadKvEntryPayloadV1, sid, key), value,
                             EntryKey(suite, otherMasterKey, otherSid, otherKey, nonceText),
                             EntryContext(AadKvEntryPayloadV1, otherSid, otherKey));
  }

  /** A payload does not decrypt under another header. */
  lemma MovedPayloadIsRefused(suite: Suite, content: Bytes, key: Key, header: PayloadHeader, nonce: Nonce,
                              otherKey: Key, other: PayloadHeader)
    requires Ideal(suite) && |content| + AEAD_TAG_LENGTH <= MAX_BASE64_CIPHERTEXT_LENGTH / 4 * 3
    requires EncryptedFor(suite, key, nonce, HeaderContext(header),
                          suite.encrypt(key, nonce, HeaderContext(header), content))
    requires other != header
    ensures DecryptPayload(suite, FilePayload(other, EncryptPayload(suite, content, key, header, nonce)), otherKey)
         == Err(DecryptionFailed)
  {
    MovedCiphertextIsRefused(suite, key, nonce, HeaderContext(header), content, otherKey, HeaderContext(other));
  }
}
