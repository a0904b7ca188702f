/**
 * The envelope shared by both artifact formats: wrap items and how they are
 * checked, looked up, built and opened; the key schedules; the proof of key
 * possession; and the encrypted parts themselves.
 */
module Envelope {
  import opened Limits
  import opened Wrappers
  import opened Bits
  import opened Codec
  import opened Wire
  import opened Primitives

  type Checked = Result<(), EnvelopeError>

  // ---- member handles and key ids -----------------------------------------------------

  function CheckHandle(texts: Texts, id: string): Result<string, EnvelopeError> {
    if texts.handle(id) then Ok(id) else Err(InvalidMemberHandle)
  }

  function CheckKid(texts: Texts, kid: string): Result<string, EnvelopeError> {
    match texts.kid(kid)
    case Ok(canonical) => Ok(canonical)
    case Err(_) => Err(InvalidKid)
  }

  function Array(texts: Texts, text: Text, size: nat): (r: Result<Bytes, EnvelopeError>)
    ensures r.Ok? ==> |r.value| == size
  {
    match texts.sized(text, size)
    case Ok(bytes) => if |bytes| == size then Ok(bytes) else Err(BadBase64(WrongLength))
    case Err(reason) => Err(BadBase64(reason))
  }

  // ---- stored wrap items --------------------------------------------------------------

  function CheckWrapItem(texts: Texts, item: WrapItem): Checked {
    var _ :- CheckHandle(texts, item.recipientHandle);
    var _ :- CheckKid(texts, item.kid);
    if item.alg != HpkeX25519ChaCha20Poly1305 then Err(UnsupportedAlgorithm)
    else
      var _ :- Array(texts, item.enc, 32);
      var _ :- Array(texts, item.ct, 48);
      Ok(())
  }

  function CheckWrapCount(count: nat): Checked {
    if count <= MAX_WRAP_ITEMS then Ok(()) else Err(TooManyWraps)
  }

  predicate RepeatsHandle(items: seq<WrapItem>, n: nat)
    requires n < |items|
  {
    exists j :: 0 <= j < n && items[j].recipientHandle == items[n].recipientHandle
  }

  /** The first `n` items in order, each one checked for a repeated handle first. */
  function CheckFirst(texts: Texts, items: seq<WrapItem>, n: nat): Checked
    requires n <= |items|
  {
    if n == 0 then Ok(())
    else
      var _ :- CheckFirst(texts, items, n - 1);
      if RepeatsHandle(items, n - 1) then Err(DuplicateRecipientHandle) else CheckWrapItem(texts, items[n - 1])
  }

  function CheckWrapItems(texts: Texts, items: seq<WrapItem>): Checked {
    var _ :- CheckWrapCount(|items|);
    CheckFirst(texts, items, |items|)
  }

  lemma {:induction false} FailureStays(texts: Texts, items: seq<WrapItem>, n: nat, m: nat)
    requires n <= m <= |items| && CheckFirst(texts, items, n).Err?
    ensures CheckFirst(texts, items, m) == CheckFirst(texts, items, n)
  {
    if n < m {
      FailureStays(texts, items, n, m - 1);
    }
  }

  method ValidateWrapItems(texts: Texts, items: seq<WrapItem>) returns (r: Checked)
    ensures r == CheckWrapItems(texts, items)
  {
    r := CheckWrapCount(|items|);
    if r.Err? {
      return;
    }
    var seen: set<string> := {};
    for i := 0 to |items|
      invariant r == CheckFirst(texts, items, i) == Ok(())
      invariant forall j :: 0 <= j < i ==> items[j].recipientHandle in seen
      invariant forall h :: h in seen ==> exists j :: 0 <= j < i && items[j].recipientHandle == h
    {
      if items[i].recipientHandle in seen {
        FailureStays(texts, items, i + 1, |items|);
        return Err(DuplicateRecipientHandle);
      }
      seen := seen + {items[i].recipientHandle};
      r := CheckWrapItem(texts, items[i]);
      if r.Err? {
        FailureStays(texts, items, i + 1, |items|);
        return;
      }
    }
  }

  // ---- the parsed set -------------------------------------------------------------------

  datatype RecipientWrap = RecipientWrap(recipientHandle: string, kid: string, enc: Bytes, ct: Bytes)

  type WrapSet = seq<RecipientWrap>

  function ParseWrap(texts: Texts, item: WrapItem): Result<RecipientWrap, EnvelopeError> {
    var handle :- CheckHandle(texts, item.recipientHandle);
    var kid :- CheckKid(texts, item.kid);
    var enc :- Array(texts, item.enc, 32);
    var ct :- Array(texts, item.ct, 48);
    Ok(RecipientWrap(handle, kid, enc, ct))
  }

  function ParseEach(texts: Texts, items: seq<WrapItem>): Result<WrapSet, EnvelopeError> {
    if items == [] then Ok([])
    else
      var earlier :- ParseEach(texts, items[..|items| - 1]);
      var last :- ParseWrap(texts, items[|items| - 1]);
      Ok(earlier + [last])
  }

  function ParseWrapSet(texts: Texts, items: seq<WrapItem>): Result<WrapSet, EnvelopeError> {
    var _ :- CheckWrapItems(texts, items);
    ParseEach(texts, items)
  }

  function FindWrap(wraps: WrapSet, wanted: RecipientWrap -> bool): Option<RecipientWrap> {
    if wraps == [] then None
    else if wanted(wraps[0]) then Some(wraps[0])
    else FindWrap(wraps[1..], wanted)
  }

  function FindByKidForMember(wraps: WrapSet, kid: string, handle: string): Result<RecipientWrap, EnvelopeError> {
    match FindWrap(wraps, (w: RecipientWrap) => w.kid == kid && w.recipientHandle == handle)
    case Some(wrap) => Ok(wrap)
    case None =>
      match FindWrap(wraps, (w: RecipientWrap) => w.kid == kid)
      case Some(_) => Err(WrapOfAnotherMember)
      case None => Err(NoWrap)
  }

  function SelfWrapKid(wraps: WrapSet, handle: string): Option<string> {
    match FindWrap(wraps, (w: RecipientWrap) => w.recipientHandle == handle)
    case Some(wrap) => Some(wrap.kid)
    case None => None
  }

  // ---- the local key ------------------------------------------------------------------

  datatype Loading = Missing | Failed | Loaded(kemD: Text)

  /** The active key, an explicit choice of key id, and what the keystore yields otherwise. */
  datatype KeyContext = KeyContext(activeKid: string, activeKemD: Text, overrideKid: Option<string>,
                                   keystore: (string, string) -> Loading)

  datatype Selected = Selected(kid: string, kemD: Text)

  function SelectLocalKey(texts: Texts, keys: KeyContext, wraps: WrapSet, handle: string)
    : Result<Selected, EnvelopeError>
  {
    var keystoreHandle :- CheckHandle(texts, handle);
    match if keys.overrideKid.Some? then keys.overrideKid else SelfWrapKid(wraps, keystoreHandle)
    case None => Err(NoDecryptionKey)
    case Some(kid) =>
      if kid == keys.activeKid then Ok(Selected(kid, keys.activeKemD))
      else
        match keys.keystore(keystoreHandle, kid)
        case Loaded(kemD) => Ok(Selected(kid, kemD))
        case Missing => Err(NoDecryptionKey)
        case Failed => Err(KeystoreFailed)
  }

  // ---- wrapping the master key ------------------------------------------------------------

  datatype WrapFormat = File | Kv

  function WrapInfo(format: WrapFormat, sid: Uuid, kid: string): Context {
    WrapContext(if format.File? then HpkeInfoFileWrapV1 else HpkeInfoKvWrapV1, sid, kid)
  }

  function BuildWrapItem(suite: Suite, member: Member, sid: Uuid, masterKey: Key, format: WrapFormat, rand: nat)
    : Result<WrapItem, EnvelopeError>
  {
    var info := WrapInfo(format, sid, member.kid);
    var kemPk :- Array(suite.texts, member.kemX, 32);
    match suite.seal(kemPk, info, info, masterKey, rand)
    case None => Err(SealFailed)
    case Some(sealed) =>
      Ok(WrapItem(member.handle, member.kid, HpkeX25519ChaCha20Poly1305,
                  suite.texts.encode(sealed.enc), suite.texts.encode(sealed.ct)))
  }

  /** One item for each of the first `n` members; the k-th is sealed with the k-th draw from `drawn` on. */
  function BuildFirst(suite: Suite, drawn: nat, members: seq<Member>, n: nat, sid: Uuid,
                      masterKey: Key, format: WrapFormat): Result<seq<WrapItem>, EnvelopeError>
    requires n <= |members|
  {
    if n == 0 then Ok([])
    else
      var earlier :- BuildFirst(suite, drawn, members, n - 1, sid, masterKey, format);
      var last :- BuildWrapItem(suite, members[n - 1], sid, masterKey, format, drawn + n - 1);
      Ok(earlier + [last])
  }

  function BuildEach(suite: Suite, drawn: nat, members: seq<Member>, sid: Uuid, masterKey: Key,
                     format: WrapFormat): Result<seq<WrapItem>, EnvelopeError>
  {
    BuildFirst(suite, drawn, members, |members|, sid, masterKey, format)
  }

  function BuildWraps(suite: Suite, drawn: nat, members: seq<Member>, sid: Uuid, masterKey: Key,
                      format: WrapFormat): Result<seq<WrapItem>, EnvelopeError>
  {
    var _ :- CheckWrapCount(|members|);
    BuildEach(suite, drawn, members, sid, masterKey, format)
  }

  // ---- opening it -------------------------------------------------------------------

  function ParseMasterKey(plaintext: Bytes): Result<Key, EnvelopeError> {
    if |plaintext| == 32 then Ok(plaintext) else Err(BadMasterKeyLength)
  }

  function UnwrapMasterKey(suite: Suite, wrap: RecipientWrap, sid: Uuid, sk: Key, format: WrapFormat)
    : Result<Key, EnvelopeError>
  {
    var info := WrapInfo(format, sid, wrap.kid);
    match suite.open(sk, wrap.enc, info, info, wrap.ct)
    case None => Err(OpenFailed)
    case Some(plaintext) => ParseMasterKey(plaintext)
  }

  datatype Located = Located(wrap: RecipientWrap, kemD: Text)

  /** The wrap to open and the local key to open it with. */
  function LocateWrap(texts: Texts, items: seq<WrapItem>, handle: string, keys: KeyContext)
    : Result<Located, EnvelopeError>
  {
    var wraps :- ParseWrapSet(texts, items);
    var recipient :- CheckHandle(texts, handle);
    var selected :- SelectLocalKey(texts, keys, wraps, handle);
    var wrap :- FindByKidForMember(wraps, selected.kid, recipient);
    Ok(Located(wrap, selected.kemD))
  }

  function UnwrapWithContext(suite: Suite, items: seq<WrapItem>, sid: Uuid, handle: string, keys: KeyContext,
                             format: WrapFormat): Result<Key, EnvelopeError>
  {
    var located :- LocateWrap(suite.texts, items, handle, keys);
    var sk :- Array(suite.texts, located.kemD, 32);
    UnwrapMasterKey(suite, located.wrap, sid, sk, format)
  }

  // ---- key schedules and the proof of possession ---------------------------------------

  function FilePrk(suite: Suite, masterKey: Key, sid: Uuid): Key {
    suite.extract(masterKey, SidContext(HkdfSaltFileV1, sid))
  }

  function FileContentKey(suite: Suite, masterKey: Key, sid: Uuid): Key {
    suite.expand(FilePrk(suite, masterKey, sid), SidContext(HkdfInfoFileContentKeyV1, sid))
  }

  function FileMacKey(suite: Suite, masterKey: Key, sid: Uuid): Key {
    suite.expand(FilePrk(suite, masterKey, sid), SidContext(HkdfInfoFileMacKeyV1, sid))
  }

  function KvPrk(suite: Suite, masterKey: Key, sid: Uuid): Key {
    suite.extract(masterKey, SidContext(HkdfSaltKvV1, sid))
  }

  function KvMacKey(suite: Suite, masterKey: Key, sid: Uuid): Key {
    suite.expand(KvPrk(suite, masterKey, sid), SidContext(HkdfInfoKvMacKeyV1, sid))
  }

  function EntryKey(suite: Suite, masterKey: Key, sid: Uuid, key: string, nonce: Text): Key {
    suite.expand(KvPrk(suite, masterKey, sid), CekContext(HkdfInfoKvCekV1, sid, key, nonce))
  }

  function ProvePossession(suite: Suite, body: ArtifactBody, macKey: Key, signerKid: string): Signature {
    Signature(signerKid, suite.tag(macKey, body, signerKid))
  }

  function CheckPossession(suite: Suite, body: ArtifactBody, macKey: Key, signature: Signature): Checked {
    if suite.tag(macKey, body, signature.kid) == signature.mac then Ok(()) else Err(KeyPossessionInvalid)
  }

  // ---- the encrypted parts ------------------------------------------------------------

  function Ciphertext(texts: Texts, text: Text): Result<Bytes, EnvelopeError> {
    match texts.ciphertext(text)
    case Ok(bytes) => Ok(bytes)
    case Err(reason) => Err(BadBase64(reason))
  }

  function Decrypt(suite: Suite, key: Key, nonce: Text, ct: Text, aad: Context): Result<Bytes, EnvelopeError> {
    var nonceBytes :- Array(suite.texts, nonce, 24);
    var ciphertext :- Ciphertext(suite.texts, ct);
    match suite.decrypt(key, nonceBytes, aad, ciphertext)
    case Some(plaintext) => Ok(plaintext)
    case None => Err(DecryptionFailed)
  }

  function EncryptPayload(suite: Suite, content: Bytes, key: Key, header: PayloadHeader, nonce: Nonce)
    : PayloadCiphertext
  {
    PayloadCiphertext(suite.texts.encode(nonce),
                      suite.texts.encode(suite.encrypt(key, nonce, HeaderContext(header), content)))
  }

  function DecryptPayload(suite: Suite, payload: FilePayload, key: Key): Result<Bytes, EnvelopeError> {
    Decrypt(suite, key, payload.encrypted.nonce, payload.encrypted.ct, HeaderContext(payload.header))
  }

  function EncryptEntry(suite: Suite, masterKey: Key, sid: Uuid, key: string, value: Bytes, nonce: Nonce,
                        disclosed: bool): KvEntryValue
  {
    var nonceText := suite.texts.encode(nonce);
    var ct := suite.encrypt(EntryKey(suite, masterKey, sid, key, nonceText), nonce,
                            EntryContext(AadKvEntryPayloadV1, sid, key), value);
    KvEntryValue(nonceText, suite.texts.encode(ct), disclosed)
  }

  function DecryptEntry(suite: Suite, masterKey: Key, sid: Uuid, aead: Name, entry: KvEntry)
    : Result<Bytes, EnvelopeError>
  {
    if aead != XChaCha20Poly1305 then Err(UnsupportedAlgorithm)
    else
      var cek := EntryKey(suite, masterKey, sid, entry.key, entry.value.nonce);
      Decrypt(suite, cek, entry.value.nonce, entry.value.ct, EntryContext(AadKvEntryPayloadV1, sid, entry.key))
  }
}
