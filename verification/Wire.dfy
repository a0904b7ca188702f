/**
 * The stored shape of encrypted artifacts, after parsing and with a signature
 * that has been checked. Base64 members are the text they carry on the wire.
 */
module Wire {
  import opened Wrappers
  import opened Bits
  import opened Codec
  import opened Disclosure

  // ---- identifiers ----------------------------------------------------------------------

  /** The format and algorithm names a document may carry, known ones and others. */
  datatype Name = FileEncV1 | FilePayloadV1 | XChaCha20Poly1305 | HpkeX25519ChaCha20Poly1305 | Other(text: string)

  function Spelled(name: Name): string {
    match name
    case FileEncV1 => "kapsaro:format:file-enc@1"
    case FilePayloadV1 => "kapsaro:format:file-enc:payload@1"
    case XChaCha20Poly1305 => "xchacha20-poly1305"
    case HpkeX25519ChaCha20Poly1305 => "hpke-32-1-3"
    case Other(text) => text
  }

  function Named(text: string): Name {
    if text == Spelled(FileEncV1) then FileEncV1
    else if text == Spelled(FilePayloadV1) then FilePayloadV1
    else if text == Spelled(XChaCha20Poly1305) then XChaCha20Poly1305
    else if text == Spelled(HpkeX25519ChaCha20Poly1305) then HpkeX25519ChaCha20Poly1305
    else Other(text)
  }

  lemma NamesAreSpelledApart(text: string, name: Name)
    requires !name.Other?
    ensures Spelled(Named(text)) == text
    ensures Named(text) == name <==> text == Spelled(name)
  {
    assert |Spelled(FileEncV1)| == 25 && |Spelled(FilePayloadV1)| == 33;
    assert |Spelled(XChaCha20Poly1305)| == 18 && |Spelled(HpkeX25519ChaCha20Poly1305)| == 11;
  }

  /** The discriminator that separates one use of a primitive from the others. */
  datatype Protocol =
    | AadKvEntryPayloadV1 | HpkeInfoKvWrapV1 | HpkeInfoFileWrapV1 | HkdfSaltFileV1 | HkdfSaltKvV1
    | HkdfInfoFileContentKeyV1 | HkdfInfoFileMacKeyV1 | HkdfInfoKvCekV1 | HkdfInfoKvMacKeyV1

  // ---- documents ----------------------------------------------------------------------------

  type Key = b: Bytes | |b| == 32 witness seq(32, _ => 0)
  type Nonce = b: Bytes | |b| == 24 witness seq(24, _ => 0)
  type Uuid = nat

  datatype WrapItem = WrapItem(recipientHandle: string, kid: string, alg: Name, enc: Text, ct: Text)

  datatype PayloadHeader = PayloadHeader(format: Name, sid: Uuid, aead: Name)

  datatype PayloadCiphertext = PayloadCiphertext(nonce: Text, ct: Text)

  datatype FilePayload = FilePayload(header: PayloadHeader, encrypted: PayloadCiphertext)

  datatype FileProtected = FileProtected(
    format: Name, sid: Uuid, wrap: seq<WrapItem>, removedRecipients: Option<History>, payload: FilePayload,
    createdAt: string, updatedAt: string)

  /** The key id of the signer and the key-possession tag; the Ed25519 part is left out. */
  datatype Signature = Signature(kid: string, mac: Key)

  datatype FileDocument = FileDocument(protected: FileProtected, signature: Signature)

  datatype KvHeader = KvHeader(sid: Uuid, aead: Name, createdAt: string, updatedAt: string)

  datatype KvWrap = KvWrap(wrap: seq<WrapItem>, removedRecipients: Option<History>)

  datatype KvEntryValue = KvEntryValue(nonce: Text, ct: Text, disclosed: bool)

  datatype KvEntry = KvEntry(key: string, value: KvEntryValue)

  datatype KvBody = KvBody(head: KvHeader, wrap: KvWrap, entries: seq<KvEntry>)

  datatype KvDocument = KvDocument(body: KvBody, signature: Signature)

  /** A recipient whose public-key document has been verified. */
  datatype Member = Member(handle: string, kid: string, kemX: Text)

  function HandlesOf(items: seq<WrapItem>): (handles: seq<string>)
    ensures |handles| == |items|
    ensures forall i :: 0 <= i < |items| ==> handles[i] == items[i].recipientHandle
  {
    seq(|items|, i requires 0 <= i < |items| => items[i].recipientHandle)
  }

  function MemberHandles(members: seq<Member>): (handles: seq<string>)
    ensures |handles| == |members|
    ensures forall i :: 0 <= i < |members| ==> handles[i] == members[i].handle
  {
    seq(|members|, i requires 0 <= i < |members| => members[i].handle)
  }

  /** The canonical bytes a key or a ciphertext is bound to: one value for each JSON object. */
  datatype Context =
    | SidContext(protocol: Protocol, sid: Uuid)
    | WrapContext(protocol: Protocol, sid: Uuid, kid: string)
    | EntryContext(protocol: Protocol, sid: Uuid, key: string)
    | CekContext(protocol: Protocol, sid: Uuid, key: string, nonce: Text)
    | HeaderContext(header: PayloadHeader)

  /** What the key-possession tag covers, besides the signer's key id. */
  datatype ArtifactBody = FileBody(protected: FileProtected) | KvText(body: KvBody)

  datatype EnvelopeError =
    | TooManyWraps | DuplicateRecipientHandle | InvalidMemberHandle | InvalidKid | UnsupportedAlgorithm
    | BadBase64(reason: CodecError) | NoWrap | WrapOfAnotherMember | NoDecryptionKey | KeystoreFailed
    | SealFailed | OpenFailed | BadMasterKeyLength | KeyPossessionInvalid | DecryptionFailed
    | InvalidFormat | SidMismatch | RecipientMismatch | KeyNotFound | InvalidUtf8
    | MemberNotFound | NoRecipientsLeft
    | TokenTooLong | JsonTooLarge | SchemaInvalid | DuplicateKey | FileTooLarge | TooManyKeys
}
