/**
 * What the envelope is built on, as values: the text formats, which are the ones
 * of the Codec and Kid modules, and the cryptographic primitives, of which it is
 * asked that decryption undoes encryption with outputs of the fixed sizes.
 * Nothing is assumed, or claimed, about secrecy.
 */
module Primitives {
  import opened Limits
  import opened Wrappers
  import opened Bits
  import opened Codec
  import opened Wire
  import CodecProofs
  import Handles
  import Kid
  import KidProofs

  // ---- text formats -------------------------------------------------------------------

  datatype Texts = Texts(
    encode: Bytes -> Text,
    sized: (Text, nat) -> Result<Bytes, CodecError>,
    ciphertext: Text -> Result<Bytes, CodecError>,
    canonical: Text -> bool,
    kid: string -> Result<string, Kid.KidError>,
    handle: string -> bool)

  /** A text of the base64url alphabet, as long as the encoding of `n` bytes. */
  ghost predicate IsSpelling(text: Text, n: nat) {
    |text| == EncodedLen(n) && AllDecode(text, UrlSafe)
  }

  /** What is encoded decodes, as long as a ciphertext stays within its limit. */
  ghost predicate RoundTrips(texts: Texts, data: Bytes) {
    IsSpelling(texts.encode(data), |data|) && texts.canonical(texts.encode(data))
    && texts.sized(texts.encode(data), |data|) == Ok(data)
    && texts.ciphertext(texts.encode(data))
       == if EncodedLen(|data|) <= MAX_BASE64_CIPHERTEXT_LENGTH then Ok(data) else Err(TooLong)
  }

  /** What decodes to a given size is the one encoding of what it decodes to. */
  ghost predicate IsStrict(texts: Texts, text: Text, size: nat) {
    var r := texts.sized(text, size);
    r.Ok? ==> |r.value| == size && text == texts.encode(r.value)
  }

  /** A key id is read as it is spelled, which is in its canonical form. */
  ghost predicate KeepsSpelling(texts: Texts, kid: string) {
    texts.kid(kid).Ok? ==> texts.kid(kid).value == kid && Kid.IsCanonical(kid)
  }

  ghost predicate KnowsHandles(texts: Texts, id: string) {
    texts.handle(id) ==> Handles.IsMemberHandle(id)
  }

  ghost predicate Faithful(texts: Texts) {
    (forall data: Bytes :: RoundTrips(texts, data))
    && (forall text: Text, size: nat :: IsStrict(texts, text, size))
    && (forall kid: string :: KeepsSpelling(texts, kid))
    && (forall id: string :: KnowsHandles(texts, id))
  }

  /** Base64url without padding, key ids as they are stored, and handles. */
  function WireTexts(): Texts {
    Texts((data: Bytes) => Encoded(data, UrlSafe),
          (text: Text, size: nat) => DecodeUrlArray(text, size),
          (text: Text) => DecodeUrlCiphertext(text),
          (text: Text) => DecodeUrl(text).Ok?,
          (kid: string) => Kid.FromCanonical(kid),
          (id: string) => Handles.IsMemberHandle(id))
  }

  lemma WireTextsAreFaithful()
    ensures Faithful(WireTexts())
  {
    var texts := WireTexts();
    forall data: Bytes
      ensures RoundTrips(texts, data)
    {
      CodecProofs.ArrayIsBijective(Encoded(data, UrlSafe), |data|, data);
      CodecProofs.UrlIsBijective(Encoded(data, UrlSafe), data);
      CodecProofs.EncodedDecoded(Encoded(data, UrlSafe), UrlSafe);
    }
    forall text: Text, size: nat
      ensures IsStrict(texts, text, size)
    {
      if DecodeUrlArray(text, size).Ok? {
        CodecProofs.ArrayIsBijective(text, size, DecodeUrlArray(text, size).value);
      }
    }
    forall kid: string
      ensures KeepsSpelling(texts, kid)
    {
      KidProofs.FromCanonicalExactly(kid);
    }
  }

  // ---- cryptography -------------------------------------------------------------------

  datatype Sealed = Sealed(enc: Bytes, ct: Bytes)

  datatype Suite = Suite(
    texts: Texts,
    publicOf: Key -> Key,
    // HPKE base mode: recipient key, info, additional data, plaintext, the number of the draw that randomizes it
    seal: (Key, Context, Context, Bytes, nat) -> Option<Sealed>,
    open: (Key, Bytes, Context, Context, Bytes) -> Option<Bytes>,
    // HKDF-SHA256
    extract: (Key, Context) -> Key,
    expand: (Key, Context) -> Key,
    // XChaCha20-Poly1305
    encrypt: (Key, Nonce, Context, Bytes) -> Bytes,
    decrypt: (Key, Nonce, Context, Bytes) -> Option<Bytes>,
    // HMAC-SHA256 over a body and the signer's key id
    tag: (Key, ArtifactBody, string) -> Key,
    isUtf8: Bytes -> bool)

  /** Sealing to the public key of `sk` works, and `sk` opens it under the same info and data. */
  ghost predicate SealsAndOpens(suite: Suite, sk: Key, info: Context, aad: Context, plaintext: Bytes, rand: nat) {
    var sealed := suite.seal(suite.publicOf(sk), info, aad, plaintext, rand);
    sealed.Some? && |sealed.value.enc| == 32 && |sealed.value.ct| == |plaintext| + AEAD_TAG_LENGTH
    && suite.open(sk, sealed.value.enc, info, aad, sealed.value.ct) == Some(plaintext)
  }

  ghost predicate EncryptsAndDecrypts(suite: Suite, key: Key, nonce: Nonce, aad: Context, plaintext: Bytes) {
    var ct := suite.encrypt(key, nonce, aad, plaintext);
    |ct| == |plaintext| + AEAD_TAG_LENGTH && suite.decrypt(key, nonce, aad, ct) == Some(plaintext)
  }

  /** A secret opens what was sealed to its public key, whichever secret has that public key. */
  ghost predicate IdealHpke(suite: Suite) {
    forall sk: Key, info: Context, aad: Context, plaintext: Bytes, rand: nat ::
      SealsAndOpens(suite, sk, info, aad, plaintext, rand)
  }

  ghost predicate IdealAead(suite: Suite) {
    forall key: Key, nonce: Nonce, aad: Context, plaintext: Bytes ::
      EncryptsAndDecrypts(suite, key, nonce, aad, plaintext)
  }

  ghost predicate Ideal(suite: Suite) {
    Faithful(suite.texts) && IdealHpke(suite) && IdealAead(suite)
  }

  type Values = map<string, Bytes>

  datatype Pair = Pair(key: string, value: Bytes)

  /** The sources a run draws on, one value of each for every draw, and the order of its hash maps. */
  datatype Entropy = Entropy(keys: nat -> Key, nonces: nat -> Nonce, uuids: nat -> Uuid,
                             iterate: Values -> seq<Pair>)

  /** The pairs of the map in some order, each once. */
  ghost predicate IsIterationOf(pairs: seq<Pair>, values: Values) {
    (forall i :: 0 <= i < |pairs| ==> pairs[i].key in values && values[pairs[i].key] == pairs[i].value)
    && (forall k :: k in values ==> exists i :: 0 <= i < |pairs| && pairs[i].key == k)
    && |pairs| == |values.Keys|
  }

  /** Iterating over a hash map meets every pair once, in an order of its own. */
  ghost predicate Iterates(entropy: Entropy) {
    forall values: Values :: IsIterationOf(entropy.iterate(values), values)
  }

  // ---- the assumptions can be met -----------------------------------------------------

  function Zeros(n: nat): (s: Bytes)
    ensures |s| == n
  {
    seq(n, _ => 0)
  }

  function Before(ct: Bytes): Option<Bytes> {
    if |ct| >= AEAD_TAG_LENGTH then Some(ct[..|ct| - AEAD_TAG_LENGTH]) else None
  }

  /** A suite that hides nothing. */
  function Transparent(): Suite {
    Suite(WireTexts(),
          sk => sk,
          (pk, info, aad, plaintext: Bytes, rand) => Some(Sealed(Zeros(32), plaintext + Zeros(AEAD_TAG_LENGTH))),
          (sk, enc, info, aad, ct: Bytes) => Before(ct),
          (key, salt) => key,
          (key, info) => key,
          (key, nonce, aad, plaintext: Bytes) => plaintext + Zeros(AEAD_TAG_LENGTH),
          (key, nonce, aad, ct: Bytes) => Before(ct),
          (key, body, kid) => key,
          bytes => true)
  }

  lemma TagComesOff(plaintext: Bytes)
    ensures Before(plaintext + Zeros(AEAD_TAG_LENGTH)) == Some(plaintext)
  {
    assert (plaintext + Zeros(AEAD_TAG_LENGTH))[..|plaintext|] == plaintext;
  }

  lemma TransparentSeals(sk: Key, info: Context, aad: Context, plaintext: Bytes, rand: nat)
    ensures SealsAndOpens(Transparent(), sk, info, aad, plaintext, rand)
  {
    TagComesOff(plaintext);
  }

  lemma TransparentEncrypts(key: Key, nonce: Nonce, aad: Context, plaintext: Bytes)
    ensures EncryptsAndDecrypts(Transparent(), key, nonce, aad, plaintext)
  {
    TagComesOff(plaintext);
  }

  lemma TransparentHpke()
    ensures IdealHpke(Transparent())
  {
    forall sk: Key, info: Context, aad: Context, plaintext: Bytes, rand: nat
      ensures SealsAndOpens(Transparent(), sk, info, aad, plaintext, rand)
    {
      TransparentSeals(sk, info, aad, plaintext, rand);
    }
  }

  lemma TransparentAead()
    ensures IdealAead(Transparent())
  {
    forall key: Key, nonce: Nonce, aad: Context, plaintext: Bytes
      ensures EncryptsAndDecrypts(Transparent(), key, nonce, aad, plaintext)
    {
      TransparentEncrypts(key, nonce, aad, plaintext);
    }
  }

  /** What is asked of the primitives can be met together, with the real text formats. */
  lemma IdealIsSatisfiable()
    ensures Ideal(Transparent()) && Transparent().texts == WireTexts()
  {
    WireTextsAreFaithful();
    TransparentHpke();
    TransparentAead();
  }
}
