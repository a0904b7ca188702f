/** Which error is reported where several things are wrong: the first check that fails decides. */
module ErrorProofs {
  import opened Limits
  import opened Wrappers
  import opened Wire
  import opened Primitives
  import opened Envelope
  import opened EnvelopeProofs
  import opened JsonText
  import opened KvText
  import opened WireText
  import FileText
  import JsonLimits

  // ---- wrap items -------------------------------------------------------------------------

  ghost predicate GoodFields(texts: Texts, item: WrapItem) {
    texts.sized(item.enc, 32).Ok? && texts.sized(item.ct, 48).Ok?
  }

  /** The handle before the key id, the key id before the algorithm, and the algorithm before the fields. */
  lemma ItemErrors(texts: Texts, item: WrapItem)
    requires Faithful(texts)
    ensures var r := CheckWrapItem(texts, item);
            && (r == Err(InvalidMemberHandle) <==> !texts.handle(item.recipientHandle))
            && (r == Err(InvalidKid) <==> texts.handle(item.recipientHandle) && texts.kid(item.kid).Err?)
            && (r == Err(UnsupportedAlgorithm) <==>
                  texts.handle(item.recipientHandle) && texts.kid(item.kid).Ok?
                  && (Spelled(item.alg) != "hpke-32-1-3" || item.alg.Other?))
            && (r.Err? && r.error.BadBase64? <==>
                  texts.handle(item.recipientHandle) && texts.kid(item.kid).Ok?
                  && item.alg == HpkeX25519ChaCha20Poly1305 && !GoodFields(texts, item))
  {
    assert IsStrict(texts, item.enc, 32) && IsStrict(texts, item.ct, 48);
    NamesAreSpelledApart(Spelled(item.alg), HpkeX25519ChaCha20Poly1305);
    if !item.alg.Other? {
      NamesAreSpelledApart(Spelled(item.alg), item.alg);
    }
  }

  /** Every item before the `n`-th passes, and the `n`-th does not, for this reason. */
  ghost predicate StopsAt(texts: Texts, items: seq<WrapItem>, n: nat, error: EnvelopeError) {
    n < |items| && AllPass(texts, items[..n]) && DistinctHandles(items[..n])
    && if exists j :: 0 <= j < n && items[j].recipientHandle == items[n].recipientHandle
       then error == DuplicateRecipientHandle
       else CheckWrapItem(texts, items[n]) == Err(error)
  }

  lemma {:induction false} FirstStopsAt(texts: Texts, items: seq<WrapItem>, n: nat)
    requires n <= |items| && CheckFirst(texts, items, n).Err?
    ensures exists k: nat :: k < n && StopsAt(texts, items, k, CheckFirst(texts, items, n).error)
  {
    if CheckFirst(texts, items, n - 1).Err? {
      FirstStopsAt(texts, items, n - 1);
    } else {
      FirstPassExactly(texts, items, n - 1);
      assert StopsAt(texts, items, n - 1, CheckFirst(texts, items, n).error);
    }
  }

  /** The number is checked first; then the first item that repeats a handle or does not pass is reported. */
  lemma SetErrors(texts: Texts, items: seq<WrapItem>)
    requires CheckWrapItems(texts, items).Err?
    ensures if |items| > 1000 then CheckWrapItems(texts, items) == Err(TooManyWraps)
            else exists n: nat :: StopsAt(texts, items, n, CheckWrapItems(texts, items).error)
  {
    if |items| <= MAX_WRAP_ITEMS {
      FirstStopsAt(texts, items, |items|);
      var n: nat :| n < |items| && StopsAt(texts, items, n, CheckFirst(texts, items, |items|).error);
      assert StopsAt(texts, items, n, CheckWrapItems(texts, items).error);
    }
  }

  // ---- the local key ------------------------------------------------------------------------

  /** The key id to open with: the one chosen explicitly, or that of the member's own wrap. */
  ghost predicate Wants(keys: KeyContext, wraps: WrapSet, handle: string, kid: string) {
    if keys.overrideKid.Some? then kid == keys.overrideKid.value
    else exists i :: 0 <= i < |wraps| && wraps[i] == RecipientWrap(handle, kid, wraps[i].enc, wraps[i].ct)
  }

  ghost predicate WantsNone(keys: KeyContext, wraps: WrapSet, handle: string) {
    keys.overrideKid.None? && forall i :: 0 <= i < |wraps| ==> wraps[i].recipientHandle != handle
  }

  /** Without a wrap, or a choice, or a stored key, there is no key; a keystore that fails is told apart. */
  lemma SelectionErrors(texts: Texts, keys: KeyContext, wraps: WrapSet, handle: string)
    requires texts.handle(handle) && Unique(wraps)
    ensures WantsNone(keys, wraps, handle) ==> SelectLocalKey(texts, keys, wraps, handle) == Err(NoDecryptionKey)
    ensures forall kid :: Wants(keys, wraps, handle, kid) ==>
              SelectLocalKey(texts, keys, wraps, handle)
              == if kid == keys.activeKid then Ok(Selected(kid, keys.activeKemD))
                 else match keys.keystore(handle, kid)
                      case Loaded(kemD) => Ok(Selected(kid, kemD))
                      case Missing => Err(NoDecryptionKey)
                      case Failed => Err(KeystoreFailed)
  {
    if WantsNone(keys, wraps, handle) {
      LookupOfStranger(wraps, handle, "");
    }
    forall kid | keys.overrideKid.None? && Wants(keys, wraps, handle, kid)
      ensures SelfWrapKid(wraps, handle) == Some(kid)
    {
      var i :| 0 <= i < |wraps| && wraps[i] == RecipientWrap(handle, kid, wraps[i].enc, wraps[i].ct);
      LookupOfMember(wraps, i, kid);
    }
  }

  // ---- the master key -------------------------------------------------------------------------

  /** A wrap that does not open is told apart from one that opens to something else than a key. */
  lemma UnwrapErrors(suite: Suite, wrap: RecipientWrap, sid: Uuid, sk: Key, format: WrapFormat)
    ensures var info := WrapContext(if format.File? then HpkeInfoFileWrapV1 else HpkeInfoKvWrapV1, sid, wrap.kid);
            UnwrapMasterKey(suite, wrap, sid, sk, format)
            == match suite.open(sk, wrap.enc, info, info, wrap.ct)
               case None => Err(OpenFailed)
               case Some(plaintext) => if |plaintext| == 32 then Ok(plaintext) else Err(BadMasterKeyLength)
  {
  }

  // ---- the entries of a document --------------------------------------------------------------

  /** Names, each of them once. */
  ghost predicate GoodKeys(entries: seq<KvEntry>) {
    (forall i :: 0 <= i < |entries| ==> IsKeyName(entries[i].key))
    && forall i, j :: 0 <= i < j < |entries| ==> entries[i].key != entries[j].key
  }

  ghost predicate KeyStopsAt(entries: seq<KvEntry>, n: nat, error: EnvelopeError) {
    n < |entries| && GoodKeys(entries[..n])
    && if IsKeyName(entries[n].key)
       then error == DuplicateKey && exists j :: 0 <= j < n && entries[j].key == entries[n].key
       else error == SchemaInvalid
  }

  lemma {:induction false} PassedKeys(entries: seq<KvEntry>)
    requires CheckKeys(entries).Ok?
    ensures GoodKeys(entries)
  {
    if entries != [] {
      PassedKeys(entries[..|entries| - 1]);
    }
  }

  lemma LastKeyStops(entries: seq<KvEntry>)
    requires CheckKeys(entries).Err? && CheckKeys(entries[..|entries| - 1]).Ok?
    ensures KeyStopsAt(entries, |entries| - 1, CheckKeys(entries).error)
  {
    var init, last := entries[..|entries| - 1], entries[|entries| - 1];
    PassedKeys(init);
    if HasKey(init, last.key) {
      var j :| 0 <= j < |init| && init[j].key == last.key;
      assert entries[j].key == last.key;
    }
  }

  /** The first key that is no name, or that was there before, is reported. */
  lemma {:induction false} KeyErrors(entries: seq<KvEntry>)
    requires CheckKeys(entries).Err?
    ensures exists n: nat :: KeyStopsAt(entries, n, CheckKeys(entries).error)
  {
    var init := entries[..|entries| - 1];
    if CheckKeys(init).Err? {
      KeyErrors(init);
      var n: nat :| KeyStopsAt(init, n, CheckKeys(init).error);
      assert init[..n] == entries[..n];
      assert KeyStopsAt(entries, n, CheckKeys(entries).error);
    } else {
      LastKeyStops(entries);
    }
  }

  /** A token is refused for its length before it is decoded, and for its JSON before it is parsed. */
  lemma TokenErrors(node: Node)
    requires CheckToken(node).Err?
    ensures CheckToken(node).error == if TokenLen(node) > 1_048_576 then TokenTooLong else JsonTooLarge
  {
  }

  /** The length before the number of entries, their keys before the wraps, and those before the entries. */
  lemma KvLoadErrors(texts: Texts, publicKey: Node, doc: KvDocument)
    ensures var r := LoadKv(texts, publicKey, doc);
            if FileLen(texts, publicKey, doc) > 16_777_216 then r == Err(FileTooLarge)
            else if |doc.body.entries| > 10_000 then r == Err(TooManyKeys)
            else if CheckKeys(doc.body.entries).Err? then r == CheckKeys(doc.body.entries)
            else if CheckWrapToken(texts, doc.body.wrap).Err? then r == CheckWrapToken(texts, doc.body.wrap)
            else if CheckEntryTokens(texts, doc.body.entries).Err? then r == CheckEntryTokens(texts, doc.body.entries)
            else r.Err? ==> r == CheckSignatureToken(texts, doc.signature, publicKey)
                            || r == CheckHeadToken(doc.body.head)
  {
  }

  /** The errors of the schema: those that no size, limit or wrap is reported for. */
  ghost predicate PassesSchema(texts: Texts, doc: FileDocument) {
    FileText.ProtectedPasses(texts, doc.protected) && doc.protected.wrap != []
    && HistoryPasses(texts, doc.protected.removedRecipients) && texts.kid(doc.signature.kid).Ok?
  }

  /** The length before the limits of the scan, these before the schema, and the schema before the wraps. */
  lemma FileLoadErrors(texts: Texts, publicKey: Node, doc: FileDocument)
    ensures var r, text := FileText.LoadFile(texts, publicKey, doc), FileText.FileContent(texts, publicKey, doc);
            && (r == Err(FileTooLarge) <==> |text| > 25_165_824)
            && (r.Err? && |text| <= 25_165_824 ==>
                  r == if !JsonLimits.WithinLimits(JsonLimits.CountedAll(JsonLimits.START, text)) then Err(JsonTooLarge)
                       else if !PassesSchema(texts, doc) then Err(SchemaInvalid)
                       else CheckWrapItems(texts, doc.protected.wrap))
  {
    SetErrorsAreApart(texts, doc.protected.wrap);
  }

  /** No check of the wraps reports an error of the file. */
  lemma SetErrorsAreApart(texts: Texts, items: seq<WrapItem>)
    ensures CheckWrapItems(texts, items) != Err(FileTooLarge) && CheckWrapItems(texts, items) != Err(TooManyKeys)
  {
    if CheckWrapItems(texts, items).Err? && |items| <= MAX_WRAP_ITEMS {
      SetErrors(texts, items);
    }
  }
}

/** What the loaders ask of each field, with the text formats as they are. */
module SchemaProofs {
  import opened Wrappers
  import opened Bits
  import opened Codec
  import opened Wire
  import opened Disclosure
  import opened Primitives
  import opened WireText
  import CodecProofs
  import FileText
  import Handles
  import Kid
  import KidProofs
  import KvText

  /** The text is the one encoding of some bytes. */
  ghost predicate EncodesSome(text: Text) {
    exists data: Bytes :: text == Encoded(data, UrlSafe)
  }

  ghost predicate EncodesSize(text: Text, size: nat) {
    exists data: Bytes :: |data| == size && text == Encoded(data, UrlSafe)
  }

  lemma CanonicalExactly(text: Text)
    ensures WireTexts().canonical(text) <==> EncodesSome(text)
    ensures WireTexts().ciphertext(text).Ok? <==> |text| <= 16_777_216 && EncodesSome(text)
  {
    if DecodeUrl(text).Ok? {
      CodecProofs.UrlIsBijective(text, DecodeUrl(text).value);
    }
    if data: Bytes :| text == Encoded(data, UrlSafe) {
      CodecProofs.UrlIsBijective(text, data);
    }
  }

  lemma SizedExactly(text: Text, size: nat)
    ensures WireTexts().sized(text, size).Ok? <==> EncodesSize(text, size)
  {
    if DecodeUrlArray(text, size).Ok? {
      CodecProofs.ArrayIsBijective(text, size, DecodeUrlArray(text, size).value);
    }
    if data: Bytes :| |data| == size && text == Encoded(data, UrlSafe) {
      CodecProofs.ArrayIsBijective(text, size, data);
    }
  }

  /** An entry has a nonce of 24 bytes and a ciphertext that is not empty. */
  lemma EntryPassesExactly(value: KvEntryValue)
    ensures KvText.EntryPasses(WireTexts(), value)
       <==> EncodesSize(value.nonce, 24) && EncodesSome(value.ct) && value.ct != []
  {
    SizedExactly(value.nonce, 24);
    CanonicalExactly(value.ct);
  }

  /** The names and the algorithm of the format, two times, and the fields of the payload. */
  lemma ProtectedPassesExactly(p: FileProtected)
    ensures FileText.ProtectedPasses(WireTexts(), p)
       <==> p.format == Named("kapsaro:format:file-enc@1")
            && p.payload.header.format == Named("kapsaro:format:file-enc:payload@1")
            && p.payload.header.aead == Named("xchacha20-poly1305")
            && IsTimestamp(p.createdAt) && IsTimestamp(p.updatedAt)
            && EncodesSize(p.payload.encrypted.nonce, 24)
            && EncodesSome(p.payload.encrypted.ct) && p.payload.encrypted.ct != []
  {
    NamesAreSpelledApart("kapsaro:format:file-enc@1", FileEncV1);
    NamesAreSpelledApart("kapsaro:format:file-enc:payload@1", FilePayloadV1);
    NamesAreSpelledApart("xchacha20-poly1305", XChaCha20Poly1305);
    SizedExactly(p.payload.encrypted.nonce, 24);
    CanonicalExactly(p.payload.encrypted.ct);
  }

  /** A removal names a member and a key id, each as it is stored, and a time. */
  lemma RecordPassesExactly(record: RemovedRecipient)
    ensures RecordPasses(WireTexts(), record)
       <==> Handles.IsMemberHandle(record.recipientHandle) && Kid.IsCanonical(record.kid)
            && IsTimestamp(record.removedAt)
  {
    KidProofs.FromCanonicalExactly(record.kid);
  }
}
