/** Encrypting a key-value map entry by entry, and decrypting all of it or one key. */
module KvEnvelope {
  import opened Wrappers
  import opened Bits
  import opened Wire
  import opened Disclosure
  import opened Primitives
  import opened Envelope

  // ---- decryption -------------------------------------------------------------------

  function CheckKvPossession(suite: Suite, doc: KvDocument, masterKey: Key): Checked {
    CheckPossession(suite, KvText(doc.body), KvMacKey(suite, masterKey, doc.body.head.sid), doc.signature)
  }

  /** The master key, once the document is shown to have been written by somebody who held it. */
  function OpenKvKey(suite: Suite, doc: KvDocument, handle: string, keys: KeyContext): Result<Key, EnvelopeError> {
    var masterKey :- UnwrapWithContext(suite, doc.body.wrap.wrap, doc.body.head.sid, handle, keys, Kv);
    var _ :- CheckKvPossession(suite, doc, masterKey);
    Ok(masterKey)
  }

  type Reader = KvEntry -> Result<Bytes, EnvelopeError>

  function EntryReader(suite: Suite, masterKey: Key, head: KvHeader): Reader {
    (entry: KvEntry) => DecryptEntry(suite, masterKey, head.sid, head.aead, entry)
  }

  /** The first `n` entries read and inserted into a map in order. */
  function ReadFirst(read: Reader, entries: seq<KvEntry>, n: nat): Result<Values, EnvelopeError>
    requires n <= |entries|
  {
    if n == 0 then Ok(map[])
    else
      var values :- ReadFirst(read, entries, n - 1);
      var value :- read(entries[n - 1]);
      Ok(values[entries[n - 1].key := value])
  }

  function DecryptEntries(suite: Suite, masterKey: Key, head: KvHeader, entries: seq<KvEntry>)
    : Result<Values, EnvelopeError>
  {
    ReadFirst(EntryReader(suite, masterKey, head), entries, |entries|)
  }

  lemma {:induction false} FailureStays(read: Reader, entries: seq<KvEntry>, n: nat, m: nat)
    requires n <= m <= |entries| && ReadFirst(read, entries, n).Err?
    ensures ReadFirst(read, entries, m) == ReadFirst(read, entries, n)
  {
    if n < m {
      FailureStays(read, entries, n, m - 1);
    }
  }

  method DecryptKvEntries(suite: Suite, masterKey: Key, head: KvHeader, entries: seq<KvEntry>)
    returns (r: Result<Values, EnvelopeError>)
    ensures r == DecryptEntries(suite, masterKey, head, entries)
  {
    var read := EntryReader(suite, masterKey, head);
    var kvMap: Values := map[];
    for i := 0 to |entries|
      invariant ReadFirst(read, entries, i) == Ok(kvMap)
    {
      var value := read(entries[i]);
      if value.Err? {
        FailureStays(read, entries, i + 1, |entries|);
        return Err(value.error);
      }
      kvMap := kvMap[entries[i].key := value.value];
    }
    return Ok(kvMap);
  }

  function DecryptKv(suite: Suite, doc: KvDocument, handle: string, keys: KeyContext): Result<Values, EnvelopeError> {
    var masterKey :- OpenKvKey(suite, doc, handle, keys);
    DecryptEntries(suite, masterKey, doc.body.head, doc.body.entries)
  }

  function EntryOf(entries: seq<KvEntry>, key: string): Option<KvEntry> {
    if entries == [] then None else if entries[0].key == key then Some(entries[0]) else EntryOf(entries[1..], key)
  }

  function DecryptKvSingle(suite: Suite, doc: KvDocument, handle: string, keys: KeyContext, key: string)
    : Result<Bytes, EnvelopeError>
  {
    var masterKey :- OpenKvKey(suite, doc, handle, keys);
    match EntryOf(doc.body.entries, key)
    case None => Err(KeyNotFound)
    case Some(entry) => DecryptEntry(suite, masterKey, doc.body.head.sid, doc.body.head.aead, entry)
  }

  // ---- encryption -------------------------------------------------------------------

  /** The first draw for the entries of a document: after those for its id, its key and its wraps. */
  function EntryDraw(drawn: nat, wraps: nat): nat {
    drawn + 2 + wraps
  }

  function KeyOf(): KvEntry -> string {
    (e: KvEntry) => e.key
  }

  function SignKv(suite: Suite, body: KvBody, masterKey: Key, signerKid: string): KvDocument {
    KvDocument(body, ProvePossession(suite, KvText(body), KvMacKey(suite, masterKey, body.head.sid), signerKid))
  }

  /** The document around encrypted entries; `history` is what the caller leaves in the fresh wrap. */
  function AssembleKv(suite: Suite, masterKey: Key, head: KvHeader, wrap: seq<WrapItem>, history: Option<History>,
                      entries: seq<KvEntry>, signerKid: string): KvDocument
  {
    SignKv(suite, KvBody(head, KvWrap(wrap, history), entries), masterKey, signerKid)
  }
}

/** A map decrypts to what was encrypted, whole and key by key. */
module KvEnvelopeProofs {
  import opened Limits
  import opened Wrappers
  import opened Bits
  import opened Codec
  import opened Wire
  import opened Disclosure
  import opened Primitives
  import opened Envelope
  import opened EnvelopeProofs
  import opened KvEnvelope
  import opened JsonText
  import opened PartText
  import opened KvText
  import opened KvTextProofs
  import FileEnvelopeProofs
  import Ordering
  import Seqs

  // ---- entries --------------------------------------------------------------------------

  predicate Fits(value: Bytes) {
    |value| <= MAX_PLAINTEXT_INPUT_SIZE
  }

  ghost predicate AllFit(values: Values) {
    forall k :: k in values ==> Fits(values[k])
  }

  type Nonces = map<string, Nonce>

  /** The entry is its key's value under the master key, sealed with the key's nonce. */
  ghost predicate IsEntryOf(suite: Suite, masterKey: Key, sid: Uuid, entry: KvEntry, values: Values, nonces: Nonces) {
    entry.key in values && entry.key in nonces
    && entry.value == EncryptEntry(suite, masterKey, sid, entry.key, values[entry.key], nonces[entry.key],
                                   entry.value.disclosed)
  }

  ghost predicate HasEntry(entries: seq<KvEntry>, key: string) {
    exists i :: 0 <= i < |entries| && entries[i].key == key
  }

  ghost predicate EntriesUnder(suite: Suite, masterKey: Key, sid: Uuid, entries: seq<KvEntry>, values: Values,
                               nonces: Nonces)
  {
    (forall i :: 0 <= i < |entries| ==> IsEntryOf(suite, masterKey, sid, entries[i], values, nonces))
    && forall k :: k in values ==> HasEntry(entries, k)
  }

  /** Each entry is its key's value under the master key, and no key of the map is missing. */
  ghost predicate EntriesHold(suite: Suite, masterKey: Key, sid: Uuid, entries: seq<KvEntry>, values: Values) {
    exists nonces: Nonces :: EntriesUnder(suite, masterKey, sid, entries, values, nonces)
  }

  lemma EntryDecrypts(suite: Suite, masterKey: Key, head: KvHeader, entry: KvEntry, values: Values, nonces: Nonces)
    requires Ideal(suite) && IsEntryOf(suite, masterKey, head.sid, entry, values, nonces)
    requires head.aead == XChaCha20Poly1305
    ensures DecryptEntry(suite, masterKey, head.sid, head.aead, entry)
         == if Fits(values[entry.key]) then Ok(values[entry.key]) else Err(BadBase64(TooLong))
  {
    FileEnvelopeProofs.DecryptUndoesEncrypt(suite, EntryKey(suite, masterKey, head.sid, entry.key, entry.value.nonce),
                                            nonces[entry.key], EntryContext(AadKvEntryPayloadV1, head.sid, entry.key),
                                            values[entry.key]);
  }

  ghost predicate HasEntryBefore(entries: seq<KvEntry>, n: nat, key: string) {
    exists i :: 0 <= i < |entries| && i < n && entries[i].key == key
  }

  /** `decrypted` is the values of the first `n` entries. */
  ghost predicate IsPart(entries: seq<KvEntry>, n: nat, values: Values, decrypted: Values) {
    (forall k :: k in decrypted <==> HasEntryBefore(entries, n, k))
    && forall k :: k in decrypted ==> k in values && decrypted[k] == values[k]
  }

  lemma PartGrows(entries: seq<KvEntry>, n: nat, values: Values, decrypted: Values)
    requires n < |entries| && IsPart(entries, n, values, decrypted) && entries[n].key in values
    ensures IsPart(entries, n + 1, values, decrypted[entries[n].key := values[entries[n].key]])
  {
    var more := decrypted[entries[n].key := values[entries[n].key]];
    forall k ensures k in more <==> HasEntryBefore(entries, n + 1, k) {
      if HasEntryBefore(entries, n + 1, k) && k != entries[n].key {
        assert HasEntryBefore(entries, n, k);
      }
      if k in decrypted {
        var i :| 0 <= i < n && entries[i].key == k;
      }
    }
  }

  /** The entry reads as its key's value, if that is not too long. */
  ghost predicate ReadsAs(read: Reader, entry: KvEntry, values: Values) {
    entry.key in values
    && read(entry) == if Fits(values[entry.key]) then Ok(values[entry.key]) else Err(BadBase64(TooLong))
  }

  ghost predicate FirstFit(entries: seq<KvEntry>, n: nat, values: Values) {
    forall i :: 0 <= i < |entries| && i < n && entries[i].key in values ==> Fits(values[entries[i].key])
  }

  lemma {:induction false} FirstRead(read: Reader, entries: seq<KvEntry>, values: Values, n: nat)
    requires forall i :: 0 <= i < |entries| ==> ReadsAs(read, entries[i], values)
    requires n <= |entries|
    ensures var r := ReadFirst(read, entries, n);
            (r.Ok? <==> FirstFit(entries, n, values)) && (r.Ok? ==> IsPart(entries, n, values, r.value))
  {
    if n > 0 {
      FirstRead(read, entries, values, n - 1);
      assert ReadsAs(read, entries[n - 1], values);
      var r := ReadFirst(read, entries, n - 1);
      if r.Ok? {
        PartGrows(entries, n - 1, values, r.value);
      }
    }
  }

  lemma EntriesDecryptExactly(suite: Suite, masterKey: Key, head: KvHeader, entries: seq<KvEntry>, values: Values)
    requires Ideal(suite) && EntriesHold(suite, masterKey, head.sid, entries, values)
    requires head.aead == XChaCha20Poly1305
    ensures DecryptEntries(suite, masterKey, head, entries).ToOption() == if AllFit(values) then Some(values) else None
  {
    var read := EntryReader(suite, masterKey, head);
    var nonces :| EntriesUnder(suite, masterKey, head.sid, entries, values, nonces);
    forall i | 0 <= i < |entries|
      ensures ReadsAs(read, entries[i], values)
    {
      EntryDecrypts(suite, masterKey, head, entries[i], values, nonces);
    }
    FirstRead(read, entries, values, |entries|);
    var r := ReadFirst(read, entries, |entries|);
    if k :| k in values && !Fits(values[k]) {
      assert HasEntry(entries, k);
    } else {
      PartIsAll(entries, values, r.value);
    }
  }

  lemma PartIsAll(entries: seq<KvEntry>, values: Values, decrypted: Values)
    requires IsPart(entries, |entries|, values, decrypted) && forall k :: k in values ==> HasEntry(entries, k)
    ensures decrypted == values
  {
    forall k | k in values ensures k in decrypted {
      assert HasEntry(entries, k) && HasEntryBefore(entries, |entries|, k);
    }
  }

  lemma {:induction false} EntryOfIs(entries: seq<KvEntry>, key: string)
    ensures EntryOf(entries, key).Some? <==> HasEntry(entries, key)
    ensures EntryOf(entries, key).Some? ==>
              exists i :: 0 <= i < |entries| && entries[i] == EntryOf(entries, key).value && entries[i].key == key
  {
    if entries != [] && entries[0].key != key {
      EntryOfIs(entries[1..], key);
      if HasEntry(entries, key) {
        var i :| 0 <= i < |entries| && entries[i].key == key;
        assert entries[1..][i - 1] == entries[i];
      }
      if EntryOf(entries[1..], key).Some? {
        var i :| 0 <= i < |entries[1..]| && entries[1..][i] == EntryOf(entries[1..], key).value;
        assert entries[i + 1] == entries[1..][i];
      }
    }
  }

  // ---- sound documents ---------------------------------------------------------------

  ghost predicate SoundKv(suite: Suite, dir: Directory, body: KvBody, masterKey: Key, values: Values) {
    body.head.aead == XChaCha20Poly1305
    && CheckWrapItems(suite.texts, body.wrap.wrap) == Ok(())
    && AllDeliver(suite, dir, body.wrap.wrap, body.head.sid, Kv, masterKey)
    && EntriesHold(suite, masterKey, body.head.sid, body.entries, values)
  }

  ghost predicate SoundKvDocument(suite: Suite, dir: Directory, doc: KvDocument, masterKey: Key, values: Values) {
    SoundKv(suite, dir, doc.body, masterKey, values) && CheckKvPossession(suite, doc, masterKey) == Ok(())
  }

  lemma KvKeyOpensExactly(suite: Suite, dir: Directory, doc: KvDocument, masterKey: Key, values: Values,
                          handle: string, keys: KeyContext)
    requires Ideal(suite) && SoundKvDocument(suite, dir, doc, masterKey, values) && KeysMatch(suite, dir, keys)
    ensures OpenKvKey(suite, doc, handle, keys).ToOption()
         == if Admits(doc.body.wrap.wrap, handle, keys) then Some(masterKey) else None
  {
    OpensExactly(suite, dir, doc.body.wrap.wrap, doc.body.head.sid, Kv, masterKey, handle, keys);
  }

  /** The whole map comes back, for exactly those the document admits, if every value can be read. */
  lemma MapDecryptsExactly(suite: Suite, dir: Directory, doc: KvDocument, masterKey: Key, values: Values,
                           handle: string, keys: KeyContext)
    requires Ideal(suite) && SoundKvDocument(suite, dir, doc, masterKey, values) && KeysMatch(suite, dir, keys)
    ensures DecryptKv(suite, doc, handle, keys).ToOption()
         == if Admits(doc.body.wrap.wrap, handle, keys) && AllFit(values) then Some(values) else None
  {
    KvKeyOpensExactly(suite, dir, doc, masterKey, values, handle, keys);
    EntriesDecryptExactly(suite, masterKey, doc.body.head, doc.body.entries, values);
  }

  /** One key comes back alone, whatever becomes of the others. */
  lemma SingleDecryptsExactly(suite: Suite, dir: Directory, doc: KvDocument, masterKey: Key, values: Values,
                              handle: string, keys: KeyContext, key: string)
    requires Ideal(suite) && SoundKvDocument(suite, dir, doc, masterKey, values) && KeysMatch(suite, dir, keys)
    ensures DecryptKvSingle(suite, doc, handle, keys, key).ToOption()
         == if Admits(doc.body.wrap.wrap, handle, keys) && key in values && Fits(values[key]) then Some(values[key])
            else None
    ensures Admits(doc.body.wrap.wrap, handle, keys) && key !in values ==>
              DecryptKvSingle(suite, doc, handle, keys, key) == Err(KeyNotFound)
  {
    KvKeyOpensExactly(suite, dir, doc, masterKey, values, handle, keys);
    EntryOfIs(doc.body.entries, key);
    var nonces :| EntriesUnder(suite, masterKey, doc.body.head.sid, doc.body.entries, values, nonces);
    if key in values {
      assert HasEntry(doc.body.entries, key);
      EntryDecrypts(suite, masterKey, doc.body.head, EntryOf(doc.body.entries, key).value, values, nonces);
    } else {
      assert !HasEntry(doc.body.entries, key);
    }
  }

  // ---- encrypting ---------------------------------------------------------------------

  ghost predicate AllDisclosed(entries: seq<KvEntry>, disclosed: bool) {
    forall i :: 0 <= i < |entries| ==> entries[i].value.disclosed == disclosed
  }

  ghost predicate DistinctPairs(pairs: seq<Pair>) {
    forall i, j :: 0 <= i < j < |pairs| ==> pairs[i].key != pairs[j].key
  }

  lemma IterationIsDistinct(pairs: seq<Pair>, values: Values)
    requires IsIterationOf(pairs, values)
    ensures DistinctPairs(pairs)
  {
    var keys := seq(|pairs|, i requires 0 <= i < |pairs| => pairs[i].key);
    forall k
      ensures k in keys <==> k in values
    {
      if k in keys {
        var i :| 0 <= i < |keys| && keys[i] == k;
        assert pairs[i].key == k;
      }
      if k in values {
        var i :| 0 <= i < |pairs| && pairs[i].key == k;
        assert keys[i] == k;
      }
    }
    assert (set k | k in keys) == values.Keys;
    Seqs.CountedNoRepeats(keys);
    forall i, j | 0 <= i < j < |pairs|
      ensures pairs[i].key != pairs[j].key
    {
      assert keys[i] != keys[j];
    }
  }

  /** An entry for each of the first `n` pairs. */
  ghost predicate WrittenFor(suite: Suite, masterKey: Key, sid: Uuid, entries: seq<KvEntry>, values: Values,
                             nonces: Nonces, pairs: seq<Pair>, n: nat, disclosed: bool)
  {
    |entries| == n <= |pairs| && AllDisclosed(entries, disclosed)
    && forall i :: 0 <= i < n ==> entries[i].key == pairs[i].key
                                  && IsEntryOf(suite, masterKey, sid, entries[i], values, nonces)
  }

  lemma OneMoreWritten(suite: Suite, masterKey: Key, sid: Uuid, entries: seq<KvEntry>, values: Values, nonces: Nonces,
                       pairs: seq<Pair>, n: nat, disclosed: bool, nonce: Nonce, entry: KvEntry)
    requires n < |pairs| && DistinctPairs(pairs) && pairs[n].key in values && values[pairs[n].key] == pairs[n].value
    requires WrittenFor(suite, masterKey, sid, entries, values, nonces, pairs, n, disclosed)
    requires entry == KvEntry(pairs[n].key, EncryptEntry(suite, masterKey, sid, pairs[n].key, pairs[n].value, nonce,
                                                         disclosed))
    ensures WrittenFor(suite, masterKey, sid, entries + [entry], values, nonces[pairs[n].key := nonce], pairs, n + 1,
                       disclosed)
  {
    var more := nonces[pairs[n].key := nonce];
    forall i | 0 <= i < n + 1
      ensures (entries + [entry])[i].key == pairs[i].key
      ensures IsEntryOf(suite, masterKey, sid, (entries + [entry])[i], values, more)
    {
      if i < n {
        assert IsEntryOf(suite, masterKey, sid, entries[i], values, nonces);
        assert pairs[i].key != pairs[n].key;
      }
    }
  }

  lemma WrittenHold(suite: Suite, masterKey: Key, sid: Uuid, entries: seq<KvEntry>, values: Values, nonces: Nonces,
                    pairs: seq<Pair>, disclosed: bool)
    requires WrittenFor(suite, masterKey, sid, entries, values, nonces, pairs, |pairs|, disclosed)
    requires IsIterationOf(pairs, values)
    ensures EntriesUnder(suite, masterKey, sid, entries, values, nonces)
  {
    forall k | k in values
      ensures HasEntry(entries, k)
    {
      var j :| 0 <= j < |pairs| && pairs[j].key == k;
      assert entries[j].key == k;
    }
  }

  lemma PermutedHold(suite: Suite, masterKey: Key, sid: Uuid, built: seq<KvEntry>, entries: seq<KvEntry>,
                     values: Values, nonces: Nonces, disclosed: bool)
    requires multiset(built) == multiset(entries)
    requires EntriesUnder(suite, masterKey, sid, built, values, nonces) && AllDisclosed(built, disclosed)
    ensures EntriesUnder(suite, masterKey, sid, entries, values, nonces) && AllDisclosed(entries, disclosed)
  {
    forall i | 0 <= i < |entries|
      ensures IsEntryOf(suite, masterKey, sid, entries[i], values, nonces) && entries[i].value.disclosed == disclosed
    {
      assert entries[i] in multiset(built);
      var j :| 0 <= j < |built| && built[j] == entries[i];
    }
    forall k | k in values
      ensures HasEntry(entries, k)
    {
      assert HasEntry(built, k);
      var j :| 0 <= j < |built| && built[j].key == k;
      assert built[j] in multiset(entries);
    }
  }

  lemma SortedHold(suite: Suite, masterKey: Key, sid: Uuid, built: seq<KvEntry>, values: Values, nonces: Nonces,
                   pairs: seq<Pair>, disclosed: bool)
    requires WrittenFor(suite, masterKey, sid, built, values, nonces, pairs, |pairs|, disclosed)
    requires IsIterationOf(pairs, values)
    ensures var entries := Ordering.SortedBy(KeyOf(), built);
            EntriesHold(suite, masterKey, sid, entries, values) && AllDisclosed(entries, disclosed)
            && Ordering.StrictlyAscending(KeyOf(), entries)
  {
    WrittenHold(suite, masterKey, sid, built, values, nonces, pairs, disclosed);
    Ordering.SortedIsPermutation(KeyOf(), built);
    PermutedHold(suite, masterKey, sid, built, Ordering.SortedBy(KeyOf(), built), values, nonces, disclosed);
    IterationIsDistinct(pairs, values);
    assert forall i :: 0 <= i < |built| ==> KeyOf()(built[i]) == pairs[i].key;
    Ordering.SortedDistinct(KeyOf(), built);
  }

  // ---- the lines of an encrypted map ---------------------------------------------------------

  /** What the entries of these pairs measure, each flagged alike. */
  function LinesFor(pairs: seq<Pair>, disclosed: bool): (lines: seq<Line>)
    ensures |lines| == |pairs|
    ensures forall i :: 0 <= i < |lines| ==>
                          lines[i] == Line(pairs[i].key, EncodedLen(|pairs[i].value| + AEAD_TAG_LENGTH), disclosed)
  {
    seq(|pairs|, i requires 0 <= i < |pairs| =>
          Line(pairs[i].key, EncodedLen(|pairs[i].value| + AEAD_TAG_LENGTH), disclosed))
  }

  lemma EntryIsSpelled(suite: Suite, masterKey: Key, sid: Uuid, entry: KvEntry, values: Values, nonces: Nonces)
    requires Ideal(suite) && IsEntryOf(suite, masterKey, sid, entry, values, nonces)
    ensures IsSpelledEntry(suite.texts, entry.value)
    ensures |entry.value.ct| == EncodedLen(|values[entry.key]| + AEAD_TAG_LENGTH)
  {
    var nonce, value := nonces[entry.key], values[entry.key];
    var key := EntryKey(suite, masterKey, sid, entry.key, suite.texts.encode(nonce));
    var aad := EntryContext(AadKvEntryPayloadV1, sid, entry.key);
    assert EncryptsAndDecrypts(suite, key, nonce, aad, value);
    var ct := suite.encrypt(key, nonce, aad, value);
    assert RoundTrips(suite.texts, ct);
    assert entry.value.nonce == suite.texts.encode(nonce) && entry.value.ct == suite.texts.encode(ct) && ct != [];
  }

  /** The entries have distinct keys and measure as the pairs do, in whatever order. */
  ghost predicate IsWrittenFor(entries: seq<KvEntry>, pairs: seq<Pair>, disclosed: bool) {
    DistinctEntryKeys(entries) && multiset(LinesOf(entries)) == multiset(LinesFor(pairs, disclosed))
  }

  lemma LineIs(suite: Suite, masterKey: Key, sid: Uuid, entry: KvEntry, values: Values, nonces: Nonces, pair: Pair)
    requires Ideal(suite) && IsEntryOf(suite, masterKey, sid, entry, values, nonces)
    requires entry.key == pair.key && values[pair.key] == pair.value
    ensures LineOf(entry)
         == Line(pair.key, EncodedLen(|pair.value| + AEAD_TAG_LENGTH), entry.value.disclosed)
  {
    EntryIsSpelled(suite, masterKey, sid, entry, values, nonces);
  }

  lemma AscendingKeysAreDistinct(entries: seq<KvEntry>)
    requires Ordering.StrictlyAscending(KeyOf(), entries)
    ensures DistinctEntryKeys(entries)
  {
    Ordering.StrictHasNoRepeats(KeyOf(), entries);
    forall i, j | 0 <= i < j < |entries|
      ensures entries[i].key != entries[j].key
    {
      assert KeyOf()(entries[i]) != KeyOf()(entries[j]);
    }
  }

  lemma LinesMatch(suite: Suite, masterKey: Key, sid: Uuid, entries: seq<KvEntry>, values: Values, nonces: Nonces,
                   pairs: seq<Pair>, disclosed: bool, i: nat, j: nat)
    requires Ideal(suite) && IsIterationOf(pairs, values)
    requires EntriesUnder(suite, masterKey, sid, entries, values, nonces) && AllDisclosed(entries, disclosed)
    requires i < |entries| && j < |pairs| && entries[i].key == pairs[j].key
    ensures LinesOf(entries)[i] == LinesFor(pairs, disclosed)[j]
  {
    assert IsEntryOf(suite, masterKey, sid, entries[i], values, nonces);
    LineIs(suite, masterKey, sid, entries[i], values, nonces, pairs[j]);
  }

  lemma EntryHasLine(suite: Suite, masterKey: Key, sid: Uuid, entries: seq<KvEntry>, values: Values, nonces: Nonces,
                     pairs: seq<Pair>, disclosed: bool, i: nat)
    requires Ideal(suite) && IsIterationOf(pairs, values)
    requires EntriesUnder(suite, masterKey, sid, entries, values, nonces) && AllDisclosed(entries, disclosed)
    requires i < |entries|
    ensures LinesOf(entries)[i] in LinesFor(pairs, disclosed)
  {
    assert IsEntryOf(suite, masterKey, sid, entries[i], values, nonces);
    var j :| 0 <= j < |pairs| && pairs[j].key == entries[i].key;
    LinesMatch(suite, masterKey, sid, entries, values, nonces, pairs, disclosed, i, j);
  }

  lemma LineHasEntry(suite: Suite, masterKey: Key, sid: Uuid, entries: seq<KvEntry>, values: Values, nonces: Nonces,
                     pairs: seq<Pair>, disclosed: bool, j: nat)
    requires Ideal(suite) && IsIterationOf(pairs, values)
    requires EntriesUnder(suite, masterKey, sid, entries, values, nonces) && AllDisclosed(entries, disclosed)
    requires j < |pairs|
    ensures LinesFor(pairs, disclosed)[j] in LinesOf(entries)
  {
    assert HasEntry(entries, pairs[j].key);
    var i :| 0 <= i < |entries| && entries[i].key == pairs[j].key;
    LinesMatch(suite, masterKey, sid, entries, values, nonces, pairs, disclosed, i, j);
  }

  lemma LinesAmong(suite: Suite, masterKey: Key, sid: Uuid, entries: seq<KvEntry>, values: Values, nonces: Nonces,
                   pairs: seq<Pair>, disclosed: bool)
    requires Ideal(suite) && IsIterationOf(pairs, values)
    requires EntriesUnder(suite, masterKey, sid, entries, values, nonces) && AllDisclosed(entries, disclosed)
    ensures forall l :: l in LinesOf(entries) <==> l in LinesFor(pairs, disclosed)
  {
    forall i | 0 <= i < |entries|
      ensures LinesOf(entries)[i] in LinesFor(pairs, disclosed)
    {
      EntryHasLine(suite, masterKey, sid, entries, values, nonces, pairs, disclosed, i);
    }
    forall j | 0 <= j < |pairs|
      ensures LinesFor(pairs, disclosed)[j] in LinesOf(entries)
    {
      LineHasEntry(suite, masterKey, sid, entries, values, nonces, pairs, disclosed, j);
    }
  }

  lemma LinesAreDistinct(entries: seq<KvEntry>, pairs: seq<Pair>, disclosed: bool)
    requires DistinctEntryKeys(entries) && DistinctPairs(pairs)
    ensures Seqs.NoRepeats(LinesOf(entries)) && Seqs.NoRepeats(LinesFor(pairs, disclosed))
  {
  }

  /** Entries for each value of a map, all flagged or none, measure as the map does. */
  lemma HeldIsWritten(suite: Suite, masterKey: Key, sid: Uuid, entries: seq<KvEntry>, values: Values,
                      pairs: seq<Pair>, disclosed: bool)
    requires Ideal(suite) && IsIterationOf(pairs, values)
    requires EntriesHold(suite, masterKey, sid, entries, values) && DistinctEntryKeys(entries)
    requires AllDisclosed(entries, disclosed)
    ensures IsWrittenFor(entries, pairs, disclosed)
  {
    var nonces :| EntriesUnder(suite, masterKey, sid, entries, values, nonces);
    IterationIsDistinct(pairs, values);
    LinesAreDistinct(entries, pairs, disclosed);
    LinesAmong(suite, masterKey, sid, entries, values, nonces, pairs, disclosed);
    Seqs.SameElements(LinesOf(entries), LinesFor(pairs, disclosed));
  }

  // ---- the nonces of an encrypted map --------------------------------------------------------

  /** The entry of the key is under the nonce of this draw. */
  ghost predicate TakesNonce(suite: Suite, entropy: Entropy, draw: nat, entries: seq<KvEntry>, key: string) {
    forall e :: e in entries && e.key == key ==> e.value.nonce == suite.texts.encode(entropy.nonces(draw))
  }

  /** The entry of the `i`-th pair is under the `i`-th nonce drawn from `drawn` on. */
  ghost predicate TakesNonces(suite: Suite, entropy: Entropy, drawn: nat, entries: seq<KvEntry>, pairs: seq<Pair>) {
    forall i :: 0 <= i < |pairs| ==> TakesNonce(suite, entropy, drawn + i, entries, pairs[i].key)
  }

  lemma OneMoreNonce(suite: Suite, entropy: Entropy, drawn: nat, entries: seq<KvEntry>, pairs: seq<Pair>,
                     entry: KvEntry, n: nat)
    requires n < |pairs| && DistinctPairs(pairs) && TakesNonces(suite, entropy, drawn, entries, pairs)
    requires entry.key == pairs[n].key && entry.value.nonce == suite.texts.encode(entropy.nonces(drawn + n))
    ensures TakesNonces(suite, entropy, drawn, entries + [entry], pairs)
  {
  }

  lemma SortedNonces(suite: Suite, entropy: Entropy, drawn: nat, built: seq<KvEntry>, pairs: seq<Pair>)
    requires TakesNonces(suite, entropy, drawn, built, pairs)
    ensures TakesNonces(suite, entropy, drawn, Ordering.SortedBy(KeyOf(), built), pairs)
  {
    var entries := Ordering.SortedBy(KeyOf(), built);
    Ordering.SortedIsPermutation(KeyOf(), built);
    forall e | e in entries
      ensures e in built
    {
      assert e in multiset(entries);
    }
  }

  /** The `n` draws from `drawn` on differ from one another. */
  ghost predicate DifferentDraws(entropy: Entropy, drawn: nat, n: nat) {
    forall i, j :: drawn <= i < j < drawn + n ==> entropy.nonces(i) != entropy.nonces(j)
  }

  lemma DifferentTexts(suite: Suite, entropy: Entropy, drawn: nat, n: nat, i: nat, j: nat)
    requires Ideal(suite) && DifferentDraws(entropy, drawn, n) && i < n && j < n && i != j
    ensures suite.texts.encode(entropy.nonces(drawn + i)) != suite.texts.encode(entropy.nonces(drawn + j))
  {
    assert RoundTrips(suite.texts, entropy.nonces(drawn + i)) && RoundTrips(suite.texts, entropy.nonces(drawn + j));
    assert |entropy.nonces(drawn + i)| == |entropy.nonces(drawn + j)| == 24;
    if i < j {
      assert entropy.nonces(drawn + i) != entropy.nonces(drawn + j);
    } else {
      assert entropy.nonces(drawn + j) != entropy.nonces(drawn + i);
    }
  }

  /** Where the draws differ, no two entries of a map have the same nonce text. */
  lemma NoncesDiffer(suite: Suite, entropy: Entropy, drawn: nat, masterKey: Key, sid: Uuid, entries: seq<KvEntry>,
                     values: Values, pairs: seq<Pair>, i: nat, j: nat)
    requires Ideal(suite) && IsIterationOf(pairs, values) && DifferentDraws(entropy, drawn, |pairs|)
    requires EntriesHold(suite, masterKey, sid, entries, values) && DistinctEntryKeys(entries)
    requires TakesNonces(suite, entropy, drawn, entries, pairs)
    requires i < j < |entries|
    ensures entries[i].value.nonce != entries[j].value.nonce
  {
    var nonces :| EntriesUnder(suite, masterKey, sid, entries, values, nonces);
    assert IsEntryOf(suite, masterKey, sid, entries[i], values, nonces);
    assert IsEntryOf(suite, masterKey, sid, entries[j], values, nonces);
    var p :| 0 <= p < |pairs| && pairs[p].key == entries[i].key;
    var q :| 0 <= q < |pairs| && pairs[q].key == entries[j].key;
    assert entries[i] in entries && entries[j] in entries;
    DifferentTexts(suite, entropy, drawn, |pairs|, p, q);
  }

  /**
   * One entry for each pair of the map as it is iterated over, each under a nonce
   * of its own; then sorted, so that equal maps give their keys in equal order.
   */
  method EncryptKvEntries(suite: Suite, entropy: Entropy, drawn: nat, masterKey: Key, sid: Uuid, values: Values,
                          disclosed: bool) returns (entries: seq<KvEntry>)
    requires Iterates(entropy)
    ensures EntriesHold(suite, masterKey, sid, entries, values)
    ensures AllDisclosed(entries, disclosed) && Ordering.StrictlyAscending(KeyOf(), entries)
    ensures TakesNonces(suite, entropy, drawn, entries, entropy.iterate(values))
    ensures Ideal(suite) ==> IsWrittenFor(entries, entropy.iterate(values), disclosed)
  {
    var pairs := entropy.iterate(values);
    assert IsIterationOf(pairs, values);
    IterationIsDistinct(pairs, values);
    ghost var nonces: Nonces := map[];
    entries := [];
    for i := 0 to |pairs|
      invariant WrittenFor(suite, masterKey, sid, entries, values, nonces, pairs, i, disclosed)
      invariant TakesNonces(suite, entropy, drawn, entries, pairs)
    {
      var value := EncryptEntry(suite, masterKey, sid, pairs[i].key, pairs[i].value, entropy.nonces(drawn + i),
                                disclosed);
      OneMoreWritten(suite, masterKey, sid, entries, values, nonces, pairs, i, disclosed, entropy.nonces(drawn + i),
                     KvEntry(pairs[i].key, value));
      OneMoreNonce(suite, entropy, drawn, entries, pairs, KvEntry(pairs[i].key, value), i);
      nonces := nonces[pairs[i].key := entropy.nonces(drawn + i)];
      entries := entries + [KvEntry(pairs[i].key, value)];
    }
    SortedHold(suite, masterKey, sid, entries, values, nonces, pairs, disclosed);
    SortedNonces(suite, entropy, drawn, entries, pairs);
    entries := Ordering.SortedBy(KeyOf(), entries);
    if Ideal(suite) {
      AscendingKeysAreDistinct(entries);
      HeldIsWritten(suite, masterKey, sid, entries, values, pairs, disclosed);
    }
  }

  /** Under the master key: one wrap for each of the members in order, and an entry for each value. */
  ghost predicate AddressedKv(suite: Suite, dir: Directory, doc: KvDocument, masterKey: Key, members: seq<Member>,
                              values: Values)
  {
    SoundKvDocument(suite, dir, doc, masterKey, values)
    && WrapsFor(suite, dir, doc.body.wrap.wrap, members, doc.body.head.sid, Kv, masterKey)
  }

  lemma AssembledIsAddressed(suite: Suite, dir: Directory, masterKey: Key, head: KvHeader, members: seq<Member>,
                             wrap: seq<WrapItem>, history: Option<History>, entries: seq<KvEntry>,
                             signerKid: string, values: Values)
    requires WrapsFor(suite, dir, wrap, members, head.sid, Kv, masterKey) && head.aead == XChaCha20Poly1305
    requires |members| <= MAX_WRAP_ITEMS && DistinctMembers(members)
    requires EntriesHold(suite, masterKey, head.sid, entries, values)
    ensures AddressedKv(suite, dir, AssembleKv(suite, masterKey, head, wrap, history, entries, signerKid), masterKey,
                        members, values)
  {
    var doc := AssembleKv(suite, masterKey, head, wrap, history, entries, signerKid);
    WrapsAreAccepted(suite, dir, wrap, members, head.sid, Kv, masterKey);
    assert SoundKvDocument(suite, dir, doc, masterKey, values);
  }

  /** The head and the wraps of a fresh document, under the key drawn for it. */
  method BuildKvEncryption(suite: Suite, entropy: Entropy, drawn: nat, members: seq<Member>, sid: Uuid, now: string,
                           ghost dir: Directory)
    returns (r: Result<(Key, KvHeader, seq<WrapItem>), EnvelopeError>)
    ensures |members| > MAX_WRAP_ITEMS ==> r == Err(TooManyWraps)
    ensures |members| <= MAX_WRAP_ITEMS && Ideal(suite) && VerifiedMembers(suite, dir, members) ==> r.Ok?
    ensures r.Ok? ==> r.value.0 == entropy.keys(drawn + 1)
                      && r.value.1 == KvHeader(sid, XChaCha20Poly1305, now, now)
                      && Appends(suite, [], r.value.2, MemberHandles(members), sid, Kv, r.value.0, drawn + 2)
                      && HandlesOf(r.value.2) == MemberHandles(members)
    ensures r.Ok? && Ideal(suite) && VerifiedMembers(suite, dir, members) ==>
              WrapsFor(suite, dir, r.value.2, members, sid, Kv, r.value.0)
  {
    var masterKey := entropy.keys(drawn + 1);
    var wrap := BuildWraps(suite, drawn + 2, members, sid, masterKey, Kv);
    if Ideal(suite) && VerifiedMembers(suite, dir, members) {
      BuiltEach(suite, dir, drawn + 2, members, sid, masterKey, Kv);
    }
    if wrap.Err? {
      return Err(wrap.error);
    }
    AppendedInOrder(suite, [], drawn + 2, members, sid, masterKey, Kv, wrap.value);
    assert [] + wrap.value == wrap.value;
    AppendedHandles(suite, [], wrap.value, MemberHandles(members), sid, Kv, masterKey, drawn + 2);
    return Ok((masterKey, KvHeader(sid, XChaCha20Poly1305, now, now), wrap.value));
  }

  /**
   * A map encrypted to distinct verified members is addressed to exactly them, so
   * that AddressedMapDecryptsExactly applies to it. Draws: the document id, the
   * master key, one for each wrap, one for each entry. `history` is what the
   * caller leaves as the removal history of the fresh wrap.
   */
  method EncryptKvMap(suite: Suite, entropy: Entropy, drawn: nat, values: Values, members: seq<Member>,
                      signerKid: string, now: string, disclosed: bool, history: Option<History>,
                      ghost dir: Directory) returns (r: Result<KvDocument, EnvelopeError>)
    requires Iterates(entropy)
    ensures |members| > MAX_WRAP_ITEMS ==> r == Err(TooManyWraps)
    ensures |members| <= MAX_WRAP_ITEMS && Ideal(suite) && VerifiedMembers(suite, dir, members) ==>
              r.Ok? && AddressedKv(suite, dir, r.value, entropy.keys(drawn + 1), members, values)
              && IsWrittenFor(r.value.body.entries, entropy.iterate(values), disclosed)
    ensures r.Ok? ==> r.value.body.head.sid == entropy.uuids(drawn)
                      && r.value.body.head.createdAt == r.value.body.head.updatedAt == now
                      && r.value.body.wrap.removedRecipients == history
                      && AllDisclosed(r.value.body.entries, disclosed) && r.value.signature.kid == signerKid
    ensures r.Ok? ==> Appends(suite, [], r.value.body.wrap.wrap, MemberHandles(members), r.value.body.head.sid, Kv,
                              entropy.keys(drawn + 1), drawn + 2)
    ensures r.Ok? ==> HandlesOf(r.value.body.wrap.wrap) == MemberHandles(members)
    ensures r.Ok? ==> TakesNonces(suite, entropy, EntryDraw(drawn, |members|), r.value.body.entries,
                                  entropy.iterate(values))
  {
    var sid := entropy.uuids(drawn);
    var built := BuildKvEncryption(suite, entropy, drawn, members, sid, now, dir);
    if built.Err? {
      return Err(built.error);
    }
    var (masterKey, head, wrap) := built.value;
    var entries := EncryptKvEntries(suite, entropy, EntryDraw(drawn, |members|), masterKey, sid, values, disclosed);
    var doc := AssembleKv(suite, masterKey, head, wrap, history, entries, signerKid);
    if Ideal(suite) && VerifiedMembers(suite, dir, members) {
      AssembledIsAddressed(suite, dir, masterKey, head, members, wrap, history, entries, signerKid, values);
    }
    return Ok(doc);
  }

  /** An addressed document comes back whole to each of its members, and to nobody else. */
  lemma AddressedMapDecryptsExactly(suite: Suite, dir: Directory, doc: KvDocument, masterKey: Key, values: Values,
                                    members: seq<Member>, handle: string, keys: KeyContext)
    requires Ideal(suite) && AddressedKv(suite, dir, doc, masterKey, members, values) && KeysMatch(suite, dir, keys)
    ensures DecryptKv(suite, doc, handle, keys).ToOption()
         == if AllFit(values) && AdmitsMember(members, handle, keys) then Some(values) else None
  {
    MapDecryptsExactly(suite, dir, doc, masterKey, values, handle, keys);
    AdmittedExactly(suite, dir, doc.body.wrap.wrap, members, doc.body.head.sid, Kv, masterKey, handle, keys);
  }

  // ---- any document, sound or not ------------------------------------------------------

  /** The tag is the one of this body and signer under the document's own key. */
  ghost predicate IsTagged(suite: Suite, doc: KvDocument, masterKey: Key) {
    doc.signature.mac == suite.tag(KvMacKey(suite, masterKey, doc.body.head.sid), ArtifactBody.KvText(doc.body),
                                   doc.signature.kid)
  }

  /** A master key comes out of a document exactly when a wrap yields it and the tag is right under it. */
  lemma OpensOnlyTagged(suite: Suite, doc: KvDocument, handle: string, keys: KeyContext, masterKey: Key)
    requires UnwrapWithContext(suite, doc.body.wrap.wrap, doc.body.head.sid, handle, keys, Kv) == Ok(masterKey)
    ensures OpenKvKey(suite, doc, handle, keys)
         == if IsTagged(suite, doc, masterKey) then Ok(masterKey) else Err(KeyPossessionInvalid)
  {
  }

  /** The entry decodes, and opens to the value under the key of its name and nonce, bound to its name. */
  ghost predicate EntryOpens(suite: Suite, masterKey: Key, head: KvHeader, entry: KvEntry, value: Bytes) {
    head.aead == XChaCha20Poly1305
    && Array(suite.texts, entry.value.nonce, 24).Ok? && Ciphertext(suite.texts, entry.value.ct).Ok?
    && suite.decrypt(EntryKey(suite, masterKey, head.sid, entry.key, entry.value.nonce),
                     Array(suite.texts, entry.value.nonce, 24).value,
                     EntryContext(AadKvEntryPayloadV1, head.sid, entry.key),
                     Ciphertext(suite.texts, entry.value.ct).value) == Some(value)
  }

  lemma DecryptsEntryExactly(suite: Suite, masterKey: Key, head: KvHeader, entry: KvEntry, value: Bytes)
    ensures DecryptEntry(suite, masterKey, head.sid, head.aead, entry) == Ok(value)
       <==> EntryOpens(suite, masterKey, head, entry, value)
    ensures head.aead != XChaCha20Poly1305 ==>
              DecryptEntry(suite, masterKey, head.sid, head.aead, entry) == Err(UnsupportedAlgorithm)
  {
  }

  ghost predicate IsLastBefore(entries: seq<KvEntry>, n: nat, i: int) {
    0 <= i < n <= |entries| && forall j :: i < j < n ==> entries[j].key != entries[i].key
  }

  /** The map of the first `n` entries: of those under one key the last one counts. */
  ghost predicate LastWins(read: Reader, entries: seq<KvEntry>, n: nat, values: Values) {
    (forall k :: k in values <==> HasEntryBefore(entries, n, k))
    && forall i :: IsLastBefore(entries, n, i) ==> Ok(values[entries[i].key]) == read(entries[i])
  }

  lemma BeforeOneMore(entries: seq<KvEntry>, n: nat, k: string)
    requires n < |entries|
    ensures HasEntryBefore(entries, n + 1, k) <==> k == entries[n].key || HasEntryBefore(entries, n, k)
  {
    if i :| 0 <= i < |entries| && i < n && entries[i].key == k {
      assert i < n + 1;
    }
  }

  lemma OneMoreRead(read: Reader, entries: seq<KvEntry>, n: nat, before: Values, value: Bytes)
    requires n < |entries| && LastWins(read, entries, n, before) && read(entries[n]) == Ok(value)
    ensures LastWins(read, entries, n + 1, before[entries[n].key := value])
  {
    var after := before[entries[n].key := value];
    forall k
      ensures k in after <==> HasEntryBefore(entries, n + 1, k)
    {
      BeforeOneMore(entries, n, k);
    }
    forall i | IsLastBefore(entries, n + 1, i)
      ensures Ok(after[entries[i].key]) == read(entries[i])
    {
      if i < n {
        assert entries[n].key != entries[i].key;
        assert IsLastBefore(entries, n, i);
      }
    }
  }

  lemma {:induction false} ReadsEachExactly(read: Reader, entries: seq<KvEntry>, n: nat)
    requires n <= |entries|
    ensures ReadFirst(read, entries, n).Ok? <==> forall i :: 0 <= i < n ==> read(entries[i]).Ok?
  {
    if n > 0 {
      ReadsEachExactly(read, entries, n - 1);
    }
  }

  lemma NothingRead(read: Reader, entries: seq<KvEntry>)
    ensures LastWins(read, entries, 0, map[])
  {
  }

  lemma {:induction false} LastOnesWin(read: Reader, entries: seq<KvEntry>, n: nat, values: Values)
    requires n <= |entries| && ReadFirst(read, entries, n) == Ok(values)
    ensures LastWins(read, entries, n, values)
  {
    if n == 0 {
      NothingRead(read, entries);
    } else {
      var before, value := ReadFirst(read, entries, n - 1).value, read(entries[n - 1]).value;
      assert values == before[entries[n - 1].key := value];
      LastOnesWin(read, entries, n - 1, before);
      OneMoreRead(read, entries, n - 1, before, value);
    }
  }

  /** The key that comes out of the document, if any. */
  ghost predicate YieldsKey(suite: Suite, doc: KvDocument, handle: string, keys: KeyContext, masterKey: Key) {
    UnwrapWithContext(suite, doc.body.wrap.wrap, doc.body.head.sid, handle, keys, Kv) == Ok(masterKey)
    && IsTagged(suite, doc, masterKey)
  }

  lemma OpensKvOnlyIf(suite: Suite, doc: KvDocument, handle: string, keys: KeyContext, masterKey: Key)
    ensures OpenKvKey(suite, doc, handle, keys) == Ok(masterKey) <==> YieldsKey(suite, doc, handle, keys, masterKey)
  {
    var unwrapped := UnwrapWithContext(suite, doc.body.wrap.wrap, doc.body.head.sid, handle, keys, Kv);
    if unwrapped.Ok? {
      OpensOnlyTagged(suite, doc, handle, keys, unwrapped.value);
    }
  }

  ghost predicate EntryYields(suite: Suite, masterKey: Key, head: KvHeader, entry: KvEntry) {
    exists value: Bytes :: EntryOpens(suite, masterKey, head, entry, value)
  }

  /** The map holds a value for every key with an entry, and it is what the last entry of the key opens to. */
  ghost predicate IsOpened(suite: Suite, masterKey: Key, doc: KvDocument, values: Values) {
    var entries := doc.body.entries;
    (forall k :: k in values <==> HasEntry(entries, k))
    && (forall i :: 0 <= i < |entries| ==> EntryYields(suite, masterKey, doc.body.head, entries[i]))
    && forall i :: IsLastBefore(entries, |entries|, i) ==>
         EntryOpens(suite, masterKey, doc.body.head, entries[i], values[entries[i].key])
  }

  lemma EntryReadsExactly(suite: Suite, masterKey: Key, head: KvHeader, entry: KvEntry)
    ensures var r := EntryReader(suite, masterKey, head)(entry);
            (r.Ok? <==> EntryYields(suite, masterKey, head, entry))
            && (r.Ok? ==> EntryOpens(suite, masterKey, head, entry, r.value))
  {
    var r := EntryReader(suite, masterKey, head)(entry);
    if r.Ok? {
      DecryptsEntryExactly(suite, masterKey, head, entry, r.value);
    }
    if value: Bytes :| EntryOpens(suite, masterKey, head, entry, value) {
      DecryptsEntryExactly(suite, masterKey, head, entry, value);
    }
  }

  lemma LastIsOpened(suite: Suite, masterKey: Key, doc: KvDocument, values: Values)
    requires LastWins(EntryReader(suite, masterKey, doc.body.head), doc.body.entries, |doc.body.entries|, values)
    requires forall i :: 0 <= i < |doc.body.entries| ==>
                           EntryYields(suite, masterKey, doc.body.head, doc.body.entries[i])
    ensures IsOpened(suite, masterKey, doc, values)
  {
    var entries, head := doc.body.entries, doc.body.head;
    forall k
      ensures k in values <==> HasEntry(entries, k)
    {
      assert HasEntryBefore(entries, |entries|, k) <==> HasEntry(entries, k);
    }
    forall i | IsLastBefore(entries, |entries|, i)
      ensures EntryOpens(suite, masterKey, head, entries[i], values[entries[i].key])
    {
      EntryReadsExactly(suite, masterKey, head, entries[i]);
    }
  }

  lemma EntriesDecryptOnlyIf(suite: Suite, masterKey: Key, doc: KvDocument)
    ensures var r := DecryptEntries(suite, masterKey, doc.body.head, doc.body.entries);
            (r.Ok? <==> forall i :: 0 <= i < |doc.body.entries| ==>
                                      EntryYields(suite, masterKey, doc.body.head, doc.body.entries[i]))
            && (r.Ok? ==> IsOpened(suite, masterKey, doc, r.value))
  {
    var entries, head := doc.body.entries, doc.body.head;
    ReadsEachExactly(EntryReader(suite, masterKey, head), entries, |entries|);
    forall i | 0 <= i < |entries|
      ensures EntryReader(suite, masterKey, head)(entries[i]).Ok? <==> EntryYields(suite, masterKey, head, entries[i])
    {
      EntryReadsExactly(suite, masterKey, head, entries[i]);
    }
    var r := DecryptEntries(suite, masterKey, head, entries);
    if r.Ok? {
      LastOnesWin(EntryReader(suite, masterKey, head), entries, |entries|, r.value);
      LastIsOpened(suite, masterKey, doc, r.value);
    }
  }

  /**
   * Whatever the document: a map comes out of it exactly when a wrap yields a master key,
   * the tag proves that the writer had it, and every entry opens under the key derived
   * from it for its name and nonce.
   */
  lemma KvDecryptsOnlyIf(suite: Suite, doc: KvDocument, handle: string, keys: KeyContext)
    ensures DecryptKv(suite, doc, handle, keys).Ok?
       <==> exists masterKey: Key ::
              YieldsKey(suite, doc, handle, keys, masterKey)
              && forall i :: 0 <= i < |doc.body.entries| ==>
                               EntryYields(suite, masterKey, doc.body.head, doc.body.entries[i])
    ensures DecryptKv(suite, doc, handle, keys).Ok? ==>
              exists masterKey: Key ::
                YieldsKey(suite, doc, handle, keys, masterKey)
                && IsOpened(suite, masterKey, doc, DecryptKv(suite, doc, handle, keys).value)
  {
    var unlocked := OpenKvKey(suite, doc, handle, keys);
    if unlocked.Ok? {
      OpensKvOnlyIf(suite, doc, handle, keys, unlocked.value);
      EntriesDecryptOnlyIf(suite, unlocked.value, doc);
    } else {
      forall masterKey: Key
        ensures !YieldsKey(suite, doc, handle, keys, masterKey)
      {
        OpensKvOnlyIf(suite, doc, handle, keys, masterKey);
      }
    }
  }

  ghost predicate IsFirstUnder(entries: seq<KvEntry>, i: int, key: string) {
    0 <= i < |entries| && entries[i].key == key && forall j :: 0 <= j < i ==> entries[j].key != key
  }

  lemma {:induction false} FirstEntry(entries: seq<KvEntry>, key: string)
    ensures EntryOf(entries, key).None? <==> !HasEntry(entries, key)
    ensures EntryOf(entries, key).Some? ==>
              exists i :: IsFirstUnder(entries, i, key) && EntryOf(entries, key) == Some(entries[i])
  {
    if entries != [] && entries[0].key != key {
      FirstEntry(entries[1..], key);
      if EntryOf(entries, key).Some? {
        var i :| IsFirstUnder(entries[1..], i, key) && EntryOf(entries[1..], key) == Some(entries[1..][i]);
        assert IsFirstUnder(entries, i + 1, key);
      }
      if i :| 0 <= i < |entries| && entries[i].key == key {
        assert entries[1..][i - 1].key == key;
      }
    } else if entries != [] {
      assert IsFirstUnder(entries, 0, key);
    }
  }

  /** One key alone: of its entries the first is read, and where there is none that is said. */
  lemma SingleDecryptsOnlyIf(suite: Suite, doc: KvDocument, handle: string, keys: KeyContext, key: string, value: Bytes)
    ensures DecryptKvSingle(suite, doc, handle, keys, key) == Ok(value)
       <==> exists masterKey: Key, i ::
              YieldsKey(suite, doc, handle, keys, masterKey) && IsFirstUnder(doc.body.entries, i, key)
              && EntryOpens(suite, masterKey, doc.body.head, doc.body.entries[i], value)
    ensures OpenKvKey(suite, doc, handle, keys).Ok? && !HasEntry(doc.body.entries, key) ==>
              DecryptKvSingle(suite, doc, handle, keys, key) == Err(KeyNotFound)
  {
    var unlocked := OpenKvKey(suite, doc, handle, keys);
    FirstEntry(doc.body.entries, key);
    if unlocked.Ok? {
      OpensKvOnlyIf(suite, doc, handle, keys, unlocked.value);
      if EntryOf(doc.body.entries, key).Some? {
        DecryptsEntryExactly(suite, unlocked.value, doc.body.head, EntryOf(doc.body.entries, key).value, value);
      }
    } else {
      forall masterKey: Key
        ensures !YieldsKey(suite, doc, handle, keys, masterKey)
      {
        OpensKvOnlyIf(suite, doc, handle, keys, masterKey);
      }
    }
  }

  /**
   * A body, or a signer, put in the place of a sound document's own is refused for
   * everybody it admits, if the tag tells the two apart.
   */
  lemma TamperedKvIsRefused(suite: Suite, dir: Directory, doc: KvDocument, masterKey: Key, values: Values,
                            tampered: KvBody, signerKid: string, handle: string, keys: KeyContext, key: string)
    requires Ideal(suite) && SoundKvDocument(suite, dir, doc, masterKey, values) && KeysMatch(suite, dir, keys)
    requires tampered.head.sid == doc.body.head.sid && tampered.wrap.wrap == doc.body.wrap.wrap
    requires suite.tag(KvMacKey(suite, masterKey, tampered.head.sid), ArtifactBody.KvText(tampered), signerKid)
          != suite.tag(KvMacKey(suite, masterKey, tampered.head.sid), ArtifactBody.KvText(doc.body), doc.signature.kid)
    ensures var forged := KvDocument(tampered, Signature(signerKid, doc.signature.mac));
            DecryptKv(suite, forged, handle, keys).Err? && DecryptKvSingle(suite, forged, handle, keys, key).Err?
            && (Admits(doc.body.wrap.wrap, handle, keys) ==>
                  DecryptKv(suite, forged, handle, keys) == Err(KeyPossessionInvalid)
                  && DecryptKvSingle(suite, forged, handle, keys, key) == Err(KeyPossessionInvalid))
  {
    OpensExactly(suite, dir, doc.body.wrap.wrap, doc.body.head.sid, Kv, masterKey, handle, keys);
    if Admits(doc.body.wrap.wrap, handle, keys) {
      OpensOnlyTagged(suite, KvDocument(tampered, Signature(signerKid, doc.signature.mac)), handle, keys, masterKey);
    }
  }

  // ---- written and read again -----------------------------------------------------------------

  lemma SoundIsWellFormed(suite: Suite, dir: Directory, body: KvBody, masterKey: Key, values: Values)
    requires Ideal(suite) && SoundKv(suite, dir, body, masterKey, values) && DistinctEntryKeys(body.entries)
    ensures IsWellFormed(suite.texts, body)
  {
    SetAcceptedExactly(suite.texts, body.wrap.wrap);
    var nonces :| EntriesUnder(suite, masterKey, body.head.sid, body.entries, values, nonces);
    forall i | 0 <= i < |body.entries|
      ensures IsSpelledEntry(suite.texts, body.entries[i].value)
    {
      EntryIsSpelled(suite, masterKey, body.head.sid, body.entries[i], values, nonces);
    }
  }

  /**
   * A map encrypted to members loads again exactly when its parts fit: nothing but the
   * members' handles, the history, the lengths of the values and the signer matters.
   */
  lemma WrittenLoadsExactly(suite: Suite, dir: Directory, publicKey: Node, doc: KvDocument, masterKey: Key,
                            members: seq<Member>, values: Values, pairs: seq<Pair>, disclosed: bool)
    requires Ideal(suite) && GoodNode(publicKey) && AddressedKv(suite, dir, doc, masterKey, members, values)
    requires IsWrittenFor(doc.body.entries, pairs, disclosed)
    ensures LoadKv(suite.texts, publicKey, doc).Ok?
         == PartsLoad(suite.texts, Signer(doc.signature.kid, publicKey), MemberHandles(members),
                      doc.body.wrap.removedRecipients, LinesFor(pairs, disclosed), doc.body.head.createdAt,
                      doc.body.head.updatedAt)
  {
    SoundIsWellFormed(suite, dir, doc.body, masterKey, values);
    LoadsExactly(suite.texts, publicKey, doc);
    AddressedHandles(suite, dir, doc.body.wrap.wrap, members, doc.body.head.sid, Kv, masterKey);
    PartsLoadPermuted(suite.texts, Signer(doc.signature.kid, publicKey), MemberHandles(members),
                      MemberHandles(members), doc.body.wrap.removedRecipients, LinesOf(doc.body.entries),
                      LinesFor(pairs, disclosed), doc.body.head.createdAt, doc.body.head.updatedAt);
  }

  /** Values that fit a token are far from the limit of a ciphertext. */
  lemma LoadedFit(values: Values, pairs: seq<Pair>, disclosed: bool)
    requires IsIterationOf(pairs, values) && LinesLoad(LinesFor(pairs, disclosed))
    ensures AllFit(values)
  {
    forall k | k in values
      ensures Fits(values[k])
    {
      var i :| 0 <= i < |pairs| && pairs[i].key == k;
      LineFits(LinesFor(pairs, disclosed)[i], k, values[k]);
    }
  }

  /** A value that only just fits a token does not fit it any more once it is flagged. */
  lemma LongValueDoesNotLoad(values: Values, pairs: seq<Pair>, key: string)
    requires IsIterationOf(pairs, values) && key in values && |values[key]| > MAX_DISCLOSED_KV_VALUE_SIZE
    ensures !LinesLoad(LinesFor(pairs, true))
  {
    var i :| 0 <= i < |pairs| && pairs[i].key == key;
    LongLine(LinesFor(pairs, true)[i], |values[key]|);
  }

  lemma LongLine(line: Line, n: nat)
    requires line.disclosed && line.ctLen == EncodedLen(n + AEAD_TAG_LENGTH) && n > MAX_DISCLOSED_KV_VALUE_SIZE
    ensures EntryTokenLen(line) > MAX_BASE64_TOKEN_LENGTH
  {
    ValueFitsExactly(line.key, n, true);
  }

  lemma LoadedEntriesFit(suite: Suite, masterKey: Key, sid: Uuid, entries: seq<KvEntry>, values: Values)
    requires Ideal(suite) && EntriesHold(suite, masterKey, sid, entries, values) && LinesLoad(LinesOf(entries))
    ensures AllFit(values)
  {
    var nonces :| EntriesUnder(suite, masterKey, sid, entries, values, nonces);
    forall k | k in values
      ensures Fits(values[k])
    {
      assert HasEntry(entries, k);
      var i :| 0 <= i < |entries| && entries[i].key == k;
      EntryIsSpelled(suite, masterKey, sid, entries[i], values, nonces);
      LineFits(LinesOf(entries)[i], k, values[k]);
    }
  }

  /** A value whose line is not too long is within the limit of a ciphertext. */
  lemma LineFits(line: Line, key: string, value: Bytes)
    requires line.ctLen == EncodedLen(|value| + AEAD_TAG_LENGTH)
    requires EntryTokenLen(line) <= MAX_BASE64_TOKEN_LENGTH
    ensures Fits(value)
  {
    ValueFitsExactly(line.key, |value|, line.disclosed);
  }

  /** The text of a document loaded, and its map decrypted. */
  function ReadKv(suite: Suite, publicKey: Node, doc: KvDocument, handle: string, keys: KeyContext)
    : Result<Values, EnvelopeError>
  {
    var _ :- LoadKv(suite.texts, publicKey, doc);
    DecryptKv(suite, doc, handle, keys)
  }

  /**
   * End to end, through the text: what was encrypted to members comes back whole to
   * each of them and to nobody else, exactly when its parts fit.
   */
  lemma WrittenMapReadsBackExactly(suite: Suite, dir: Directory, publicKey: Node, doc: KvDocument, masterKey: Key,
                                   members: seq<Member>, values: Values, pairs: seq<Pair>, disclosed: bool,
                                   handle: string, keys: KeyContext)
    requires Ideal(suite) && GoodNode(publicKey) && AddressedKv(suite, dir, doc, masterKey, members, values)
    requires IsIterationOf(pairs, values) && IsWrittenFor(doc.body.entries, pairs, disclosed)
    requires KeysMatch(suite, dir, keys)
    ensures ReadKv(suite, publicKey, doc, handle, keys).ToOption()
         == if PartsLoad(suite.texts, Signer(doc.signature.kid, publicKey), MemberHandles(members),
                         doc.body.wrap.removedRecipients, LinesFor(pairs, disclosed), doc.body.head.createdAt,
                         doc.body.head.updatedAt)
               && AdmitsMember(members, handle, keys)
            then Some(values) else None
  {
    WrittenLoadsExactly(suite, dir, publicKey, doc, masterKey, members, values, pairs, disclosed);
    AddressedMapDecryptsExactly(suite, dir, doc, masterKey, values, members, handle, keys);
    if LoadKv(suite.texts, publicKey, doc).Ok? {
      LoadedFit(values, pairs, disclosed);
    }
  }
}
