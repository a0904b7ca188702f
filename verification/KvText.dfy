/**
 * Key-value documents as text: the tokens they are written with, and the checks a
 * text passes before it is a document again.
 */
module KvText {
  import opened Limits
  import opened Wrappers
  import opened Codec
  import opened Wire
  import opened Disclosure
  import opened Primitives
  import opened Envelope
  import opened JsonGrammar
  import opened JsonText
  import opened WireText
  import JsonLimits

  // ---- keys ------------------------------------------------------------------------------

  predicate IsKeyStart(c: char) {
    'A' <= c <= 'Z' || 'a' <= c <= 'z' || c == '_'
  }

  predicate IsKeyName(key: string) {
    key != "" && IsKeyStart(key[0]) && forall i :: 0 <= i < |key| ==> IsKeyStart(key[i]) || IsDigit(key[i])
  }

  // ---- tokens ----------------------------------------------------------------------------

  function WrapItemNode(item: WrapItem): Node {
    Record([Field("alg", StringNode(Spelled(item.alg))), Field("ct", StringNode(TextString(item.ct))),
            Field("enc", StringNode(TextString(item.enc))), Field("kid", StringNode(item.kid)),
            Field("rh", StringNode(item.recipientHandle))])
  }

  function WrapItemNodes(items: seq<WrapItem>): (nodes: seq<Node>)
    ensures |nodes| == |items| && forall i :: 0 <= i < |nodes| ==> nodes[i] == WrapItemNode(items[i])
  {
    seq(|items|, i requires 0 <= i < |items| => WrapItemNode(items[i]))
  }

  function RecordNode(record: RemovedRecipient): Node {
    Record([Field("kid", StringNode(record.kid)), Field("removed_at", StringNode(record.removedAt)),
            Field("rh", StringNode(record.recipientHandle))])
  }

  function RecordNodes(list: History): (nodes: seq<Node>)
    ensures |nodes| == |list| && forall i :: 0 <= i < |nodes| ==> nodes[i] == RecordNode(list[i])
  {
    seq(|list|, i requires 0 <= i < |list| => RecordNode(list[i]))
  }

  function HistoryFields(history: Option<History>): seq<Field> {
    match history
    case None => []
    case Some(list) => [Field("removed_recipients", List(RecordNodes(list)))]
  }

  function WrapNode(wrap: KvWrap): Node {
    Record(HistoryFields(wrap.removedRecipients) + [Field("wrap", List(WrapItemNodes(wrap.wrap)))])
  }

  function HeadNode(head: KvHeader): Node {
    Record([Field("alg", Record([Field("aead", StringNode(Spelled(head.aead)))])),
            Field("created_at", StringNode(head.createdAt)), Field("sid", StringNode(UuidText(head.sid))),
            Field("updated_at", StringNode(head.updatedAt))])
  }

  /** The flag is written only where it is set. */
  function FlagFields(disclosed: bool): seq<Field> {
    if disclosed then [Field("disclosed", Leaf(Word("true")))] else []
  }

  function EntryNode(value: KvEntryValue): Node {
    Record([Field("ct", StringNode(TextString(value.ct)))] + FlagFields(value.disclosed)
           + [Field("nonce", StringNode(TextString(value.nonce)))])
  }

  function SignatureNode(texts: Texts, signature: Signature, publicKey: Node): Node {
    Record([Field("alg", StringNode("eddsa-ed25519")), Field("kid", StringNode(signature.kid)),
            Field("mac", StringNode(MacText(texts, signature.mac))), Field("sig", StringNode(SignatureText())),
            Field("signer_pub", publicKey)])
  }

  function TokenText(node: Node): string {
    JsonGrammar.Text(Written(Compact, 0, node))
  }

  function TokenLen(node: Node): nat {
    EncodedLen(|TokenText(node)|)
  }

  function EntryLineLens(entries: seq<KvEntry>): (lens: seq<nat>)
    ensures |lens| == |entries|
    ensures forall i :: 0 <= i < |lens| ==> lens[i] == |entries[i].key| + TokenLen(EntryNode(entries[i].value)) + 2
  {
    seq(|entries|, i requires 0 <= i < |entries| => |entries[i].key| + TokenLen(EntryNode(entries[i].value)) + 2)
  }

  /** The lines `:KAPSARO_KV 1`, `:HEAD`, `:WRAP`, one for each entry, and `:SIG`. */
  function FileLen(texts: Texts, publicKey: Node, doc: KvDocument): nat {
    14 + (7 + TokenLen(HeadNode(doc.body.head))) + (7 + TokenLen(WrapNode(doc.body.wrap)))
    + Sum(EntryLineLens(doc.body.entries)) + (6 + TokenLen(SignatureNode(texts, doc.signature, publicKey)))
  }

  // ---- loading ------------------------------------------------------------------------------

  /** The length is checked before the token is decoded, and the limits before it is parsed. */
  function CheckToken(node: Node): Checked {
    if TokenLen(node) > MAX_BASE64_TOKEN_LENGTH then Err(TokenTooLong)
    else if !JsonLimits.WithinLimits(JsonLimits.CountedAll(JsonLimits.START, TokenText(node))) then Err(JsonTooLarge)
    else Ok(())
  }

  function CheckWrapToken(texts: Texts, wrap: KvWrap): Checked {
    var _ :- CheckToken(WrapNode(wrap));
    if wrap.wrap == [] || !HistoryPasses(texts, wrap.removedRecipients) then Err(SchemaInvalid)
    else CheckWrapItems(texts, wrap.wrap)
  }

  predicate EntryPasses(texts: Texts, value: KvEntryValue) {
    texts.sized(value.nonce, 24).Ok? && value.ct != [] && texts.canonical(value.ct)
  }

  function CheckEntryToken(texts: Texts, value: KvEntryValue): Checked {
    var _ :- CheckToken(EntryNode(value));
    if EntryPasses(texts, value) then Ok(()) else Err(SchemaInvalid)
  }

  function FirstError(checks: seq<Checked>): Checked {
    if checks == [] then Ok(())
    else
      var _ :- FirstError(checks[..|checks| - 1]);
      checks[|checks| - 1]
  }

  function CheckEntryTokens(texts: Texts, entries: seq<KvEntry>): Checked {
    FirstError(seq(|entries|, i requires 0 <= i < |entries| => CheckEntryToken(texts, entries[i].value)))
  }

  predicate HasKey(entries: seq<KvEntry>, key: string) {
    exists i :: 0 <= i < |entries| && entries[i].key == key
  }

  function CheckKeys(entries: seq<KvEntry>): Checked {
    if entries == [] then Ok(())
    else
      var init, last := entries[..|entries| - 1], entries[|entries| - 1];
      var _ :- CheckKeys(init);
      if !IsKeyName(last.key) then Err(SchemaInvalid)
      else if HasKey(init, last.key) then Err(DuplicateKey)
      else Ok(())
  }

  function CheckHeadToken(head: KvHeader): Checked {
    var _ :- CheckToken(HeadNode(head));
    if IsTimestamp(head.createdAt) && IsTimestamp(head.updatedAt) && head.aead == XChaCha20Poly1305 then Ok(())
    else Err(SchemaInvalid)
  }

  function CheckSignatureToken(texts: Texts, signature: Signature, publicKey: Node): Checked {
    var _ :- CheckToken(SignatureNode(texts, signature, publicKey));
    if texts.kid(signature.kid).Ok? then Ok(()) else Err(SchemaInvalid)
  }

  /** What is refused when the text a document was written to is read again. */
  function LoadKv(texts: Texts, publicKey: Node, doc: KvDocument): Checked {
    if FileLen(texts, publicKey, doc) > MAX_KV_ENC_FILE_SIZE then Err(FileTooLarge)
    else if |doc.body.entries| > MAX_KV_KEY_LINES then Err(TooManyKeys)
    else
      var _ :- CheckKeys(doc.body.entries);
      var _ :- CheckWrapToken(texts, doc.body.wrap);
      var _ :- CheckEntryTokens(texts, doc.body.entries);
      var _ :- CheckSignatureToken(texts, doc.signature, publicKey);
      CheckHeadToken(doc.body.head)
  }
}

/** How much each part of a document takes, and when the whole can be read again. */
module KvTextProofs {
  import opened Limits
  import opened Wrappers
  import opened Bits
  import opened Codec
  import opened Wire
  import opened Disclosure
  import opened Primitives
  import opened Envelope
  import opened EnvelopeProofs
  import opened JsonGrammar
  import opened JsonText
  import opened JsonTextProofs
  import opened WireText
  import opened WireTextProofs
  import opened PartText
  import opened KvText
  import opened Seqs
  import Handles
  import Ordering

  // ---- keys ----------------------------------------------------------------------------------

  /** A letter or an underscore first, and letters, digits and underscores after it. */
  lemma KeyNamesExactly(key: string)
    ensures IsKeyName(key)
       <==> key != "" && !(key[0] in Handles.DIGITS)
            && forall i :: 0 <= i < |key| ==> Handles.IsLetterOrDigit(key[i]) || key[i] == '_'
  {
    forall i | 0 <= i < |key|
      ensures (IsKeyStart(key[i]) || IsDigit(key[i]) <==> Handles.IsLetterOrDigit(key[i]) || key[i] == '_')
      ensures IsDigit(key[i]) <==> key[i] in Handles.DIGITS
    {
      Handles.LettersAndDigits(key[i]);
      KeyCharacter(key[i]);
    }
  }

  lemma KeyCharacter(c: char)
    ensures IsDigit(c) <==> c in Handles.DIGITS
  {
    if IsDigit(c) {
      assert Handles.DIGITS[c as int - '0' as int] == c;
    }
  }

  // ---- tokens ------------------------------------------------------------------------------

  lemma TokenPassesExactly(node: Node)
    requires ShapeOf(node).good
    ensures CheckToken(node).Ok? <==> EncodedLen(NodeLen(node)) <= MAX_BASE64_TOKEN_LENGTH
                                      && ShapeOf(node).depth <= MAX_JSON_DEPTH
                                      && ShapeOf(node).size <= MAX_JSON_ELEMENTS
    ensures TokenLen(node) == EncodedLen(NodeLen(node))
  {
    CompactLen(0, node);
    WrittenAcceptedExactly(Compact, node);
  }

  // ---- the WRAP token ---------------------------------------------------------------------

  /** The length of the WRAP token's JSON. */
  function WrapLen(handles: seq<string>, history: Option<History>): nat {
    11 + ListLen(WrapLens(handles)) + if history.Some? then 24 + ListLen(RecordLens(history.value)) else 0
  }

  /** What the scan counts in a WRAP token with `n` items. */
  function WrapCount(n: nat, history: Option<History>): nat {
    2 + (if n == 0 then 1 else JSON_ELEMENTS_PER_WRAP_ITEM * n) + HistoryCount(history)
  }

  lemma WrapItemShape(item: WrapItem)
    ensures ShapeOf(WrapItemNode(item)) == Shape(true, 10, 1, 6, 21)
  {
    FiveStringsShape("alg", Spelled(item.alg), "ct", TextString(item.ct), "enc", TextString(item.enc), "kid", item.kid,
                     "rh", item.recipientHandle);
  }

  lemma WrapItemLen(texts: Texts, item: WrapItem)
    requires Faithful(texts) && CheckWrapItem(texts, item) == Ok(())
    ensures NodeLen(WrapItemNode(item)) == 194 + |item.recipientHandle|
  {
    WrapItemIs(texts, item);
    FiveStrings("alg", Spelled(item.alg), "ct", TextString(item.ct), "enc", TextString(item.enc), "kid", item.kid,
                "rh", item.recipientHandle);
  }

  lemma WrapItemsShape(items: seq<WrapItem>)
    ensures ShapeOf(List(WrapItemNodes(items)))
         == if items == [] then Shape(true, 1, 1, 0, 0)
            else Shape(true, JSON_ELEMENTS_PER_WRAP_ITEM * |items|, 2, 1 + 7 * |items|, 1 + 36 * |items|)
  {
    var nodes := WrapItemNodes(items);
    forall i | 0 <= i < |nodes|
      ensures ShapeOf(nodes[i]) == Shape(true, 10, 1, 6, 21)
    {
      WrapItemShape(items[i]);
    }
    LikeNodes(nodes, Shape(true, 10, 1, 6, 21));
  }

  lemma WrapItemsLen(texts: Texts, items: seq<WrapItem>)
    requires Faithful(texts) && AllPass(texts, items)
    ensures NodesLen(WrapItemNodes(items)) == ListLen(WrapLens(HandlesOf(items)))
  {
    var nodes := WrapItemNodes(items);
    forall i | 0 <= i < |nodes|
      ensures NodeLen(nodes[i]) == WrapLens(HandlesOf(items))[i]
    {
      assert CheckWrapItem(texts, items[i]) == Ok(());
      WrapItemLen(texts, items[i]);
    }
    NodesLenIs(nodes, WrapLens(HandlesOf(items)));
  }

  lemma RecordShape(record: RemovedRecipient)
    ensures ShapeOf(RecordNode(record)) == Shape(true, 6, 1, 4, 13)
  {
    ThreeStringsShape("kid", record.kid, "removed_at", record.removedAt, "rh", record.recipientHandle);
  }

  lemma RecordLen(texts: Texts, record: RemovedRecipient)
    requires Faithful(texts) && RecordPasses(texts, record)
    ensures NodeLen(RecordNode(record)) == 66 + |record.removedAt| + |record.recipientHandle|
  {
    RecordIs(texts, record);
    ThreeStrings("kid", record.kid, "removed_at", record.removedAt, "rh", record.recipientHandle);
  }

  lemma RecordsShape(list: History)
    ensures ShapeOf(List(RecordNodes(list)))
         == if list == [] then Shape(true, 1, 1, 0, 0)
            else Shape(true, 7 * |list|, 2, 1 + 5 * |list|, 1 + 24 * |list|)
  {
    var nodes := RecordNodes(list);
    forall i | 0 <= i < |nodes|
      ensures ShapeOf(nodes[i]) == Shape(true, 6, 1, 4, 13)
    {
      RecordShape(list[i]);
    }
    LikeNodes(nodes, Shape(true, 6, 1, 4, 13));
  }

  lemma RecordsLen(texts: Texts, list: History)
    requires Faithful(texts) && HistoryPasses(texts, Some(list))
    ensures NodesLen(RecordNodes(list)) == ListLen(RecordLens(list))
  {
    var nodes := RecordNodes(list);
    forall i | 0 <= i < |nodes|
      ensures NodeLen(nodes[i]) == RecordLens(list)[i]
    {
      assert RecordPasses(texts, list[i]);
      RecordLen(texts, list[i]);
    }
    NodesLenIs(nodes, RecordLens(list));
  }

  /** The two lists of a WRAP token, as fields. */
  lemma ListFieldShapes(items: seq<WrapItem>, list: History)
    ensures var wraps := FieldShape(Field("wrap", List(WrapItemNodes(items))));
            wraps.good && wraps.depth <= 2
            && wraps.size == 1 + if items == [] then 1 else JSON_ELEMENTS_PER_WRAP_ITEM * |items|
    ensures var records := FieldShape(Field("removed_recipients", List(RecordNodes(list))));
            records.good && records.depth <= 2 && records.size == 1 + if list == [] then 1 else 7 * |list|
  {
    WrapItemsShape(items);
    RecordsShape(list);
    NodeField("wrap", List(WrapItemNodes(items)));
    NodeField("removed_recipients", List(RecordNodes(list)));
  }

  /** The WRAP token of `n` items and `h` removal records counts as many elements as its two lists. */
  lemma WrapNodeShape(wrap: KvWrap)
    ensures ShapeOf(WrapNode(wrap)).good && ShapeOf(WrapNode(wrap)).depth <= 3
    ensures ShapeOf(WrapNode(wrap)).size == WrapCount(|wrap.wrap|, wrap.removedRecipients)
  {
    ListFieldShapes(wrap.wrap, if wrap.removedRecipients.Some? then wrap.removedRecipients.value else []);
    WrapFieldsAre(wrap);
  }

  /** The fields of the WRAP token, one or two. */
  lemma WrapFieldsAre(wrap: KvWrap)
    ensures var items := Field("wrap", List(WrapItemNodes(wrap.wrap)));
            match wrap.removedRecipients
            case None =>
              NodeLen(WrapNode(wrap)) == 2 + FieldLen(items) && ShapeOf(WrapNode(wrap)) == Enclosed(FieldShape(items))
            case Some(list) =>
              var records := Field("removed_recipients", List(RecordNodes(list)));
              NodeLen(WrapNode(wrap)) == 3 + FieldLen(records) + FieldLen(items)
              && ShapeOf(WrapNode(wrap)) == Enclosed(Beside(FieldShape(records), FieldShape(items)))
  {
    var items := Field("wrap", List(WrapItemNodes(wrap.wrap)));
    match wrap.removedRecipients
    case None =>
      assert HistoryFields(None) + [items] == [items];
      OneField(items);
    case Some(list) =>
      var records := Field("removed_recipients", List(RecordNodes(list)));
      assert HistoryFields(Some(list)) + [items] == [records, items];
      TwoFields(records, items);
  }

  lemma ItemsFieldLen(texts: Texts, name: string, items: seq<WrapItem>)
    requires Faithful(texts) && AllPass(texts, items) && IsPlain(name)
    ensures FieldLen(Field(name, List(WrapItemNodes(items)))) == |name| + 5 + ListLen(WrapLens(HandlesOf(items)))
  {
    WrapItemsLen(texts, items);
    ListField(name, WrapItemNodes(items));
  }

  lemma RecordsFieldLen(texts: Texts, name: string, list: History)
    requires Faithful(texts) && HistoryPasses(texts, Some(list)) && IsPlain(name)
    ensures FieldLen(Field(name, List(RecordNodes(list)))) == |name| + 5 + ListLen(RecordLens(list))
  {
    RecordsLen(texts, list);
    ListField(name, RecordNodes(list));
  }

  lemma WrapNodeLen(texts: Texts, wrap: KvWrap)
    requires Faithful(texts) && AllPass(texts, wrap.wrap) && HistoryPasses(texts, wrap.removedRecipients)
    ensures NodeLen(WrapNode(wrap)) == WrapLen(HandlesOf(wrap.wrap), wrap.removedRecipients)
  {
    ItemsFieldLen(texts, "wrap", wrap.wrap);
    if wrap.removedRecipients.Some? {
      NameIsPlain();
      RecordsFieldLen(texts, "removed_recipients", wrap.removedRecipients.value);
    }
    WrapFieldsAre(wrap);
  }

  ghost predicate WrapFits(handles: seq<string>, history: Option<History>) {
    WrapCount(|handles|, history) <= MAX_JSON_ELEMENTS
    && EncodedLen(WrapLen(handles, history)) <= MAX_BASE64_TOKEN_LENGTH
  }

  /** A WRAP token of wraps that pass loads exactly when there are some, it fits, and its records pass. */
  lemma WrapLoadsExactly(texts: Texts, wrap: KvWrap)
    requires Faithful(texts) && AllPass(texts, wrap.wrap) && DistinctHandles(wrap.wrap)
    ensures CheckWrapToken(texts, wrap).Ok? == RecipientsLoad(texts, HandlesOf(wrap.wrap), wrap.removedRecipients)
    ensures HistoryPasses(texts, wrap.removedRecipients) ==>
              TokenLen(WrapNode(wrap)) == EncodedLen(WrapLen(HandlesOf(wrap.wrap), wrap.removedRecipients))
  {
    WrapNodeShape(wrap);
    TokenPassesExactly(WrapNode(wrap));
    SetAcceptedExactly(texts, wrap.wrap);
    if HistoryPasses(texts, wrap.removedRecipients) {
      WrapNodeLen(texts, wrap);
    }
  }

  /**
   * The budget of the WRAP token, for the scan alone: with `n` items there is room for
   * (12996 - 11n) / 7 removal records and not for one more. With 1000 items that is 285.
   */
  lemma RecordsFitExactly(n: nat, list: History)
    requires 1 <= n <= MAX_WRAP_ITEMS && list != []
    ensures WrapCount(n, Some(list)) <= MAX_JSON_ELEMENTS <==> |list| <= (12996 - 11 * n) / 7
    ensures n == MAX_WRAP_ITEMS ==> (WrapCount(n, Some(list)) <= MAX_JSON_ELEMENTS <==> |list| <= 285)
  {
  }

  // ---- entry tokens ---------------------------------------------------------------------

  /** An entry as the loader measures it: its key, the length of its ciphertext's text, and its flag. */
  datatype Line = Line(key: string, ctLen: nat, disclosed: bool)

  function LineOf(entry: KvEntry): Line {
    Line(entry.key, |entry.value.ct|, entry.value.disclosed)
  }

  function LinesOf(entries: seq<KvEntry>): (lines: seq<Line>)
    ensures |lines| == |entries| && forall i :: 0 <= i < |lines| ==> lines[i] == LineOf(entries[i])
  {
    seq(|entries|, i requires 0 <= i < |entries| => LineOf(entries[i]))
  }

  /** The length of an entry token: the flag costs 17 characters before the encoding. */
  function EntryTokenLen(line: Line): nat {
    EncodedLen(line.ctLen + 52 + if line.disclosed then 17 else 0)
  }

  /** The fields are in their wire spelling, and there is a ciphertext. */
  ghost predicate IsSpelledEntry(texts: Texts, value: KvEntryValue) {
    (exists nonce: Nonce :: value.nonce == texts.encode(nonce))
    && (exists ct: Bytes :: ct != [] && value.ct == texts.encode(ct))
  }

  ghost predicate AreSpelledEntries(texts: Texts, entries: seq<KvEntry>) {
    forall i :: 0 <= i < |entries| ==> IsSpelledEntry(texts, entries[i].value)
  }

  lemma FlagField()
    ensures FieldLen(Field("disclosed", Leaf(Word("true")))) == 16
    ensures FieldShape(Field("disclosed", Leaf(Word("true")))) == Shape(true, 1, 0, 1, 4)
  {
    QuotedLen("disclosed");
  }

  function CtField(value: KvEntryValue): Field {
    Field("ct", StringNode(TextString(value.ct)))
  }

  function NonceField(value: KvEntryValue): Field {
    Field("nonce", StringNode(TextString(value.nonce)))
  }

  lemma EntryFieldsAre(value: KvEntryValue)
    ensures EntryNode(value)
         == Record(if value.disclosed then [CtField(value), Field("disclosed", Leaf(Word("true"))), NonceField(value)]
                   else [CtField(value), NonceField(value)])
  {
    assert [CtField(value)] + [] + [NonceField(value)] == [CtField(value), NonceField(value)];
  }

  /** Two fields, or three with the flag between them. */
  lemma FlaggedFields(ct: Field, nonce: Field, disclosed: bool)
    ensures var flag := Field("disclosed", Leaf(Word("true")));
            var node := Record(if disclosed then [ct, flag, nonce] else [ct, nonce]);
            NodeLen(node) == 3 + FieldLen(ct) + FieldLen(nonce) + (if disclosed then 17 else 0)
            && (FieldShape(ct) == FieldShape(nonce) == Shape(true, 1, 0, 1, 4) ==>
                  ShapeOf(node).good && ShapeOf(node).size <= 6 && ShapeOf(node).depth == 1)
  {
    FlagField();
    if disclosed {
      ThreeFields(ct, Field("disclosed", Leaf(Word("true"))), nonce);
    } else {
      TwoFields(ct, nonce);
    }
  }

  lemma EntryNodeLen(value: KvEntryValue)
    requires IsPlain(TextString(value.ct)) && IsPlain(TextString(value.nonce)) && |value.nonce| == 32
    ensures NodeLen(EntryNode(value)) == |value.ct| + 52 + if value.disclosed then 17 else 0
  {
    StringField("ct", TextString(value.ct));
    StringField("nonce", TextString(value.nonce));
    EntryFieldsAre(value);
    FlaggedFields(CtField(value), NonceField(value), value.disclosed);
  }

  lemma EntryNodeShape(value: KvEntryValue)
    ensures ShapeOf(EntryNode(value)).good && ShapeOf(EntryNode(value)).size <= 6
    ensures ShapeOf(EntryNode(value)).depth == 1
  {
    StringFieldShape("ct", TextString(value.ct));
    StringFieldShape("nonce", TextString(value.nonce));
    EntryFieldsAre(value);
    FlaggedFields(CtField(value), NonceField(value), value.disclosed);
  }

  lemma SpelledEntryIs(texts: Texts, value: KvEntryValue)
    requires Faithful(texts) && IsSpelledEntry(texts, value)
    ensures IsPlain(TextString(value.ct)) && IsPlain(TextString(value.nonce)) && |value.nonce| == 32
    ensures EntryPasses(texts, value)
  {
    var nonce: Nonce :| value.nonce == texts.encode(nonce);
    var ct: Bytes :| ct != [] && value.ct == texts.encode(ct);
    EncodedIsPlain(texts, nonce);
    EncodedIsPlain(texts, ct);
    assert RoundTrips(texts, nonce) && RoundTrips(texts, ct);
  }

  /** A spelled entry loads exactly when its token is not too long. */
  lemma EntryLoadsExactly(texts: Texts, entry: KvEntry)
    requires Faithful(texts) && IsSpelledEntry(texts, entry.value)
    ensures CheckEntryToken(texts, entry.value).Ok? <==> EntryTokenLen(LineOf(entry)) <= MAX_BASE64_TOKEN_LENGTH
    ensures TokenLen(EntryNode(entry.value)) == EntryTokenLen(LineOf(entry))
  {
    SpelledEntryIs(texts, entry.value);
    EntryNodeLen(entry.value);
    EntryNodeShape(entry.value);
    TokenPassesExactly(EntryNode(entry.value));
  }

  ghost predicate LinesFit(lines: seq<Line>) {
    forall i :: 0 <= i < |lines| ==> EntryTokenLen(lines[i]) <= MAX_BASE64_TOKEN_LENGTH
  }

  lemma {:induction false} NoErrorExactly(checks: seq<Checked>)
    ensures FirstError(checks).Ok? <==> forall i :: 0 <= i < |checks| ==> checks[i].Ok?
  {
    if checks != [] {
      NoErrorExactly(checks[..|checks| - 1]);
    }
  }

  lemma EntriesLoadExactly(texts: Texts, entries: seq<KvEntry>)
    requires Faithful(texts) && AreSpelledEntries(texts, entries)
    ensures CheckEntryTokens(texts, entries).Ok? <==> LinesFit(LinesOf(entries))
  {
    var checks := seq(|entries|, i requires 0 <= i < |entries| => CheckEntryToken(texts, entries[i].value));
    NoErrorExactly(checks);
    forall i | 0 <= i < |entries|
      ensures checks[i].Ok? <==> EntryTokenLen(LinesOf(entries)[i]) <= MAX_BASE64_TOKEN_LENGTH
    {
      EntryLoadsExactly(texts, entries[i]);
    }
  }

  function LineLens(lines: seq<Line>): (lens: seq<nat>)
    ensures |lens| == |lines| && forall i :: 0 <= i < |lens| ==> lens[i] == |lines[i].key| + EntryTokenLen(lines[i]) + 2
  {
    seq(|lines|, i requires 0 <= i < |lines| => |lines[i].key| + EntryTokenLen(lines[i]) + 2)
  }

  lemma LinesLenIs(texts: Texts, entries: seq<KvEntry>)
    requires Faithful(texts) && AreSpelledEntries(texts, entries)
    ensures EntryLineLens(entries) == LineLens(LinesOf(entries))
  {
    forall i | 0 <= i < |entries|
      ensures TokenLen(EntryNode(entries[i].value)) == EntryTokenLen(LineOf(entries[i]))
    {
      EntryLoadsExactly(texts, entries[i]);
    }
  }

  // ---- keys -------------------------------------------------------------------------------

  ghost predicate KeysAreNames(lines: seq<Line>) {
    forall i :: 0 <= i < |lines| ==> IsKeyName(lines[i].key)
  }

  ghost predicate DistinctEntryKeys(entries: seq<KvEntry>) {
    forall i, j :: 0 <= i < j < |entries| ==> entries[i].key != entries[j].key
  }

  lemma {:induction false} KeysLoadExactly(entries: seq<KvEntry>)
    requires DistinctEntryKeys(entries)
    ensures CheckKeys(entries).Ok? <==> KeysAreNames(LinesOf(entries))
  {
    if entries != [] {
      var init, last := entries[..|entries| - 1], entries[|entries| - 1];
      KeysLoadExactly(init);
      assert LinesOf(entries) == LinesOf(init) + [LineOf(last)];
      forall i | 0 <= i < |init|
        ensures init[i].key != last.key
      {
        assert entries[i].key != entries[|entries| - 1].key;
      }
    }
  }

  // ---- the HEAD and SIG tokens ------------------------------------------------------------------

  function HeadTokenLen(created: string, updated: string): nat {
    EncodedLen(114 + |created| + |updated|)
  }

  lemma HeadNodeMeasures(head: KvHeader)
    requires IsPlain(head.createdAt) && IsPlain(head.updatedAt) && head.aead == XChaCha20Poly1305
    ensures NodeLen(HeadNode(head)) == 114 + |head.createdAt| + |head.updatedAt|
    ensures ShapeOf(HeadNode(head)) == Shape(true, 10, 2, 7, 26)
  {
    var alg := Field("alg", Record([Field("aead", StringNode(Spelled(head.aead)))]));
    UuidIsPlain(head.sid);
    AlgField(Spelled(head.aead));
    HeadNamesArePlain();
    FieldAndThree(alg, "created_at", head.createdAt, "sid", UuidText(head.sid), "updated_at", head.updatedAt);
    FieldAndThreeShape(alg, "created_at", head.createdAt, "sid", UuidText(head.sid), "updated_at", head.updatedAt);
  }

  lemma HeadNamesArePlain()
    ensures IsPlain("created_at") && IsPlain("sid") && IsPlain("updated_at")
  {
  }

  lemma HeadLoadsExactly(head: KvHeader)
    requires head.aead == XChaCha20Poly1305
    ensures CheckHeadToken(head).Ok? <==>
            IsTimestamp(head.createdAt) && IsTimestamp(head.updatedAt)
            && HeadTokenLen(head.createdAt, head.updatedAt) <= MAX_BASE64_TOKEN_LENGTH
    ensures IsTimestamp(head.createdAt) && IsTimestamp(head.updatedAt) ==>
              TokenLen(HeadNode(head)) == HeadTokenLen(head.createdAt, head.updatedAt)
  {
    if IsTimestamp(head.createdAt) && IsTimestamp(head.updatedAt) {
      TimestampIsPlain(head.createdAt);
      TimestampIsPlain(head.updatedAt);
      HeadNodeMeasures(head);
      TokenPassesExactly(HeadNode(head));
    }
  }

  function SignatureTokenLen(publicKey: Node): nat {
    EncodedLen(237 + NodeLen(publicKey))
  }

  ghost predicate SignatureFits(publicKey: Node) {
    SignatureTokenLen(publicKey) <= MAX_BASE64_TOKEN_LENGTH
    && 1 + NodeDepth(publicKey) <= MAX_JSON_DEPTH && 10 + NodeSize(publicKey) <= MAX_JSON_ELEMENTS
  }

  lemma SignatureNodeMeasures(texts: Texts, signature: Signature, publicKey: Node)
    requires Faithful(texts) && texts.kid(signature.kid).Ok? && GoodNode(publicKey)
    ensures NodeLen(SignatureNode(texts, signature, publicKey)) == 237 + NodeLen(publicKey)
    ensures ShapeOf(SignatureNode(texts, signature, publicKey))
         == Shape(true, 10 + NodeSize(publicKey), 1 + NodeDepth(publicKey), 6 + Breaks(publicKey),
                  21 + Blanks(publicKey) + 2 * Breaks(publicKey))
  {
    var signer := Field("signer_pub", publicKey);
    KidIsPlain(texts, signature.kid);
    MacIsPlain(texts, signature.mac);
    SignatureNamesArePlain();
    NodeField("signer_pub", publicKey);
    NodeFieldLen("signer_pub", publicKey);
    FourAndField("alg", "eddsa-ed25519", "kid", signature.kid, "mac", MacText(texts, signature.mac),
                 "sig", SignatureText(), signer);
    FourAndFieldShape("alg", "eddsa-ed25519", "kid", signature.kid, "mac", MacText(texts, signature.mac),
                      "sig", SignatureText(), signer);
  }

  lemma SignatureLoadsExactly(texts: Texts, signature: Signature, publicKey: Node)
    requires Faithful(texts) && GoodNode(publicKey)
    ensures CheckSignatureToken(texts, signature, publicKey).Ok? <==>
            texts.kid(signature.kid).Ok? && SignatureFits(publicKey)
    ensures texts.kid(signature.kid).Ok? ==>
              TokenLen(SignatureNode(texts, signature, publicKey)) == SignatureTokenLen(publicKey)
  {
    if texts.kid(signature.kid).Ok? {
      SignatureNodeMeasures(texts, signature, publicKey);
      TokenPassesExactly(SignatureNode(texts, signature, publicKey));
    }
  }

  // ---- whole documents ------------------------------------------------------------------------

  /** The `:KAPSARO_KV 1` line, the three control lines with their tags, and the entry lines. */
  function TextLen(handles: seq<string>, history: Option<History>, lines: seq<Line>, created: string, updated: string,
                   publicKey: Node): nat
  {
    34 + HeadTokenLen(created, updated) + EncodedLen(WrapLen(handles, history)) + Sum(LineLens(lines))
    + SignatureTokenLen(publicKey)
  }

  /** The parts whose size the wraps and the history decide. */
  ghost predicate RecipientsLoad(texts: Texts, handles: seq<string>, history: Option<History>) {
    1 <= |handles| <= MAX_WRAP_ITEMS && HistoryPasses(texts, history) && WrapFits(handles, history)
  }

  /** The parts whose size the entries decide. */
  ghost predicate LinesLoad(lines: seq<Line>) {
    |lines| <= MAX_KV_KEY_LINES && KeysAreNames(lines) && LinesFit(lines)
  }

  ghost predicate HeadLoads(created: string, updated: string) {
    IsTimestamp(created) && IsTimestamp(updated) && HeadTokenLen(created, updated) <= MAX_BASE64_TOKEN_LENGTH
  }

  ghost predicate SignerLoads(texts: Texts, signer: Signer) {
    texts.kid(signer.kid).Ok? && SignatureFits(signer.publicKey)
  }

  /** A document of these parts, written and read again, is not refused. */
  ghost predicate PartsLoad(texts: Texts, signer: Signer, handles: seq<string>, history: Option<History>,
                            lines: seq<Line>, created: string, updated: string)
  {
    RecipientsLoad(texts, handles, history) && LinesLoad(lines) && HeadLoads(created, updated)
    && SignerLoads(texts, signer)
    && TextLen(handles, history, lines, created, updated, signer.publicKey) <= MAX_KV_ENC_FILE_SIZE
  }

  /** Wraps that pass, entries in their wire spelling, and the known algorithm. */
  ghost predicate IsWellFormed(texts: Texts, body: KvBody) {
    body.head.aead == XChaCha20Poly1305 && AllPass(texts, body.wrap.wrap) && DistinctHandles(body.wrap.wrap)
    && AreSpelledEntries(texts, body.entries) && DistinctEntryKeys(body.entries)
  }

  lemma FileLenIs(texts: Texts, publicKey: Node, doc: KvDocument)
    requires Faithful(texts) && GoodNode(publicKey) && IsWellFormed(texts, doc.body)
    requires HistoryPasses(texts, doc.body.wrap.removedRecipients) && texts.kid(doc.signature.kid).Ok?
    requires IsTimestamp(doc.body.head.createdAt) && IsTimestamp(doc.body.head.updatedAt)
    ensures FileLen(texts, publicKey, doc)
         == TextLen(HandlesOf(doc.body.wrap.wrap), doc.body.wrap.removedRecipients, LinesOf(doc.body.entries),
                    doc.body.head.createdAt, doc.body.head.updatedAt, publicKey)
  {
    WrapLoadsExactly(texts, doc.body.wrap);
    LinesLenIs(texts, doc.body.entries);
    HeadLoadsExactly(doc.body.head);
    SignatureLoadsExactly(texts, doc.signature, publicKey);
  }

  ghost predicate BodyLoads(texts: Texts, publicKey: Node, doc: KvDocument) {
    PartsLoad(texts, Signer(doc.signature.kid, publicKey), HandlesOf(doc.body.wrap.wrap),
              doc.body.wrap.removedRecipients, LinesOf(doc.body.entries), doc.body.head.createdAt,
              doc.body.head.updatedAt)
  }

  lemma LoadKvIs(texts: Texts, publicKey: Node, doc: KvDocument)
    ensures LoadKv(texts, publicKey, doc).Ok? <==>
            FileLen(texts, publicKey, doc) <= MAX_KV_ENC_FILE_SIZE && |doc.body.entries| <= MAX_KV_KEY_LINES
            && CheckKeys(doc.body.entries).Ok? && CheckWrapToken(texts, doc.body.wrap).Ok?
            && CheckEntryTokens(texts, doc.body.entries).Ok?
            && CheckSignatureToken(texts, doc.signature, publicKey).Ok? && CheckHeadToken(doc.body.head).Ok?
  {
  }

  lemma LinesLoadExactly(texts: Texts, entries: seq<KvEntry>)
    requires Faithful(texts) && AreSpelledEntries(texts, entries) && DistinctEntryKeys(entries)
    ensures (|entries| <= MAX_KV_KEY_LINES && CheckKeys(entries).Ok? && CheckEntryTokens(texts, entries).Ok?)
         == LinesLoad(LinesOf(entries))
  {
    KeysLoadExactly(entries);
    EntriesLoadExactly(texts, entries);
  }

  lemma EndsLoadExactly(texts: Texts, head: KvHeader, signature: Signature, publicKey: Node)
    requires Faithful(texts) && head.aead == XChaCha20Poly1305 && GoodNode(publicKey)
    ensures CheckHeadToken(head).Ok? == HeadLoads(head.createdAt, head.updatedAt)
    ensures CheckSignatureToken(texts, signature, publicKey).Ok? == SignerLoads(texts, Signer(signature.kid, publicKey))
  {
    HeadLoadsExactly(head);
    SignatureLoadsExactly(texts, signature, publicKey);
  }

  /** All but the length of the file. */
  ghost predicate ContentLoads(texts: Texts, publicKey: Node, doc: KvDocument) {
    RecipientsLoad(texts, HandlesOf(doc.body.wrap.wrap), doc.body.wrap.removedRecipients)
    && LinesLoad(LinesOf(doc.body.entries))
    && HeadLoads(doc.body.head.createdAt, doc.body.head.updatedAt)
    && SignerLoads(texts, Signer(doc.signature.kid, publicKey))
  }

  lemma ContentLoadsExactly(texts: Texts, publicKey: Node, doc: KvDocument)
    requires Faithful(texts) && GoodNode(publicKey) && IsWellFormed(texts, doc.body)
    ensures LoadKv(texts, publicKey, doc).Ok?
         == (FileLen(texts, publicKey, doc) <= MAX_KV_ENC_FILE_SIZE && ContentLoads(texts, publicKey, doc))
  {
    LoadKvIs(texts, publicKey, doc);
    WrapLoadsExactly(texts, doc.body.wrap);
    LinesLoadExactly(texts, doc.body.entries);
    EndsLoadExactly(texts, doc.body.head, doc.signature, publicKey);
  }

  /**
   * The exact condition under which a written document is read again, in terms of the
   * handles, the removal history, the lengths of the values and the signer alone.
   */
  lemma LoadsExactly(texts: Texts, publicKey: Node, doc: KvDocument)
    requires Faithful(texts) && GoodNode(publicKey) && IsWellFormed(texts, doc.body)
    ensures LoadKv(texts, publicKey, doc).Ok? == BodyLoads(texts, publicKey, doc)
  {
    ContentLoadsExactly(texts, publicKey, doc);
    if ContentLoads(texts, publicKey, doc) {
      FileLenIs(texts, publicKey, doc);
    }
  }

  // ---- the same parts in another order ------------------------------------------------------

  lemma LinesStillLoad(a: seq<Line>, b: seq<Line>)
    requires multiset(a) == multiset(b) && LinesLoad(a)
    ensures LinesLoad(b)
  {
    assert |multiset(a)| == |multiset(b)|;
    AllPermuted((l: Line) => IsKeyName(l.key), a, b);
    AllPermuted((l: Line) => EntryTokenLen(l) <= MAX_BASE64_TOKEN_LENGTH, a, b);
  }

  lemma LinesPermuted(a: seq<Line>, b: seq<Line>)
    requires multiset(a) == multiset(b)
    ensures LinesLoad(a) == LinesLoad(b) && Sum(LineLens(a)) == Sum(LineLens(b))
  {
    if LinesLoad(a) {
      LinesStillLoad(a, b);
    }
    if LinesLoad(b) {
      LinesStillLoad(b, a);
    }
    MappedPermuted((l: Line) => |l.key| + EntryTokenLen(l) + 2, a, b, LineLens(a), LineLens(b));
    SumPermuted(LineLens(a), LineLens(b));
  }

  lemma RecipientsPermuted(texts: Texts, a: seq<string>, b: seq<string>, history: Option<History>)
    requires multiset(a) == multiset(b)
    ensures RecipientsLoad(texts, a, history) == RecipientsLoad(texts, b, history)
    ensures WrapLen(a, history) == WrapLen(b, history)
  {
    WrapLensPermuted(a, b);
  }

  lemma TextLenPermuted(a: seq<string>, b: seq<string>, history: Option<History>, lines: seq<Line>,
                        reordered: seq<Line>, created: string, updated: string, publicKey: Node)
    requires WrapLen(a, history) == WrapLen(b, history) && Sum(LineLens(lines)) == Sum(LineLens(reordered))
    ensures TextLen(a, history, lines, created, updated, publicKey)
         == TextLen(b, history, reordered, created, updated, publicKey)
  {
  }

  /** Neither the order of the wraps nor the order of the entries matters. */
  lemma PartsLoadPermuted(texts: Texts, signer: Signer, handles: seq<string>, others: seq<string>,
                          history: Option<History>, lines: seq<Line>, reordered: seq<Line>, created: string,
                          updated: string)
    requires multiset(handles) == multiset(others) && multiset(lines) == multiset(reordered)
    ensures PartsLoad(texts, signer, handles, history, lines, created, updated)
         == PartsLoad(texts, signer, others, history, reordered, created, updated)
  {
    RecipientsPermuted(texts, handles, others, history);
    LinesPermuted(lines, reordered);
    TextLenPermuted(handles, others, history, lines, reordered, created, updated, signer.publicKey);
  }

  // ---- how much fits --------------------------------------------------------------------------

  const MAX_KV_VALUE_SIZE: nat := 589_769
  const MAX_DISCLOSED_KV_VALUE_SIZE: nat := 589_756

  /**
   * The longest value an entry token can carry. Thirteen bytes less fit once the entry
   * is flagged as disclosed, which is what a removal does to every entry.
   */
  lemma ValueFitsExactly(key: string, n: nat, disclosed: bool)
    ensures EntryTokenLen(Line(key, EncodedLen(n + AEAD_TAG_LENGTH), disclosed)) <= MAX_BASE64_TOKEN_LENGTH
       <==> n <= if disclosed then MAX_DISCLOSED_KV_VALUE_SIZE else MAX_KV_VALUE_SIZE
  {
    EncodedLenGrows(n + AEAD_TAG_LENGTH, if disclosed then 589_772 else 589_785);
    var json := EncodedLen(n + AEAD_TAG_LENGTH) + 52 + if disclosed then 17 else 0;
    EncodedLenGrows(json, 786_432);
  }

  /**
   * Handles being short, and dates too, the budget of the scan alone decides what the
   * WRAP token may carry: its length never does.
   */
  lemma BudgetDecides(texts: Texts, handles: seq<string>, history: Option<History>)
    requires Faithful(texts) && 1 <= |handles| <= MAX_WRAP_ITEMS && forall h :: h in handles ==> texts.handle(h)
    requires HistoryPasses(texts, history) && ModestDates(history)
    ensures RecipientsLoad(texts, handles, history) <==> WrapCount(|handles|, history) <= MAX_JSON_ELEMENTS
  {
    HandlesAreShort(texts, handles);
    if history.Some? {
      RecordsAreShort(texts, history.value);
    }
    EncodedLenGrows(WrapLen(handles, history), 786_432);
  }

  /** Without a removal history up to a thousand recipients always load. */
  lemma FreshRecipientsLoad(texts: Texts, handles: seq<string>)
    requires Faithful(texts) && 1 <= |handles| <= MAX_WRAP_ITEMS && forall h :: h in handles ==> texts.handle(h)
    ensures RecipientsLoad(texts, handles, None)
  {
    BudgetDecides(texts, handles, None);
  }

  /** With a few entries the length of the file never decides. */
  lemma FewLinesLoad(texts: Texts, signer: Signer, handles: seq<string>, history: Option<History>, lines: seq<Line>,
                     created: string, updated: string)
    requires LinesLoad(lines) && Sum(LineLens(lines)) <= MAX_KV_ENC_FILE_SIZE / 2
    requires SignerLoads(texts, signer) && IsTimestamp(created) && IsTimestamp(updated)
    requires |created| <= MODEST_DATE_LENGTH && |updated| <= MODEST_DATE_LENGTH
    ensures PartsLoad(texts, signer, handles, history, lines, created, updated)
         == RecipientsLoad(texts, handles, history)
  {
    EncodedLenGrows(114 + |created| + |updated|, 194);
  }

  // ---- the canonical form -----------------------------------------------------------------------

  /** Section 3.2.3 of RFC 8785: the members of every record stand in the order of their names. */
  ghost predicate InNameOrder(node: Node) {
    match node
    case Leaf(_) => true
    case List(items) => forall i :: 0 <= i < |items| ==> InNameOrder(items[i])
    case Record(fields) =>
      (forall i :: 0 <= i < |fields| - 1 ==> Ordering.Less(fields[i].name, fields[i + 1].name))
      && forall i :: 0 <= i < |fields| ==> FieldInNameOrder(fields[i])
  }

  ghost predicate FieldInNameOrder(field: Field) {
    InNameOrder(field.value)
  }

  lemma NamesInOrder()
    ensures Ordering.Less("alg", "ct") && Ordering.Less("ct", "enc") && Ordering.Less("enc", "kid")
    ensures Ordering.Less("kid", "rh") && Ordering.Less("kid", "removed_at") && Ordering.Less("removed_at", "rh")
    ensures Ordering.Less("removed_recipients", "wrap") && Ordering.Less("ct", "disclosed")
    ensures Ordering.Less("disclosed", "nonce") && Ordering.Less("ct", "nonce") && Ordering.Less("alg", "created_at")
    ensures Ordering.Less("created_at", "sid") && Ordering.Less("sid", "updated_at")
    ensures Ordering.Less("alg", "kid") && Ordering.Less("kid", "mac") && Ordering.Less("mac", "sig")
    ensures Ordering.Less("sig", "signer_pub")
  {
    assert "sig"[1..][1..][1..] == "" && "signer_pub"[1..][1..][1..] != "";
    assert Ordering.Less("sig"[1..][1..], "signer_pub"[1..][1..]);
    assert Ordering.Less("sig"[1..], "signer_pub"[1..]);
    assert Ordering.Less("removed_at"[1..], "rh"[1..]);
  }

  lemma ItemIsCanonical(item: WrapItem)
    ensures InNameOrder(WrapItemNode(item))
  {
    NamesInOrder();
  }

  lemma RecordIsCanonical(record: RemovedRecipient)
    ensures InNameOrder(RecordNode(record))
  {
    NamesInOrder();
  }

  lemma ListsAreCanonical(items: seq<WrapItem>, list: History)
    ensures FieldInNameOrder(Field("wrap", List(WrapItemNodes(items))))
    ensures FieldInNameOrder(Field("removed_recipients", List(RecordNodes(list))))
  {
    forall i | 0 <= i < |items|
      ensures InNameOrder(WrapItemNodes(items)[i])
    {
      ItemIsCanonical(items[i]);
    }
    forall i | 0 <= i < |list|
      ensures InNameOrder(RecordNodes(list)[i])
    {
      RecordIsCanonical(list[i]);
    }
  }

  lemma WrapIsCanonical(wrap: KvWrap)
    ensures InNameOrder(WrapNode(wrap))
  {
    NamesInOrder();
    ListsAreCanonical(wrap.wrap, if wrap.removedRecipients.Some? then wrap.removedRecipients.value else []);
  }

  lemma HeadIsCanonical(head: KvHeader)
    ensures InNameOrder(HeadNode(head))
  {
    NamesInOrder();
    var aead := Field("aead", StringNode(Spelled(head.aead)));
    assert FieldInNameOrder(aead);
    assert InNameOrder(Record([aead]));
  }

  lemma EntryIsCanonical(value: KvEntryValue)
    ensures InNameOrder(EntryNode(value))
  {
    NamesInOrder();
    EntryFieldsAre(value);
  }

  lemma SignatureIsCanonical(texts: Texts, signature: Signature, publicKey: Node)
    requires InNameOrder(publicKey)
    ensures InNameOrder(SignatureNode(texts, signature, publicKey))
  {
    NamesInOrder();
  }

  /** Every token is written in the canonical form. */
  lemma TokensAreCanonical(texts: Texts, publicKey: Node, doc: KvDocument)
    requires InNameOrder(publicKey)
    ensures InNameOrder(HeadNode(doc.body.head)) && InNameOrder(WrapNode(doc.body.wrap))
    ensures forall i :: 0 <= i < |doc.body.entries| ==> InNameOrder(EntryNode(doc.body.entries[i].value))
    ensures InNameOrder(SignatureNode(texts, doc.signature, publicKey))
  {
    HeadIsCanonical(doc.body.head);
    WrapIsCanonical(doc.body.wrap);
    SignatureIsCanonical(texts, doc.signature, publicKey);
    forall i | 0 <= i < |doc.body.entries|
      ensures InNameOrder(EntryNode(doc.body.entries[i].value))
    {
      EntryIsCanonical(doc.body.entries[i].value);
    }
  }
}
