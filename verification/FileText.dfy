/** Encrypted files as text: the JSON document they are written to, and how it is loaded again. */
module FileText {
  import opened Limits
  import opened Wrappers
  import opened Bits
  import opened Codec
  import opened Wire
  import opened Disclosure
  import opened Primitives
  import opened Envelope
  import opened FileEnvelope
  import opened JsonGrammar
  import opened JsonText
  import opened WireText
  import JsonLimits

  // ---- the document ----------------------------------------------------------------------

  function ItemNode(item: WrapItem): Node {
    Record([Field("rh", StringNode(item.recipientHandle)), Field("kid", StringNode(item.kid)),
            Field("alg", StringNode(Spelled(item.alg))), Field("enc", StringNode(TextString(item.enc))),
            Field("ct", StringNode(TextString(item.ct)))])
  }

  function ItemNodes(items: seq<WrapItem>): (nodes: seq<Node>)
    ensures |nodes| == |items| && forall i :: 0 <= i < |nodes| ==> nodes[i] == ItemNode(items[i])
  {
    seq(|items|, i requires 0 <= i < |items| => ItemNode(items[i]))
  }

  function RemovalNode(record: RemovedRecipient): Node {
    Record([Field("rh", StringNode(record.recipientHandle)), Field("kid", StringNode(record.kid)),
            Field("removed_at", StringNode(record.removedAt))])
  }

  function RemovalNodes(list: History): (nodes: seq<Node>)
    ensures |nodes| == |list| && forall i :: 0 <= i < |nodes| ==> nodes[i] == RemovalNode(list[i])
  {
    seq(|list|, i requires 0 <= i < |list| => RemovalNode(list[i]))
  }

  function HeaderNode(header: PayloadHeader): Node {
    Record([Field("format", StringNode(Spelled(header.format))), Field("sid", StringNode(UuidText(header.sid))),
            Field("alg", Record([Field("aead", StringNode(Spelled(header.aead)))]))])
  }

  function CiphertextNode(encrypted: PayloadCiphertext): Node {
    Record([Field("nonce", StringNode(TextString(encrypted.nonce))),
            Field("ct", StringNode(TextString(encrypted.ct)))])
  }

  function PayloadNode(payload: FilePayload): Node {
    Record([Field("protected", HeaderNode(payload.header)), Field("encrypted", CiphertextNode(payload.encrypted))])
  }

  /** The fields up to the wraps, the removal history where there is one, and the rest. */
  function FrontFields(p: FileProtected): seq<Field> {
    [Field("format", StringNode(Spelled(p.format))), Field("sid", StringNode(UuidText(p.sid))),
     Field("wrap", List(ItemNodes(p.wrap)))]
  }

  function RemovalFields(history: Option<History>): seq<Field> {
    match history
    case None => []
    case Some(list) => [Field("removed_recipients", List(RemovalNodes(list)))]
  }

  function ProtectedNode(p: FileProtected): Node {
    Record(FrontFields(p) + RemovalFields(p.removedRecipients)
           + [Field("payload", PayloadNode(p.payload))]
           + [Field("created_at", StringNode(p.createdAt))]
           + [Field("updated_at", StringNode(p.updatedAt))])
  }

  function FileSignatureNode(texts: Texts, signature: Signature, publicKey: Node): Node {
    Record([Field("alg", StringNode("eddsa-ed25519")), Field("kid", StringNode(signature.kid)),
            Field("signer_pub", publicKey), Field("mac", StringNode(MacText(texts, signature.mac))),
            Field("sig", StringNode(SignatureText()))])
  }

  function FileNode(texts: Texts, publicKey: Node, doc: FileDocument): Node {
    Record([Field("protected", ProtectedNode(doc.protected)),
            Field("signature", FileSignatureNode(texts, doc.signature, publicKey))])
  }

  /** The indented text, as it is stored. */
  function FileContent(texts: Texts, publicKey: Node, doc: FileDocument): string {
    JsonGrammar.Text(Written(Indented, 0, FileNode(texts, publicKey, doc)))
  }

  // ---- loading ------------------------------------------------------------------------------

  predicate ProtectedPasses(texts: Texts, p: FileProtected) {
    p.format == FileEncV1 && p.payload.header.format == FilePayloadV1 && p.payload.header.aead == XChaCha20Poly1305
    && IsTimestamp(p.createdAt) && IsTimestamp(p.updatedAt)
    && texts.sized(p.payload.encrypted.nonce, 24).Ok?
    && p.payload.encrypted.ct != [] && texts.canonical(p.payload.encrypted.ct)
  }

  /** What is refused when the text a file was written to is read again. */
  function LoadFile(texts: Texts, publicKey: Node, doc: FileDocument): Checked {
    var text := FileContent(texts, publicKey, doc);
    if |text| > MAX_JSON_DOCUMENT_READ_SIZE then Err(FileTooLarge)
    else if !JsonLimits.WithinLimits(JsonLimits.CountedAll(JsonLimits.START, text)) then Err(JsonTooLarge)
    else if !ProtectedPasses(texts, doc.protected) || doc.protected.wrap == []
            || !HistoryPasses(texts, doc.protected.removedRecipients) || texts.kid(doc.signature.kid).Err?
    then Err(SchemaInvalid)
    else CheckWrapItems(texts, doc.protected.wrap)
  }

  /** The text of a file loaded, and its content decrypted. */
  function ReadFile(suite: Suite, publicKey: Node, doc: FileDocument, handle: string, keys: KeyContext)
    : Result<Bytes, EnvelopeError>
  {
    var _ :- LoadFile(suite.texts, publicKey, doc);
    DecryptFile(suite, doc, handle, keys)
  }
}

/** When a written file can be read again: how many recipients and removal records it may carry. */
module FileTextProofs {
  import opened Limits
  import opened Numbers
  import opened Wrappers
  import opened Bits
  import opened Codec
  import opened Wire
  import opened Disclosure
  import opened Primitives
  import opened Envelope
  import opened EnvelopeProofs
  import opened FileEnvelope
  import opened FileEnvelopeProofs
  import opened JsonText
  import opened JsonTextProofs
  import opened WireText
  import opened WireTextProofs
  import opened PartText
  import opened FileText
  import JsonLimits

  // ---- wraps and removal records ------------------------------------------------------------

  /** A list of `n` wraps, and one of `n` removal records. */
  ghost function ItemsShape(n: nat): Shape {
    Shape(true, JSON_ELEMENTS_PER_WRAP_ITEM * n, 2, 1 + 7 * n, 1 + 36 * n)
  }

  ghost function RemovalsShape(n: nat): Shape {
    if n == 0 then Shape(true, 1, 1, 0, 0) else Shape(true, 7 * n, 2, 1 + 5 * n, 1 + 24 * n)
  }

  lemma ItemsMeasure(texts: Texts, items: seq<WrapItem>)
    requires Faithful(texts) && AllPass(texts, items) && items != []
    ensures ShapeOf(List(ItemNodes(items))) == ItemsShape(|items|)
    ensures NodeLen(List(ItemNodes(items))) == 2 + ListLen(WrapLens(HandlesOf(items)))
  {
    var nodes := ItemNodes(items);
    forall i | 0 <= i < |nodes|
      ensures ShapeOf(nodes[i]) == Shape(true, 10, 1, 6, 21) && NodeLen(nodes[i]) == WrapLens(HandlesOf(items))[i]
    {
      assert CheckWrapItem(texts, items[i]) == Ok(());
      ItemMeasures(texts, items[i]);
    }
    LikeNodes(nodes, Shape(true, 10, 1, 6, 21));
    NodesLenIs(nodes, WrapLens(HandlesOf(items)));
  }

  lemma ItemMeasures(texts: Texts, item: WrapItem)
    requires Faithful(texts) && CheckWrapItem(texts, item) == Ok(())
    ensures ShapeOf(ItemNode(item)) == Shape(true, 10, 1, 6, 21)
    ensures NodeLen(ItemNode(item)) == 194 + |item.recipientHandle|
  {
    WrapItemIs(texts, item);
    FiveStringsShape("rh", item.recipientHandle, "kid", item.kid, "alg", Spelled(item.alg),
                     "enc", TextString(item.enc), "ct", TextString(item.ct));
    FiveStrings("rh", item.recipientHandle, "kid", item.kid, "alg", Spelled(item.alg),
                "enc", TextString(item.enc), "ct", TextString(item.ct));
  }

  lemma RemovalsMeasure(list: History)
    ensures ShapeOf(List(RemovalNodes(list))) == RemovalsShape(|list|)
  {
    var nodes := RemovalNodes(list);
    forall i | 0 <= i < |nodes|
      ensures ShapeOf(nodes[i]) == Shape(true, 6, 1, 4, 13)
    {
      ThreeStringsShape("rh", list[i].recipientHandle, "kid", list[i].kid, "removed_at", list[i].removedAt);
    }
    LikeNodes(nodes, Shape(true, 6, 1, 4, 13));
  }

  lemma RemovalsLen(texts: Texts, list: History)
    requires Faithful(texts) && HistoryPasses(texts, Some(list))
    ensures NodeLen(List(RemovalNodes(list))) == 2 + ListLen(RecordLens(list))
  {
    var nodes := RemovalNodes(list);
    forall i | 0 <= i < |nodes|
      ensures NodeLen(nodes[i]) == RecordLens(list)[i]
    {
      assert RecordPasses(texts, list[i]);
      RecordIs(texts, list[i]);
      ThreeStrings("rh", list[i].recipientHandle, "kid", list[i].kid, "removed_at", list[i].removedAt);
    }
    NodesLenIs(nodes, RecordLens(list));
  }

  // ---- single fields ------------------------------------------------------------------------

  lemma FileFormatIsPlain()
    ensures IsPlain(Spelled(FileEncV1)) && |Spelled(FileEncV1)| == 25
  {
  }

  lemma PayloadFormatIsPlain()
    ensures IsPlain(Spelled(FilePayloadV1)) && |Spelled(FilePayloadV1)| == 33
  {
  }

  lemma FormatField(format: Name)
    requires format == FileEncV1 || format == FilePayloadV1
    ensures FieldLen(Field("format", StringNode(Spelled(format)))) == 11 + |Spelled(format)|
    ensures |Spelled(format)| == if format == FileEncV1 then 25 else 33
  {
    FileFormatIsPlain();
    PayloadFormatIsPlain();
    StringField("format", Spelled(format));
  }

  lemma SidField(sid: Uuid)
    ensures FieldLen(Field("sid", StringNode(UuidText(sid)))) == 44
  {
    UuidIsPlain(sid);
    StringField("sid", UuidText(sid));
  }

  lemma DateFields(created: string, updated: string)
    requires IsTimestamp(created) && IsTimestamp(updated)
    ensures FieldLen(Field("created_at", StringNode(created))) == 15 + |created|
    ensures FieldLen(Field("updated_at", StringNode(updated))) == 15 + |updated|
  {
    TimestampIsPlain(created);
    TimestampIsPlain(updated);
    StringField("created_at", created);
    StringField("updated_at", updated);
  }

  lemma SpelledAeadIsPlain()
    ensures IsPlain(Spelled(XChaCha20Poly1305)) && |Spelled(XChaCha20Poly1305)| == 18
  {
  }

  lemma PayloadField(node: Node)
    ensures FieldLen(Field("payload", node)) == 10 + NodeLen(node)
  {
    NodeFieldLen("payload", node);
  }

  /** The two parts of a payload, and of a file. */
  lemma PayloadParts(header: Node, encrypted: Node)
    ensures var node := Record([Field("protected", header), Field("encrypted", encrypted)]);
            ShapeOf(node) == Enclosed(Beside(AsField(ShapeOf(header)), AsField(ShapeOf(encrypted))))
            && NodeLen(node) == 27 + NodeLen(header) + NodeLen(encrypted)
  {
    TwoNodes("protected", header, "encrypted", encrypted);
  }

  lemma FileParts(protected: Node, signature: Node)
    ensures var node := Record([Field("protected", protected), Field("signature", signature)]);
            ShapeOf(node) == Enclosed(Beside(AsField(ShapeOf(protected)), AsField(ShapeOf(signature))))
            && NodeLen(node) == 27 + NodeLen(protected) + NodeLen(signature)
  {
    TwoNodes("protected", protected, "signature", signature);
  }

  // ---- the payload --------------------------------------------------------------------------

  lemma HeaderShape(header: PayloadHeader)
    requires header.aead == XChaCha20Poly1305
    ensures ShapeOf(HeaderNode(header)) == Shape(true, 8, 2, 6, 22)
  {
    StringFieldShape("format", Spelled(header.format));
    StringFieldShape("sid", UuidText(header.sid));
    SpelledAeadIsPlain();
    AlgField(Spelled(header.aead));
    ThreeFields(Field("format", StringNode(Spelled(header.format))), Field("sid", StringNode(UuidText(header.sid))),
                Field("alg", Record([Field("aead", StringNode(Spelled(header.aead)))])));
  }

  lemma HeaderLen(header: PayloadHeader)
    requires header.format == FilePayloadV1 && header.aead == XChaCha20Poly1305
    ensures NodeLen(HeaderNode(header)) == 127
  {
    FormatField(header.format);
    SidField(header.sid);
    SpelledAeadIsPlain();
    AlgField(Spelled(header.aead));
    ThreeFields(Field("format", StringNode(Spelled(header.format))), Field("sid", StringNode(UuidText(header.sid))),
                Field("alg", Record([Field("aead", StringNode(Spelled(header.aead)))])));
  }

  ghost predicate IsPlainPayload(encrypted: PayloadCiphertext) {
    IsPlain(TextString(encrypted.nonce)) && |encrypted.nonce| == 32 && IsPlain(TextString(encrypted.ct))
  }

  lemma CiphertextMeasures(encrypted: PayloadCiphertext)
    requires IsPlainPayload(encrypted)
    ensures ShapeOf(CiphertextNode(encrypted)) == Shape(true, 4, 1, 3, 9)
    ensures NodeLen(CiphertextNode(encrypted)) == 52 + |encrypted.ct|
  {
    StringField("nonce", TextString(encrypted.nonce));
    StringField("ct", TextString(encrypted.ct));
    StringFieldShape("nonce", TextString(encrypted.nonce));
    StringFieldShape("ct", TextString(encrypted.ct));
    TwoFields(Field("nonce", StringNode(TextString(encrypted.nonce))),
              Field("ct", StringNode(TextString(encrypted.ct))));
  }

  /** The format names and the algorithm are the known ones, the payload is in its wire spelling. */
  ghost predicate IsPlainFile(p: FileProtected) {
    p.format == FileEncV1 && p.payload.header.format == FilePayloadV1 && p.payload.header.aead == XChaCha20Poly1305
    && IsPlainPayload(p.payload.encrypted)
  }

  lemma PayloadMeasures(p: FileProtected)
    requires IsPlainFile(p)
    ensures ShapeOf(PayloadNode(p.payload)) == Shape(true, 16, 3, 12, 58)
    ensures NodeLen(PayloadNode(p.payload)) == 206 + |p.payload.encrypted.ct|
  {
    HeaderShape(p.payload.header);
    HeaderLen(p.payload.header);
    CiphertextMeasures(p.payload.encrypted);
    PayloadParts(HeaderNode(p.payload.header), CiphertextNode(p.payload.encrypted));
  }

  // ---- the protected part ---------------------------------------------------------------------

  const STRING: Shape := Shape(true, 1, 0, 1, 4)

  ghost function FrontShape(n: nat): Shape {
    Beside(Beside(STRING, STRING), AsField(ItemsShape(n)))
  }

  ghost function WithRemovals(n: nat, history: Option<History>): Shape {
    match history
    case None => FrontShape(n)
    case Some(list) => Beside(FrontShape(n), AsField(RemovalsShape(|list|)))
  }

  ghost function ProtectedShape(n: nat, history: Option<History>): Shape {
    Enclosed(Beside(Beside(Beside(WithRemovals(n, history), AsField(Shape(true, 16, 3, 12, 58))), STRING), STRING))
  }

  lemma FrontShapeIs(texts: Texts, p: FileProtected)
    requires Faithful(texts) && AllPass(texts, p.wrap) && p.wrap != []
    ensures ShapeOf(Record(FrontFields(p))) == Enclosed(FrontShape(|p.wrap|))
  {
    ItemsMeasure(texts, p.wrap);
    NodeField("wrap", List(ItemNodes(p.wrap)));
    StringFieldShape("format", Spelled(p.format));
    StringFieldShape("sid", UuidText(p.sid));
    ThreeFields(Field("format", StringNode(Spelled(p.format))), Field("sid", StringNode(UuidText(p.sid))),
                Field("wrap", List(ItemNodes(p.wrap))));
  }

  lemma FrontLen(texts: Texts, p: FileProtected)
    requires Faithful(texts) && AllPass(texts, p.wrap) && p.wrap != [] && p.format == FileEncV1
    ensures NodeLen(Record(FrontFields(p))) == 93 + ListLen(WrapLens(HandlesOf(p.wrap)))
  {
    ItemsMeasure(texts, p.wrap);
    NodeFieldLen("wrap", List(ItemNodes(p.wrap)));
    FormatField(p.format);
    SidField(p.sid);
    FrontParts(p);
  }

  lemma FrontParts(p: FileProtected)
    ensures NodeLen(Record(FrontFields(p)))
         == 4 + FieldLen(Field("format", StringNode(Spelled(p.format))))
            + FieldLen(Field("sid", StringNode(UuidText(p.sid))))
            + FieldLen(Field("wrap", List(ItemNodes(p.wrap))))
  {
    ThreeFields(Field("format", StringNode(Spelled(p.format))), Field("sid", StringNode(UuidText(p.sid))),
                Field("wrap", List(ItemNodes(p.wrap))));
  }

  lemma WithRemovalsShape(texts: Texts, p: FileProtected)
    requires Faithful(texts) && AllPass(texts, p.wrap) && p.wrap != []
    ensures ShapeOf(Record(FrontFields(p) + RemovalFields(p.removedRecipients)))
         == Enclosed(WithRemovals(|p.wrap|, p.removedRecipients))
  {
    FrontShapeIs(texts, p);
    match p.removedRecipients
    case None => assert FrontFields(p) + [] == FrontFields(p);
    case Some(list) =>
      RemovalsMeasure(list);
      NodeField("removed_recipients", List(RemovalNodes(list)));
      MoreFields(FrontFields(p), Field("removed_recipients", List(RemovalNodes(list))), FrontShape(|p.wrap|));
  }

  /** What a removal history adds to the compact text. */
  function HistoryLen(history: Option<History>): nat {
    match history
    case None => 0
    case Some(list) => 24 + ListLen(RecordLens(list))
  }

  lemma WithRemovalsLen(texts: Texts, p: FileProtected)
    requires Faithful(texts) && AllPass(texts, p.wrap) && p.wrap != [] && p.format == FileEncV1
    requires HistoryPasses(texts, p.removedRecipients)
    ensures NodeLen(Record(FrontFields(p) + RemovalFields(p.removedRecipients)))
         == 93 + ListLen(WrapLens(HandlesOf(p.wrap))) + HistoryLen(p.removedRecipients)
  {
    FrontLen(texts, p);
    match p.removedRecipients
    case None => assert FrontFields(p) + [] == FrontFields(p);
    case Some(list) =>
      FrontShapeIs(texts, p);
      RemovalsLen(texts, list);
      NameIsPlain();
      NodeFieldLen("removed_recipients", List(RemovalNodes(list)));
      MoreFields(FrontFields(p), Field("removed_recipients", List(RemovalNodes(list))), FrontShape(|p.wrap|));
  }

  /** How many lines a removal history adds. */
  ghost function HistoryBreaks(history: Option<History>): nat {
    match history
    case None => 0
    case Some(list) => if list == [] then 1 else 2 + 5 * |list|
  }

  /** What it adds to the white space one level in. */
  ghost function InnerBlanks(history: Option<History>): nat {
    match history
    case None => 0
    case Some(list) => if list == [] then 4 else 7 + 34 * |list|
  }

  lemma ProtectedNumbers(n: nat, history: Option<History>)
    ensures ProtectedShape(n, history)
         == Shape(true, 28 + JSON_ELEMENTS_PER_WRAP_ITEM * n + HistoryCount(history), 4,
                  20 + 7 * n + HistoryBreaks(history), 110 + 50 * n + InnerBlanks(history))
  {
  }

  /** Three more fields at the end of a record. */
  lemma ThreeMore(fields: seq<Field>, a: Field, b: Field, c: Field, inner: Shape)
    requires fields != [] && ShapeOf(Record(fields)) == Enclosed(inner)
    ensures ShapeOf(Record(fields + [a] + [b] + [c]))
         == Enclosed(Beside(Beside(Beside(inner, FieldShape(a)), FieldShape(b)), FieldShape(c)))
    ensures NodeLen(Record(fields + [a] + [b] + [c]))
         == 3 + NodeLen(Record(fields)) + FieldLen(a) + FieldLen(b) + FieldLen(c)
  {
    MoreFields(fields, a, inner);
    MoreFields(fields + [a], b, Beside(inner, FieldShape(a)));
    MoreFields(fields + [a] + [b], c, Beside(Beside(inner, FieldShape(a)), FieldShape(b)));
  }

  lemma ProtectedShapeIs(texts: Texts, p: FileProtected)
    requires Faithful(texts) && AllPass(texts, p.wrap) && p.wrap != [] && IsPlainFile(p)
    ensures ShapeOf(ProtectedNode(p)) == ProtectedShape(|p.wrap|, p.removedRecipients)
  {
    WithRemovalsShape(texts, p);
    PayloadMeasures(p);
    NodeField("payload", PayloadNode(p.payload));
    StringFieldShape("created_at", p.createdAt);
    StringFieldShape("updated_at", p.updatedAt);
    ThreeMore(FrontFields(p) + RemovalFields(p.removedRecipients), Field("payload", PayloadNode(p.payload)),
              Field("created_at", StringNode(p.createdAt)), Field("updated_at", StringNode(p.updatedAt)),
              WithRemovals(|p.wrap|, p.removedRecipients));
  }

  ghost predicate DatesPass(texts: Texts, history: Option<History>, created: string, updated: string) {
    HistoryPasses(texts, history) && IsTimestamp(created) && IsTimestamp(updated)
  }

  lemma ProtectedLen(texts: Texts, p: FileProtected)
    requires Faithful(texts) && AllPass(texts, p.wrap) && p.wrap != [] && IsPlainFile(p)
    requires DatesPass(texts, p.removedRecipients, p.createdAt, p.updatedAt)
    ensures NodeLen(ProtectedNode(p))
         == 342 + ListLen(WrapLens(HandlesOf(p.wrap))) + HistoryLen(p.removedRecipients) + |p.payload.encrypted.ct|
            + |p.createdAt| + |p.updatedAt|
  {
    WithRemovalsShape(texts, p);
    WithRemovalsLen(texts, p);
    PayloadMeasures(p);
    PayloadField(PayloadNode(p.payload));
    DateFields(p.createdAt, p.updatedAt);
    ThreeMore(FrontFields(p) + RemovalFields(p.removedRecipients), Field("payload", PayloadNode(p.payload)),
              Field("created_at", StringNode(p.createdAt)), Field("updated_at", StringNode(p.updatedAt)),
              WithRemovals(|p.wrap|, p.removedRecipients));
  }

  // ---- the whole file --------------------------------------------------------------------------

  lemma FileSignatureMeasures(texts: Texts, signature: Signature, publicKey: Node)
    requires Faithful(texts) && GoodNode(publicKey)
    ensures ShapeOf(FileSignatureNode(texts, signature, publicKey)) == SignatureShape(publicKey)
    ensures texts.kid(signature.kid).Ok? ==>
              NodeLen(FileSignatureNode(texts, signature, publicKey)) == 237 + NodeLen(publicKey)
  {
    MacIsPlain(texts, signature.mac);
    SignatureNamesArePlain();
    NodeField("signer_pub", publicKey);
    NodeFieldLen("signer_pub", publicKey);
    FieldBetween("alg", "eddsa-ed25519", "kid", signature.kid, Field("signer_pub", publicKey),
                 "mac", MacText(texts, signature.mac), "sig", SignatureText());
    if texts.kid(signature.kid).Ok? {
      KidIsPlain(texts, signature.kid);
    }
  }

  /** What the scan counts in a file for `n` recipients. */
  function FileCount(n: nat, history: Option<History>, publicKey: Node): nat {
    42 + JSON_ELEMENTS_PER_WRAP_ITEM * n + HistoryCount(history) + NodeSize(publicKey)
  }

  function HistoryBlanks(history: Option<History>): nat {
    match history
    case None => 0
    case Some(list) => if list == [] then 6 else 11 + 44 * |list|
  }

  /** The white space of a file for `n` recipients. */
  function FileBlanks(n: nat, history: Option<History>, publicKey: Node): nat {
    192 + 64 * n + HistoryBlanks(history) + Blanks(publicKey) + 4 * Breaks(publicKey)
  }

  /** The length of the indented text. */
  function FileTextLen(handles: seq<string>, history: Option<History>, contentLen: nat, created: string,
                       updated: string, publicKey: Node): nat
  {
    606 + ListLen(WrapLens(handles)) + HistoryLen(history) + EncodedLen(contentLen + AEAD_TAG_LENGTH)
    + |created| + |updated| + NodeLen(publicKey) + FileBlanks(|handles|, history, publicKey)
  }

  ghost function SignatureShape(publicKey: Node): Shape {
    Shape(true, 10 + NodeSize(publicKey), 1 + NodeDepth(publicKey), 6 + Breaks(publicKey),
          21 + Blanks(publicKey) + 2 * Breaks(publicKey))
  }

  ghost function FileShape(n: nat, history: Option<History>, publicKey: Node): Shape {
    Shape(true, FileCount(n, history, publicKey), Max(5, 2 + NodeDepth(publicKey)),
          29 + 7 * n + HistoryBreaks(history) + Breaks(publicKey), FileBlanks(n, history, publicKey))
  }

  lemma FileNumbers(n: nat, history: Option<History>, publicKey: Node)
    ensures Enclosed(Beside(AsField(ProtectedShape(n, history)), AsField(SignatureShape(publicKey))))
         == FileShape(n, history, publicKey)
  {
    ProtectedNumbers(n, history);
  }

  lemma FileShapeIs(texts: Texts, publicKey: Node, doc: FileDocument)
    requires Faithful(texts) && GoodNode(publicKey) && IsPlainFile(doc.protected)
    requires AllPass(texts, doc.protected.wrap) && doc.protected.wrap != []
    ensures ShapeOf(FileNode(texts, publicKey, doc))
         == FileShape(|doc.protected.wrap|, doc.protected.removedRecipients, publicKey)
  {
    ProtectedShapeIs(texts, doc.protected);
    FileSignatureMeasures(texts, doc.signature, publicKey);
    FileParts(ProtectedNode(doc.protected), FileSignatureNode(texts, doc.signature, publicKey));
    FileNumbers(|doc.protected.wrap|, doc.protected.removedRecipients, publicKey);
  }

  lemma FileLen(texts: Texts, publicKey: Node, doc: FileDocument)
    requires Faithful(texts) && GoodNode(publicKey) && IsPlainFile(doc.protected)
    requires AllPass(texts, doc.protected.wrap) && doc.protected.wrap != [] && texts.kid(doc.signature.kid).Ok?
    requires DatesPass(texts, doc.protected.removedRecipients, doc.protected.createdAt, doc.protected.updatedAt)
    ensures var p := doc.protected;
            NodeLen(FileNode(texts, publicKey, doc))
            == 606 + ListLen(WrapLens(HandlesOf(p.wrap))) + HistoryLen(p.removedRecipients)
               + |p.payload.encrypted.ct| + |p.createdAt| + |p.updatedAt| + NodeLen(publicKey)
  {
    ProtectedLen(texts, doc.protected);
    FileSignatureMeasures(texts, doc.signature, publicKey);
    FileParts(ProtectedNode(doc.protected), FileSignatureNode(texts, doc.signature, publicKey));
  }

  // ---- loading --------------------------------------------------------------------------------

  ghost predicate SignerFits(texts: Texts, signer: Signer) {
    texts.kid(signer.kid).Ok? && 2 + NodeDepth(signer.publicKey) <= MAX_JSON_DEPTH
  }

  /** A file of these parts, written and read again, is not refused. */
  ghost predicate FilePartsLoad(texts: Texts, signer: Signer, handles: seq<string>, history: Option<History>,
                                contentLen: nat, created: string, updated: string)
  {
    1 <= |handles| <= MAX_WRAP_ITEMS && FileCount(|handles|, history, signer.publicKey) <= MAX_JSON_ELEMENTS
    && DatesPass(texts, history, created, updated) && SignerFits(texts, signer)
    && FileTextLen(handles, history, contentLen, created, updated, signer.publicKey) <= MAX_JSON_DOCUMENT_READ_SIZE
  }

  /** The nonce and the ciphertext of a content of this length, in their wire spelling. */
  ghost predicate IsSpelledPayload(texts: Texts, encrypted: PayloadCiphertext, contentLen: nat) {
    (exists nonce: Nonce :: encrypted.nonce == texts.encode(nonce))
    && (exists ct: Bytes :: |ct| == contentLen + AEAD_TAG_LENGTH && encrypted.ct == texts.encode(ct))
  }

  lemma SpelledPayloadIs(texts: Texts, encrypted: PayloadCiphertext, contentLen: nat)
    requires Faithful(texts) && IsSpelledPayload(texts, encrypted, contentLen)
    ensures texts.sized(encrypted.nonce, 24).Ok? && encrypted.ct != [] && texts.canonical(encrypted.ct)
    ensures IsPlainPayload(encrypted) && |encrypted.ct| == EncodedLen(contentLen + AEAD_TAG_LENGTH)
  {
    var nonce: Nonce :| encrypted.nonce == texts.encode(nonce);
    var ct: Bytes :| |ct| == contentLen + AEAD_TAG_LENGTH && encrypted.ct == texts.encode(ct);
    assert RoundTrips(texts, nonce) && RoundTrips(texts, ct);
    EncodedIsPlain(texts, nonce);
    EncodedIsPlain(texts, ct);
  }

  /** A document that passed every check but those of its text. */
  ghost predicate IsWellFormedFile(texts: Texts, p: FileProtected, contentLen: nat) {
    CheckFileFormat(p) == Ok(()) && AllPass(texts, p.wrap) && DistinctHandles(p.wrap)
    && IsSpelledPayload(texts, p.payload.encrypted, contentLen)
  }

  lemma WellFormedIsPlain(texts: Texts, p: FileProtected, contentLen: nat)
    requires Faithful(texts) && IsWellFormedFile(texts, p, contentLen)
    ensures IsPlainFile(p) && |p.payload.encrypted.ct| == EncodedLen(contentLen + AEAD_TAG_LENGTH)
    ensures DatesPass(texts, p.removedRecipients, p.createdAt, p.updatedAt) ==> ProtectedPasses(texts, p)
  {
    SpelledPayloadIs(texts, p.payload.encrypted, contentLen);
  }

  /** Whether the scan accepts the text. */
  lemma FileScans(texts: Texts, publicKey: Node, doc: FileDocument)
    requires Faithful(texts) && GoodNode(publicKey) && IsPlainFile(doc.protected)
    requires AllPass(texts, doc.protected.wrap) && doc.protected.wrap != []
    ensures JsonLimits.WithinLimits(JsonLimits.CountedAll(JsonLimits.START, FileContent(texts, publicKey, doc)))
         == (FileCount(|doc.protected.wrap|, doc.protected.removedRecipients, publicKey) <= MAX_JSON_ELEMENTS
             && 2 + NodeDepth(publicKey) <= MAX_JSON_DEPTH)
  {
    FileShapeIs(texts, publicKey, doc);
    WrittenAcceptedExactly(Indented, FileNode(texts, publicKey, doc));
  }

  /** The length of the text, without writing it. */
  lemma FileTextIs(texts: Texts, publicKey: Node, doc: FileDocument, contentLen: nat)
    requires Faithful(texts) && GoodNode(publicKey) && IsPlainFile(doc.protected)
    requires AllPass(texts, doc.protected.wrap) && doc.protected.wrap != [] && texts.kid(doc.signature.kid).Ok?
    requires DatesPass(texts, doc.protected.removedRecipients, doc.protected.createdAt, doc.protected.updatedAt)
    requires |doc.protected.payload.encrypted.ct| == EncodedLen(contentLen + AEAD_TAG_LENGTH)
    ensures |FileContent(texts, publicKey, doc)|
         == FileTextLen(HandlesOf(doc.protected.wrap), doc.protected.removedRecipients, contentLen,
                        doc.protected.createdAt, doc.protected.updatedAt, publicKey)
  {
    FileShapeIs(texts, publicKey, doc);
    FileLen(texts, publicKey, doc);
    IndentedLen(FileNode(texts, publicKey, doc));
  }

  ghost predicate BodyLoads(texts: Texts, publicKey: Node, doc: FileDocument, contentLen: nat) {
    FilePartsLoad(texts, Signer(doc.signature.kid, publicKey), HandlesOf(doc.protected.wrap),
                  doc.protected.removedRecipients, contentLen, doc.protected.createdAt, doc.protected.updatedAt)
  }

  /** Every check of the loader. */
  ghost predicate PassesEach(texts: Texts, publicKey: Node, doc: FileDocument) {
    var p, text := doc.protected, FileContent(texts, publicKey, doc);
    |text| <= MAX_JSON_DOCUMENT_READ_SIZE
    && JsonLimits.WithinLimits(JsonLimits.CountedAll(JsonLimits.START, text))
    && ProtectedPasses(texts, p) && p.wrap != [] && HistoryPasses(texts, p.removedRecipients)
    && texts.kid(doc.signature.kid).Ok? && CheckWrapItems(texts, p.wrap).Ok?
  }

  lemma LoadFileIs(texts: Texts, publicKey: Node, doc: FileDocument)
    ensures LoadFile(texts, publicKey, doc).Ok? == PassesEach(texts, publicKey, doc)
  {
  }

  /** With wraps that pass and their number in range, only the text and the dates are left to check. */
  lemma CheckedExactly(texts: Texts, publicKey: Node, doc: FileDocument, contentLen: nat)
    requires Faithful(texts) && GoodNode(publicKey) && IsWellFormedFile(texts, doc.protected, contentLen)
    requires 1 <= |doc.protected.wrap| <= MAX_WRAP_ITEMS
    ensures PassesEach(texts, publicKey, doc) == BodyLoads(texts, publicKey, doc, contentLen)
  {
    var p := doc.protected;
    WellFormedIsPlain(texts, p, contentLen);
    SetAcceptedExactly(texts, p.wrap);
    FileScans(texts, publicKey, doc);
    if DatesPass(texts, p.removedRecipients, p.createdAt, p.updatedAt) && texts.kid(doc.signature.kid).Ok? {
      FileTextIs(texts, publicKey, doc, contentLen);
    }
  }

  /**
   * The exact condition under which a written file is read again, in terms of the
   * handles, the removal history, the length of the content, the dates and the signer
   * alone. The budget of the scan is shared by the wraps, eleven elements each, the
   * removal records, seven each, and the signer's public key.
   */
  lemma FileLoadsExactly(texts: Texts, publicKey: Node, doc: FileDocument, contentLen: nat)
    requires Faithful(texts) && GoodNode(publicKey) && IsWellFormedFile(texts, doc.protected, contentLen)
    ensures LoadFile(texts, publicKey, doc).Ok? == BodyLoads(texts, publicKey, doc, contentLen)
  {
    LoadFileIs(texts, publicKey, doc);
    SetAcceptedExactly(texts, doc.protected.wrap);
    if 1 <= |doc.protected.wrap| <= MAX_WRAP_ITEMS {
      CheckedExactly(texts, publicKey, doc, contentLen);
    }
  }

  /** The order of the wraps does not matter. */
  lemma FilePartsLoadPermuted(texts: Texts, signer: Signer, handles: seq<string>, others: seq<string>,
                              history: Option<History>, contentLen: nat, created: string, updated: string)
    requires multiset(handles) == multiset(others)
    ensures FilePartsLoad(texts, signer, handles, history, contentLen, created, updated)
         == FilePartsLoad(texts, signer, others, history, contentLen, created, updated)
  {
    WrapLensPermuted(handles, others);
  }

  // ---- reading it again -------------------------------------------------------------------------

  lemma HeldIsSpelled(suite: Suite, payload: FilePayload, key: Key, content: Bytes)
    requires Ideal(suite) && PayloadHolds(suite, payload, key, content)
    ensures IsSpelledPayload(suite.texts, payload.encrypted, |content|)
  {
    var nonce: Nonce :| payload.encrypted == EncryptPayload(suite, content, key, payload.header, nonce);
    assert EncryptsAndDecrypts(suite, key, nonce, HeaderContext(payload.header), content);
    var ct := suite.encrypt(key, nonce, HeaderContext(payload.header), content);
    assert |ct| == |content| + AEAD_TAG_LENGTH && payload.encrypted.ct == suite.texts.encode(ct);
  }

  /** A sound file, through its text: its content for exactly those it admits, if it loads and is not too long. */
  lemma FileReadsBackExactly(suite: Suite, dir: Directory, publicKey: Node, doc: FileDocument, masterKey: Key,
                             content: Bytes, handle: string, keys: KeyContext)
    requires Ideal(suite) && SoundDocument(suite, dir, doc, masterKey, content) && KeysMatch(suite, dir, keys)
    requires GoodNode(publicKey)
    ensures LoadFile(suite.texts, publicKey, doc).Ok? == BodyLoads(suite.texts, publicKey, doc, |content|)
    ensures ReadFile(suite, publicKey, doc, handle, keys).ToOption()
         == if BodyLoads(suite.texts, publicKey, doc, |content|) && Admits(doc.protected.wrap, handle, keys)
               && |content| <= MAX_PLAINTEXT_INPUT_SIZE
            then Some(content) else None
  {
    SoundIsWellFormedFile(suite, dir, doc, masterKey, content);
    FileLoadsExactly(suite.texts, publicKey, doc, |content|);
    DecryptsExactly(suite, dir, doc, masterKey, content, handle, keys);
  }

  lemma SoundIsWellFormedFile(suite: Suite, dir: Directory, doc: FileDocument, masterKey: Key, content: Bytes)
    requires Ideal(suite) && SoundDocument(suite, dir, doc, masterKey, content)
    ensures IsWellFormedFile(suite.texts, doc.protected, |content|)
  {
    SetAcceptedExactly(suite.texts, doc.protected.wrap);
    HeldIsSpelled(suite, doc.protected.payload, FileContentKey(suite, masterKey, doc.protected.sid), content);
  }

  // ---- how much fits ----------------------------------------------------------------------------

  /**
   * The records there is room for beside `n` wraps and a public key of `s` elements,
   * for the scan: seven each, of what is left of 13000.
   */
  lemma RemovalsFitExactly(n: nat, list: History, publicKey: Node)
    requires 1 <= n <= MAX_WRAP_ITEMS && list != []
    ensures FileCount(n, Some(list), publicKey) <= MAX_JSON_ELEMENTS
       <==> 7 * |list| <= 12956 - 11 * n - NodeSize(publicKey)
  {
  }

  const MODEST_KEY_LENGTH: nat := 1024 * 1024

  /** A signer whose public-key document nests less than the limit and is no longer than a megabyte. */
  ghost predicate IsModestSigner(texts: Texts, signer: Signer) {
    var publicKey := signer.publicKey;
    GoodNode(publicKey) && SignerFits(texts, signer)
    && NodeLen(publicKey) + Blanks(publicKey) + 4 * Breaks(publicKey) <= MODEST_KEY_LENGTH
  }

  /**
   * Within the plaintext limit, and with dates and a public key of any reasonable
   * length, the budget of the scan alone decides what a file may carry.
   */
  lemma BudgetDecides(texts: Texts, signer: Signer, handles: seq<string>, history: Option<History>, contentLen: nat,
                      created: string, updated: string)
    requires Faithful(texts) && 1 <= |handles| <= MAX_WRAP_ITEMS && forall h :: h in handles ==> texts.handle(h)
    requires DatesPass(texts, history, created, updated) && ModestDates(history) && IsModestSigner(texts, signer)
    requires |created| <= MODEST_DATE_LENGTH && |updated| <= MODEST_DATE_LENGTH
    requires contentLen <= MAX_PLAINTEXT_INPUT_SIZE
    ensures FilePartsLoad(texts, signer, handles, history, contentLen, created, updated)
       <==> FileCount(|handles|, history, signer.publicKey) <= MAX_JSON_ELEMENTS
  {
    HandlesAreShort(texts, handles);
    CiphertextFitsExactly(contentLen);
    if history.Some? {
      RecordsAreShort(texts, history.value);
    }
  }

  const MODEST_KEY_SIZE: nat := MAX_JSON_ELEMENTS - 42 - MAX_WRAP_ITEMS * JSON_ELEMENTS_PER_WRAP_ITEM

  /** The signer, the recipients and the date are such that a fresh file can be read again. */
  ghost predicate IsModest(suite: Suite, dir: Directory, members: seq<Member>, publicKey: Node, signerKid: string,
                           now: string)
  {
    members != [] && |HandlesGiven(members)| <= MAX_WRAP_ITEMS && GoodMembers(suite, dir, members)
    && IsModestSigner(suite.texts, Signer(signerKid, publicKey)) && NodeSize(publicKey) <= MODEST_KEY_SIZE
    && IsTimestamp(now) && |now| <= MODEST_DATE_LENGTH
  }

  lemma EncryptedFileLoads(suite: Suite, dir: Directory, entropy: Entropy, content: Bytes, members: seq<Member>,
                           publicKey: Node, signerKid: string, now: string, doc: FileDocument)
    requires Ideal(suite) && IsModest(suite, dir, members, publicKey, signerKid, now)
    requires EncryptFile(suite, entropy, content, members, signerKid, now) == Ok(doc)
    requires |content| <= MAX_PLAINTEXT_INPUT_SIZE
    ensures LoadFile(suite.texts, publicKey, doc).Ok?
  {
    var ordered := Ordered(members);
    OrderedCount(members);
    OrderedIsDistinct(members);
    OrderedAreGood(suite, dir, members);
    SomeoneIsOrdered(members);
    EncryptedDocumentIsSound(suite, dir, entropy, content, ordered, signerKid, now);
    SoundIsWellFormedFile(suite, dir, doc, entropy.keys(1), content);
    FileLoadsExactly(suite.texts, publicKey, doc, |content|);
    PassingHandles(suite.texts, doc.protected.wrap);
    BudgetDecides(suite.texts, Signer(signerKid, publicKey), HandlesOf(doc.protected.wrap), None, |content|, now, now);
  }

  /**
   * End to end, through the text: what is encrypted for up to a thousand handles is
   * recovered from the text it is written to, by exactly the holders of the key of a
   * member first given under their handle, unless it exceeds the plaintext limit.
   */
  lemma EncryptedFileReadsBackExactly(suite: Suite, dir: Directory, entropy: Entropy, content: Bytes,
                                      members: seq<Member>, publicKey: Node, signerKid: string, now: string,
                                      doc: FileDocument, handle: string, keys: KeyContext)
    requires Ideal(suite) && IsModest(suite, dir, members, publicKey, signerKid, now) && KeysMatch(suite, dir, keys)
    requires EncryptFile(suite, entropy, content, members, signerKid, now) == Ok(doc)
    ensures |content| <= MAX_PLAINTEXT_INPUT_SIZE ==> LoadFile(suite.texts, publicKey, doc).Ok?
    ensures ReadFile(suite, publicKey, doc, handle, keys).ToOption()
         == if |content| <= MAX_PLAINTEXT_INPUT_SIZE && HoldsFirstKey(members, handle, keys)
            then Some(content) else None
  {
    RecipientsRecoverExactly(suite, dir, entropy, content, members, signerKid, now, handle, keys);
    ReadFileIs(suite, publicKey, doc, handle, keys);
    if |content| <= MAX_PLAINTEXT_INPUT_SIZE {
      EncryptedFileLoads(suite, dir, entropy, content, members, publicKey, signerKid, now, doc);
    }
  }

  lemma ReadFileIs(suite: Suite, publicKey: Node, doc: FileDocument, handle: string, keys: KeyContext)
    ensures ReadFile(suite, publicKey, doc, handle, keys).ToOption()
         == if LoadFile(suite.texts, publicKey, doc).Ok? then DecryptFile(suite, doc, handle, keys).ToOption() else None
  {
  }

  lemma SomeoneIsOrdered(members: seq<Member>)
    requires members != []
    ensures Ordered(members) != []
  {
    assert FirstGiven(members, 0, members[0].handle);
    OrderedExactly(members, members[0]);
  }

  lemma PassingHandles(texts: Texts, items: seq<WrapItem>)
    requires AllPass(texts, items)
    ensures forall h :: h in HandlesOf(items) ==> texts.handle(h)
  {
    forall i | 0 <= i < |items|
      ensures texts.handle(items[i].recipientHandle)
    {
      assert CheckWrapItem(texts, items[i]) == Ok(());
    }
  }
}
