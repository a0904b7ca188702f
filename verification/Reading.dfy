/** The JSON of a document read back: every member is looked up by its name. */
module Reading {
  import opened Wrappers
  import opened Codec
  import opened Wire
  import opened Disclosure
  import opened Primitives
  import opened JsonGrammar
  import opened JsonText
  import opened JsonTextProofs
  import opened WireTextProofs

  // ---- trees ------------------------------------------------------------------------------

  function CharAt(codePoint: nat): char {
    if codePoint < 0xD800 || 0xE000 <= codePoint < 0x11_0000 then codePoint as char else '?'
  }

  /** The text a string stands for. */
  function Meaning(parts: seq<Part>): (s: string)
    ensures |s| == |parts| && forall i :: 0 <= i < |s| ==> s[i] == CharAt(CodePoint(parts[i]))
  {
    seq(|parts|, i requires 0 <= i < |parts| => CharAt(CodePoint(parts[i])))
  }

  /** The tree of a value, whatever the white space around it. */
  function Unwritten(v: Value): Node
    decreases v
  {
    match v
    case Array(_, items, _) => List(UnwrittenItems(items))
    case Object(_, members, _) => Record(UnwrittenMembers(members))
    case _ => Leaf(v)
  }

  function UnwrittenItem(item: JsonGrammar.Item): Node
    decreases item
  {
    Unwritten(item.value)
  }

  function UnwrittenItems(items: seq<JsonGrammar.Item>): seq<Node>
    decreases items
  {
    if items == [] then [] else UnwrittenItems(items[..|items| - 1]) + [UnwrittenItem(items[|items| - 1])]
  }

  function UnwrittenMember(member: JsonGrammar.Member): Field
    decreases member
  {
    Field(Meaning(member.name), Unwritten(member.value))
  }

  function UnwrittenMembers(members: seq<JsonGrammar.Member>): seq<Field>
    decreases members
  {
    if members == [] then []
    else UnwrittenMembers(members[..|members| - 1]) + [UnwrittenMember(members[|members| - 1])]
  }

  // ---- members ----------------------------------------------------------------------------

  function Lookup(fields: seq<Field>, name: string): Option<Node> {
    if fields == [] then None
    else if fields[0].name == name then Some(fields[0].value)
    else Lookup(fields[1..], name)
  }

  function MemberOf(node: Node, name: string): Option<Node> {
    if node.Record? then Lookup(node.fields, name) else None
  }

  /** The member of this name, or an empty list where there is none. */
  function NodeAt(node: Node, name: string): Node {
    match MemberOf(node, name)
    case Some(member) => member
    case None => List([])
  }

  function ListAt(node: Node, name: string): seq<Node> {
    match MemberOf(node, name)
    case Some(List(items)) => items
    case _ => []
  }

  function StringAt(node: Node, name: string): string {
    match MemberOf(node, name)
    case Some(Leaf(Str(parts))) => Meaning(parts)
    case _ => ""
  }

  function FlagAt(node: Node, name: string): bool {
    MemberOf(node, name) == Some(Leaf(Word("true")))
  }

  function ByteOf(c: char): bv8 {
    if c as int < 256 then c as bv8 else 0
  }

  function TextAt(node: Node, name: string): (text: Text)
    ensures |text| == |StringAt(node, name)|
    ensures forall i :: 0 <= i < |text| ==> text[i] == ByteOf(StringAt(node, name)[i])
  {
    var s := StringAt(node, name);
    seq(|s|, i requires 0 <= i < |s| => ByteOf(s[i]))
  }

  function UuidAt(node: Node, name: string): Uuid {
    var text := StringAt(node, name);
    if |text| == 36 then HexNumber(Ungrouped(text)) else 0
  }

  /** The tag after the name of its algorithm. */
  function MacAt(texts: Texts, node: Node, name: string): Key {
    if "hmac-sha256:" <= StringAt(node, name) then
      match texts.sized(TextAt(node, name)[12..], 32)
      case Ok(mac) => if |mac| == 32 then mac else Zeros(32)
      case Err(_) => Zeros(32)
    else Zeros(32)
  }

  // ---- what both kinds of documents have --------------------------------------------------

  function ItemOf(node: Node): WrapItem {
    WrapItem(StringAt(node, "rh"), StringAt(node, "kid"), Named(StringAt(node, "alg")), TextAt(node, "enc"),
             TextAt(node, "ct"))
  }

  function ItemsOf(nodes: seq<Node>): (items: seq<WrapItem>)
    ensures |items| == |nodes| && forall i :: 0 <= i < |items| ==> items[i] == ItemOf(nodes[i])
  {
    seq(|nodes|, i requires 0 <= i < |nodes| => ItemOf(nodes[i]))
  }

  function RemovalOf(node: Node): RemovedRecipient {
    RemovedRecipient(StringAt(node, "rh"), StringAt(node, "kid"), StringAt(node, "removed_at"))
  }

  function RemovalsOf(nodes: seq<Node>): (list: History)
    ensures |list| == |nodes| && forall i :: 0 <= i < |list| ==> list[i] == RemovalOf(nodes[i])
  {
    seq(|nodes|, i requires 0 <= i < |nodes| => RemovalOf(nodes[i]))
  }

  function HistoryOf(node: Node): Option<History> {
    if MemberOf(node, "removed_recipients").Some? then Some(RemovalsOf(ListAt(node, "removed_recipients"))) else None
  }

  /** A signature by the one algorithm there is. */
  function SignatureOf(texts: Texts, node: Node): Option<Signature> {
    if StringAt(node, "alg") == "eddsa-ed25519" then Some(Signature(StringAt(node, "kid"), MacAt(texts, node, "mac")))
    else None
  }

  // ---- key-value documents ----------------------------------------------------------------

  function HeadOf(node: Node): KvHeader {
    KvHeader(UuidAt(node, "sid"), Named(StringAt(NodeAt(node, "alg"), "aead")), StringAt(node, "created_at"),
             StringAt(node, "updated_at"))
  }

  function WrapOf(node: Node): KvWrap {
    KvWrap(ItemsOf(ListAt(node, "wrap")), HistoryOf(node))
  }

  function EntryOf(node: Node): KvEntryValue {
    KvEntryValue(TextAt(node, "nonce"), TextAt(node, "ct"), FlagAt(node, "disclosed"))
  }

  // ---- files --------------------------------------------------------------------------------

  function HeaderOf(node: Node): PayloadHeader {
    PayloadHeader(Named(StringAt(node, "format")), UuidAt(node, "sid"), Named(StringAt(NodeAt(node, "alg"), "aead")))
  }

  function PayloadOf(node: Node): FilePayload {
    var encrypted := NodeAt(node, "encrypted");
    FilePayload(HeaderOf(NodeAt(node, "protected")),
                PayloadCiphertext(TextAt(encrypted, "nonce"), TextAt(encrypted, "ct")))
  }

  function ProtectedOf(node: Node): FileProtected {
    FileProtected(Named(StringAt(node, "format")), UuidAt(node, "sid"), ItemsOf(ListAt(node, "wrap")), HistoryOf(node),
                  PayloadOf(NodeAt(node, "payload")), StringAt(node, "created_at"), StringAt(node, "updated_at"))
  }

  function FileOf(texts: Texts, node: Node): Option<FileDocument> {
    match SignatureOf(texts, NodeAt(node, "signature"))
    case None => None
    case Some(signature) => Some(FileDocument(ProtectedOf(NodeAt(node, "protected")), signature))
  }
}

/** What is written reads back as the document it was written from. */
module ReadingProofs {
  import opened Wrappers
  import opened Codec
  import opened Wire
  import opened Disclosure
  import opened Primitives
  import opened Envelope
  import opened EnvelopeProofs
  import opened JsonGrammar
  import opened JsonText
  import opened JsonTextProofs
  import opened WireText
  import opened WireTextProofs
  import opened Reading
  import FileText
  import FileTextProofs
  import KvText
  import KvTextProofs
  import Seqs

  // ---- trees ------------------------------------------------------------------------------

  lemma StringsMean(s: string)
    ensures Meaning(Quoted(s)) == s
  {
    StringsReadBack(s);
  }

  /** Whatever the layout, the tree that was written is read. */
  lemma {:induction false} TreesReadBack(style: Style, depth: nat, node: Node)
    requires GoodNode(node)
    ensures Unwritten(Written(style, depth, node)) == node
    decreases node
  {
    match node
    case Leaf(_) =>
    case List(items) => ItemsReadBack(style, depth, items);
    case Record(fields) => FieldsReadBack(style, depth, fields);
  }

  lemma {:induction false} ItemsReadBack(style: Style, depth: nat, items: seq<Node>)
    requires forall i :: 0 <= i < |items| ==> GoodNode(items[i])
    ensures UnwrittenItems(WrittenItems(style, depth, items)) == items
    decreases items
  {
    if items != [] {
      ItemsReadBack(style, depth, items[..|items| - 1]);
      TreesReadBack(style, depth + 1, items[|items| - 1]);
    }
  }

  lemma {:induction false} FieldsReadBack(style: Style, depth: nat, fields: seq<Field>)
    requires forall i :: 0 <= i < |fields| ==> GoodField(fields[i])
    ensures UnwrittenMembers(WrittenFields(style, depth, fields)) == fields
    decreases fields
  {
    if fields != [] {
      FieldsReadBack(style, depth, fields[..|fields| - 1]);
      FieldReadsBack(style, depth, fields[|fields| - 1]);
    }
  }

  lemma FieldReadsBack(style: Style, depth: nat, field: Field)
    requires GoodField(field)
    ensures UnwrittenMember(WrittenField(style, depth, field)) == field
    decreases field
  {
    StringsMean(field.name);
    TreesReadBack(style, depth + 1, field.value);
  }

  // ---- members ----------------------------------------------------------------------------

  lemma {:induction false} LookupAt(fields: seq<Field>, i: nat)
    requires i < |fields| && forall j :: 0 <= j < i ==> fields[j].name != fields[i].name
    ensures Lookup(fields, fields[i].name) == Some(fields[i].value)
  {
    if i > 0 {
      assert fields[1..][i - 1] == fields[i];
      LookupAt(fields[1..], i - 1);
    }
  }

  lemma {:induction false} LookupNone(fields: seq<Field>, name: string)
    requires forall j :: 0 <= j < |fields| ==> fields[j].name != name
    ensures Lookup(fields, name) == None
  {
    if fields != [] {
      LookupNone(fields[1..], name);
    }
  }

  /** The member at `i` is a string, and the first of its name. */
  ghost predicate HasString(fields: seq<Field>, i: nat, s: string) {
    i < |fields| && fields[i].value == StringNode(s) && forall j :: 0 <= j < i ==> fields[j].name != fields[i].name
  }

  lemma StringIs(fields: seq<Field>, i: nat, s: string)
    requires HasString(fields, i, s)
    ensures StringAt(Record(fields), fields[i].name) == s
  {
    LookupAt(fields, i);
    StringsMean(s);
  }

  lemma TextFrom(node: Node, name: string, text: Text)
    requires StringAt(node, name) == TextString(text)
    ensures TextAt(node, name) == text
  {
  }

  lemma UuidFrom(node: Node, name: string, sid: Uuid)
    requires StringAt(node, name) == UuidText(sid) && sid < Power16(32)
    ensures UuidAt(node, name) == sid
  {
    UuidReadsBack(sid);
  }

  lemma MacFrom(texts: Texts, node: Node, name: string, mac: Key)
    requires Faithful(texts) && StringAt(node, name) == MacText(texts, mac)
    ensures MacAt(texts, node, name) == mac
  {
    assert RoundTrips(texts, mac);
    MacComesOff(texts.encode(mac), TextAt(node, name));
  }

  lemma MacComesOff(encoded: Text, text: Text)
    requires var s := "hmac-sha256:" + TextString(encoded);
             |text| == |s| && forall i :: 0 <= i < |text| ==> text[i] == ByteOf(s[i])
    ensures |text| >= 12 && text[12..] == encoded && "hmac-sha256:" <= "hmac-sha256:" + TextString(encoded)
  {
  }

  /** A name a document may carry reads back from its spelling. */
  lemma NameFrom(text: string, name: Name)
    requires text == Spelled(name) && !name.Other?
    ensures Named(text) == name
  {
    NamesAreSpelledApart(text, name);
  }

  lemma ThreeRead(a: string, x: string, b: string, y: string, c: string, z: string)
    requires a != b && a != c && b != c
    ensures var node := Record([Field(a, StringNode(x)), Field(b, StringNode(y)), Field(c, StringNode(z))]);
            StringAt(node, a) == x && StringAt(node, b) == y && StringAt(node, c) == z
  {
    var fields := [Field(a, StringNode(x)), Field(b, StringNode(y)), Field(c, StringNode(z))];
    StringIs(fields, 0, x);
    StringIs(fields, 1, y);
    StringIs(fields, 2, z);
  }

  lemma FiveRead(a: string, v: string, b: string, w: string, c: string, x: string, d: string, y: string, e: string,
                 z: string)
    requires Seqs.NoRepeats([a, b, c, d, e])
    ensures var node := Record([Field(a, StringNode(v)), Field(b, StringNode(w)), Field(c, StringNode(x)),
                                Field(d, StringNode(y)), Field(e, StringNode(z))]);
            StringAt(node, a) == v && StringAt(node, b) == w && StringAt(node, c) == x && StringAt(node, d) == y
            && StringAt(node, e) == z
  {
    var names := [a, b, c, d, e];
    var fields := [Field(a, StringNode(v)), Field(b, StringNode(w)), Field(c, StringNode(x)),
                   Field(d, StringNode(y)), Field(e, StringNode(z))];
    assert forall i :: 0 <= i < 5 ==> fields[i].name == names[i];
    StringIs(fields, 0, v);
    StringIs(fields, 1, w);
    StringIs(fields, 2, x);
    StringIs(fields, 3, y);
    StringIs(fields, 4, z);
  }

  lemma TwoAndFieldRead(a: string, x: string, b: string, y: string, f: Field)
    requires Seqs.NoRepeats([a, b, f.name])
    ensures var node := Record([Field(a, StringNode(x)), Field(b, StringNode(y)), f]);
            StringAt(node, a) == x && StringAt(node, b) == y && NodeAt(node, f.name) == f.value
  {
    var names := [a, b, f.name];
    var fields := [Field(a, StringNode(x)), Field(b, StringNode(y)), f];
    assert forall i :: 0 <= i < 3 ==> fields[i].name == names[i];
    StringIs(fields, 0, x);
    StringIs(fields, 1, y);
    LookupAt(fields, 2);
  }

  lemma FieldAndThreeRead(f: Field, a: string, x: string, b: string, y: string, c: string, z: string)
    requires Seqs.NoRepeats([f.name, a, b, c])
    ensures var node := Record([f, Field(a, StringNode(x)), Field(b, StringNode(y)), Field(c, StringNode(z))]);
            NodeAt(node, f.name) == f.value
            && StringAt(node, a) == x && StringAt(node, b) == y && StringAt(node, c) == z
  {
    var names := [f.name, a, b, c];
    var fields := [f, Field(a, StringNode(x)), Field(b, StringNode(y)), Field(c, StringNode(z))];
    assert forall i :: 0 <= i < 4 ==> fields[i].name == names[i];
    LookupAt(fields, 0);
    StringIs(fields, 1, x);
    StringIs(fields, 2, y);
    StringIs(fields, 3, z);
  }

  lemma FourAndFieldRead(a: string, w: string, b: string, x: string, c: string, y: string, d: string, z: string,
                         f: Field)
    requires Seqs.NoRepeats([a, b, c, d, f.name])
    ensures var node := Record([Field(a, StringNode(w)), Field(b, StringNode(x)), Field(c, StringNode(y)),
                                Field(d, StringNode(z)), f]);
            StringAt(node, a) == w && StringAt(node, b) == x && StringAt(node, c) == y
            && NodeAt(node, f.name) == f.value
  {
    var names := [a, b, c, d, f.name];
    var fields := [Field(a, StringNode(w)), Field(b, StringNode(x)), Field(c, StringNode(y)),
                   Field(d, StringNode(z)), f];
    assert forall i :: 0 <= i < 5 ==> fields[i].name == names[i];
    StringIs(fields, 0, w);
    StringIs(fields, 1, x);
    StringIs(fields, 2, y);
    LookupAt(fields, 4);
  }

  lemma FieldBetweenRead(a: string, w: string, b: string, x: string, f: Field, c: string, y: string, d: string,
                         z: string)
    requires Seqs.NoRepeats([a, b, f.name, c, d])
    ensures var node := Record([Field(a, StringNode(w)), Field(b, StringNode(x)), f, Field(c, StringNode(y)),
                                Field(d, StringNode(z))]);
            StringAt(node, a) == w && StringAt(node, b) == x && NodeAt(node, f.name) == f.value
            && StringAt(node, c) == y
  {
    var names := [a, b, f.name, c, d];
    var fields := [Field(a, StringNode(w)), Field(b, StringNode(x)), f, Field(c, StringNode(y)),
                   Field(d, StringNode(z))];
    assert forall i :: 0 <= i < 5 ==> fields[i].name == names[i];
    StringIs(fields, 0, w);
    StringIs(fields, 1, x);
    LookupAt(fields, 2);
    StringIs(fields, 3, y);
  }

  lemma AeadFrom(aead: Name)
    requires !aead.Other?
    ensures Named(StringAt(Record([Field("aead", StringNode(Spelled(aead)))]), "aead")) == aead
  {
    StringIs([Field("aead", StringNode(Spelled(aead)))], 0, Spelled(aead));
    NameFrom(Spelled(aead), aead);
  }

  /** Names of the same length differ all the same. */
  lemma NamesDiffer()
    ensures "rh" != "ct" && "kid" != "alg" && "alg" != "enc" && "kid" != "enc" && "sid" != "alg" && "mac" != "sig"
    ensures "kid" != "mac" && "alg" != "mac" && "kid" != "sig" && "alg" != "sig" && "wrap" != "aead"
    ensures "created_at" != "updated_at" && "removed_at" != "created_at" && "signer_pub" != "updated_at"
    ensures "protected" != "encrypted" && "protected" != "signature"
  {
    assert "kid"[0] == 'k' && "alg"[0] == 'a' && "enc"[0] == 'e' && "sid"[0] == 's' && "mac"[0] == 'm';
    assert "sig"[0] == 's';
    assert "rh"[0] == 'r' && "ct"[0] == 'c' && "wrap"[0] == 'w' && "aead"[0] == 'a';
    assert "created_at"[0] == 'c' && "updated_at"[0] == 'u' && "removed_at"[0] == 'r' && "signer_pub"[0] == 's';
    assert "protected"[0] == 'p' && "encrypted"[0] == 'e' && "signature"[0] == 's';
  }

  // ---- wraps and removals -----------------------------------------------------------------

  lemma FileItemReadsBack(item: WrapItem)
    requires !item.alg.Other?
    ensures ItemOf(FileText.ItemNode(item)) == item
  {
    var node := FileText.ItemNode(item);
    NamesDiffer();
    FiveRead("rh", item.recipientHandle, "kid", item.kid, "alg", Spelled(item.alg), "enc", TextString(item.enc),
             "ct", TextString(item.ct));
    NameFrom(StringAt(node, "alg"), item.alg);
    TextFrom(node, "enc", item.enc);
    TextFrom(node, "ct", item.ct);
  }

  lemma KvItemReadsBack(item: WrapItem)
    requires !item.alg.Other?
    ensures ItemOf(KvText.WrapItemNode(item)) == item
  {
    var node := KvText.WrapItemNode(item);
    NamesDiffer();
    FiveRead("alg", Spelled(item.alg), "ct", TextString(item.ct), "enc", TextString(item.enc), "kid", item.kid,
             "rh", item.recipientHandle);
    NameFrom(StringAt(node, "alg"), item.alg);
    TextFrom(node, "enc", item.enc);
    TextFrom(node, "ct", item.ct);
  }

  lemma FileRemovalReadsBack(record: RemovedRecipient)
    ensures RemovalOf(FileText.RemovalNode(record)) == record
  {
    ThreeRead("rh", record.recipientHandle, "kid", record.kid, "removed_at", record.removedAt);
  }

  lemma KvRemovalReadsBack(record: RemovedRecipient)
    ensures RemovalOf(KvText.RecordNode(record)) == record
  {
    ThreeRead("kid", record.kid, "removed_at", record.removedAt, "rh", record.recipientHandle);
  }

  ghost predicate KnownAlgorithms(items: seq<WrapItem>) {
    forall i :: 0 <= i < |items| ==> !items[i].alg.Other?
  }

  lemma FileListsReadBack(items: seq<WrapItem>, list: History)
    requires KnownAlgorithms(items)
    ensures ItemsOf(FileText.ItemNodes(items)) == items && RemovalsOf(FileText.RemovalNodes(list)) == list
  {
    forall i | 0 <= i < |items|
      ensures ItemOf(FileText.ItemNodes(items)[i]) == items[i]
    {
      FileItemReadsBack(items[i]);
    }
    forall i | 0 <= i < |list|
      ensures RemovalOf(FileText.RemovalNodes(list)[i]) == list[i]
    {
      FileRemovalReadsBack(list[i]);
    }
  }

  lemma KvListsReadBack(items: seq<WrapItem>, list: History)
    requires KnownAlgorithms(items)
    ensures ItemsOf(KvText.WrapItemNodes(items)) == items && RemovalsOf(KvText.RecordNodes(list)) == list
  {
    forall i | 0 <= i < |items|
      ensures ItemOf(KvText.WrapItemNodes(items)[i]) == items[i]
    {
      KvItemReadsBack(items[i]);
    }
    forall i | 0 <= i < |list|
      ensures RemovalOf(KvText.RecordNodes(list)[i]) == list[i]
    {
      KvRemovalReadsBack(list[i]);
    }
  }

  // ---- key-value documents ----------------------------------------------------------------

  lemma HeadNamesDiffer()
    ensures Seqs.NoRepeats(["alg", "created_at", "sid", "updated_at"])
  {
    NamesDiffer();
  }

  lemma HeadReadsBack(head: KvHeader)
    requires head.sid < Power16(32) && !head.aead.Other?
    ensures HeadOf(KvText.HeadNode(head)) == head
  {
    HeadNamesDiffer();
    AeadFrom(head.aead);
    FieldAndThreeRead(Field("alg", Record([Field("aead", StringNode(Spelled(head.aead)))])), "created_at",
                      head.createdAt, "sid", UuidText(head.sid), "updated_at", head.updatedAt);
    UuidFrom(KvText.HeadNode(head), "sid", head.sid);
  }

  lemma WrapReadsBack(wrap: KvWrap)
    requires KnownAlgorithms(wrap.wrap)
    ensures WrapOf(KvText.WrapNode(wrap)) == wrap
  {
    var fields := KvText.WrapNode(wrap).fields;
    KvListsReadBack(wrap.wrap, if wrap.removedRecipients.Some? then wrap.removedRecipients.value else []);
    LookupAt(fields, |fields| - 1);
    if wrap.removedRecipients.Some? {
      LookupAt(fields, 0);
    } else {
      LookupNone(fields, "removed_recipients");
    }
  }

  lemma EntryReadsBack(value: KvEntryValue)
    ensures EntryOf(KvText.EntryNode(value)) == value
  {
    var fields := KvText.EntryNode(value).fields;
    StringIs(fields, 0, TextString(value.ct));
    StringIs(fields, |fields| - 1, TextString(value.nonce));
    TextFrom(KvText.EntryNode(value), "ct", value.ct);
    TextFrom(KvText.EntryNode(value), "nonce", value.nonce);
    if value.disclosed {
      LookupAt(fields, 1);
    } else {
      LookupNone(fields, "disclosed");
    }
  }

  lemma KvSignatureReadsBack(texts: Texts, signature: Signature, publicKey: Node)
    requires Faithful(texts)
    ensures SignatureOf(texts, KvText.SignatureNode(texts, signature, publicKey)) == Some(signature)
    ensures NodeAt(KvText.SignatureNode(texts, signature, publicKey), "signer_pub") == publicKey
  {
    FiveNamesDiffer();
    FourAndFieldRead("alg", "eddsa-ed25519", "kid", signature.kid, "mac", MacText(texts, signature.mac),
                     "sig", SignatureText(), Field("signer_pub", publicKey));
    MacFrom(texts, KvText.SignatureNode(texts, signature, publicKey), "mac", signature.mac);
  }

  lemma FiveNamesDiffer()
    ensures Seqs.NoRepeats(["alg", "kid", "mac", "sig", "signer_pub"])
    ensures Seqs.NoRepeats(["alg", "kid", "signer_pub", "mac", "sig"])
  {
    NamesDiffer();
  }

  // ---- what is written is well-formed -------------------------------------------------------

  lemma StringFieldIsGood(name: string, s: string)
    ensures GoodField(Field(name, StringNode(s)))
  {
    StringIsGood(s);
  }

  lemma AlgIsGood(aead: Name)
    ensures GoodField(Field("alg", Record([Field("aead", StringNode(Spelled(aead)))])))
  {
    StringFieldIsGood("aead", Spelled(aead));
  }

  lemma HeadIsGood(head: KvHeader)
    ensures GoodNode(KvText.HeadNode(head))
  {
    AlgIsGood(head.aead);
    StringFieldIsGood("created_at", head.createdAt);
    StringFieldIsGood("sid", UuidText(head.sid));
    StringFieldIsGood("updated_at", head.updatedAt);
  }

  lemma EntryIsGood(value: KvEntryValue)
    ensures GoodNode(KvText.EntryNode(value))
  {
    StringFieldIsGood("ct", TextString(value.ct));
    StringFieldIsGood("nonce", TextString(value.nonce));
  }

  lemma FiveAreGood(a: string, v: string, b: string, w: string, c: string, x: string, d: string, y: string, e: string,
                    z: string)
    ensures GoodNode(Record([Field(a, StringNode(v)), Field(b, StringNode(w)), Field(c, StringNode(x)),
                             Field(d, StringNode(y)), Field(e, StringNode(z))]))
  {
    StringFieldIsGood(a, v);
    StringFieldIsGood(b, w);
    StringFieldIsGood(c, x);
    StringFieldIsGood(d, y);
    StringFieldIsGood(e, z);
  }

  lemma ThreeAreGood(a: string, x: string, b: string, y: string, c: string, z: string)
    ensures GoodNode(Record([Field(a, StringNode(x)), Field(b, StringNode(y)), Field(c, StringNode(z))]))
  {
    StringFieldIsGood(a, x);
    StringFieldIsGood(b, y);
    StringFieldIsGood(c, z);
  }

  lemma KvListsAreGood(items: seq<WrapItem>, list: History)
    ensures GoodNode(List(KvText.WrapItemNodes(items))) && GoodNode(List(KvText.RecordNodes(list)))
  {
    forall i | 0 <= i < |items|
      ensures GoodNode(KvText.WrapItemNodes(items)[i])
    {
      var w := items[i];
      FiveAreGood("alg", Spelled(w.alg), "ct", TextString(w.ct), "enc", TextString(w.enc), "kid", w.kid,
                  "rh", w.recipientHandle);
    }
    forall i | 0 <= i < |list|
      ensures GoodNode(KvText.RecordNodes(list)[i])
    {
      ThreeAreGood("kid", list[i].kid, "removed_at", list[i].removedAt, "rh", list[i].recipientHandle);
    }
  }

  lemma WrapIsGood(wrap: KvWrap)
    ensures GoodNode(KvText.WrapNode(wrap))
  {
    KvListsAreGood(wrap.wrap, if wrap.removedRecipients.Some? then wrap.removedRecipients.value else []);
  }

  lemma KvSignatureIsGood(texts: Texts, signature: Signature, publicKey: Node)
    requires GoodNode(publicKey)
    ensures GoodNode(KvText.SignatureNode(texts, signature, publicKey))
  {
    StringFieldIsGood("alg", "eddsa-ed25519");
    StringFieldIsGood("kid", signature.kid);
    StringFieldIsGood("mac", MacText(texts, signature.mac));
    StringFieldIsGood("sig", SignatureText());
  }

  // ---- whole documents ----------------------------------------------------------------------

  lemma LoadedHead(texts: Texts, publicKey: Node, doc: KvDocument)
    requires KvText.LoadKv(texts, publicKey, doc).Ok?
    ensures doc.body.head.aead == XChaCha20Poly1305 && KnownAlgorithms(doc.body.wrap.wrap)
  {
    KvTextProofs.LoadKvIs(texts, publicKey, doc);
    AcceptedAreKnown(texts, doc.body.wrap.wrap);
  }

  lemma AcceptedAreKnown(texts: Texts, items: seq<WrapItem>)
    requires CheckWrapItems(texts, items).Ok?
    ensures KnownAlgorithms(items)
  {
    SetAcceptedExactly(texts, items);
  }

  lemma TokenReadsBack(node: Node)
    requires GoodNode(node)
    ensures Unwritten(Written(Compact, 0, node)) == node
  {
    TreesReadBack(Compact, 0, node);
  }

  /** Every token of a document that loads reads back as the part of the document it was written from. */
  lemma TokensReadBack(texts: Texts, publicKey: Node, doc: KvDocument)
    requires Faithful(texts) && GoodNode(publicKey) && doc.body.head.sid < Power16(32)
    requires KvText.LoadKv(texts, publicKey, doc).Ok?
    ensures HeadOf(Unwritten(Written(Compact, 0, KvText.HeadNode(doc.body.head)))) == doc.body.head
    ensures WrapOf(Unwritten(Written(Compact, 0, KvText.WrapNode(doc.body.wrap)))) == doc.body.wrap
    ensures forall i :: 0 <= i < |doc.body.entries| ==>
                          EntryOf(Unwritten(Written(Compact, 0, KvText.EntryNode(doc.body.entries[i].value))))
                          == doc.body.entries[i].value
    ensures var read := Unwritten(Written(Compact, 0, KvText.SignatureNode(texts, doc.signature, publicKey)));
            SignatureOf(texts, read) == Some(doc.signature) && NodeAt(read, "signer_pub") == publicKey
  {
    LoadedHead(texts, publicKey, doc);
    HeadIsGood(doc.body.head);
    TokenReadsBack(KvText.HeadNode(doc.body.head));
    HeadReadsBack(doc.body.head);
    WrapIsGood(doc.body.wrap);
    TokenReadsBack(KvText.WrapNode(doc.body.wrap));
    WrapReadsBack(doc.body.wrap);
    forall i | 0 <= i < |doc.body.entries|
      ensures EntryOf(Unwritten(Written(Compact, 0, KvText.EntryNode(doc.body.entries[i].value))))
           == doc.body.entries[i].value
    {
      EntryIsGood(doc.body.entries[i].value);
      TokenReadsBack(KvText.EntryNode(doc.body.entries[i].value));
      EntryReadsBack(doc.body.entries[i].value);
    }
    KvSignatureIsGood(texts, doc.signature, publicKey);
    TokenReadsBack(KvText.SignatureNode(texts, doc.signature, publicKey));
    KvSignatureReadsBack(texts, doc.signature, publicKey);
  }

  // ---- files --------------------------------------------------------------------------------

  lemma FileSignatureReadsBack(texts: Texts, signature: Signature, publicKey: Node)
    requires Faithful(texts)
    ensures SignatureOf(texts, FileText.FileSignatureNode(texts, signature, publicKey)) == Some(signature)
    ensures NodeAt(FileText.FileSignatureNode(texts, signature, publicKey), "signer_pub") == publicKey
  {
    FiveNamesDiffer();
    FieldBetweenRead("alg", "eddsa-ed25519", "kid", signature.kid, Field("signer_pub", publicKey),
                     "mac", MacText(texts, signature.mac), "sig", SignatureText());
    MacFrom(texts, FileText.FileSignatureNode(texts, signature, publicKey), "mac", signature.mac);
  }

  lemma HeaderNamesDiffer()
    ensures Seqs.NoRepeats(["format", "sid", "alg"])
  {
    NamesDiffer();
  }

  lemma HeaderReadsBack(header: PayloadHeader)
    requires header.sid < Power16(32) && !header.aead.Other? && !header.format.Other?
    ensures HeaderOf(FileText.HeaderNode(header)) == header
  {
    HeaderNamesDiffer();
    AeadFrom(header.aead);
    NameFrom(Spelled(header.format), header.format);
    TwoAndFieldRead("format", Spelled(header.format), "sid", UuidText(header.sid),
                    Field("alg", Record([Field("aead", StringNode(Spelled(header.aead)))])));
    UuidFrom(FileText.HeaderNode(header), "sid", header.sid);
  }

  lemma PayloadReadsBack(payload: FilePayload)
    requires payload.header.sid < Power16(32) && !payload.header.aead.Other? && !payload.header.format.Other?
    ensures PayloadOf(FileText.PayloadNode(payload)) == payload
  {
    NamesDiffer();
    TwoNodesRead("protected", FileText.HeaderNode(payload.header), "encrypted",
                 FileText.CiphertextNode(payload.encrypted));
    HeaderReadsBack(payload.header);
    CiphertextReadsBack(payload.encrypted);
  }

  lemma TwoNodesRead(a: string, x: Node, b: string, y: Node)
    requires a != b
    ensures NodeAt(Record([Field(a, x), Field(b, y)]), a) == x && NodeAt(Record([Field(a, x), Field(b, y)]), b) == y
  {
    LookupAt([Field(a, x), Field(b, y)], 0);
    LookupAt([Field(a, x), Field(b, y)], 1);
  }

  lemma CiphertextReadsBack(encrypted: PayloadCiphertext)
    ensures TextAt(FileText.CiphertextNode(encrypted), "nonce") == encrypted.nonce
    ensures TextAt(FileText.CiphertextNode(encrypted), "ct") == encrypted.ct
  {
    var fields := FileText.CiphertextNode(encrypted).fields;
    StringIs(fields, 0, TextString(encrypted.nonce));
    StringIs(fields, 1, TextString(encrypted.ct));
    TextFrom(FileText.CiphertextNode(encrypted), "nonce", encrypted.nonce);
    TextFrom(FileText.CiphertextNode(encrypted), "ct", encrypted.ct);
  }

  ghost predicate HasMember(fields: seq<Field>, name: string, value: Node) {
    MemberOf(Record(fields), name) == Some(value)
  }

  /** Six members and maybe one more, under seven names. */
  lemma MembersRead(fields: seq<Field>, names: seq<string>, values: seq<Node>, extra: Option<Node>)
    requires Seqs.NoRepeats(names) && |names| == 7 && |values| == 6
    requires fields == [Field(names[0], values[0]), Field(names[1], values[1]), Field(names[2], values[2])]
                       + (if extra.Some? then [Field(names[3], extra.value)] else [])
                       + [Field(names[4], values[3]), Field(names[5], values[4]), Field(names[6], values[5])]
    ensures HasMember(fields, names[0], values[0]) && HasMember(fields, names[1], values[1])
            && HasMember(fields, names[2], values[2]) && HasMember(fields, names[4], values[3])
            && HasMember(fields, names[5], values[4]) && HasMember(fields, names[6], values[5])
    ensures MemberOf(Record(fields), names[3]) == extra
  {
    var n := |fields|;
    LookupAt(fields, 0);
    LookupAt(fields, 1);
    LookupAt(fields, 2);
    LookupAt(fields, n - 3);
    LookupAt(fields, n - 2);
    LookupAt(fields, n - 1);
    if extra.Some? {
      LookupAt(fields, 3);
    } else {
      LookupNone(fields, names[3]);
    }
  }

  const PROTECTED_NAMES: seq<string> :=
    ["format", "sid", "wrap", "removed_recipients", "payload", "created_at", "updated_at"]

  lemma ProtectedNamesDiffer()
    ensures Seqs.NoRepeats(PROTECTED_NAMES)
  {
    NamesDiffer();
  }

  lemma ProtectedMembers(p: FileProtected)
    ensures var fields := FileText.ProtectedNode(p).fields;
            && HasMember(fields, "format", StringNode(Spelled(p.format)))
            && HasMember(fields, "sid", StringNode(UuidText(p.sid)))
            && HasMember(fields, "wrap", List(FileText.ItemNodes(p.wrap)))
            && HasMember(fields, "payload", FileText.PayloadNode(p.payload))
            && HasMember(fields, "created_at", StringNode(p.createdAt))
            && HasMember(fields, "updated_at", StringNode(p.updatedAt))
            && MemberOf(Record(fields), "removed_recipients")
               == match p.removedRecipients
                  case None => None
                  case Some(list) => Some(List(FileText.RemovalNodes(list)))
  {
    ProtectedNamesDiffer();
    var extra := match p.removedRecipients case None => None case Some(list) => Some(List(FileText.RemovalNodes(list)));
    var values := [StringNode(Spelled(p.format)), StringNode(UuidText(p.sid)), List(FileText.ItemNodes(p.wrap)),
                   FileText.PayloadNode(p.payload), StringNode(p.createdAt), StringNode(p.updatedAt)];
    MembersRead(FileText.ProtectedNode(p).fields, PROTECTED_NAMES, values, extra);
  }

  lemma ProtectedReadsBack(p: FileProtected)
    requires !p.format.Other? && p.sid < Power16(32) && KnownAlgorithms(p.wrap)
    requires p.payload.header.sid < Power16(32) && !p.payload.header.aead.Other? && !p.payload.header.format.Other?
    ensures ProtectedOf(FileText.ProtectedNode(p)) == p
  {
    var node := FileText.ProtectedNode(p);
    ProtectedMembers(p);
    StringOfMember(node.fields, "format", Spelled(p.format));
    NameFrom(Spelled(p.format), p.format);
    StringOfMember(node.fields, "sid", UuidText(p.sid));
    UuidFrom(node, "sid", p.sid);
    ProtectedListsReadBack(p);
    PayloadReadsBack(p.payload);
    StringOfMember(node.fields, "created_at", p.createdAt);
    StringOfMember(node.fields, "updated_at", p.updatedAt);
  }

  lemma StringOfMember(fields: seq<Field>, name: string, s: string)
    requires HasMember(fields, name, StringNode(s))
    ensures StringAt(Record(fields), name) == s
  {
    StringsMean(s);
  }

  lemma ProtectedListsReadBack(p: FileProtected)
    requires KnownAlgorithms(p.wrap)
    ensures ItemsOf(ListAt(FileText.ProtectedNode(p), "wrap")) == p.wrap
    ensures HistoryOf(FileText.ProtectedNode(p)) == p.removedRecipients
  {
    ProtectedMembers(p);
    FileListsReadBack(p.wrap, if p.removedRecipients.Some? then p.removedRecipients.value else []);
  }

  lemma FileListsAreGood(items: seq<WrapItem>, list: History)
    ensures GoodNode(List(FileText.ItemNodes(items))) && GoodNode(List(FileText.RemovalNodes(list)))
  {
    forall i | 0 <= i < |items|
      ensures GoodNode(FileText.ItemNodes(items)[i])
    {
      var w := items[i];
      FiveAreGood("rh", w.recipientHandle, "kid", w.kid, "alg", Spelled(w.alg), "enc", TextString(w.enc),
                  "ct", TextString(w.ct));
    }
    forall i | 0 <= i < |list|
      ensures GoodNode(FileText.RemovalNodes(list)[i])
    {
      ThreeAreGood("rh", list[i].recipientHandle, "kid", list[i].kid, "removed_at", list[i].removedAt);
    }
  }

  lemma PayloadIsGood(payload: FilePayload)
    ensures GoodField(Field("payload", FileText.PayloadNode(payload)))
  {
    AlgIsGood(payload.header.aead);
    StringFieldIsGood("format", Spelled(payload.header.format));
    StringFieldIsGood("sid", UuidText(payload.header.sid));
    assert GoodField(Field("protected", FileText.HeaderNode(payload.header)));
    StringFieldIsGood("nonce", TextString(payload.encrypted.nonce));
    StringFieldIsGood("ct", TextString(payload.encrypted.ct));
    assert GoodField(Field("encrypted", FileText.CiphertextNode(payload.encrypted)));
  }

  ghost predicate AreGood(fields: seq<Field>) {
    forall i :: 0 <= i < |fields| ==> GoodField(fields[i])
  }

  lemma OneMoreIsGood(fields: seq<Field>, last: Field)
    requires AreGood(fields) && GoodField(last)
    ensures AreGood(fields + [last])
  {
  }

  lemma FrontIsGood(p: FileProtected)
    ensures AreGood(FileText.FrontFields(p) + FileText.RemovalFields(p.removedRecipients))
  {
    StringFieldIsGood("format", Spelled(p.format));
    StringFieldIsGood("sid", UuidText(p.sid));
    FileListsAreGood(p.wrap, if p.removedRecipients.Some? then p.removedRecipients.value else []);
    assert GoodField(Field("wrap", List(FileText.ItemNodes(p.wrap))));
  }

  lemma ProtectedIsGood(p: FileProtected)
    ensures GoodField(Field("protected", FileText.ProtectedNode(p)))
  {
    var fields := FileText.FrontFields(p) + FileText.RemovalFields(p.removedRecipients);
    FrontIsGood(p);
    PayloadIsGood(p.payload);
    OneMoreIsGood(fields, Field("payload", FileText.PayloadNode(p.payload)));
    StringFieldIsGood("created_at", p.createdAt);
    OneMoreIsGood(fields + [Field("payload", FileText.PayloadNode(p.payload))],
                  Field("created_at", StringNode(p.createdAt)));
    StringFieldIsGood("updated_at", p.updatedAt);
  }

  lemma FileIsGood(texts: Texts, publicKey: Node, doc: FileDocument)
    requires GoodNode(publicKey)
    ensures GoodNode(FileText.FileNode(texts, publicKey, doc))
  {
    ProtectedIsGood(doc.protected);
    StringFieldIsGood("alg", "eddsa-ed25519");
    StringFieldIsGood("kid", doc.signature.kid);
    assert GoodField(Field("signer_pub", publicKey));
    StringFieldIsGood("mac", MacText(texts, doc.signature.mac));
    StringFieldIsGood("sig", SignatureText());
    assert GoodField(Field("signature", FileText.FileSignatureNode(texts, doc.signature, publicKey)));
  }

  lemma LoadedFile(texts: Texts, publicKey: Node, doc: FileDocument)
    requires FileText.LoadFile(texts, publicKey, doc).Ok?
    ensures var p := doc.protected;
            p.format == FileEncV1 && p.payload.header.format == FilePayloadV1
            && p.payload.header.aead == XChaCha20Poly1305 && KnownAlgorithms(p.wrap)
  {
    FileTextProofs.LoadFileIs(texts, publicKey, doc);
    AcceptedAreKnown(texts, doc.protected.wrap);
  }

  /** A file that loads reads back from its text's tree as the document it was written from. */
  lemma FileReadsBack(texts: Texts, publicKey: Node, doc: FileDocument)
    requires Faithful(texts) && GoodNode(publicKey) && FileText.LoadFile(texts, publicKey, doc).Ok?
    requires doc.protected.sid < Power16(32) && doc.protected.payload.header.sid < Power16(32)
    ensures var read := Unwritten(Written(Indented, 0, FileText.FileNode(texts, publicKey, doc)));
            FileOf(texts, read) == Some(doc) && NodeAt(NodeAt(read, "signature"), "signer_pub") == publicKey
  {
    LoadedFile(texts, publicKey, doc);
    FileIsGood(texts, publicKey, doc);
    TreesReadBack(Indented, 0, FileText.FileNode(texts, publicKey, doc));
    NamesDiffer();
    TwoNodesRead("protected", FileText.ProtectedNode(doc.protected), "signature",
                 FileText.FileSignatureNode(texts, doc.signature, publicKey));
    ProtectedReadsBack(doc.protected);
    FileSignatureReadsBack(texts, doc.signature, publicKey);
  }
}
