/** The stored text of a key-value document, line by line, and the lines read from it again. */
module KvContent {
  import opened Wrappers
  import opened Bits
  import opened Codec
  import opened Wire
  import opened Primitives
  import opened JsonText
  import opened WireText
  import opened KvText
  import opened Reading

  // ---- writing ------------------------------------------------------------------------------

  /** A text of one character for each byte, as bytes. */
  function BytesOf(text: string): (bytes: Bytes)
    ensures |bytes| == |text| && forall i :: 0 <= i < |bytes| ==> bytes[i] == ByteOf(text[i])
  {
    seq(|text|, i requires 0 <= i < |text| => ByteOf(text[i]))
  }

  function TokenOf(node: Node): string {
    TextString(Encoded(BytesOf(TokenText(node)), UrlSafe))
  }

  function EntryLine(entry: KvEntry): string {
    entry.key + " " + TokenOf(EntryNode(entry.value))
  }

  function EntryLines(entries: seq<KvEntry>): (lines: seq<string>)
    ensures |lines| == |entries| && forall i :: 0 <= i < |lines| ==> lines[i] == EntryLine(entries[i])
  {
    seq(|entries|, i requires 0 <= i < |entries| => EntryLine(entries[i]))
  }

  function FirstLines(doc: KvDocument): (lines: seq<string>)
    ensures |lines| == 3
  {
    [":KAPSARO_KV 1", ":HEAD " + TokenOf(HeadNode(doc.body.head)), ":WRAP " + TokenOf(WrapNode(doc.body.wrap))]
  }

  function LastLine(texts: Texts, publicKey: Node, doc: KvDocument): string {
    ":SIG " + TokenOf(SignatureNode(texts, doc.signature, publicKey))
  }

  function Lines(texts: Texts, publicKey: Node, doc: KvDocument): seq<string> {
    FirstLines(doc) + EntryLines(doc.body.entries) + [LastLine(texts, publicKey, doc)]
  }

  function Joined(lines: seq<string>): string {
    if lines == [] then "" else lines[0] + "\n" + Joined(lines[1..])
  }

  function Content(texts: Texts, publicKey: Node, doc: KvDocument): string {
    Joined(Lines(texts, publicKey, doc))
  }

  // ---- reading ------------------------------------------------------------------------------

  /** The position of the first `c`, or the length where there is none. */
  function IndexOf(text: string, c: char): nat {
    if text == "" || text[0] == c then 0 else 1 + IndexOf(text[1..], c)
  }

  function Split(text: string): seq<string> {
    if text == "" then []
    else
      var n := IndexOf(text, '\n');
      if n >= |text| then [text] else [text[..n]] + Split(text[n + 1..])
  }

  /** What stands before the first blank of a line, and what after it. */
  function KeyAndToken(line: string): (string, string) {
    var n := IndexOf(line, ' ');
    if n >= |line| then (line, "") else (line[..n], line[n + 1..])
  }

  /** The bytes of a token's JSON. */
  function DecodedToken(token: string): Result<Bytes, CodecError> {
    DecodeUrl(BytesOf(token))
  }
}

/** The text has the length the loader measures, and its lines read back. */
module KvContentProofs {
  import opened Wrappers
  import opened Codec
  import opened Wire
  import opened Primitives
  import opened JsonText
  import opened WireText
  import opened KvText
  import opened KvContent
  import CodecProofs
  import ErrorProofs
  import KvTextProofs
  import Seqs

  // ---- length ---------------------------------------------------------------------------------

  lemma TokenLenIs(node: Node)
    ensures |TokenOf(node)| == TokenLen(node)
  {
  }

  lemma {:induction false} JoinedAppend(a: seq<string>, b: seq<string>)
    ensures Joined(a + b) == Joined(a) + Joined(b)
  {
    if a == [] {
      assert a + b == b;
    } else {
      JoinedAppend(a[1..], b);
      assert (a + b)[1..] == a[1..] + b;
    }
  }

  lemma {:induction false} EntryLinesLen(entries: seq<KvEntry>)
    ensures |Joined(EntryLines(entries))| == Sum(EntryLineLens(entries))
  {
    if entries != [] {
      var init, last := entries[..|entries| - 1], entries[|entries| - 1];
      Seqs.InitAndLast(entries);
      EntryLinesLen(init);
      OneMoreLine(init, last);
    }
  }

  lemma OneMoreLine(init: seq<KvEntry>, last: KvEntry)
    requires |Joined(EntryLines(init))| == Sum(EntryLineLens(init))
    ensures |Joined(EntryLines(init + [last]))| == Sum(EntryLineLens(init + [last]))
  {
    LinesAppend(init, last);
    JoinedAppend(EntryLines(init), [EntryLine(last)]);
    OneLineLen(last);
    LineLensAppend(init, last);
  }

  lemma LinesAppend(init: seq<KvEntry>, last: KvEntry)
    ensures EntryLines(init + [last]) == EntryLines(init) + [EntryLine(last)]
  {
    var lines := EntryLines(init + [last]);
    forall i | 0 <= i < |init|
      ensures lines[i] == EntryLines(init)[i]
    {
      assert (init + [last])[i] == init[i];
    }
  }

  lemma OneLineLen(entry: KvEntry)
    ensures |Joined([EntryLine(entry)])| == |entry.key| + TokenLen(EntryNode(entry.value)) + 2
  {
    assert Joined([EntryLine(entry)]) == EntryLine(entry) + "\n";
    TokenLenIs(EntryNode(entry.value));
  }

  lemma LineLensAppend(init: seq<KvEntry>, last: KvEntry)
    ensures Sum(EntryLineLens(init + [last]))
         == Sum(EntryLineLens(init)) + |last.key| + TokenLen(EntryNode(last.value)) + 2
  {
    var lens := EntryLineLens(init + [last]);
    assert lens[..|lens| - 1] == EntryLineLens(init);
  }

  /** The text is as long as the loader takes it to be. */
  lemma ContentLen(texts: Texts, publicKey: Node, doc: KvDocument)
    ensures |Content(texts, publicKey, doc)| == FileLen(texts, publicKey, doc)
  {
    var head, wrap := ":HEAD " + TokenOf(HeadNode(doc.body.head)), ":WRAP " + TokenOf(WrapNode(doc.body.wrap));
    var sig := ":SIG " + TokenOf(SignatureNode(texts, doc.signature, publicKey));
    var front, entries := [":KAPSARO_KV 1", head, wrap], EntryLines(doc.body.entries);
    JoinedAppend(front + entries, [sig]);
    JoinedAppend(front, entries);
    ThreeLines(":KAPSARO_KV 1", head, wrap);
    assert Joined([sig]) == sig + "\n";
    EntryLinesLen(doc.body.entries);
    TokenLenIs(HeadNode(doc.body.head));
    TokenLenIs(WrapNode(doc.body.wrap));
    TokenLenIs(SignatureNode(texts, doc.signature, publicKey));
  }

  lemma ThreeLines(a: string, b: string, c: string)
    ensures |Joined([a, b, c])| == |a| + |b| + |c| + 3
  {
    assert [a, b, c][1..] == [b, c] && [b, c][1..] == [c] && [c][1..] == [];
    assert Joined([c]) == c + "\n";
    assert Joined([b, c]) == b + "\n" + Joined([c]);
  }

  // ---- lines ----------------------------------------------------------------------------------

  lemma {:induction false} IndexIs(before: string, c: char, after: string)
    requires c !in before
    ensures IndexOf(before + [c] + after, c) == |before|
  {
    var text := before + [c] + after;
    if before != "" {
      assert text[1..] == before[1..] + [c] + after;
      IndexIs(before[1..], c, after);
    }
  }

  ghost predicate AreOneLine(lines: seq<string>) {
    forall i :: 0 <= i < |lines| ==> '\n' !in lines[i]
  }

  lemma TogetherOneLine(a: seq<string>, b: seq<string>)
    requires AreOneLine(a) && AreOneLine(b)
    ensures AreOneLine(a + b)
  {
  }

  lemma {:induction false} SplitJoined(lines: seq<string>)
    requires AreOneLine(lines)
    ensures Split(Joined(lines)) == lines
  {
    if lines != [] {
      var rest := Joined(lines[1..]);
      assert Joined(lines) == lines[0] + ['\n'] + rest;
      IndexIs(lines[0], '\n', rest);
      SplitJoined(lines[1..]);
      assert Joined(lines)[..|lines[0]|] == lines[0] && Joined(lines)[|lines[0]| + 1..] == rest;
    }
  }

  lemma LineReadsBack(key: string, token: string)
    requires ' ' !in key
    ensures KeyAndToken(key + " " + token) == (key, token)
  {
    IndexIs(key, ' ', token);
    var line := key + " " + token;
    assert line == key + [' '] + token;
    assert line[..|key|] == key && line[|key| + 1..] == token;
  }

  // ---- tokens ---------------------------------------------------------------------------------

  lemma BytesOfText(text: Text)
    ensures BytesOf(TextString(text)) == text
  {
  }

  /** A token decodes to the bytes of its JSON. */
  lemma TokenDecodes(node: Node)
    ensures DecodedToken(TokenOf(node)) == Ok(BytesOf(TokenText(node)))
  {
    var data := BytesOf(TokenText(node));
    BytesOfText(Encoded(data, UrlSafe));
    CodecProofs.UrlIsBijective(Encoded(data, UrlSafe), data);
  }

  lemma NoBreak(node: Node)
    ensures '\n' !in TokenOf(node) && ' ' !in TokenOf(node)
  {
    var data := BytesOf(TokenText(node));
    var text := Encoded(data, UrlSafe);
    CodecProofs.UrlIsBijective(text, data);
    forall i | 0 <= i < |text|
      ensures CharOf(text[i]) != '\n' && CharOf(text[i]) != ' '
    {
      assert !HasBlankOrControl(text);
      assert !IsBlankOrControl(text[i]);
    }
  }

  lemma KeyIsOneWord(key: string)
    requires IsKeyName(key)
    ensures ' ' !in key && '\n' !in key
  {
  }

  lemma EntryIsOneLine(entry: KvEntry)
    requires IsKeyName(entry.key)
    ensures '\n' !in EntryLine(entry)
    ensures KeyAndToken(EntryLine(entry)) == (entry.key, TokenOf(EntryNode(entry.value)))
  {
    KeyIsOneWord(entry.key);
    NoBreak(EntryNode(entry.value));
    LineReadsBack(entry.key, TokenOf(EntryNode(entry.value)));
  }

  lemma EntriesAreOneLine(entries: seq<KvEntry>)
    requires ErrorProofs.GoodKeys(entries)
    ensures AreOneLine(EntryLines(entries))
    ensures forall i :: 0 <= i < |entries| ==>
                          KeyAndToken(EntryLines(entries)[i]) == (entries[i].key, TokenOf(EntryNode(entries[i].value)))
  {
    forall i | 0 <= i < |entries|
      ensures '\n' !in EntryLines(entries)[i]
      ensures KeyAndToken(EntryLines(entries)[i]) == (entries[i].key, TokenOf(EntryNode(entries[i].value)))
    {
      EntryIsOneLine(entries[i]);
    }
  }

  lemma NamedIsOneLine(name: string, node: Node)
    requires '\n' !in name
    ensures '\n' !in name + TokenOf(node)
  {
    NoBreak(node);
  }

  lemma FirstAreOneLine(doc: KvDocument)
    ensures AreOneLine(FirstLines(doc))
  {
    NamedIsOneLine(":HEAD ", HeadNode(doc.body.head));
    NamedIsOneLine(":WRAP ", WrapNode(doc.body.wrap));
  }

  lemma LastIsOneLine(texts: Texts, publicKey: Node, doc: KvDocument)
    ensures AreOneLine([LastLine(texts, publicKey, doc)])
  {
    NamedIsOneLine(":SIG ", SignatureNode(texts, doc.signature, publicKey));
  }

  lemma LinesAreOneLine(texts: Texts, publicKey: Node, doc: KvDocument)
    requires ErrorProofs.GoodKeys(doc.body.entries)
    ensures AreOneLine(Lines(texts, publicKey, doc))
  {
    FirstAreOneLine(doc);
    EntriesAreOneLine(doc.body.entries);
    LastIsOneLine(texts, publicKey, doc);
    TogetherOneLine(FirstLines(doc), EntryLines(doc.body.entries));
    TogetherOneLine(FirstLines(doc) + EntryLines(doc.body.entries), [LastLine(texts, publicKey, doc)]);
  }

  /**
   * The text of a document that loads splits into its lines: the version, the head, the
   * wraps, an entry for each key in order, and the signature. Every entry line gives its
   * key and its token, and every token the JSON it was made from.
   */
  lemma LinesReadBack(texts: Texts, publicKey: Node, doc: KvDocument)
    requires LoadKv(texts, publicKey, doc).Ok?
    ensures Split(Content(texts, publicKey, doc)) == Lines(texts, publicKey, doc)
    ensures forall i :: 0 <= i < |doc.body.entries| ==>
                          var entry := doc.body.entries[i];
                          KeyAndToken(Lines(texts, publicKey, doc)[3 + i])
                          == (entry.key, TokenOf(EntryNode(entry.value)))
  {
    LoadedKeys(texts, publicKey, doc);
    LinesAreOneLine(texts, publicKey, doc);
    SplitJoined(Lines(texts, publicKey, doc));
    forall i | 0 <= i < |doc.body.entries|
      ensures KeyAndToken(Lines(texts, publicKey, doc)[3 + i])
           == (doc.body.entries[i].key, TokenOf(EntryNode(doc.body.entries[i].value)))
    {
      EntryLineIs(texts, publicKey, doc, i);
    }
  }

  lemma LoadedKeys(texts: Texts, publicKey: Node, doc: KvDocument)
    requires LoadKv(texts, publicKey, doc).Ok?
    ensures ErrorProofs.GoodKeys(doc.body.entries)
  {
    KvTextProofs.LoadKvIs(texts, publicKey, doc);
    ErrorProofs.PassedKeys(doc.body.entries);
  }

  lemma EntryLineIs(texts: Texts, publicKey: Node, doc: KvDocument, i: nat)
    requires i < |doc.body.entries| && ErrorProofs.GoodKeys(doc.body.entries)
    ensures KeyAndToken(Lines(texts, publicKey, doc)[3 + i])
         == (doc.body.entries[i].key, TokenOf(EntryNode(doc.body.entries[i].value)))
  {
    Seqs.InTheMiddle(FirstLines(doc), EntryLines(doc.body.entries), [LastLine(texts, publicKey, doc)], i);
    EntryIsOneLine(doc.body.entries[i]);
  }
}
