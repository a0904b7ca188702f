/** What documents of both kinds are measured by: handles, removal records, the signer and the tag. */
module PartText {
  import opened Limits
  import opened Seqs
  import opened Wrappers
  import opened Codec
  import opened Wire
  import opened Disclosure
  import opened Primitives
  import opened Envelope
  import opened JsonText
  import opened JsonTextProofs
  import opened WireText
  import opened WireTextProofs

  /** The signer's key id and public-key document. */
  datatype Signer = Signer(kid: string, publicKey: Node)

  // ---- lengths of the parts -----------------------------------------------------------------

  function WrapLens(handles: seq<string>): (lens: seq<nat>)
    ensures |lens| == |handles| && forall i :: 0 <= i < |lens| ==> lens[i] == 194 + |handles[i]|
  {
    seq(|handles|, i requires 0 <= i < |handles| => 194 + |handles[i]|)
  }

  function RecordLens(list: History): (lens: seq<nat>)
    ensures |lens| == |list|
    ensures forall i :: 0 <= i < |lens| ==> lens[i] == 66 + |list[i].removedAt| + |list[i].recipientHandle|
  {
    seq(|list|, i requires 0 <= i < |list| => 66 + |list[i].removedAt| + |list[i].recipientHandle|)
  }

  /** Items of these lengths with commas between them. */
  function ListLen(lens: seq<nat>): nat {
    if lens == [] then 0 else Sum(lens) + |lens| - 1
  }

  lemma WrapItemIs(texts: Texts, item: WrapItem)
    requires Faithful(texts) && CheckWrapItem(texts, item) == Ok(())
    ensures IsPlain(TextString(item.ct)) && |TextString(item.ct)| == 64
    ensures IsPlain(TextString(item.enc)) && |TextString(item.enc)| == 43
    ensures IsPlain(item.kid) && |item.kid| == 32 && IsPlain(item.recipientHandle)
    ensures item.alg == HpkeX25519ChaCha20Poly1305
  {
    SizedIsPlain(texts, item.ct, 48);
    SizedIsPlain(texts, item.enc, 32);
    KidIsPlain(texts, item.kid);
    HandleIsPlain(texts, item.recipientHandle);
  }

  lemma RecordIs(texts: Texts, record: RemovedRecipient)
    requires Faithful(texts) && RecordPasses(texts, record)
    ensures IsPlain(record.kid) && |record.kid| == 32 && IsPlain(record.recipientHandle) && IsPlain(record.removedAt)
  {
    KidIsPlain(texts, record.kid);
    HandleIsPlain(texts, record.recipientHandle);
    TimestampIsPlain(record.removedAt);
  }

  lemma MacIsPlain(texts: Texts, mac: Key)
    requires Faithful(texts)
    ensures IsPlain(MacText(texts, mac)) && |MacText(texts, mac)| == 55
  {
    EncodedIsPlain(texts, mac);
    PlainConcat("hmac-sha256:", TextString(texts.encode(mac)));
  }

  lemma SignatureNamesArePlain()
    ensures IsPlain("alg") && IsPlain("kid") && IsPlain("mac") && IsPlain("sig") && IsPlain("signer_pub")
    ensures IsPlain("eddsa-ed25519") && IsPlain(SignatureText())
  {
  }

  lemma AlgField(aead: string)
    requires IsPlain(aead)
    ensures FieldLen(Field("alg", Record([Field("aead", StringNode(aead))]))) == 17 + |aead|
    ensures FieldShape(Field("alg", Record([Field("aead", StringNode(aead))]))) == Shape(true, 3, 1, 3, 13)
  {
    var inner := Field("aead", StringNode(aead));
    StringField("aead", aead);
    StringFieldShape("aead", aead);
    OneField(inner);
    QuotedLen("alg");
    NodeField("alg", Record([inner]));
  }

  lemma NameIsPlain()
    ensures IsPlain("removed_recipients") && |"removed_recipients"| == 18
  {
  }

  // ---- sums ---------------------------------------------------------------------------------

  lemma {:induction false} SumReplaced(lens: seq<nat>, k: nat)
    requires k < |lens|
    ensures Sum(lens) == Sum(lens[..k] + lens[k + 1..]) + lens[k]
  {
    var init := lens[..|lens| - 1];
    if k < |lens| - 1 {
      SumReplaced(init, k);
      var rest := lens[..k] + lens[k + 1..];
      assert rest[..|rest| - 1] == init[..k] + init[k + 1..];
    } else {
      assert lens[..k] + lens[k + 1..] == init;
    }
  }

  lemma {:induction false} SumPermuted(a: seq<nat>, b: seq<nat>)
    requires multiset(a) == multiset(b)
    ensures Sum(a) == Sum(b)
  {
    if a == [] {
      assert |multiset(b)| == 0;
    } else {
      var k := TakenOut(a, b);
      SumPermuted(a[..|a| - 1], b[..k] + b[k + 1..]);
      SumReplaced(b, k);
    }
  }

  /** The order of the handles does not matter. */
  lemma WrapLensPermuted(a: seq<string>, b: seq<string>)
    requires multiset(a) == multiset(b)
    ensures |a| == |b| && ListLen(WrapLens(a)) == ListLen(WrapLens(b))
  {
    assert |multiset(a)| == |multiset(b)|;
    MappedPermuted((h: string) => 194 + |h|, a, b, WrapLens(a), WrapLens(b));
    SumPermuted(WrapLens(a), WrapLens(b));
  }

  // ---- bounds ---------------------------------------------------------------------------------

  lemma EncodedLenGrows(a: nat, b: nat)
    ensures a <= b ==> EncodedLen(a) <= EncodedLen(b)
    ensures a > b ==> EncodedLen(a) > EncodedLen(b)
  {
    assert a == a / 3 * 3 + a % 3 && b == b / 3 * 3 + b % 3;
  }

  lemma {:induction false} SumIsAtMost(lens: seq<nat>, each: nat)
    requires forall i :: 0 <= i < |lens| ==> lens[i] <= each
    ensures Sum(lens) <= Copies(each, |lens|)
  {
    if lens != [] {
      SumIsAtMost(lens[..|lens| - 1], each);
    }
  }

  lemma HandlesAreShort(texts: Texts, handles: seq<string>)
    requires Faithful(texts) && forall h :: h in handles ==> texts.handle(h)
    ensures Sum(WrapLens(handles)) <= (194 + MAX_MEMBER_HANDLE_LENGTH) * |handles|
  {
    forall i | 0 <= i < |handles|
      ensures WrapLens(handles)[i] <= 194 + MAX_MEMBER_HANDLE_LENGTH
    {
      assert KnowsHandles(texts, handles[i]) && handles[i] in handles;
    }
    SumIsAtMost(WrapLens(handles), 194 + MAX_MEMBER_HANDLE_LENGTH);
    CopiesAre(194 + MAX_MEMBER_HANDLE_LENGTH, |handles|);
  }

  const MODEST_DATE_LENGTH: nat := 40

  /** Dates as they are written, far longer than any clock makes them. */
  ghost predicate ModestDates(history: Option<History>) {
    history.Some? ==> forall i :: 0 <= i < |history.value| ==> |history.value[i].removedAt| <= MODEST_DATE_LENGTH
  }

  lemma RecordsAreShort(texts: Texts, list: History)
    requires Faithful(texts) && HistoryPasses(texts, Some(list)) && ModestDates(Some(list))
    ensures Sum(RecordLens(list)) <= (66 + MODEST_DATE_LENGTH + MAX_MEMBER_HANDLE_LENGTH) * |list|
  {
    forall i | 0 <= i < |list|
      ensures RecordLens(list)[i] <= 66 + MODEST_DATE_LENGTH + MAX_MEMBER_HANDLE_LENGTH
    {
      assert RecordPasses(texts, list[i]) && KnowsHandles(texts, list[i].recipientHandle);
    }
    SumIsAtMost(RecordLens(list), 66 + MODEST_DATE_LENGTH + MAX_MEMBER_HANDLE_LENGTH);
    CopiesAre(66 + MODEST_DATE_LENGTH + MAX_MEMBER_HANDLE_LENGTH, |list|);
  }
}
