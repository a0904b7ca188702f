/** What the base64 codec is for: canonical, invertible, and the RFC 4648 encoding. */
module CodecProofs {
  import opened Limits
  import opened Wrappers
  import opened Bits
  import opened Codec

  // ---- decoding undoes encoding, and accepts nothing else --------------------

  lemma BlockDecodes(b0: bv8, b1: bv8, b2: bv8, variant: Variant)
    ensures DecodeBlock(EncodeBlock(b0, b1, b2, variant), variant) == Ok([b0, b1, b2])
  {
    SymbolDecodes(b0 >> 2, variant);
    SymbolDecodes(((b0 & 0x03) << 4) | (b1 >> 4), variant);
    SymbolDecodes(((b1 & 0x0F) << 2) | (b2 >> 6), variant);
    SymbolDecodes(b2 & 0x3F, variant);
  }

  lemma TailBits(b0: bv8, b1: bv8)
    ensures var a, b, c := b0 >> 2, ((b0 & 0x03) << 4) | (b1 >> 4), (b1 & 0x0F) << 2;
            c & 0x03 == 0 && (a << 2) | (b >> 4) == b0 && ((b & 0x0F) << 4) | (c >> 2) == b1
  {
  }

  lemma TailOneDecodes(b0: bv8, variant: Variant)
    ensures DecodeTail(EncodeTailOne(b0, variant), variant) == Ok([b0])
  {
    SymbolDecodes(b0 >> 2, variant);
    SymbolDecodes((b0 & 0x03) << 4, variant);
  }

  lemma TailTwoDecodes(b0: bv8, b1: bv8, variant: Variant)
    ensures DecodeTail(EncodeTailTwo(b0, b1, variant), variant) == Ok([b0, b1])
  {
    SymbolDecodes(b0 >> 2, variant);
    SymbolDecodes(((b0 & 0x03) << 4) | (b1 >> 4), variant);
    SymbolDecodes((b1 & 0x0F) << 2, variant);
    TailBits(b0, b1);
  }

  lemma ShortDecodedEncoded(data: Bytes, variant: Variant)
    requires |data| < 3
    ensures Decoded(Encoded(data, variant), variant) == Ok(data)
  {
    if |data| == 1 {
      TailOneDecodes(data[0], variant);
      assert data == [data[0]];
    } else if |data| == 2 {
      TailTwoDecodes(data[0], data[1], variant);
      assert data == [data[0], data[1]];
    }
  }

  lemma EncodedSplits(data: Bytes, variant: Variant)
    requires |data| >= 3
    ensures var text := Encoded(data, variant);
            |text| >= 4 && text[..4] == EncodeBlock(data[0], data[1], data[2], variant)
            && text[4..] == Encoded(data[3..], variant)
  {
  }

  lemma {:induction false} DecodedEncoded(data: Bytes, variant: Variant)
    ensures Decoded(Encoded(data, variant), variant) == Ok(data)
  {
    if |data| < 3 {
      ShortDecodedEncoded(data, variant);
    } else {
      EncodedSplits(data, variant);
      BlockDecodes(data[0], data[1], data[2], variant);
      DecodedByBlock(Encoded(data, variant), variant, Ok([data[0], data[1], data[2]]));
      DecodedEncoded(data[3..], variant);
      assert data == [data[0], data[1], data[2]] + data[3..];
    }
  }

  lemma SextetsSurvive(a: bv8, b: bv8, c: bv8, d: bv8)
    requires a < 64 && b < 64 && c < 64 && d < 64
    ensures var b0, b1, b2 := (a << 2) | (b >> 4), ((b & 0x0F) << 4) | (c >> 2), ((c & 0x03) << 6) | d;
            b0 >> 2 == a && ((b0 & 0x03) << 4) | (b1 >> 4) == b
            && ((b1 & 0x0F) << 2) | (b2 >> 6) == c && b2 & 0x3F == d
  {
  }

  lemma BlockEncodes(chunk: Text, variant: Variant)
    requires |chunk| == 4 && DecodeBlock(chunk, variant).Ok?
    ensures var b := DecodeBlock(chunk, variant).value;
            EncodeBlock(b[0], b[1], b[2], variant) == chunk
  {
    DecodedSymbolEncodes(chunk[0], variant);
    DecodedSymbolEncodes(chunk[1], variant);
    DecodedSymbolEncodes(chunk[2], variant);
    DecodedSymbolEncodes(chunk[3], variant);
    SextetsSurvive(DecodeSymbol(chunk[0], variant).value, DecodeSymbol(chunk[1], variant).value,
                   DecodeSymbol(chunk[2], variant).value, DecodeSymbol(chunk[3], variant).value);
  }

  lemma TwoSymbolsEncode(chunk: Text, variant: Variant, a: bv8, b: bv8)
    requires |chunk| == 2 && DecodeSymbol(chunk[0], variant) == Some(a) && DecodeSymbol(chunk[1], variant) == Some(b)
    requires b & 0x0F == 0
    ensures EncodeTailOne((a << 2) | (b >> 4), variant) == chunk
  {
    DecodedSymbolEncodes(chunk[0], variant);
    DecodedSymbolEncodes(chunk[1], variant);
    TwoSextetsSurvive(a, b);
  }

  lemma TwoSextetsSurvive(a: bv8, b: bv8)
    requires a < 64 && b < 64 && b & 0x0F == 0
    ensures var b0 := (a << 2) | (b >> 4); b0 >> 2 == a && (b0 & 0x03) << 4 == b
  {
  }

  lemma ThreeSymbolsEncode(chunk: Text, variant: Variant, a: bv8, b: bv8, c: bv8)
    requires |chunk| == 3 && DecodeSymbol(chunk[0], variant) == Some(a) && DecodeSymbol(chunk[1], variant) == Some(b)
    requires DecodeSymbol(chunk[2], variant) == Some(c) && c & 0x03 == 0
    ensures EncodeTailTwo((a << 2) | (b >> 4), ((b & 0x0F) << 4) | (c >> 2), variant) == chunk
  {
    DecodedSymbolEncodes(chunk[0], variant);
    DecodedSymbolEncodes(chunk[1], variant);
    DecodedSymbolEncodes(chunk[2], variant);
    ThreeSextetsSurvive(a, b, c);
  }

  lemma ThreeSextetsSurvive(a: bv8, b: bv8, c: bv8)
    requires a < 64 && b < 64 && c < 64 && c & 0x03 == 0
    ensures var b0, b1 := (a << 2) | (b >> 4), ((b & 0x0F) << 4) | (c >> 2);
            b0 >> 2 == a && ((b0 & 0x03) << 4) | (b1 >> 4) == b && (b1 & 0x0F) << 2 == c
  {
  }

  lemma TwoEncode(chunk: Text, variant: Variant)
    requires |chunk| == 2 && DecodeTail(chunk, variant).Ok?
    ensures Encoded(DecodeTail(chunk, variant).value, variant) == chunk && AllDecode(chunk, variant)
  {
    TwoSymbolsEncode(chunk, variant, DecodeSymbol(chunk[0], variant).value, DecodeSymbol(chunk[1], variant).value);
  }

  lemma TailOfThree(chunk: Text, variant: Variant)
    requires |chunk| == 3 && DecodeTail(chunk, variant).Ok?
    ensures AllDecode(chunk, variant)
    ensures var a, b, c := DecodeSymbol(chunk[0], variant).value, DecodeSymbol(chunk[1], variant).value,
                           DecodeSymbol(chunk[2], variant).value;
            c & 0x03 == 0 && DecodeTail(chunk, variant).value == [(a << 2) | (b >> 4), ((b & 0x0F) << 4) | (c >> 2)]
  {
  }

  lemma EncodedTwo(b0: bv8, b1: bv8, variant: Variant)
    ensures Encoded([b0, b1], variant) == EncodeTailTwo(b0, b1, variant)
  {
  }

  lemma ThreeEncode(chunk: Text, variant: Variant)
    requires |chunk| == 3 && DecodeTail(chunk, variant).Ok?
    ensures Encoded(DecodeTail(chunk, variant).value, variant) == chunk && AllDecode(chunk, variant)
  {
    TailOfThree(chunk, variant);
    var a, b, c := DecodeSymbol(chunk[0], variant).value, DecodeSymbol(chunk[1], variant).value,
                   DecodeSymbol(chunk[2], variant).value;
    ThreeSymbolsEncode(chunk, variant, a, b, c);
    EncodedTwo((a << 2) | (b >> 4), ((b & 0x0F) << 4) | (c >> 2), variant);
  }

  lemma TailEncodes(chunk: Text, variant: Variant)
    requires |chunk| < 4 && DecodeTail(chunk, variant).Ok?
    ensures Encoded(DecodeTail(chunk, variant).value, variant) == chunk
    ensures AllDecode(chunk, variant) && |chunk| != 1
  {
    if |chunk| == 2 {
      TwoEncode(chunk, variant);
    } else if |chunk| == 3 {
      ThreeEncode(chunk, variant);
    }
  }

  lemma {:induction false} EncodedDecoded(payload: Text, variant: Variant)
    requires Decoded(payload, variant).Ok?
    ensures Encoded(Decoded(payload, variant).value, variant) == payload
    ensures AllDecode(payload, variant) && |payload| % 4 != 1
  {
    if |payload| < 4 {
      TailEncodes(payload, variant);
    } else {
      BlockEncodes(payload[..4], variant);
      EncodedDecoded(payload[4..], variant);
      var data := Decoded(payload, variant).value;
      assert data[3..] == Decoded(payload[4..], variant).value;
      assert payload == payload[..4] + payload[4..];
      forall i | 0 <= i < |payload| ensures DecodeSymbol(payload[i], variant).Some? {
        assert payload[i] == if i < 4 then payload[..4][i] else payload[4..][i - 4];
      }
    }
  }

  /**
   * Base64url is a bijection between byte strings and accepted texts: every
   * byte string has exactly one spelling, and no other text decodes at all.
   */
  lemma UrlIsBijective(text: Text, data: Bytes)
    ensures DecodeUrl(text) == Ok(data) <==> text == Encoded(data, UrlSafe)
  {
    if text == Encoded(data, UrlSafe) {
      DecodedEncoded(data, UrlSafe);
      EncodedDecoded(text, UrlSafe);
    }
    if DecodeUrl(text) == Ok(data) {
      EncodedDecoded(text, UrlSafe);
    }
  }

  /** A field of a fixed size accepts the encodings of that size and no others. */
  lemma ArrayIsBijective(text: Text, size: nat, data: Bytes)
    ensures DecodeUrlArray(text, size) == Ok(data) <==> |data| == size && text == Encoded(data, UrlSafe)
  {
    UrlIsBijective(text, data);
    if text == Encoded(data, UrlSafe) {
      assert Decoded(text, UrlSafe) == Ok(data);
    }
    if DecodeUrlArray(text, size) == Ok(data) {
      assert DecodeUrl(text) == Ok(data);
    }
  }

  // ---- standard base64 -------------------------------------------------------

  /** The padding RFC 4648 section 4 completes the last quantum with. */
  function PaddingFor(n: nat): Text {
    match n % 3 case 0 => [] case 1 => [PAD, PAD] case _ => [PAD]
  }

  /**
   * A payload remainder admits the empty padding and at most one other: one
   * sign after three symbols, two after two, none after a whole quantum.
   */
  lemma PaddingShapeIsForced(payloadLen: nat, count: nat)
    ensures EnforcePaddingShape(Padding(payloadLen, count), payloadLen + count).Ok?
       <==> count == 0 || (count <= 2 && payloadLen % 4 == 4 - count)
  {
  }

  lemma SymbolIsGraphic(c: bv8, variant: Variant)
    requires DecodeSymbol(c, variant).Some?
    ensures c != PAD && !IsBlankOrControl(c)
  {
  }

  lemma FirstPadIs(data: Text, n: nat)
    requires n <= |data| && (n < |data| ==> data[n] == PAD)
    requires forall i :: 0 <= i < n ==> data[i] != PAD
    ensures FirstPad(data) == n
  {
  }

  lemma PaddedFirstPad(payload: Text, pad: Text)
    requires AllDecode(payload, Standard) && forall c :: c in pad ==> c == PAD
    ensures FirstPad(payload + pad) == |payload| && !HasBlankOrControl(payload + pad)
  {
    var text := payload + pad;
    forall i | 0 <= i < |text|
      ensures !IsBlankOrControl(text[i]) && (text[i] == PAD <==> i >= |payload|)
    {
      if i < |payload| {
        assert text[i] == payload[i];
        SymbolIsGraphic(payload[i], Standard);
      } else {
        assert text[i] == pad[i - |payload|] && pad[i - |payload|] in pad;
      }
    }
    FirstPadIs(text, |payload|);
  }

  lemma PaddedLayout(payload: Text, pad: Text)
    requires AllDecode(payload, Standard) && |payload| % 4 != 1
    requires forall c :: c in pad ==> c == PAD
    requires pad == [] || (|pad| <= 2 && |payload| % 4 == 4 - |pad|)
    ensures StandardInputLen(payload + pad) == Ok(|payload|) && FirstPad(payload + pad) == |payload|
  {
    var text := payload + pad;
    PaddedFirstPad(payload, pad);
    assert StandardCharSet(text) == Ok(Padding(|payload|, |pad|)) by {
      assert text[..|payload|] == payload;
      forall i | |payload| <= i < |text| ensures text[i] == PAD {
        assert text[i] == pad[i - |payload|] && pad[i - |payload|] in pad;
      }
    }
    PaddingShapeIsForced(|payload|, |pad|);
  }

  lemma PaddedDecodes(payload: Text, pad: Text)
    requires StandardInputLen(payload + pad) == Ok(|payload|) && FirstPad(payload + pad) == |payload|
    ensures DecodeStandard(payload + pad) == Decoded(payload, Standard)
  {
    assert (payload + pad)[..|payload|] == payload;
  }

  lemma StandardAccepts(data: Bytes, pad: Text)
    requires pad == [] || pad == PaddingFor(|data|)
    ensures DecodeStandard(Encoded(data, Standard) + pad) == Ok(data)
  {
    var payload := Encoded(data, Standard);
    DecodedEncoded(data, Standard);
    EncodedDecoded(payload, Standard);
    PaddedLayout(payload, pad);
    PaddedDecodes(payload, pad);
  }

  lemma AcceptedLayout(text: Text)
    requires StandardInputLen(text).Ok?
    ensures forall i :: FirstPad(text) <= i < |text| ==> text[i] == PAD
    ensures EnforcePaddingShape(Padding(FirstPad(text), |text| - FirstPad(text)), |text|).Ok?
  {
  }

  lemma DecodedRemainder(n: nat)
    ensures n % 4 == 3 ==> DecodedLen(n) % 3 == 2
    ensures n % 4 == 2 ==> DecodedLen(n) % 3 == 1
  {
  }

  lemma PaddingIs(pad: Text, n: nat)
    requires forall i :: 0 <= i < |pad| ==> pad[i] == PAD
    requires |pad| == 0 || (|pad| <= 2 && n % 4 == 4 - |pad|)
    ensures pad == [] || pad == PaddingFor(DecodedLen(n))
  {
    DecodedRemainder(n);
    if |pad| == 1 {
      assert pad == [PAD];
    } else if |pad| == 2 {
      assert pad == [PAD, PAD];
    }
  }

  lemma StandardPadding(text: Text)
    requires StandardInputLen(text).Ok?
    ensures var n := FirstPad(text);
            text[n..] == [] || text[n..] == PaddingFor(DecodedLen(n))
  {
    var n := FirstPad(text);
    AcceptedLayout(text);
    PaddingShapeIsForced(n, |text| - n);
    PaddingIs(text[n..], n);
  }

  lemma StandardSpelling(text: Text)
    requires DecodeStandard(text).Ok?
    ensures var data := DecodeStandard(text).value;
            text == Encoded(data, Standard) || text == Encoded(data, Standard) + PaddingFor(|data|)
  {
    var n := FirstPad(text);
    EncodedDecoded(text[..n], Standard);
    StandardPadding(text);
    assert text == text[..n] + text[n..];
  }

  /**
   * The standard decoder accepts exactly two spellings of a byte string, the
   * bare one and the one padded as the RFC prescribes.
   */
  lemma StandardAcceptsExactly(text: Text, data: Bytes)
    ensures DecodeStandard(text) == Ok(data)
       <==> text == Encoded(data, Standard) || text == Encoded(data, Standard) + PaddingFor(|data|)
  {
    StandardAccepts(data, []);
    StandardAccepts(data, PaddingFor(|data|));
    assert Encoded(data, Standard) + [] == Encoded(data, Standard);
    if DecodeStandard(text) == Ok(data) {
      StandardSpelling(text);
    }
  }

  // ---- the RFC's own definition ----------------------------------------------

  function Pack(a: bv8, b: bv8, c: bv8, d: bv8, e: bv8, f: bv8): bv8 {
    (a << 5) | (b << 4) | (c << 3) | (d << 2) | (e << 1) | f
  }

  /** Six consecutive bits of the input, zero bits standing in past its end. */
  function Sextet(data: Bytes, k: nat): bv8 {
    Pack(BitAt(data, 6 * k), BitAt(data, 6 * k + 1), BitAt(data, 6 * k + 2),
         BitAt(data, 6 * k + 3), BitAt(data, 6 * k + 4), BitAt(data, 6 * k + 5))
  }

  /** The four sextets of a block of three bytes, bit by bit. */
  lemma BlockBits(b0: bv8, b1: bv8, b2: bv8)
    ensures Pack(Bit(b0, 0), Bit(b0, 1), Bit(b0, 2), Bit(b0, 3), Bit(b0, 4), Bit(b0, 5)) == b0 >> 2
    ensures Pack(Bit(b0, 6), Bit(b0, 7), Bit(b1, 0), Bit(b1, 1), Bit(b1, 2), Bit(b1, 3))
         == ((b0 & 0x03) << 4) | (b1 >> 4)
    ensures Pack(Bit(b1, 4), Bit(b1, 5), Bit(b1, 6), Bit(b1, 7), Bit(b2, 0), Bit(b2, 1))
         == ((b1 & 0x0F) << 2) | (b2 >> 6)
    ensures Pack(Bit(b2, 2), Bit(b2, 3), Bit(b2, 4), Bit(b2, 5), Bit(b2, 6), Bit(b2, 7)) == b2 & 0x3F
  {
  }

  /** Byte `n` of the input, zero past its end. */
  function ByteAt(data: Bytes, n: nat): bv8 {
    if n < |data| then data[n] else 0
  }

  lemma BitOfByteAt(data: Bytes, n: nat, k: nat)
    requires k < 8 && n <= |data|
    ensures BitAt(data, 8 * n + k) == Bit(ByteAt(data, n), k)
  {
    BitAtDrop(data, n, k);
    if n == |data| {
      assert data[n..] == [];
    } else {
      assert data[n..][0] == data[n];
    }
  }

  lemma PastTheEnd(data: Bytes, n: nat, k: nat)
    requires k < 8 && |data| <= n
    ensures BitAt(data, 8 * n + k) == Bit(ByteAt(data, n), k)
  {
    if n == |data| {
      BitOfByteAt(data, n, k);
    } else {
      NoBitsPastTheEnd(data, 8 * n + k);
    }
  }

  lemma {:induction false} NoBitsPastTheEnd(data: Bytes, i: nat)
    requires i >= 8 * |data|
    ensures BitAt(data, i) == 0
  {
    if data != [] {
      NoBitsPastTheEnd(data[1..], i - 8);
    }
  }

  lemma BitsOf(data: Bytes, n: nat)
    ensures forall k :: 0 <= k < 8 ==> BitAt(data, 8 * n + k) == Bit(ByteAt(data, n), k)
  {
    forall k | 0 <= k < 8
      ensures BitAt(data, 8 * n + k) == Bit(ByteAt(data, n), k)
    {
      if n <= |data| {
        BitOfByteAt(data, n, k);
      } else {
        PastTheEnd(data, n, k);
      }
    }
  }

  lemma SextetDrop(data: Bytes, k: nat)
    requires |data| >= 3
    ensures Sextet(data[3..], k) == Sextet(data, k + 4)
  {
    BitAtDrop(data, 3, 6 * k);
    BitAtDrop(data, 3, 6 * k + 1);
    BitAtDrop(data, 3, 6 * k + 2);
    BitAtDrop(data, 3, 6 * k + 3);
    BitAtDrop(data, 3, 6 * k + 4);
    BitAtDrop(data, 3, 6 * k + 5);
  }

  /** Sextet `k` of a block, as the encoder computes it. */
  function BlockSextet(data: Bytes, k: nat): bv8
    requires k < 4
  {
    var b0, b1, b2 := ByteAt(data, 0), ByteAt(data, 1), ByteAt(data, 2);
    match k
    case 0 => b0 >> 2
    case 1 => ((b0 & 0x03) << 4) | (b1 >> 4)
    case 2 => ((b1 & 0x0F) << 2) | (b2 >> 6)
    case _ => b2 & 0x3F
  }

  lemma BlockSextets(data: Bytes, k: nat)
    requires k < 4
    ensures Sextet(data, k) == BlockSextet(data, k)
  {
    BitsOf(data, 0);
    BitsOf(data, 1);
    BitsOf(data, 2);
    BlockBits(ByteAt(data, 0), ByteAt(data, 1), ByteAt(data, 2));
    match k case 0 => case 1 => case 2 => case _ =>
  }

  lemma BlockSextetFits(data: Bytes, k: nat)
    requires k < 4
    ensures BlockSextet(data, k) < 64
  {
  }

  lemma FirstOfMany(data: Bytes, variant: Variant, k: nat)
    requires k < 4 && |data| >= 3 && BlockSextet(data, k) < 64
    ensures Encoded(data, variant)[k] == Symbol(BlockSextet(data, k), variant)
  {
    var block := EncodeBlock(data[0], data[1], data[2], variant);
    assert Encoded(data, variant)[k] == block[k];
    BlockEntry(data, variant, k);
  }

  lemma BlockEntry(data: Bytes, variant: Variant, k: nat)
    requires k < 4 && |data| >= 3 && BlockSextet(data, k) < 64
    ensures EncodeBlock(data[0], data[1], data[2], variant)[k] == Symbol(BlockSextet(data, k), variant)
  {
    match k case 0 => case 1 => case 2 => case _ =>
  }

  lemma FirstOfTwo(data: Bytes, variant: Variant, k: nat)
    requires k < 3 && |data| == 2 && BlockSextet(data, k) < 64
    ensures Encoded(data, variant)[k] == Symbol(BlockSextet(data, k), variant)
  {
    NoLowBits(data[1]);
    match k case 0 => case 1 => case _ =>
  }

  lemma FirstOfOne(data: Bytes, variant: Variant, k: nat)
    requires k < 2 && |data| == 1 && BlockSextet(data, k) < 64
    ensures Encoded(data, variant)[k] == Symbol(BlockSextet(data, k), variant)
  {
    NoLowBits(data[0]);
    match k case 0 => case _ =>
  }

  lemma NoLowBits(b: bv8)
    ensures ((b & 0x03) << 4) | (0 >> 4) == (b & 0x03) << 4 && ((b & 0x0F) << 2) | (0 >> 6) == (b & 0x0F) << 2
  {
  }

  /** The first symbols of an encoding, tails included: missing bytes count as zero. */
  lemma FirstSymbols(data: Bytes, variant: Variant, k: nat)
    requires k < 4 && k < EncodedLen(|data|) && BlockSextet(data, k) < 64
    ensures Encoded(data, variant)[k] == Symbol(BlockSextet(data, k), variant)
  {
    if |data| == 1 {
      FirstOfOne(data, variant, k);
    } else if |data| == 2 {
      FirstOfTwo(data, variant, k);
    } else {
      FirstOfMany(data, variant, k);
    }
  }

  lemma LaterSymbols(data: Bytes, variant: Variant, k: nat)
    requires 4 <= k < EncodedLen(|data|)
    ensures |data| >= 3 && Encoded(data, variant)[k] == Encoded(data[3..], variant)[k - 4]
  {
  }

  // ---- the RFC's own alphabets -------------------------------------------------

  const UPPER := "ABCDEFGHIJKLMNOPQRSTUVWXYZ"
  const LOWER := "abcdefghijklmnopqrstuvwxyz"
  const DIGITS := "0123456789"

  /** Tables 1 and 2 of RFC 4648: the symbol of each value, in order. */
  function Alphabet(variant: Variant): (symbols: string)
    ensures |symbols| == 64
  {
    UPPER + LOWER + DIGITS + (if variant.Standard? then "+/" else "-_")
  }

  ghost predicate InRow(symbols: string, first: char) {
    forall i :: 0 <= i < |symbols| ==> symbols[i] as int == first as int + i
  }

  lemma RowsAreConsecutive()
    ensures InRow(UPPER, 'A') && InRow(LOWER, 'a') && InRow(DIGITS, '0')
  {
  }

  lemma SymbolIsRfc(index: bv8, variant: Variant)
    requires index < 64
    ensures Symbol(index, variant) as char == Alphabet(variant)[index as int]
  {
    RowsAreConsecutive();
    var symbols, i := Alphabet(variant), index as int;
    if i < 26 {
      assert symbols[i] == UPPER[i];
    } else if i < 52 {
      assert symbols[i] == LOWER[i - 26];
    } else if i < 62 {
      assert symbols[i] == DIGITS[i - 52];
    } else {
      assert index == 62 || index == 63;
      assert symbols[62..] == if variant.Standard? then "+/" else "-_";
      assert symbols[i] == symbols[62..][i - 62];
    }
  }

  lemma ValueOfSymbol(c: bv8, variant: Variant, index: bv8)
    requires index < 64 && Alphabet(variant)[index as int] == c as char
    ensures DecodeSymbol(c, variant) == Some(index)
  {
    SymbolIsRfc(index, variant);
    SymbolDecodes(index, variant);
    assert Symbol(index, variant) == c;
  }

  lemma IndexIsByte(i: nat)
    requires i < 64
    ensures (i as bv8) as int == i && i as bv8 < 64
  {
  }

  /** A character has a value exactly when the alphabet holds it. */
  lemma DecodesExactly(c: bv8, variant: Variant)
    ensures DecodeSymbol(c, variant).Some? <==> c as char in Alphabet(variant)
  {
    if DecodeSymbol(c, variant).Some? {
      DecodedSymbolEncodes(c, variant);
      SymbolIsRfc(DecodeSymbol(c, variant).value, variant);
    }
    if c as char in Alphabet(variant) {
      var i :| 0 <= i < 64 && Alphabet(variant)[i] == c as char;
      IndexIsByte(i);
      ValueOfSymbol(c, variant, i as bv8);
    }
  }

  lemma PadIsForeign(c: bv8, variant: Variant)
    ensures PAD as char == '='
    ensures DecodeSymbol(c, variant).Some? ==> c != PAD && !IsBlankOrControl(c)
  {
  }

  ghost predicate AllIn(text: Text, variant: Variant) {
    forall i :: 0 <= i < |text| ==> text[i] as char in Alphabet(variant)
  }

  lemma AllDecodeExactly(text: Text, variant: Variant)
    ensures AllDecode(text, variant) <==> AllIn(text, variant)
    ensures AllIn(text, variant) ==> PAD !in text && !HasBlankOrControl(text)
  {
    forall i | 0 <= i < |text|
      ensures DecodeSymbol(text[i], variant).Some? <==> text[i] as char in Alphabet(variant)
      ensures DecodeSymbol(text[i], variant).Some? ==> text[i] != PAD && !IsBlankOrControl(text[i])
    {
      DecodesExactly(text[i], variant);
      PadIsForeign(text[i], variant);
    }
  }

  /**
   * Why a text of the URL-safe alphabet is refused: a lone last symbol is a wrong
   * length, everything else a wrong character.
   */
  lemma UrlErrors(text: Text)
    requires DecodeUrl(text).Err?
    ensures DecodeUrl(text).error == if AllIn(text, UrlSafe) && |text| % 4 == 1 then InvalidLength else InvalidCharacter
  {
    AllDecodeExactly(text, UrlSafe);
    if AllIn(text, UrlSafe) && |text| % 4 != 1 {
      DecodedErrors(text, UrlSafe);
    }
  }

  lemma {:induction false} DecodedErrors(payload: Text, variant: Variant)
    requires |payload| % 4 != 1 && Decoded(payload, variant).Err?
    ensures Decoded(payload, variant).error == InvalidCharacter
  {
    if |payload| >= 4 && DecodeBlock(payload[..4], variant).Ok? {
      DecodedErrors(payload[4..], variant);
    }
  }

  /** A field of a fixed size: another size is a wrong length of its own. */
  lemma ArrayErrors(text: Text, size: nat)
    ensures DecodeUrlArray(text, size) == Err(WrongLength)
       <==> AllIn(text, UrlSafe) && |text| % 4 != 1 && DecodedLen(|text|) != size
    ensures DecodeUrlCiphertext(text) == Err(TooLong) <==> |text| > MAX_BASE64_CIPHERTEXT_LENGTH
  {
    AllDecodeExactly(text, UrlSafe);
    if |text| % 4 != 1 && Decoded(text, UrlSafe).Err? {
      DecodedErrors(text, UrlSafe);
    }
    if DecodeUrl(text).Err? {
      UrlErrors(text);
    }
  }

  /** Symbols of the alphabet, and after them nothing but padding. */
  ghost predicate GoodSymbols(text: Text) {
    AllIn(text[..FirstPad(text)], Standard) && IsPadding(text, FirstPad(text))
  }

  /** No padding, or as much of it as makes up the last group of four, and no lone symbol. */
  ghost predicate GoodShape(symbols: nat, pads: nat) {
    (pads == 0 && symbols % 4 != 1) || (pads == 1 && symbols % 4 == 3) || (pads == 2 && symbols % 4 == 2)
  }

  lemma StandardLayout(text: Text)
    ensures StandardCharSet(text).Ok? <==> GoodSymbols(text)
    ensures StandardCharSet(text).Ok? ==> StandardCharSet(text).value.payloadLen == FirstPad(text)
                                          && StandardCharSet(text).value.count == |text| - FirstPad(text)
    ensures StandardCharSet(text).Err? ==> StandardCharSet(text).error == InvalidCharacter
  {
    AllDecodeExactly(text[..FirstPad(text)], Standard);
    assert GoodSymbols(text) == (AllDecode(text[..FirstPad(text)], Standard) && IsPadding(text, FirstPad(text)));
  }

  lemma NothingBlank(text: Text)
    requires GoodSymbols(text)
    ensures !HasBlankOrControl(text)
  {
    var n := FirstPad(text);
    AllDecodeExactly(text[..n], Standard);
    PadIsForeign(PAD, Standard);
    forall i | 0 <= i < |text|
      ensures !IsBlankOrControl(text[i])
    {
      if i < n {
        assert text[..n][i] == text[i];
      }
    }
  }

  lemma ShapeIs(padding: Padding, len: nat)
    requires len == padding.payloadLen + padding.count
    ensures var r := EnforcePaddingShape(padding, len);
            (r.Ok? && padding.payloadLen % 4 != 1 <==> GoodShape(padding.payloadLen, padding.count))
            && (r.Err? ==> r.error == InvalidLength)
  {
  }

  lemma StandardInputIs(text: Text)
    ensures !GoodSymbols(text) ==> StandardInputLen(text).Err? && StandardInputLen(text).error == InvalidCharacter
    ensures GoodSymbols(text) ==>
              (StandardInputLen(text).Ok? <==> GoodShape(FirstPad(text), |text| - FirstPad(text)))
    ensures GoodSymbols(text) && StandardInputLen(text).Err? ==> StandardInputLen(text).error == InvalidLength
  {
    StandardLayout(text);
    if GoodSymbols(text) {
      NothingBlank(text);
      var padding := StandardCharSet(text).value;
      assert padding.payloadLen == FirstPad(text) && padding.count == |text| - FirstPad(text);
      GoodInputIs(text, padding);
    } else {
      BadInputIs(text);
    }
  }

  lemma BadInputIs(text: Text)
    requires StandardCharSet(text).Err? && StandardCharSet(text).error == InvalidCharacter
    ensures StandardInputLen(text).Err? && StandardInputLen(text).error == InvalidCharacter
  {
  }

  lemma GoodInputIs(text: Text, padding: Padding)
    requires !HasBlankOrControl(text) && StandardCharSet(text) == Ok(padding)
    requires |text| == padding.payloadLen + padding.count
    ensures StandardInputLen(text).Ok? <==> GoodShape(padding.payloadLen, padding.count)
    ensures StandardInputLen(text).Err? ==> StandardInputLen(text).error == InvalidLength
  {
    ShapeIs(padding, |text|);
  }

  /** What is refused for its layout has a wrong length; everything else has a wrong character. */
  lemma StandardErrors(text: Text)
    requires DecodeStandard(text).Err?
    ensures DecodeStandard(text).error
         == if GoodSymbols(text) && !GoodShape(FirstPad(text), |text| - FirstPad(text)) then InvalidLength
            else InvalidCharacter
  {
    StandardInputIs(text);
    if StandardInputLen(text).Ok? {
      GoodInputErrors(text);
    }
  }

  lemma GoodInputErrors(text: Text)
    requires StandardInputLen(text).Ok? && DecodeStandard(text).Err?
    ensures DecodeStandard(text).error == InvalidCharacter
  {
    DecodedErrors(text[..FirstPad(text)], Standard);
  }

  /** RFC 4648 section 4: symbol `k` is the one the table gives for bits `6k` to `6k + 5` of the input. */
  lemma EncodedIsRfc(data: Bytes, variant: Variant, k: nat)
    requires k < EncodedLen(|data|)
    ensures Sextet(data, k) < 64
    ensures Encoded(data, variant)[k] as char == Alphabet(variant)[Sextet(data, k) as int]
  {
    SymbolsAreSextets(data, variant, k);
    SymbolIsRfc(Sextet(data, k), variant);
  }

  lemma {:induction false} SymbolsAreSextets(data: Bytes, variant: Variant, k: nat)
    requires k < EncodedLen(|data|)
    ensures Sextet(data, k) < 64 && Encoded(data, variant)[k] == Symbol(Sextet(data, k), variant)
  {
    if k >= 4 {
      LaterSymbols(data, variant, k);
      SymbolsAreSextets(data[3..], variant, k - 4);
      SextetDrop(data, k - 4);
    } else {
      BlockSextets(data, k);
      BlockSextetFits(data, k);
      FirstSymbols(data, variant, k);
    }
  }
}
