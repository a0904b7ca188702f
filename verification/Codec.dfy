/**
 * Base64 in the two alphabets of RFC 4648: the standard one (section 4) and the
 * URL-safe one (section 5). Text is the byte string behind a Rust `str`.
 */
module Codec {
  import opened Limits
  import opened Wrappers
  import opened Bits

  type Text = seq<bv8>

  datatype Variant = Standard | UrlSafe

  datatype CodecError = InvalidCharacter | InvalidLength | WrongLength | TooLong

  const PAD: bv8 := 0x3D

  // ---- symbols -------------------------------------------------------------

  /** Entry `index` of the alphabet: A-Z, a-z, 0-9, then the variant's own two. */
  function Symbol(index: bv8, variant: Variant): bv8
    requires index < 64
  {
    if index < 26 then 0x41 + index
    else if index < 52 then 0x61 + (index - 26)
    else if index < 62 then 0x30 + (index - 52)
    else if index == 62 then (if variant.Standard? then 0x2B else 0x2D)
    else (if variant.Standard? then 0x2F else 0x5F)
  }

  function DecodeSymbol(c: bv8, variant: Variant): Option<bv8> {
    if 0x41 <= c <= 0x5A then Some(c - 0x41)
    else if 0x61 <= c <= 0x7A then Some(c - 0x61 + 26)
    else if 0x30 <= c <= 0x39 then Some(c - 0x30 + 52)
    else if c == 0x2B && variant.Standard? then Some(62)
    else if c == 0x2F && variant.Standard? then Some(63)
    else if c == 0x2D && variant.UrlSafe? then Some(62)
    else if c == 0x5F && variant.UrlSafe? then Some(63)
    else None
  }

  lemma SymbolDecodes(index: bv8, variant: Variant)
    requires index < 64
    ensures DecodeSymbol(Symbol(index, variant), variant) == Some(index)
  {
  }

  lemma DecodedSymbolEncodes(c: bv8, variant: Variant)
    requires DecodeSymbol(c, variant).Some?
    ensures DecodeSymbol(c, variant).value < 64
    ensures Symbol(DecodeSymbol(c, variant).value, variant) == c
  {
  }

  // ---- encoding ------------------------------------------------------------

  function EncodedLen(n: nat): nat {
    n / 3 * 4 + (match n % 3 case 0 => 0 case 1 => 2 case _ => 3)
  }

  function EncodeBlock(b0: bv8, b1: bv8, b2: bv8, variant: Variant): Text {
    [ Symbol(b0 >> 2, variant),
      Symbol(((b0 & 0x03) << 4) | (b1 >> 4), variant),
      Symbol(((b1 & 0x0F) << 2) | (b2 >> 6), variant),
      Symbol(b2 & 0x3F, variant) ]
  }

  function EncodeTailOne(b0: bv8, variant: Variant): Text {
    [Symbol(b0 >> 2, variant), Symbol((b0 & 0x03) << 4, variant)]
  }

  function EncodeTailTwo(b0: bv8, b1: bv8, variant: Variant): Text {
    [ Symbol(b0 >> 2, variant),
      Symbol(((b0 & 0x03) << 4) | (b1 >> 4), variant),
      Symbol((b1 & 0x0F) << 2, variant) ]
  }

  /** What the encoder writes: whole blocks first, then the unpadded tail. */
  function Encoded(data: Bytes, variant: Variant): (text: Text)
    ensures |text| == EncodedLen(|data|)
  {
    if |data| >= 3 then EncodeBlock(data[0], data[1], data[2], variant) + Encoded(data[3..], variant)
    else if |data| == 2 then EncodeTailTwo(data[0], data[1], variant)
    else if |data| == 1 then EncodeTailOne(data[0], variant)
    else []
  }

  method WriteFour(out: array<bv8>, outIdx: nat, a: bv8, b: bv8, c: bv8, d: bv8)
    requires outIdx + 4 <= out.Length
    modifies out
    ensures out[..outIdx + 4] == old(out[..outIdx]) + [a, b, c, d]
    ensures out[outIdx + 4..] == old(out[outIdx + 4..])
  {
    out[outIdx] := a;
    out[outIdx + 1] := b;
    out[outIdx + 2] := c;
    out[outIdx + 3] := d;
  }

  method EncodeFullBlock(data: Bytes, inIdx: nat, out: array<bv8>, outIdx: nat, variant: Variant)
    requires inIdx + 3 <= |data| && outIdx + 4 <= out.Length
    modifies out
    ensures out[..outIdx + 4]
         == old(out[..outIdx]) + EncodeBlock(data[inIdx], data[inIdx + 1], data[inIdx + 2], variant)
    ensures out[outIdx + 4..] == old(out[outIdx + 4..])
  {
    var b0, b1, b2 := data[inIdx], data[inIdx + 1], data[inIdx + 2];
    WriteFour(out, outIdx, Symbol(b0 >> 2, variant), Symbol(((b0 & 0x03) << 4) | (b1 >> 4), variant),
              Symbol(((b1 & 0x0F) << 2) | (b2 >> 6), variant), Symbol(b2 & 0x3F, variant));
  }

  method EncodeTail(data: Bytes, inIdx: nat, out: array<bv8>, outIdx: nat, variant: Variant)
    requires inIdx <= |data| < inIdx + 3
    requires outIdx + EncodedLen(|data| - inIdx) == out.Length
    modifies out
    ensures out[..] == old(out[..outIdx]) + Encoded(data[inIdx..], variant)
  {
    match |data| - inIdx {
      case 1 =>
        out[outIdx] := Symbol(data[inIdx] >> 2, variant);
        out[outIdx + 1] := Symbol((data[inIdx] & 0x03) << 4, variant);
      case 2 =>
        var b0, b1 := data[inIdx], data[inIdx + 1];
        out[outIdx] := Symbol(b0 >> 2, variant);
        out[outIdx + 1] := Symbol(((b0 & 0x03) << 4) | (b1 >> 4), variant);
        out[outIdx + 2] := Symbol((b1 & 0x0F) << 2, variant);
      case _ =>
    }
  }

  lemma EncodedStep(done: Text, data: Bytes, i: nat, variant: Variant)
    requires i + 3 <= |data|
    ensures done + EncodeBlock(data[i], data[i + 1], data[i + 2], variant) + Encoded(data[i + 3..], variant)
         == done + Encoded(data[i..], variant)
  {
    assert data[i..][3..] == data[i + 3..];
  }

  /** Fill an output buffer of exactly the computed length. */
  method FillEncoded(data: Bytes, out: array<bv8>, variant: Variant)
    requires out.Length == EncodedLen(|data|)
    modifies out
    ensures out[..] == Encoded(data, variant)
  {
    var inIdx, outIdx := 0, 0;
    while inIdx + 3 <= |data|
      invariant inIdx <= |data| && outIdx + EncodedLen(|data| - inIdx) == out.Length
      invariant out[..outIdx] + Encoded(data[inIdx..], variant) == Encoded(data, variant)
    {
      ghost var done := out[..outIdx];
      EncodeFullBlock(data, inIdx, out, outIdx, variant);
      EncodedStep(done, data, inIdx, variant);
      inIdx, outIdx := inIdx + 3, outIdx + 4;
    }
    EncodeTail(data, inIdx, out, outIdx, variant);
  }

  method Encode(data: Bytes, variant: Variant) returns (text: Text)
    ensures text == Encoded(data, variant)
  {
    var out := new bv8[EncodedLen(|data|)];
    FillEncoded(data, out, variant);
    text := out[..];
  }

  // ---- decoding ------------------------------------------------------------

  function DecodeBlock(chunk: Text, variant: Variant): Result<Bytes, CodecError>
    requires |chunk| == 4
  {
    match (DecodeSymbol(chunk[0], variant), DecodeSymbol(chunk[1], variant),
           DecodeSymbol(chunk[2], variant), DecodeSymbol(chunk[3], variant))
    case (Some(a), Some(b), Some(c), Some(d)) =>
      Ok([(a << 2) | (b >> 4), ((b & 0x0F) << 4) | (c >> 2), ((c & 0x03) << 6) | d])
    case _ => Err(InvalidCharacter)
  }

  function DecodeTail(chunk: Text, variant: Variant): Result<Bytes, CodecError>
    requires |chunk| < 4
  {
    match |chunk|
    case 0 => Ok([])
    case 2 =>
      (match (DecodeSymbol(chunk[0], variant), DecodeSymbol(chunk[1], variant))
       case (Some(a), Some(b)) =>
         if b & 0x0F == 0 then Ok([(a << 2) | (b >> 4)]) else Err(InvalidCharacter)
       case _ => Err(InvalidCharacter))
    case 3 =>
      (match (DecodeSymbol(chunk[0], variant), DecodeSymbol(chunk[1], variant), DecodeSymbol(chunk[2], variant))
       case (Some(a), Some(b), Some(c)) =>
         if c & 0x03 == 0 then Ok([(a << 2) | (b >> 4), ((b & 0x0F) << 4) | (c >> 2)])
         else Err(InvalidCharacter)
       case _ => Err(InvalidCharacter))
    case _ => Err(InvalidLength)
  }

  /** What the decoder writes for an unpadded payload, or the first error it meets. */
  function Decoded(payload: Text, variant: Variant): (r: Result<Bytes, CodecError>)
    ensures r.Ok? ==> |r.value| == DecodedLen(|payload|)
  {
    if |payload| >= 4 then
      var block :- DecodeBlock(payload[..4], variant);
      var rest :- Decoded(payload[4..], variant);
      Ok(block + rest)
    else DecodeTail(payload, variant)
  }

  function TailOutputLen(rem: nat): nat {
    match rem case 2 => 1 case 3 => 2 case _ => 0
  }

  function DecodedLen(n: nat): nat {
    n / 4 * 3 + TailOutputLen(n % 4)
  }

  /** A decoding of the rest, with what has been written already in front. */
  function Prefixed(done: Bytes, rest: Result<Bytes, CodecError>): (r: Result<Bytes, CodecError>)
    ensures done == [] ==> r == rest
  {
    match rest
    case Ok(bytes) => assert [] + bytes == bytes; Ok(done + bytes)
    case Err(e) => Err(e)
  }

  /** Write one decoded block at `outIdx`, or report the foreign symbol. */
  method DecodeFullBlock(chunk: Text, variant: Variant, out: array<bv8>, outIdx: nat)
    returns (r: Result<(), CodecError>)
    requires |chunk| == 4 && outIdx + 3 <= out.Length
    modifies out
    ensures r == match DecodeBlock(chunk, variant) case Ok(_) => Ok(()) case Err(e) => Err(e)
    ensures r.Ok? ==> out[..outIdx + 3] == old(out[..outIdx]) + DecodeBlock(chunk, variant).value
  {
    var block := DecodeBlock(chunk, variant);
    if block.Err? {
      return Err(block.error);
    }
    out[outIdx], out[outIdx + 1], out[outIdx + 2] := block.value[0], block.value[1], block.value[2];
    return Ok(());
  }

  /** Write the bytes of the last partial block at `outIdx`. */
  method DecodeLast(chunk: Text, variant: Variant, out: array<bv8>, outIdx: nat)
    returns (r: Result<(), CodecError>)
    requires |chunk| < 4 && outIdx + TailOutputLen(|chunk|) <= out.Length
    modifies out
    ensures r == match DecodeTail(chunk, variant) case Ok(_) => Ok(()) case Err(e) => Err(e)
    ensures r.Ok? ==> out[..outIdx + TailOutputLen(|chunk|)] == old(out[..outIdx]) + DecodeTail(chunk, variant).value
  {
    var tail := DecodeTail(chunk, variant);
    if tail.Err? {
      return Err(tail.error);
    }
    if |tail.value| > 0 {
      out[outIdx] := tail.value[0];
    }
    if |tail.value| > 1 {
      out[outIdx + 1] := tail.value[1];
    }
    return Ok(());
  }

  /** What is left to do once the whole blocks of a payload are written. */
  ghost predicate BlocksWritten(payload: Text, variant: Variant, written: Bytes, blocks: nat) {
    4 * blocks <= |payload| && |written| == 3 * blocks
    && Decoded(payload, variant) == Prefixed(written, Decoded(payload[4 * blocks..], variant))
  }

  lemma PrefixedTwice(done: Bytes, block: Bytes, rest: Result<Bytes, CodecError>)
    ensures Prefixed(done, Prefixed(block, rest)) == Prefixed(done + block, rest)
  {
    if rest.Ok? {
      assert done + (block + rest.value) == done + block + rest.value;
    }
  }

  lemma DecodedByBlock(payload: Text, variant: Variant, block: Result<Bytes, CodecError>)
    requires |payload| >= 4 && block == DecodeBlock(payload[..4], variant)
    ensures Decoded(payload, variant)
         == match block case Err(e) => Err(e) case Ok(bytes) => Prefixed(bytes, Decoded(payload[4..], variant))
  {
  }

  /** One more block: what it decodes to is written, or its error is the error of the whole. */
  lemma BlocksWrittenStep(payload: Text, variant: Variant, written: Bytes, i: nat, block: Result<Bytes, CodecError>)
    requires BlocksWritten(payload, variant, written, i) && 4 * i + 4 <= |payload|
    requires block == DecodeBlock(payload[4 * i..4 * i + 4], variant) && (block.Ok? ==> |block.value| == 3)
    ensures match block
            case Ok(bytes) => BlocksWritten(payload, variant, written + bytes, i + 1)
            case Err(e) => Decoded(payload, variant) == Err(e)
  {
    var rest := payload[4 * i..];
    assert rest[..4] == payload[4 * i..4 * i + 4] && rest[4..] == payload[4 * (i + 1)..];
    DecodedByBlock(rest, variant, block);
    if block.Ok? {
      PrefixedTwice(written, block.value, Decoded(rest[4..], variant));
    }
  }

  method DecodeBlockAt(payload: Text, variant: Variant, out: array<bv8>, i: nat) returns (r: Result<(), CodecError>)
    requires 4 * i + 4 <= |payload| && 3 * i + 3 <= out.Length
    requires BlocksWritten(payload, variant, out[..3 * i], i)
    modifies out
    ensures r.Err? ==> Decoded(payload, variant) == Err(r.error)
    ensures r.Ok? ==> BlocksWritten(payload, variant, out[..3 * i + 3], i + 1)
  {
    ghost var block := DecodeBlock(payload[4 * i..4 * i + 4], variant);
    BlocksWrittenStep(payload, variant, out[..3 * i], i, block);
    r := DecodeFullBlock(payload[4 * i..4 * i + 4], variant, out, 3 * i);
  }

  method DecodeBlocks(payload: Text, variant: Variant, out: array<bv8>) returns (r: Result<(), CodecError>)
    requires |payload| / 4 * 3 <= out.Length
    modifies out
    ensures r.Err? ==> Decoded(payload, variant) == Err(r.error)
    ensures r.Ok? ==> BlocksWritten(payload, variant, out[..|payload| / 4 * 3], |payload| / 4)
  {
    var blocks := |payload| / 4;
    assert payload[0..] == payload && out[..0] == [];
    for i := 0 to blocks
      invariant BlocksWritten(payload, variant, out[..3 * i], i)
    {
      var block := DecodeBlockAt(payload, variant, out, i);
      if block.Err? {
        return block;
      }
    }
    return Ok(());
  }

  lemma TailCompletes(payload: Text, variant: Variant, written: Bytes, blocks: nat, tail: Result<Bytes, CodecError>)
    requires BlocksWritten(payload, variant, written, blocks) && |payload| < 4 * blocks + 4
    requires tail == DecodeTail(payload[4 * blocks..], variant)
    ensures Decoded(payload, variant) == Prefixed(written, tail)
  {
  }

  /** The bytes of the last partial block, after the whole ones. */
  method DecodeRest(payload: Text, variant: Variant, out: array<bv8>, blocks: nat) returns (r: Result<(), CodecError>)
    requires 4 * blocks <= |payload| < 4 * blocks + 4
    requires 3 * blocks + TailOutputLen(|payload| - 4 * blocks) <= out.Length
    requires BlocksWritten(payload, variant, out[..3 * blocks], blocks)
    modifies out
    ensures r.Err? ==> Decoded(payload, variant) == Err(r.error)
    ensures r.Ok? ==> Decoded(payload, variant) == Ok(out[..3 * blocks + TailOutputLen(|payload| - 4 * blocks)])
  {
    ghost var tail := DecodeTail(payload[4 * blocks..], variant);
    TailCompletes(payload, variant, out[..3 * blocks], blocks, tail);
    r := DecodeLast(payload[4 * blocks..], variant, out, 3 * blocks);
  }

  /**
   * Decode into a caller's buffer. The buffer only has to be as long as the
   * length computed from the payload: every write stays inside it.
   */
  method DecodeInto(data: Text, payloadLen: nat, variant: Variant, out: array<bv8>)
    returns (r: Result<(), CodecError>)
    requires payloadLen <= |data| && DecodedLen(payloadLen) <= out.Length
    modifies out
    ensures r.Err? ==> Decoded(data[..payloadLen], variant) == Err(r.error)
    ensures r.Ok? ==> Decoded(data[..payloadLen], variant) == Ok(out[..DecodedLen(payloadLen)])
  {
    var payload := data[..payloadLen];
    r := DecodeBlocks(payload, variant, out);
    if r.Ok? {
      r := DecodeRest(payload, variant, out, payloadLen / 4);
    }
  }

  // ---- input validation ----------------------------------------------------

  predicate IsBlankOrControl(c: bv8) {
    c <= 0x20 || c == 0x7F
  }

  predicate HasBlankOrControl(data: Text) {
    exists i :: 0 <= i < |data| && IsBlankOrControl(data[i])
  }

  predicate AllDecode(data: Text, variant: Variant) {
    forall i :: 0 <= i < |data| ==> DecodeSymbol(data[i], variant).Some?
  }

  function UrlInputLen(data: Text): Result<nat, CodecError> {
    if HasBlankOrControl(data) || PAD in data || !AllDecode(data, UrlSafe) then Err(InvalidCharacter)
    else if |data| % 4 == 1 then Err(InvalidLength)
    else Ok(DecodedLen(|data|))
  }

  function DecodeUrl(data: Text): Result<Bytes, CodecError> {
    var _ :- UrlInputLen(data);
    Decoded(data, UrlSafe)
  }

  method DecodeBase64Url(data: Text) returns (r: Result<Bytes, CodecError>)
    ensures r == DecodeUrl(data)
  {
    var len := UrlInputLen(data);
    if len.Err? {
      return Err(len.error);
    }
    var out := new bv8[len.value];
    var done := DecodeInto(data, |data|, UrlSafe, out);
    assert data[..|data|] == data;
    if done.Err? {
      return Err(done.error);
    }
    assert out[..] == out[..DecodedLen(|data|)];
    return Ok(out[..]);
  }

  /** The decoder for a field of a fixed size. */
  function DecodeUrlArray(data: Text, size: nat): Result<Bytes, CodecError> {
    var len :- UrlInputLen(data);
    if len != size then Err(WrongLength) else Decoded(data, UrlSafe)
  }

  /** The decoder for a ciphertext, which is bounded before it is looked at. */
  function DecodeUrlCiphertext(data: Text): Result<Bytes, CodecError> {
    if |data| > MAX_BASE64_CIPHERTEXT_LENGTH then Err(TooLong) else DecodeUrl(data)
  }

  /** Where padding starts and how long it runs. */
  datatype Padding = Padding(payloadLen: nat, count: nat)

  function FirstPad(data: Text): (n: nat)
    ensures n <= |data| && (n < |data| ==> data[n] == PAD)
    ensures forall i :: 0 <= i < n ==> data[i] != PAD
  {
    if data == [] || data[0] == PAD then 0
    else
      var n := 1 + FirstPad(data[1..]);
      assert forall i :: 1 <= i < n ==> data[i] == data[1..][i - 1];
      n
  }

  /** Nothing but padding from `n` on. */
  predicate IsPadding(data: Text, n: nat) {
    forall i :: n <= i < |data| ==> data[i] == PAD
  }

  function StandardCharSet(data: Text): Result<Padding, CodecError> {
    var n := FirstPad(data);
    if AllDecode(data[..n], Standard) && IsPadding(data, n)
    then Ok(Padding(n, |data| - n))
    else Err(InvalidCharacter)
  }

  /** The one left-to-right walk that refuses foreign symbols and late payload. */
  method ValidateStandardCharSet(data: Text) returns (r: Result<Padding, CodecError>)
    ensures r == StandardCharSet(data)
  {
    var payloadLen, count, started := |data|, 0, false;
    for idx := 0 to |data|
      invariant !started ==> count == 0 && payloadLen == |data| && AllDecode(data[..idx], Standard)
      invariant !started ==> idx <= FirstPad(data)
      invariant started ==> payloadLen == FirstPad(data) && payloadLen < idx && count == idx - payloadLen
      invariant started ==> AllDecode(data[..payloadLen], Standard)
      invariant started ==> IsPadding(data[..idx], payloadLen)
    {
      assert data[..idx + 1] == data[..idx] + [data[idx]];
      if data[idx] == PAD {
        if !started {
          payloadLen, started := idx, true;
        }
        count := count + 1;
        continue;
      }
      if started {
        return Err(InvalidCharacter);
      }
      if DecodeSymbol(data[idx], Standard).None? {
        assert data[..FirstPad(data)][idx] == data[idx];
        return Err(InvalidCharacter);
      }
    }
    assert data[..|data|] == data;
    return Ok(Padding(payloadLen, count));
  }

  function EnforcePaddingShape(padding: Padding, dataLen: nat): Result<(), CodecError> {
    if padding.count > 2 then Err(InvalidLength)
    else if padding.count > 0 && dataLen % 4 != 0 then Err(InvalidLength)
    else if padding.count == 1 && padding.payloadLen % 4 != 3 then Err(InvalidLength)
    else if padding.count == 2 && padding.payloadLen % 4 != 2 then Err(InvalidLength)
    else Ok(())
  }

  /** The payload length of a standard input, once its layout has been accepted. */
  function StandardInputLen(data: Text): Result<nat, CodecError> {
    if HasBlankOrControl(data) then Err(InvalidCharacter)
    else
      var padding :- StandardCharSet(data);
      var _ :- EnforcePaddingShape(padding, |data|);
      if padding.payloadLen % 4 == 1 then Err(InvalidLength) else Ok(padding.payloadLen)
  }

  function DecodeStandard(data: Text): Result<Bytes, CodecError> {
    var n :- StandardInputLen(data);
    assert n == FirstPad(data);
    Decoded(data[..n], Standard)
  }

  method DecodeBase64Standard(data: Text) returns (r: Result<Bytes, CodecError>)
    ensures r == DecodeStandard(data)
  {
    if HasBlankOrControl(data) {
      return Err(InvalidCharacter);
    }
    var padding := ValidateStandardCharSet(data);
    if padding.Err? {
      return Err(padding.error);
    }
    var shape := EnforcePaddingShape(padding.value, |data|);
    if shape.Err? {
      return Err(shape.error);
    }
    var payloadLen := padding.value.payloadLen;
    if payloadLen % 4 == 1 {
      return Err(InvalidLength);
    }
    var out := new bv8[DecodedLen(payloadLen)];
    var done := DecodeInto(data, payloadLen, Standard, out);
    if done.Err? {
      return Err(done.error);
    }
    assert out[..] == out[..DecodedLen(payloadLen)];
    return Ok(out[..]);
  }
}
