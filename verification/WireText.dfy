/** What documents of both kinds write in common: identifiers, times, and removal records. */
module WireText {
  import opened Wrappers
  import opened Codec
  import opened Wire
  import opened Disclosure
  import opened Primitives
  import opened JsonGrammar
  import opened JsonText

  // ---- identifiers and times ------------------------------------------------------------

  function CharOf(b: bv8): char {
    b as char
  }

  function TextString(text: Text): (s: string)
    ensures |s| == |text|
    ensures forall i :: 0 <= i < |s| ==> s[i] == CharOf(text[i])
  {
    seq(|text|, i requires 0 <= i < |text| => CharOf(text[i]))
  }

  function HexDigits(n: nat, count: nat): (s: string)
    ensures |s| == count
  {
    if count == 0 then "" else HexDigits(n / 16, count - 1) + [HexDigit(n % 16)]
  }

  /** The low 128 bits in groups of 8, 4, 4, 4 and 12 hexadecimal digits. */
  function UuidText(sid: Uuid): string {
    var hex := HexDigits(sid, 32);
    hex[..8] + "-" + hex[8..12] + "-" + hex[12..16] + "-" + hex[16..20] + "-" + hex[20..]
  }

  predicate AreDigits(s: string) {
    forall i :: 0 <= i < |s| ==> IsDigit(s[i])
  }

  function DropDigits(s: string): string {
    if s != "" && IsDigit(s[0]) then DropDigits(s[1..]) else s
  }

  predicate IsZone(s: string) {
    s == "Z"
    || (|s| == 6 && (s[0] == '+' || s[0] == '-') && AreDigits(s[1..3]) && s[3] == ':' && AreDigits(s[4..]))
  }

  /** A date, a time of day, maybe a fraction, and a zone. */
  predicate IsTimestamp(s: string) {
    |s| >= 20 && AreDigits(s[..4]) && s[4] == '-' && AreDigits(s[5..7]) && s[7] == '-' && AreDigits(s[8..10])
    && s[10] == 'T' && AreDigits(s[11..13]) && s[13] == ':' && AreDigits(s[14..16]) && s[16] == ':'
    && AreDigits(s[17..19])
    && (IsZone(s[19..]) || (|s| > 20 && s[19] == '.' && IsDigit(s[20]) && IsZone(DropDigits(s[20..]))))
  }

  // ---- signatures and removal records -----------------------------------------------------

  /** The Ed25519 signature, whose 86 characters are left open. */
  function SignatureText(): (s: string)
    ensures |s| == 86
  {
    seq(86, _ => 'A')
  }

  function MacText(texts: Texts, mac: Key): string {
    "hmac-sha256:" + TextString(texts.encode(mac))
  }

  predicate RecordPasses(texts: Texts, record: RemovedRecipient) {
    texts.handle(record.recipientHandle) && texts.kid(record.kid).Ok? && IsTimestamp(record.removedAt)
  }

  predicate HistoryPasses(texts: Texts, history: Option<History>) {
    history.Some? ==> forall i :: 0 <= i < |history.value| ==> RecordPasses(texts, history.value[i])
  }
}

module WireTextProofs {
  import opened Wrappers
  import opened Bits
  import opened Codec
  import opened Wire
  import opened Disclosure
  import opened Primitives
  import opened JsonGrammar
  import opened JsonText
  import opened JsonTextProofs
  import opened WireText

  /** What the scan counts in the removal records and their field. */
  function HistoryCount(history: Option<History>): nat {
    match history
    case None => 0
    case Some(list) => if list == [] then 3 else 7 * |list| + 2
  }

  // ---- what needs no escape ---------------------------------------------------------------

  lemma SymbolIsPlain(b: bv8)
    requires DecodeSymbol(b, UrlSafe).Some?
    ensures ' ' <= CharOf(b) <= '~' && CharOf(b) != '\"' && CharOf(b) != '\\'
  {
  }

  lemma SpellingIsPlain(text: Text, n: nat)
    requires IsSpelling(text, n)
    ensures IsPlain(TextString(text)) && |TextString(text)| == EncodedLen(n)
  {
    forall i | 0 <= i < |text|
      ensures ' ' <= CharOf(text[i]) <= '~' && CharOf(text[i]) != '\"' && CharOf(text[i]) != '\\'
    {
      SymbolIsPlain(text[i]);
    }
  }

  lemma EncodedIsPlain(texts: Texts, data: Bytes)
    requires Faithful(texts)
    ensures IsPlain(TextString(texts.encode(data))) && |TextString(texts.encode(data))| == EncodedLen(|data|)
  {
    assert RoundTrips(texts, data);
    SpellingIsPlain(texts.encode(data), |data|);
  }

  /** A text that decodes to a fixed size has the length of that size, and no other characters. */
  lemma SizedIsPlain(texts: Texts, text: Text, size: nat)
    requires Faithful(texts) && texts.sized(text, size).Ok?
    ensures IsPlain(TextString(text)) && |TextString(text)| == EncodedLen(size)
  {
    assert IsStrict(texts, text, size);
    EncodedIsPlain(texts, texts.sized(text, size).value);
  }

  lemma HandleIsPlain(texts: Texts, id: string)
    requires Faithful(texts) && texts.handle(id)
    ensures IsPlain(id)
  {
    assert KnowsHandles(texts, id);
  }

  lemma KidIsPlain(texts: Texts, kid: string)
    requires Faithful(texts) && texts.kid(kid).Ok?
    ensures IsPlain(kid) && |kid| == 32
  {
    assert KeepsSpelling(texts, kid);
  }

  lemma {:induction false} DigitsThenPlain(s: string)
    requires IsPlain(DropDigits(s))
    ensures IsPlain(s)
  {
    if s != "" && IsDigit(s[0]) {
      DigitsThenPlain(s[1..]);
      assert s == [s[0]] + s[1..];
    }
  }

  lemma ZoneIsPlain(s: string)
    requires IsZone(s)
    ensures IsPlain(s)
  {
    if s != "Z" {
      assert s[1] == s[1..3][0] && s[2] == s[1..3][1] && s[4] == s[4..][0] && s[5] == s[4..][1];
    }
  }

  lemma PlainConcat(a: string, b: string)
    requires IsPlain(a) && IsPlain(b)
    ensures IsPlain(a + b)
  {
  }

  lemma TimestampIsPlain(s: string)
    requires IsTimestamp(s)
    ensures IsPlain(s)
  {
    if IsZone(s[19..]) {
      ZoneIsPlain(s[19..]);
    } else {
      ZoneIsPlain(DropDigits(s[20..]));
      DigitsThenPlain(s[20..]);
      assert s[19..] == [s[19]] + s[20..];
    }
    SecondsArePlain(s);
    PlainConcat(s[..19], s[19..]);
    assert s == s[..19] + s[19..];
  }

  lemma SecondsArePlain(s: string)
    requires IsTimestamp(s)
    ensures IsPlain(s[..19])
  {
    var t := s[..19];
    assert t == s[..4] + [s[4]] + s[5..7] + [s[7]] + s[8..10] + [s[10]] + s[11..13] + [s[13]] + s[14..16] + [s[16]]
             + s[17..19];
  }

  lemma {:induction false} HexIsPlain(n: nat, count: nat)
    ensures IsPlain(HexDigits(n, count))
  {
    if count > 0 {
      HexIsPlain(n / 16, count - 1);
    }
  }

  lemma UuidIsPlain(sid: Uuid)
    ensures IsPlain(UuidText(sid)) && |UuidText(sid)| == 36
  {
    HexIsPlain(sid, 32);
  }

  // ---- identifiers ------------------------------------------------------------------------

  function Power16(count: nat): nat {
    if count == 0 then 1 else 16 * Power16(count - 1)
  }

  lemma {:induction false} HexReadsBack(n: nat, count: nat)
    requires n < Power16(count)
    ensures HexNumber(HexDigits(n, count)) == n
  {
    if count > 0 {
      HexReadsBack(n / 16, count - 1);
      var digits := HexDigits(n, count);
      assert digits[..count - 1] == HexDigits(n / 16, count - 1) && digits[count - 1] == HexDigit(n % 16);
    }
  }

  /** The digits without the four dashes. */
  function Ungrouped(text: string): string
    requires |text| == 36
  {
    text[..8] + text[9..13] + text[14..18] + text[19..23] + text[24..]
  }

  lemma GroupsOf(a: string, b: string, c: string, d: string, e: string)
    requires |a| == 8 && |b| == |c| == |d| == 4 && |e| == 12
    ensures var text := a + "-" + b + "-" + c + "-" + d + "-" + e;
            |text| == 36 && text[..8] == a && text[9..13] == b && text[14..18] == c && text[19..23] == d
            && text[24..] == e
            && text[8] == text[13] == text[18] == text[23] == '-'
  {
  }

  /** A document id of 128 bits is written as its hexadecimal digits, grouped by dashes. */
  lemma UuidReadsBack(sid: Uuid)
    requires sid < Power16(32)
    ensures |UuidText(sid)| == 36 && HexNumber(Ungrouped(UuidText(sid))) == sid
    ensures UuidText(sid)[8] == UuidText(sid)[13] == UuidText(sid)[18] == UuidText(sid)[23] == '-'
  {
    var hex := HexDigits(sid, 32);
    HexReadsBack(sid, 32);
    GroupsOf(hex[..8], hex[8..12], hex[12..16], hex[16..20], hex[20..]);
    assert Ungrouped(UuidText(sid)) == hex;
  }

  // ---- times --------------------------------------------------------------------------------

  /** Section 5.6 of RFC 3339, with the digits of each part left open. */
  datatype Offset = Utc | Shifted(sign: char, hours: string, minutes: string)

  datatype Stamp = Stamp(year: string, month: string, day: string, hour: string, minute: string, second: string,
                         fraction: Option<string>, offset: Offset)

  predicate GoodOffset(offset: Offset) {
    offset.Shifted? ==> offset.sign in "+-" && |offset.hours| == |offset.minutes| == 2
                        && AreDigits(offset.hours) && AreDigits(offset.minutes)
  }

  predicate GoodStamp(t: Stamp) {
    |t.year| == 4 && |t.month| == |t.day| == |t.hour| == |t.minute| == |t.second| == 2
    && AreDigits(t.year) && AreDigits(t.month) && AreDigits(t.day)
    && AreDigits(t.hour) && AreDigits(t.minute) && AreDigits(t.second)
    && (t.fraction.Some? ==> t.fraction.value != "" && AreDigits(t.fraction.value)) && GoodOffset(t.offset)
  }

  function OffsetText(offset: Offset): string {
    match offset
    case Utc => "Z"
    case Shifted(sign, hours, minutes) => [sign] + hours + ":" + minutes
  }

  function SecondsText(t: Stamp): string {
    t.year + "-" + t.month + "-" + t.day + "T" + t.hour + ":" + t.minute + ":" + t.second
  }

  function StampText(t: Stamp): string {
    SecondsText(t) + (if t.fraction.Some? then "." + t.fraction.value else "") + OffsetText(t.offset)
  }

  lemma OffsetExactly(s: string)
    ensures IsZone(s) <==> exists offset :: GoodOffset(offset) && OffsetText(offset) == s
  {
    if s == "Z" {
      assert GoodOffset(Utc) && OffsetText(Utc) == s;
    } else if IsZone(s) {
      var offset := Shifted(s[0], s[1..3], s[4..]);
      assert GoodOffset(offset) && OffsetText(offset) == s;
    }
    if offset :| GoodOffset(offset) && OffsetText(offset) == s && offset.Shifted? {
      assert s[1..3] == offset.hours && s[4..] == offset.minutes;
    }
  }

  lemma {:induction false} DigitsDrop(digits: string, rest: string)
    requires AreDigits(digits) && (rest == "" || !IsDigit(rest[0]))
    ensures DropDigits(digits + rest) == rest
  {
    if digits == "" {
      assert digits + rest == rest;
    } else {
      assert (digits + rest)[1..] == digits[1..] + rest;
      DigitsDrop(digits[1..], rest);
    }
  }

  lemma {:induction false} DroppedDigits(s: string) returns (digits: string)
    ensures AreDigits(digits) && digits + DropDigits(s) == s && (s != "" && IsDigit(s[0]) ==> digits != "")
  {
    if s != "" && IsDigit(s[0]) {
      digits := DroppedDigits(s[1..]);
      digits := [s[0]] + digits;
    } else {
      digits := "";
    }
  }

  lemma SecondsParts(t: Stamp)
    requires GoodStamp(t)
    ensures var s := SecondsText(t);
            && |s| == 19 && s[..4] == t.year && s[4] == '-' && s[5..7] == t.month && s[7] == '-'
            && s[8..10] == t.day && s[10] == 'T' && s[11..13] == t.hour && s[13] == ':' && s[14..16] == t.minute
            && s[16] == ':' && s[17..] == t.second
  {
  }

  ghost predicate IsSeconds(s: string) {
    |s| == 19 && AreDigits(s[..4]) && s[4] == '-' && AreDigits(s[5..7]) && s[7] == '-' && AreDigits(s[8..10])
    && s[10] == 'T' && AreDigits(s[11..13]) && s[13] == ':' && AreDigits(s[14..16]) && s[16] == ':'
    && AreDigits(s[17..])
  }

  ghost predicate IsTail(s: string) {
    s != "" && (IsZone(s) || (|s| > 1 && s[0] == '.' && IsDigit(s[1]) && IsZone(DropDigits(s[1..]))))
  }

  lemma Halves(s: string, seconds: string, tail: string)
    requires |seconds| == 19 && s == seconds + tail
    ensures IsTimestamp(s) <==> IsSeconds(seconds) && IsTail(tail)
  {
    assert s[..4] == seconds[..4] && s[5..7] == seconds[5..7] && s[8..10] == seconds[8..10];
    assert s[11..13] == seconds[11..13] && s[14..16] == seconds[14..16] && s[17..19] == seconds[17..];
    assert s[19..] == tail;
    if |tail| > 1 {
      assert s[20..] == tail[1..];
    }
  }

  function TailText(t: Stamp): string {
    (if t.fraction.Some? then "." + t.fraction.value else "") + OffsetText(t.offset)
  }

  lemma StampHalves(t: Stamp)
    ensures StampText(t) == SecondsText(t) + TailText(t)
  {
  }

  lemma GoodTail(t: Stamp)
    requires GoodStamp(t)
    ensures IsTail(TailText(t))
  {
    var offset := OffsetText(t.offset);
    OffsetExactly(offset);
    if t.fraction.Some? {
      assert TailText(t)[1..] == t.fraction.value + offset;
      DigitsDrop(t.fraction.value, offset);
    } else {
      assert TailText(t) == offset;
    }
  }

  lemma TailIs(s: string) returns (fraction: Option<string>, offset: Offset)
    requires IsTail(s)
    ensures GoodOffset(offset) && (fraction.Some? ==> fraction.value != "" && AreDigits(fraction.value))
    ensures s == (if fraction.Some? then "." + fraction.value else "") + OffsetText(offset)
  {
    var zone := s;
    fraction := None;
    if !IsZone(s) {
      var digits := DroppedDigits(s[1..]);
      fraction, zone := Some(digits), DropDigits(s[1..]);
      assert s == "." + s[1..];
    }
    OffsetExactly(zone);
    offset :| GoodOffset(offset) && OffsetText(offset) == zone;
  }

  lemma SecondsAre(s: string, t: Stamp)
    requires IsSeconds(s)
    requires t.year == s[..4] && t.month == s[5..7] && t.day == s[8..10] && t.hour == s[11..13]
    requires t.minute == s[14..16] && t.second == s[17..]
    ensures SecondsText(t) == s
  {
  }

  lemma TimestampIsStamp(s: string) returns (t: Stamp)
    requires IsTimestamp(s)
    ensures GoodStamp(t) && StampText(t) == s
  {
    var seconds := s[..19];
    assert s == seconds + s[19..];
    Halves(s, seconds, s[19..]);
    var fraction, offset := TailIs(s[19..]);
    t := Stamp(seconds[..4], seconds[5..7], seconds[8..10], seconds[11..13], seconds[14..16], seconds[17..], fraction,
               offset);
    SecondsAre(seconds, t);
    StampHalves(t);
  }

  lemma StampIsTimestamp(t: Stamp)
    requires GoodStamp(t)
    ensures IsTimestamp(StampText(t))
  {
    SecondsParts(t);
    GoodTail(t);
    StampHalves(t);
    Halves(StampText(t), SecondsText(t), TailText(t));
  }

  /** The times that pass are those of this shape. */
  lemma TimestampExactly(s: string)
    ensures IsTimestamp(s) <==> exists t :: GoodStamp(t) && StampText(t) == s
  {
    if IsTimestamp(s) {
      var t := TimestampIsStamp(s);
      assert GoodStamp(t) && StampText(t) == s;
    }
    if t :| GoodStamp(t) && StampText(t) == s {
      StampIsTimestamp(t);
    }
  }
}
