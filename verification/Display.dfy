/**
 * Making a string safe to show: control and invisible characters are spelled
 * out, and what is too long is cut on a character boundary. A `char` is a
 * Unicode scalar value; lengths are in bytes of UTF-8.
 */
module Display {

  const MIN_MAX_LEN: nat := 8
  const TRUNCATION_MARK: char := '\U{2026}'

  function Utf8Len(c: char): nat {
    if c as int < 0x80 then 1 else if c as int < 0x800 then 2 else if c as int < 0x1_0000 then 3 else 4
  }

  function ByteLen(s: string): nat {
    if s == "" then 0 else ByteLen(s[..|s| - 1]) + Utf8Len(s[|s| - 1])
  }

  /** The Cc block. */
  predicate IsControl(c: char) {
    c as int <= 0x1F || 0x7F <= c as int <= 0x9F
  }

  datatype Range = Range(first: int, last: int)

  const HIDDEN: seq<Range> :=
    [ Range(0x00AD, 0x00AD), Range(0x061C, 0x061C), Range(0x180E, 0x180E), Range(0x200B, 0x200F),
      Range(0x2028, 0x2029), Range(0x202A, 0x202E), Range(0x2060, 0x2064), Range(0x2066, 0x206F),
      Range(0xFEFF, 0xFEFF), Range(0xFFF9, 0xFFFB), Range(0x1_D173, 0x1_D17A), Range(0xE_0000, 0xE_007F) ]

  predicate InAny(c: char, ranges: seq<Range>) {
    ranges != [] && (InAny(c, ranges[..|ranges| - 1])
                     || ranges[|ranges| - 1].first <= c as int <= ranges[|ranges| - 1].last)
  }

  /** Characters that reorder the text around them, render as nothing, or break the line. */
  predicate ReordersOrHidesText(c: char) {
    InAny(c, HIDDEN)
  }

  predicate NeedsPlaceholder(c: char) {
    IsControl(c) || ReordersOrHidesText(c)
  }

  function EscapedLen(c: char): nat {
    if c == '\n' || c == '\r' || c == '\t' then 2 else if NeedsPlaceholder(c) then 1 else Utf8Len(c)
  }

  function Escaped(c: char): string {
    if c == '\n' then "\\n"
    else if c == '\r' then "\\r"
    else if c == '\t' then "\\t"
    else if NeedsPlaceholder(c) then "?"
    else [c]
  }

  function EscapedAll(value: string): string {
    if value == "" then "" else EscapedAll(value[..|value| - 1]) + Escaped(value[|value| - 1])
  }

  method PushEscaped(out: string, c: char) returns (longer: string)
    ensures longer == out + Escaped(c)
  {
    if c == '\n' {
      longer := out + "\\n";
    } else if c == '\r' {
      longer := out + "\\r";
    } else if c == '\t' {
      longer := out + "\\t";
    } else if NeedsPlaceholder(c) {
      longer := out + "?";
    } else {
      longer := out + [c];
    }
  }

  /** Bytes the first `n` characters take once escaped. */
  function Bytes(value: string, n: nat): nat
    requires n <= |value|
  {
    if n == 0 then 0 else Bytes(value, n - 1) + EscapedLen(value[n - 1])
  }

  /** The most characters, up to `n`, that fit in `budget` bytes once escaped. */
  function Fitting(value: string, n: nat, budget: nat): (fits: nat)
    requires n <= |value|
    ensures fits <= n && Bytes(value, fits) <= budget
    ensures fits < n ==> Bytes(value, fits + 1) > budget
  {
    if Bytes(value, n) <= budget then n else Fitting(value, n - 1, budget)
  }

  function Limit(maxLen: nat): nat {
    if maxLen < MIN_MAX_LEN then MIN_MAX_LEN else maxLen
  }

  function MarkLen(): nat {
    Utf8Len(TRUNCATION_MARK)
  }

  /** The whole escape if it fits, or the longest one that leaves room for the mark. */
  function Sanitized(value: string, maxLen: nat): string {
    var limit := Limit(maxLen);
    if Bytes(value, |value|) <= limit then EscapedAll(value)
    else EscapedAll(value[..Fitting(value, |value|, limit - MarkLen())]) + [TRUNCATION_MARK]
  }

  lemma {:induction false} InAnyIs(c: char, ranges: seq<Range>)
    ensures InAny(c, ranges) <==> exists i :: 0 <= i < |ranges| && ranges[i].first <= c as int <= ranges[i].last
  {
    if ranges == [] {
    } else {
      InAnyIs(c, ranges[..|ranges| - 1]);
    }
  }

  lemma AsciiAndMarkShow(c: char)
    requires 0x20 <= c as int < 0x7F || c == TRUNCATION_MARK
    ensures !NeedsPlaceholder(c)
  {
    InAnyIs(c, HIDDEN);
  }

  // ---- lengths --------------------------------------------------------------------

  lemma {:induction false} ByteLenConcat(a: string, b: string)
    ensures ByteLen(a + b) == ByteLen(a) + ByteLen(b)
  {
    if b == "" {
      assert a + b == a;
    } else {
      assert (a + b)[..|a + b| - 1] == a + b[..|b| - 1];
      ByteLenConcat(a, b[..|b| - 1]);
    }
  }

  /** The length is computed without building the escape. */
  lemma EscapedLenIsByteLen(c: char)
    ensures ByteLen(Escaped(c)) == EscapedLen(c)
  {
    assert Escaped(c)[..|Escaped(c)| - 1] + [Escaped(c)[|Escaped(c)| - 1]] == Escaped(c);
    if |Escaped(c)| == 2 {
      assert Escaped(c)[..1][..0] == "" && ByteLen("") == 0;
      assert ByteLen(Escaped(c)[..1]) == 1;
    } else {
      assert Escaped(c)[..0] == "";
    }
  }

  lemma EscapedAllGrows(value: string, n: nat)
    requires n < |value|
    ensures EscapedAll(value[..n + 1]) == EscapedAll(value[..n]) + Escaped(value[n])
  {
    assert value[..n + 1][..n] == value[..n];
  }

  lemma EscapedBytesGrow(value: string, n: nat)
    requires n < |value|
    ensures ByteLen(EscapedAll(value[..n + 1])) == ByteLen(EscapedAll(value[..n])) + EscapedLen(value[n])
  {
    EscapedAllGrows(value, n);
    ByteLenConcat(EscapedAll(value[..n]), Escaped(value[n]));
    EscapedLenIsByteLen(value[n]);
  }

  lemma {:induction false} BytesIs(value: string, n: nat)
    requires n <= |value|
    ensures ByteLen(EscapedAll(value[..n])) == Bytes(value, n)
  {
    if n == 0 {
      assert value[..n] == "" && EscapedAll("") == "";
    } else {
      var m: nat := n - 1;
      BytesIs(value, m);
      EscapedBytesGrow(value, m);
      assert value[..m + 1] == value[..n];
    }
  }

  lemma EscapedBytes(value: string)
    ensures ByteLen(EscapedAll(value)) == Bytes(value, |value|)
  {
    BytesIs(value, |value|);
    assert value[..|value|] == value;
  }

  lemma {:induction false} LongerIsLonger(value: string, n: nat, m: nat)
    requires n <= m <= |value|
    ensures Bytes(value, n) + (m - n) <= Bytes(value, m)
    decreases m - n
  {
    if n < m {
      LongerIsLonger(value, n, m - 1);
    }
  }

  lemma {:induction false} PrefixOfEscape(value: string, n: nat, m: nat)
    requires n <= m <= |value|
    ensures EscapedAll(value[..n]) <= EscapedAll(value[..m])
    decreases m - n
  {
    if n < m {
      PrefixOfEscape(value, n, m - 1);
      EscapedAllGrows(value, m - 1);
    }
  }

  lemma FittingIs(value: string, n: nat, budget: nat, fits: nat)
    requires fits < n <= |value| && Bytes(value, fits) <= budget < Bytes(value, fits + 1)
    ensures Fitting(value, n, budget) == fits
  {
    var f := Fitting(value, n, budget);
    if f > fits {
      LongerIsLonger(value, fits + 1, f);
    } else if f < fits {
      LongerIsLonger(value, f + 1, fits);
    }
  }

  // ---- the loop --------------------------------------------------------------------

  /** The string cut back to `n` bytes, which must fall between two characters. */
  method Truncate(s: string, n: nat, ghost kept: string) returns (t: string)
    requires kept <= s && ByteLen(kept) == n
    ensures t == kept
  {
    t := s;
    assert s[..|s|] == s;
    while ByteLen(t) > n
      invariant |kept| <= |t| <= |s| && t == s[..|t|]
      decreases |t|
    {
      t := t[..|t| - 1];
    }
    assert kept == s[..|kept|];
    StrictlyShorter(s, |kept|, |t|);
  }

  lemma {:induction false} StrictlyShorter(s: string, n: nat, m: nat)
    requires n <= m <= |s|
    ensures ByteLen(s[..n]) + (m - n) <= ByteLen(s[..m])
    decreases m - n
  {
    if n < m {
      StrictlyShorter(s, n, m - 1);
      assert s[..m][..m - 1] == s[..m - 1];
    }
  }

  lemma CutIsSanitized(value: string, maxLen: nat, fits: nat, i: nat)
    requires fits <= i < |value| && Bytes(value, i + 1) > Limit(maxLen)
    requires Bytes(value, fits) <= Limit(maxLen) - MarkLen() < Bytes(value, fits + 1)
    ensures Sanitized(value, maxLen) == EscapedAll(value[..fits]) + [TRUNCATION_MARK]
  {
    LongerIsLonger(value, i + 1, |value|);
    FittingIs(value, |value|, Limit(maxLen) - MarkLen(), fits);
  }

  lemma WholeIsSanitized(value: string, maxLen: nat)
    requires Bytes(value, |value|) <= Limit(maxLen)
    ensures Sanitized(value, maxLen) == EscapedAll(value[..|value|])
  {
    assert value[..|value|] == value;
  }

  lemma CutIsPrefix(value: string, fits: nat, i: nat)
    requires fits <= i < |value|
    ensures ByteLen(EscapedAll(value[..fits])) == Bytes(value, fits)
    ensures EscapedAll(value[..fits]) <= EscapedAll(value[..i])
  {
    PrefixOfEscape(value, fits, i);
    BytesIs(value, fits);
  }

  lemma Cut(value: string, maxLen: nat, fits: nat, i: nat)
    requires i < |value| && Bytes(value, i + 1) > Limit(maxLen) && MarkFits(value, i, Limit(maxLen) - MarkLen(), fits)
    ensures ByteLen(EscapedAll(value[..fits])) == Bytes(value, fits)
    ensures EscapedAll(value[..fits]) <= EscapedAll(value[..i])
    ensures Sanitized(value, maxLen) == EscapedAll(value[..fits]) + [TRUNCATION_MARK]
  {
    LongerIsLonger(value, i, i + 1);
    CutIsPrefix(value, fits, i);
    CutIsSanitized(value, maxLen, fits, i);
  }

  /** `fits` characters are the most of the first `i` that leave `room` for the mark. */
  ghost predicate MarkFits(value: string, i: nat, room: nat, fits: nat) {
    fits <= i <= |value| && Bytes(value, fits) <= room && (fits < i ==> Bytes(value, fits + 1) > room)
  }

  lemma MarkStillFits(value: string, i: nat, room: nat, fits: nat)
    requires i < |value| && MarkFits(value, i, room, fits)
    ensures MarkFits(value, i + 1, room, if Bytes(value, i + 1) <= room then i + 1 else fits)
  {
    if fits < i {
      LongerIsLonger(value, fits + 1, i + 1);
    }
  }

  method PushNext(out: string, value: string, i: nat) returns (longer: string)
    requires i < |value| && out == EscapedAll(value[..i])
    ensures longer == EscapedAll(value[..i + 1]) && ByteLen(longer) == Bytes(value, i + 1)
  {
    longer := PushEscaped(out, value[i]);
    EscapedAllGrows(value, i);
    BytesIs(value, i + 1);
  }

  method SanitizeDisplayFieldWithLimit(value: string, maxLen: nat) returns (out: string)
    ensures out == Sanitized(value, maxLen)
  {
    var limit := Limit(maxLen);
    out := "";
    var markFitsAt := 0;
    ghost var fits := 0;
    for i := 0 to |value|
      invariant out == EscapedAll(value[..i]) && ByteLen(out) == Bytes(value, i) <= limit
      invariant MarkFits(value, i, limit - MarkLen(), fits) && markFitsAt == Bytes(value, fits)
    {
      if ByteLen(out) + EscapedLen(value[i]) > limit {
        Cut(value, maxLen, fits, i);
        out := Truncate(out, markFitsAt, EscapedAll(value[..fits]));
        out := out + [TRUNCATION_MARK];
        return;
      }
      out := PushNext(out, value, i);
      MarkStillFits(value, i, limit - MarkLen(), fits);
      if ByteLen(out) + MarkLen() <= limit {
        markFitsAt := ByteLen(out);
        fits := i + 1;
      }
    }
    WholeIsSanitized(value, maxLen);
  }

  // ---- what a reader is promised -------------------------------------------------

  ghost predicate Showable(s: string) {
    forall i :: 0 <= i < |s| ==> !NeedsPlaceholder(s[i])
  }

  lemma EscapeIsShowable(c: char)
    ensures Showable(Escaped(c))
  {
    AsciiAndMarkShow('\\');
    AsciiAndMarkShow('n');
    AsciiAndMarkShow('r');
    AsciiAndMarkShow('t');
    AsciiAndMarkShow('?');
  }

  lemma {:induction false} EscapesAreShowable(value: string)
    ensures Showable(EscapedAll(value))
  {
    if value == "" {
    } else {
      EscapesAreShowable(value[..|value| - 1]);
      EscapeIsShowable(value[|value| - 1]);
    }
  }

  lemma {:induction false} ShowableIsItsEscape(value: string)
    requires Showable(value)
    ensures EscapedAll(value) == value
  {
    if value == "" {
    } else {
      ShowableIsItsEscape(value[..|value| - 1]);
      assert !NeedsPlaceholder(value[|value| - 1]);
    }
  }

  lemma MarkEnds(s: string)
    ensures ByteLen(s + [TRUNCATION_MARK]) == ByteLen(s) + 3
  {
    assert (s + [TRUNCATION_MARK])[..|s|] == s;
  }

  /** Within the bound, the mark included, and nothing that moves or hides text. */
  lemma OutputIsBoundedAndShowable(value: string, maxLen: nat)
    ensures ByteLen(Sanitized(value, maxLen)) <= if maxLen < 8 then 8 else maxLen
    ensures Showable(Sanitized(value, maxLen))
  {
    if Bytes(value, |value|) <= Limit(maxLen) {
      EscapedBytes(value);
      EscapesAreShowable(value);
    } else {
      var fits := Fitting(value, |value|, Limit(maxLen) - MarkLen());
      BytesIs(value, fits);
      CutIsShowable(value[..fits]);
    }
  }

  lemma CutIsShowable(kept: string)
    ensures Showable(EscapedAll(kept) + [TRUNCATION_MARK])
    ensures ByteLen(EscapedAll(kept) + [TRUNCATION_MARK]) == ByteLen(EscapedAll(kept)) + 3
  {
    EscapesAreShowable(kept);
    MarkEnds(EscapedAll(kept));
    AsciiAndMarkShow(TRUNCATION_MARK);
  }

  /**
   * Nothing is dropped exactly when the whole escape fits. Otherwise the output
   * is the escape of a prefix, whole characters only, and the mark; and one more
   * character would leave no room for the mark.
   */
  lemma TruncatedOnlyWhenNeeded(value: string, maxLen: nat)
    ensures Sanitized(value, maxLen) == EscapedAll(value) <==> ByteLen(EscapedAll(value)) <= Limit(maxLen)
    ensures ByteLen(EscapedAll(value)) > Limit(maxLen) ==>
              exists n :: 0 <= n < |value| && Sanitized(value, maxLen) == EscapedAll(value[..n]) + "\U{2026}"
                          && ByteLen(EscapedAll(value[..n + 1])) + 3 > Limit(maxLen)
  {
    OutputIsBoundedAndShowable(value, maxLen);
    EscapedBytes(value);
    if Bytes(value, |value|) > Limit(maxLen) {
      var n := Fitting(value, |value|, Limit(maxLen) - MarkLen());
      BytesIs(value, n + 1);
      assert Sanitized(value, maxLen) == EscapedAll(value[..n]) + "\U{2026}";
    }
  }

  lemma SanitizingTwiceIsOnce(value: string, maxLen: nat)
    ensures Sanitized(Sanitized(value, maxLen), maxLen) == Sanitized(value, maxLen)
  {
    OutputIsBoundedAndShowable(value, maxLen);
    ShowableIsItsEscape(Sanitized(value, maxLen));
    EscapedBytes(Sanitized(value, maxLen));
  }

  // ---- bytes of UTF-8 ---------------------------------------------------------------

  /** Section 3 of RFC 3629: how many bits a sequence of `n` bytes carries. */
  function PayloadBits(n: nat): nat
    requires 1 <= n <= 4
  {
    match n case 1 => 7 case 2 => 5 + 6 case 3 => 4 + 6 + 6 case 4 => 3 + 6 + 6 + 6
  }

  function Power2(n: nat): nat {
    if n == 0 then 1 else 2 * Power2(n - 1)
  }

  lemma PowersOf2()
    ensures Power2(7) == 0x80 && Power2(11) == 0x800 && Power2(16) == 0x1_0000 && Power2(21) == 0x20_0000
  {
    assert Power2(4) == 16;
    assert Power2(7) == 0x80;
    assert Power2(11) == 0x800;
    assert Power2(16) == 0x1_0000;
    assert Power2(21) == 0x20_0000;
  }

  /** A character takes the shortest sequence that carries it. */
  lemma ShortestSequence(c: char)
    ensures 1 <= Utf8Len(c) <= 4 && c as int < Power2(PayloadBits(Utf8Len(c)))
    ensures Utf8Len(c) > 1 ==> c as int >= Power2(PayloadBits(Utf8Len(c) - 1))
  {
    PowersOf2();
  }

  // ---- what an escape means --------------------------------------------------------

  /** A reader of the escapes: a backslash and a letter stand for one control character. */
  function Unescaped(s: string): string {
    if s == "" then ""
    else if |s| > 1 && s[0] == '\\' then
      match s[1]
      case 'n' => "\n" + Unescaped(s[2..])
      case 'r' => "\r" + Unescaped(s[2..])
      case 't' => "\t" + Unescaped(s[2..])
      case _ => [s[0]] + Unescaped(s[1..])
    else [s[0]] + Unescaped(s[1..])
  }

  /** The three control characters that have a spelling of their own. */
  predicate IsSpelledOut(c: char) {
    c == '\n' || c == '\r' || c == '\t'
  }

  predicate IsReadable(c: char) {
    c != '\\' && (NeedsPlaceholder(c) ==> IsSpelledOut(c))
  }

  lemma EscapeReadsBack(c: char, rest: string)
    requires IsReadable(c)
    ensures Unescaped(Escaped(c) + rest) == [c] + Unescaped(rest)
  {
    var text := Escaped(c) + rest;
    assert text[|Escaped(c)|..] == rest;
    AsciiAndMarkShow('\\');
  }

  lemma Associates(a: string, b: string, c: string)
    ensures a + b + c == a + (b + c)
  {
  }

  lemma {:induction false} EscapedFromFront(c: char, value: string)
    ensures EscapedAll([c] + value) == Escaped(c) + EscapedAll(value)
  {
    var all := [c] + value;
    if value == "" {
      assert all[..0] == "" && EscapedAll("") == "";
    } else {
      var init, last := value[..|value| - 1], value[|value| - 1];
      EscapedFromFront(c, init);
      assert all[..|all| - 1] == [c] + init && all[|all| - 1] == last;
      Associates(Escaped(c), EscapedAll(init), Escaped(last));
    }
  }

  /** Text without backslashes and without characters that are replaced can be read back from its escape. */
  lemma {:induction false} EscapesReadBack(value: string)
    requires forall i :: 0 <= i < |value| ==> IsReadable(value[i])
    ensures Unescaped(EscapedAll(value)) == value
  {
    if value != "" {
      EscapesReadBack(value[1..]);
      assert value == [value[0]] + value[1..];
      EscapedFromFront(value[0], value[1..]);
      EscapeReadsBack(value[0], EscapedAll(value[1..]));
    }
  }

  /** All the others are shown as one question mark. */
  lemma ReplacedByQuestionMark(c: char)
    requires NeedsPlaceholder(c) && !IsSpelledOut(c)
    ensures Escaped(c) == "?"
  {
  }

  // ---- which characters those are ---------------------------------------------------

  /** The Bidi_Control characters of Unicode Standard Annex 9: marks, embeddings, overrides and isolates. */
  const BIDI_CONTROLS: string := "\U{061C}\U{200E}\U{200F}\U{202A}\U{202B}\U{202C}\U{202D}\U{202E}"
                                 + "\U{2066}\U{2067}\U{2068}\U{2069}"
  /** Spaces and joiners of no width, the soft hyphen, and the byte order mark. */
  const INVISIBLES: string := "\U{00AD}\U{180E}\U{200B}\U{200C}\U{200D}\U{2060}\U{FEFF}"
  const LINE_BREAKS: string := "\U{000A}\U{000B}\U{000C}\U{000D}\U{0085}\U{2028}\U{2029}"

  lemma Hides(c: char, i: nat)
    requires i < |HIDDEN| && HIDDEN[i].first <= c as int <= HIDDEN[i].last
    ensures NeedsPlaceholder(c)
  {
    InAnyIs(c, HIDDEN);
  }

  /** Nothing that changes the direction of text, shows as nothing or ends a line is shown as it is. */
  lemma HiddenAreReplaced(c: char)
    requires c in BIDI_CONTROLS || c in INVISIBLES || c in LINE_BREAKS
    ensures NeedsPlaceholder(c)
  {
    InAnyIs(c, HIDDEN);
    match c
    case '\U{00AD}' => Hides(c, 0);
    case '\U{061C}' => Hides(c, 1);
    case '\U{180E}' => Hides(c, 2);
    case '\U{FEFF}' => Hides(c, 8);
    case _ =>
      if 0x200B <= c as int <= 0x200F {
        Hides(c, 3);
      } else if 0x2028 <= c as int <= 0x2029 {
        Hides(c, 4);
      } else if 0x202A <= c as int <= 0x202E {
        Hides(c, 5);
      } else if c == '\U{2060}' {
        Hides(c, 6);
      } else if 0x2066 <= c as int <= 0x2069 {
        Hides(c, 7);
      }
  }

  /** The characters that are not shown as themselves: the two blocks of controls, then the others. */
  lemma HiddenExactly(c: char)
    ensures var n := c as int;
            NeedsPlaceholder(c)
            <==> n < 0x20 || 0x7F <= n < 0xA0 || n == 0xAD || n == 0x61C || n == 0x180E || 0x200B <= n <= 0x200F || 0x2028 <= n <= 0x202E
                 || 0x2060 <= n <= 0x2064 || 0x2066 <= n <= 0x206F || n == 0xFEFF || 0xFFF9 <= n <= 0xFFFB
                 || 0x1_D173 <= n <= 0x1_D17A || 0xE_0000 <= n <= 0xE_007F
  {
    InAnyIs(c, HIDDEN);
    assert HIDDEN[0].first == 0xAD && HIDDEN[1].first == 0x61C && HIDDEN[2].first == 0x180E;
    assert HIDDEN[3].first == 0x200B && HIDDEN[4].first == 0x2028 && HIDDEN[5].first == 0x202A;
    assert HIDDEN[6].first == 0x2060 && HIDDEN[7].first == 0x2066 && HIDDEN[8].first == 0xFEFF;
    assert HIDDEN[9].first == 0xFFF9 && HIDDEN[10].first == 0x1_D173 && HIDDEN[11].first == 0xE_0000;
  }

  /** And every other character outside the listed blocks is. */
  lemma LettersAreShown(c: char)
    requires 0x20 <= c as int <= 0x7E || (0xA0 <= c as int <= 0x5FF && c != '\U{00AD}') || 0x3000 <= c as int <= 0xFEFE
    ensures Escaped(c) == [c]
  {
    InAnyIs(c, HIDDEN);
  }
}
