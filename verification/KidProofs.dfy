/** What key ids are for: faithful digests, stable spellings, unique resolution. */
module KidProofs {
  import opened Wrappers
  import opened Kid

  // ---- the spelling is the base-32 form of the digest -------------------------

  /** A byte string read as a big-endian number. */
  function Value256(data: seq<byte>): nat {
    if data == [] then 0 else Value256(data[..|data| - 1]) * 256 + data[|data| - 1]
  }

  /** A Crockford text read as a base-32 number. */
  function Value32(text: string): nat
    requires AllCrockford(text)
  {
    if text == "" then 0 else Value32(text[..|text| - 1]) * 32 + CrockfordDigit(text[|text| - 1])
  }

  /** The first `n` bits of a byte string read as a number. */
  function ValueOfBits(data: seq<byte>, n: nat): nat
    requires n <= 8 * |data|
  {
    if n == 0 then 0 else 2 * ValueOfBits(data, n - 1) + BitAt(data, n - 1)
  }

  lemma FourBits(data: seq<byte>, n: nat)
    requires n + 4 <= 8 * |data|
    ensures ValueOfBits(data, n + 4)
         == 16 * ValueOfBits(data, n) + 8 * BitAt(data, n) + 4 * BitAt(data, n + 1) + 2 * BitAt(data, n + 2)
            + BitAt(data, n + 3)
  {
    assert ValueOfBits(data, n + 2) == 4 * ValueOfBits(data, n) + 2 * BitAt(data, n) + BitAt(data, n + 1);
  }

  lemma ShiftHalves(b: byte, n: nat)
    ensures ShiftRight(b, n) == 2 * ShiftRight(b, n + 1) + ShiftRight(b, n) % 2
  {
  }

  lemma BitsOfByte(b: byte)
    ensures b == 128 * Bit(b, 0) + 64 * Bit(b, 1) + 32 * Bit(b, 2) + 16 * Bit(b, 3)
                 + 8 * Bit(b, 4) + 4 * Bit(b, 5) + 2 * Bit(b, 6) + Bit(b, 7)
  {
    ShiftHalves(b, 0);
    ShiftHalves(b, 1);
    ShiftHalves(b, 2);
    ShiftHalves(b, 3);
    ShiftHalves(b, 4);
    ShiftHalves(b, 5);
    ShiftHalves(b, 6);
    ShiftHalves(b, 7);
  }

  function Nibble(b: byte, k: nat): nat
    requires k + 3 < 8
  {
    8 * Bit(b, k) + 4 * Bit(b, k + 1) + 2 * Bit(b, k + 2) + Bit(b, k + 3)
  }

  lemma InByte(i: nat, k: nat)
    requires k < 8
    ensures (8 * i + k) / 8 == i && (8 * i + k) % 8 == k
  {
  }

  lemma NibbleBits(data: seq<byte>, i: nat, k: nat, n: nat, end: nat)
    requires i < |data| && (k == 0 || k == 4) && n == 8 * i + k && end == n + 4
    ensures ValueOfBits(data, end) == 16 * ValueOfBits(data, n) + Nibble(data[i], k)
  {
    FourBits(data, n);
    InByte(i, k);
    InByte(i, k + 1);
    InByte(i, k + 2);
    InByte(i, k + 3);
  }

  lemma Nibbles(b: byte)
    ensures 16 * Nibble(b, 0) + Nibble(b, 4) == b
  {
    BitsOfByte(b);
  }

  lemma EightBits(data: seq<byte>, i: nat)
    requires i < |data|
    ensures ValueOfBits(data, 8 * i + 8) == 256 * ValueOfBits(data, 8 * i) + data[i]
  {
    var n := 8 * i;
    NibbleBits(data, i, 0, n, n + 4);
    NibbleBits(data, i, 4, n + 4, n + 8);
    Nibbles(data[i]);
  }

  lemma {:induction false} BytesAreBits(data: seq<byte>, k: nat)
    requires k <= |data|
    ensures ValueOfBits(data, 8 * k) == Value256(data[..k])
  {
    if k > 0 {
      BytesAreBits(data, k - 1);
      EightBits(data, k - 1);
      assert data[..k][..k - 1] == data[..k - 1];
    }
  }

  lemma FiveBits(data: seq<byte>, start: nat)
    requires start + 5 <= 8 * |data|
    ensures ValueOfBits(data, start + 5) == 32 * ValueOfBits(data, start) + Gather(data, start, 5)
  {
    FourBits(data, start);
    assert Gather(data, start, 2) == 2 * BitAt(data, start) + BitAt(data, start + 1);
    assert Gather(data, start, 4) == 4 * Gather(data, start, 2) + 2 * BitAt(data, start + 2) + BitAt(data, start + 3);
  }

  lemma TextIsCrockford(data: seq<byte>)
    ensures AllCrockford(CrockfordText(data))
    ensures forall g :: 0 <= g < |CrockfordText(data)| ==>
              CrockfordDigit(CrockfordText(data)[g]) == Gather(data, 5 * g, 5)
  {
    forall g | 0 <= g < |CrockfordText(data)|
      ensures IsCrockford(CrockfordText(data)[g])
      ensures CrockfordDigit(CrockfordText(data)[g]) == Gather(data, 5 * g, 5)
    {
      SymbolDigit(Gather(data, 5 * g, 5));
    }
  }

  ghost predicate Spells(data: seq<byte>, text: string) {
    |text| * 5 == 8 * |data| && AllCrockford(text)
    && forall g :: 0 <= g < |text| ==> CrockfordDigit(text[g]) == Gather(data, 5 * g, 5)
  }

  lemma {:induction false} GroupsAreBits(data: seq<byte>, text: string, g: nat)
    requires Spells(data, text) && g <= |text|
    ensures ValueOfBits(data, 5 * g) == Value32(text[..g])
  {
    if g > 0 {
      GroupsAreBits(data, text, g - 1);
      FiveBits(data, 5 * (g - 1));
      assert text[..g][..g - 1] == text[..g - 1];
    }
  }

  lemma SpelledValue(data: seq<byte>, text: string)
    requires Spells(data, text)
    ensures Value32(text) == Value256(data)
  {
    GroupsAreBits(data, text, |text|);
    BytesAreBits(data, |data|);
    assert data[..|data|] == data && text[..|text|] == text;
  }

  /**
   * On whole groups the bit loop writes the base-32 digits of the big-endian
   * value of its input: eight symbols for every five bytes.
   */
  lemma CrockfordIsBase32(data: seq<byte>)
    requires |data| % 5 == 0
    ensures AllCrockford(CrockfordText(data)) && |CrockfordText(data)| * 5 == |data| * 8
    ensures Value32(CrockfordText(data)) == Value256(data)
  {
    TextIsCrockford(data);
    EightForFive(|data|);
    SpelledValue(data, CrockfordText(data));
  }

  lemma Fifth(m: nat)
    ensures 5 * m / 5 == m
  {
  }

  lemma EightForFive(n: nat)
    requires n % 5 == 0
    ensures n * 8 / 5 * 5 == 8 * n
  {
    var m := n / 5;
    assert n == 5 * m;
    assert n * 8 == 5 * (8 * m);
    Fifth(8 * m);
  }

  lemma LastDigit(p: nat, x: byte, q: nat, y: byte)
    requires 256 * p + x == 256 * q + y
    ensures p == q && x == y
  {
  }

  lemma {:induction false} Value256Injective(a: seq<byte>, b: seq<byte>)
    requires |a| == |b| && Value256(a) == Value256(b)
    ensures a == b
  {
    if a != [] {
      var x, y := a[|a| - 1], b[|b| - 1];
      var p, q := a[..|a| - 1], b[..|b| - 1];
      LastDigit(Value256(p), x, Value256(q), y);
      Value256Injective(p, q);
      assert a == p + [x] && b == q + [y];
    }
  }

  /** Two inputs of one length never share a spelling. */
  lemma CrockfordInjective(a: seq<byte>, b: seq<byte>)
    requires |a| % 5 == 0 && |a| == |b| && CrockfordText(a) == CrockfordText(b)
    ensures a == b
  {
    CrockfordIsBase32(a);
    CrockfordIsBase32(b);
    Value256Injective(a, b);
  }

  /** Every 20-byte digest prefix spells an id that stored documents may carry. */
  lemma DerivedKidIsCanonical(digest: seq<byte>)
    requires |digest| == 20
    ensures FromCanonical(CrockfordText(digest)) == Ok(CrockfordText(digest))
  {
    TextIsCrockford(digest);
    CanonicalIsFixed(CrockfordText(digest));
  }

  // ---- the alphabet -------------------------------------------------------------

  /** Crockford's 32 symbols in order: no I, L, O or U. */
  const CROCKFORD: string := "0123456789" + "ABCDEFGH" + "JK" + "MN" + "PQRST" + "VWXYZ"

  ghost predicate InRow(symbols: string, first: char) {
    forall i :: 0 <= i < |symbols| ==> symbols[i] as int == first as int + i
  }

  lemma RowsAreConsecutive()
    ensures InRow("0123456789", '0') && InRow("ABCDEFGH", 'A') && InRow("JK", 'J') && InRow("MN", 'M')
    ensures InRow("PQRST", 'P') && InRow("VWXYZ", 'V') && |CROCKFORD| == 32
  {
  }

  lemma SymbolIsCrockford(index: nat)
    requires index < 32
    ensures |CROCKFORD| == 32 && CrockfordSymbol(index) == CROCKFORD[index]
  {
    RowsAreConsecutive();
    if index < 10 {
      assert CROCKFORD[index] == "0123456789"[index];
    } else if index < 18 {
      assert CROCKFORD[index] == "ABCDEFGH"[index - 10];
    } else if index < 20 {
      assert CROCKFORD[index] == "JK"[index - 18];
    } else if index < 22 {
      assert CROCKFORD[index] == "MN"[index - 20];
    } else if index < 27 {
      assert CROCKFORD[index] == "PQRST"[index - 22];
    } else {
      assert CROCKFORD[index] == "VWXYZ"[index - 27];
    }
  }

  /** A character has a digit exactly when the alphabet holds it, and the digit is its place. */
  lemma CrockfordExactly(c: char)
    ensures IsCrockford(c) <==> c in CROCKFORD
    ensures IsCrockford(c) ==> |CROCKFORD| == 32 && CROCKFORD[CrockfordDigit(c)] == c
  {
    RowsAreConsecutive();
    if IsCrockford(c) {
      SymbolIsCrockford(CrockfordDigit(c));
    }
    if c in CROCKFORD {
      var i :| 0 <= i < |CROCKFORD| && CROCKFORD[i] == c;
      SymbolIsCrockford(i);
      SymbolDigit(i);
    }
  }

  // ---- normalization ------------------------------------------------------------

  function LowerCase(t: string): (lower: string)
    ensures |lower| == |t|
  {
    seq(|t|, i requires 0 <= i < |t| =>
          if 'A' <= t[i] <= 'Z' then (t[i] as int + 32) as char else t[i])
  }

  /** A query is read the same whether its letters are upper or lower case. */
  lemma {:induction false} CaseDoesNotMatter(t: string)
    ensures StripUpper(LowerCase(t)) == StripUpper(t) && NormalizeQuery(LowerCase(t)) == NormalizeQuery(t)
  {
    if t != "" {
      CaseDoesNotMatter(t[1..]);
      assert LowerCase(t)[1..] == LowerCase(t[1..]);
    }
  }

  /** Nor do dashes matter, wherever they stand. */
  lemma DashesDoNotMatter(a: string, b: string)
    ensures NormalizeQuery(a + "-" + b) == NormalizeQuery(a + b)
  {
    StripUpperConcat(a + "-", b);
    StripUpperConcat(a, "-");
    StripUpperConcat(a, b);
    assert StripUpper("-") == "";
    assert StripUpper(a) + "" == StripUpper(a);
  }

  /** Of the other texts, 1 to 32 symbols of the alphabet are a query, kept as they are, and nothing else is. */
  lemma QueryExactly(t: string)
    requires forall i :: 0 <= i < |t| ==> t[i] != '-' && !('a' <= t[i] <= 'z')
    ensures NormalizeQuery(t)
         == if 1 <= |t| <= 32 && forall i :: 0 <= i < |t| ==> t[i] in CROCKFORD then Ok(t) else Err(InvalidArgument)
  {
    UpperIsFixed(t);
    forall i | 0 <= i < |t|
      ensures IsCrockford(t[i]) <==> t[i] in CROCKFORD
    {
      CrockfordExactly(t[i]);
    }
  }

  lemma {:induction false} UpperIsFixed(t: string)
    requires forall i :: 0 <= i < |t| ==> t[i] != '-' && !('a' <= t[i] <= 'z')
    ensures StripUpper(t) == t
  {
    if t != "" {
      UpperIsFixed(t[1..]);
    }
  }

  lemma {:induction false} StripUpperFixed(t: string)
    requires AllCrockford(t)
    ensures StripUpper(t) == t
  {
    if t != [] {
      assert IsCrockford(t[0]);
      StripUpperFixed(t[1..]);
    }
  }

  lemma CanonicalIsFixed(t: string)
    requires IsCanonical(t)
    ensures NormalizeKid(t) == Ok(t) && FromCanonical(t) == Ok(t)
  {
    StripUpperFixed(t);
  }

  /** A stored id is accepted exactly when it is canonical, and kept as it is. */
  lemma FromCanonicalExactly(value: string)
    ensures FromCanonical(value) == if IsCanonical(value) then Ok(value) else Err(NotCanonical)
  {
    if IsCanonical(value) {
      CanonicalIsFixed(value);
    }
  }

  lemma NormalizeIdempotent(input: string)
    requires NormalizeQuery(input).Ok?
    ensures NormalizeQuery(NormalizeQuery(input).value) == NormalizeQuery(input)
  {
    StripUpperFixed(NormalizeQuery(input).value);
  }

  lemma {:induction false} StripUpperConcat(a: string, b: string)
    ensures StripUpper(a + b) == StripUpper(a) + StripUpper(b)
  {
    if a == [] {
      assert a + b == b;
    } else {
      StripUpperConcat(a[1..], b);
      assert (a + b)[1..] == a[1..] + b && (a + b)[0] == a[0];
      var rest, more := StripUpper(a[1..]), StripUpper(b);
      assert [Upper(a[0])] + (rest + more) == [Upper(a[0])] + rest + more;
    }
  }

  lemma {:induction false} DashedStrips(t: string)
    ensures StripUpper(Dashed(t)) == StripUpper(t)
  {
    if |t| > DISPLAY_GROUP_SIZE {
      var head, rest := t[..DISPLAY_GROUP_SIZE], t[DISPLAY_GROUP_SIZE..];
      DashedStrips(rest);
      StripUpperConcat(head + ['-'], Dashed(rest));
      StripUpperConcat(head, ['-']);
      StripUpperConcat(head, rest);
      assert t == head + rest && head + ['-'] + Dashed(rest) == Dashed(t);
      assert StripUpper(['-']) == [];
    }
  }

  /** Reading the dashed display form back gives the id it displays. */
  lemma DisplayRoundTrip(input: string)
    requires NormalizeKid(input).Ok?
    ensures KidDisplay(input).Ok?
    ensures |KidDisplay(input).value| == 39
    ensures NormalizeKid(KidDisplay(input).value) == NormalizeKid(input)
  {
    var canonical := NormalizeKid(input).value;
    DashedStrips(canonical);
    StripUpperFixed(canonical);
    DashedLength(canonical);
  }

  lemma DashedLength(t: string)
    requires |t| > 0 && |t| % 4 == 0
    ensures |Dashed(t)| == |t| + |t| / 4 - 1
  {
    if |t| > 4 {
      DashedLength(t[4..]);
    }
  }

  // ---- resolution ------------------------------------------------------------------

  predicate MatchesAt(kids: seq<string>, i: nat, query: string) {
    i < |kids| && query <= kids[i]
  }

  lemma {:induction false} MatchesNone(kids: seq<string>, query: string)
    ensures |Matches(kids, query)| == 0 <==> forall i :: 0 <= i < |kids| ==> !MatchesAt(kids, i, query)
  {
    if kids != [] {
      MatchesNone(kids[1..], query);
      forall i | 0 <= i < |kids| - 1 ensures MatchesAt(kids[1..], i, query) <==> MatchesAt(kids, i + 1, query) {
      }
      if MatchesAt(kids, 0, query) {
      } else if forall i :: 0 <= i < |kids| - 1 ==> !MatchesAt(kids[1..], i, query) {
        forall i | 0 <= i < |kids| ensures !MatchesAt(kids, i, query) {
          assert i > 0 ==> !MatchesAt(kids[1..], i - 1, query);
        }
      }
    }
  }

  ghost predicate OnlyAt(kids: seq<string>, i: nat, query: string) {
    MatchesAt(kids, i, query) && forall j :: 0 <= j < |kids| && j != i ==> !MatchesAt(kids, j, query)
  }

  lemma {:induction false} MatchesOne(kids: seq<string>, query: string) returns (at: nat)
    requires |Matches(kids, query)| == 1
    ensures OnlyAt(kids, at, query) && Matches(kids, query)[0] == kids[at]
  {
    if query <= kids[0] {
      at := 0;
      MatchesNone(kids[1..], query);
      forall j | 0 <= j < |kids| && j != 0 ensures !MatchesAt(kids, j, query) {
        assert !MatchesAt(kids[1..], j - 1, query);
      }
    } else {
      var rest := MatchesOne(kids[1..], query);
      at := rest + 1;
      forall j | 0 <= j < |kids| && j != at ensures !MatchesAt(kids, j, query) {
        assert j > 0 ==> !MatchesAt(kids[1..], j - 1, query);
      }
    }
  }

  lemma {:induction false} OnlyMatch(kids: seq<string>, at: nat, query: string)
    requires OnlyAt(kids, at, query)
    ensures Matches(kids, query) == [kids[at]]
  {
    if at == 0 {
      forall j | 0 <= j < |kids| - 1 ensures !MatchesAt(kids[1..], j, query) {
        assert !MatchesAt(kids, j + 1, query);
      }
      MatchesNone(kids[1..], query);
    } else {
      assert !MatchesAt(kids, 0, query);
      forall j | 0 <= j < |kids| - 1 && j != at - 1 ensures !MatchesAt(kids[1..], j, query) {
        assert !MatchesAt(kids, j + 1, query);
      }
      OnlyMatch(kids[1..], at - 1, query);
    }
  }

  /**
   * Resolution succeeds exactly when one candidate position, and no other,
   * starts with the normalized query; it then returns that candidate.
   */
  lemma ResolvesExactly(candidates: seq<string>, query: string, r: string)
    ensures ResolveUniqueKid(candidates, query) == Ok(r)
       <==> NormalizeQuery(query).Ok? && NormalizeAll(candidates).Ok?
            && exists i: nat :: OnlyAt(NormalizeAll(candidates).value, i, NormalizeQuery(query).value)
                                && NormalizeAll(candidates).value[i] == r
  {
    if NormalizeQuery(query).Ok? && NormalizeAll(candidates).Ok? {
      var kids, q := NormalizeAll(candidates).value, NormalizeQuery(query).value;
      if |Matches(kids, q)| == 1 {
        var at := MatchesOne(kids, q);
      }
      forall i: nat | OnlyAt(kids, i, q) ensures Matches(kids, q) == [kids[i]] {
        OnlyMatch(kids, i, q);
      }
    }
  }

  ghost predicate StartsNone(kids: seq<string>, query: string) {
    forall i :: 0 <= i < |kids| ==> !MatchesAt(kids, i, query)
  }

  ghost predicate StartsTwo(kids: seq<string>, query: string) {
    exists i, j :: 0 <= i < j < |kids| && MatchesAt(kids, i, query) && MatchesAt(kids, j, query)
  }

  lemma MatchCount(kids: seq<string>, query: string)
    ensures |Matches(kids, query)| == 0 <==> StartsNone(kids, query)
    ensures |Matches(kids, query)| > 1 <==> StartsTwo(kids, query)
  {
    MatchesNone(kids, query);
    if |Matches(kids, query)| == 1 {
      var at := MatchesOne(kids, query);
    }
    if |Matches(kids, query)| > 1 {
      MatchesTwo(kids, query);
    }
  }

  /**
   * Where nothing resolves: no candidate starts with the query, or more than one
   * does; a query or candidate that is no key id is refused before.
   */
  lemma ResolutionErrors(candidates: seq<string>, query: string)
    ensures NormalizeQuery(query).Err? || NormalizeAll(candidates).Err? ==>
              ResolveUniqueKid(candidates, query) == Err(InvalidArgument)
    ensures NormalizeQuery(query).Ok? && NormalizeAll(candidates).Ok? ==>
              var kids, q := NormalizeAll(candidates).value, NormalizeQuery(query).value;
              (ResolveUniqueKid(candidates, query) == Err(NotFound) <==> StartsNone(kids, q))
              && (ResolveUniqueKid(candidates, query) == Err(Ambiguous) <==> StartsTwo(kids, q))
  {
    NormalizeAllErrors(candidates);
    if NormalizeQuery(query).Ok? && NormalizeAll(candidates).Ok? {
      MatchCount(NormalizeAll(candidates).value, NormalizeQuery(query).value);
    }
  }

  lemma {:induction false} NormalizeAllErrors(candidates: seq<string>)
    ensures NormalizeAll(candidates).Err? ==> NormalizeAll(candidates).error == InvalidArgument
  {
    if candidates != [] {
      NormalizeAllErrors(candidates[1..]);
    }
  }

  lemma {:induction false} MatchesTwo(kids: seq<string>, query: string)
    requires |Matches(kids, query)| > 1
    ensures exists i, j :: 0 <= i < j < |kids| && MatchesAt(kids, i, query) && MatchesAt(kids, j, query)
  {
    var rest := kids[1..];
    if query <= kids[0] {
      MatchesNone(rest, query);
      var j :| 0 <= j < |rest| && MatchesAt(rest, j, query);
      assert MatchesAt(kids, 0, query) && MatchesAt(kids, j + 1, query);
    } else {
      MatchesTwo(rest, query);
      var i, j :| 0 <= i < j < |rest| && MatchesAt(rest, i, query) && MatchesAt(rest, j, query);
      assert MatchesAt(kids, i + 1, query) && MatchesAt(kids, j + 1, query);
    }
  }

  lemma {:induction false} CanonicalAll(candidates: seq<string>)
    requires forall c :: c in candidates ==> IsCanonical(c)
    ensures NormalizeAll(candidates) == Ok(candidates)
  {
    if candidates != [] {
      CanonicalIsFixed(candidates[0]);
      CanonicalAll(candidates[1..]);
      assert candidates == [candidates[0]] + candidates[1..];
    }
  }

  /** Among distinct canonical ids, each full id resolves to itself. */
  lemma FullKidResolves(candidates: seq<string>, i: nat)
    requires forall c :: c in candidates ==> IsCanonical(c)
    requires forall a, b :: 0 <= a < b < |candidates| ==> candidates[a] != candidates[b]
    requires i < |candidates|
    ensures ResolveUniqueKid(candidates, candidates[i]) == Ok(candidates[i])
  {
    CanonicalAll(candidates);
    CanonicalIsFixed(candidates[i]);
    assert OnlyAt(candidates, i, candidates[i]) by {
      forall j | 0 <= j < |candidates| && j != i ensures !MatchesAt(candidates, j, candidates[i]) {
        assert IsCanonical(candidates[j]);
      }
    }
    OnlyMatch(candidates, i, candidates[i]);
  }

  /** Typing more of an id that already resolved does not change the answer. */
  lemma LongerPrefixResolves(candidates: seq<string>, query: string, longer: string)
    requires ResolveUniqueKid(candidates, query).Ok? && NormalizeQuery(longer).Ok?
    requires NormalizeQuery(query).value <= NormalizeQuery(longer).value
    requires NormalizeQuery(longer).value <= ResolveUniqueKid(candidates, query).value
    ensures ResolveUniqueKid(candidates, longer) == ResolveUniqueKid(candidates, query)
  {
    var kids, q, l := NormalizeAll(candidates).value, NormalizeQuery(query).value, NormalizeQuery(longer).value;
    var at := MatchesOne(kids, q);
    assert OnlyAt(kids, at, l) by {
      forall j | 0 <= j < |kids| && j != at ensures !MatchesAt(kids, j, l) {
        assert !MatchesAt(kids, j, q);
      }
    }
    OnlyMatch(kids, at, l);
  }
}
