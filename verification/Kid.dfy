/**
 * Key ids: the Crockford Base32 spelling of a digest, its dashed display form,
 * and the resolution of what a user typed against the ids at hand.
 */
module Kid {
  import opened Wrappers

  type byte = b: int | 0 <= b < 256

  const KID_LENGTH: nat := 32
  const DISPLAY_GROUP_SIZE: nat := 4

  datatype KidError = InvalidArgument | NotFound | Ambiguous | NotCanonical

  // ---- derivation ----------------------------------------------------------

  /** Entry `index` of the alphabet: 0-9 and A-Z without I, L, O and U. */
  function CrockfordSymbol(index: nat): char
    requires index < 32
  {
    if index < 10 then ('0' as int + index) as char
    else if index < 18 then ('A' as int + index - 10) as char
    else if index < 20 then ('J' as int + index - 18) as char
    else if index < 22 then ('M' as int + index - 20) as char
    else if index < 27 then ('P' as int + index - 22) as char
    else ('V' as int + index - 27) as char
  }

  predicate IsCrockford(c: char) {
    '0' <= c <= '9' || 'A' <= c <= 'H' || 'J' <= c <= 'K' || 'M' <= c <= 'N' || 'P' <= c <= 'T' || 'V' <= c <= 'Z'
  }

  /** The number a symbol of the alphabet stands for. */
  function CrockfordDigit(c: char): (d: nat)
    requires IsCrockford(c)
    ensures d < 32 && CrockfordSymbol(d) == c
  {
    if c <= '9' then c as int - '0' as int
    else if c <= 'H' then c as int - 'A' as int + 10
    else if c <= 'K' then c as int - 'J' as int + 18
    else if c <= 'N' then c as int - 'M' as int + 20
    else if c <= 'T' then c as int - 'P' as int + 22
    else c as int - 'V' as int + 27
  }

  lemma SymbolDigit(index: nat)
    requires index < 32
    ensures IsCrockford(CrockfordSymbol(index)) && CrockfordDigit(CrockfordSymbol(index)) == index
  {
  }

  function ShiftRight(b: byte, n: nat): byte {
    if n == 0 then b else ShiftRight(b, n - 1) / 2
  }

  /** `(b >> (7 - k)) & 1`: bit `k` of a byte, the most significant one first. */
  function Bit(b: byte, k: nat): nat
    requires k < 8
  {
    ShiftRight(b, 7 - k) % 2
  }

  function BitAt(data: seq<byte>, i: nat): nat
    requires i < 8 * |data|
  {
    Bit(data[i / 8], i % 8)
  }

  /** `n` consecutive bits read as a number, most significant first. */
  function Gather(data: seq<byte>, start: nat, n: nat): (v: nat)
    requires n <= 5 && start + n <= 8 * |data|
    ensures v < match n case 0 => 1 case 1 => 2 case 2 => 4 case 3 => 8 case 4 => 16 case _ => 32
  {
    if n == 0 then 0 else 2 * Gather(data, start, n - 1) + BitAt(data, start + n - 1)
  }

  function CrockfordText(data: seq<byte>): string {
    seq(|data| * 8 / 5, g requires 0 <= g < |data| * 8 / 5 => CrockfordSymbol(Gather(data, 5 * g, 5)))
  }

  /** Five bits at a time, shifted into one value and looked up. */
  method EncodeCrockford(data: seq<byte>) returns (output: string)
    ensures output == CrockfordText(data)
  {
    var totalGroups := |data| * 8 / 5;
    output := "";
    for group := 0 to totalGroups
      invariant output == CrockfordText(data)[..group]
    {
      var value: nat := 0;
      var bitStart := group * 5;
      for offset := 0 to 5
        invariant value == Gather(data, bitStart, offset)
      {
        var bitIndex := bitStart + offset;
        var bit := Bit(data[bitIndex / 8], bitIndex % 8);
        value := 2 * value + bit;
      }
      output := output + [CrockfordSymbol(value)];
    }
  }

  // ---- normalization ---------------------------------------------------------

  function Upper(c: char): char {
    if 'a' <= c <= 'z' then (c as int - 'a' as int + 'A' as int) as char else c
  }

  function StripUpper(input: string): string {
    if input == "" then ""
    else if input[0] == '-' then StripUpper(input[1..])
    else [Upper(input[0])] + StripUpper(input[1..])
  }

  predicate AllCrockford(t: string) {
    forall i :: 0 <= i < |t| ==> IsCrockford(t[i])
  }

  /** Accepts a canonical id, its dashed form, or any non-empty prefix of either. */
  function NormalizeQuery(input: string): Result<string, KidError> {
    var query := StripUpper(input);
    if query == "" || |query| > KID_LENGTH then Err(InvalidArgument)
    else if !AllCrockford(query) then Err(InvalidArgument)
    else Ok(query)
  }

  function NormalizeKid(input: string): Result<string, KidError> {
    var canonical :- NormalizeQuery(input);
    if |canonical| != KID_LENGTH then Err(InvalidArgument) else Ok(canonical)
  }

  /** What a stored document may carry: the canonical bytes and no other spelling. */
  function FromCanonical(value: string): Result<string, KidError> {
    match NormalizeKid(value)
    case Err(_) => Err(NotCanonical)
    case Ok(canonical) => if canonical != value then Err(NotCanonical) else Ok(canonical)
  }

  predicate IsCanonical(t: string) {
    |t| == KID_LENGTH && AllCrockford(t)
  }

  // ---- display ---------------------------------------------------------------

  /** Groups of four, joined by dashes. */
  function Dashed(t: string): string {
    if |t| <= DISPLAY_GROUP_SIZE then t
    else t[..DISPLAY_GROUP_SIZE] + ['-'] + Dashed(t[DISPLAY_GROUP_SIZE..])
  }

  function KidDisplay(input: string): Result<string, KidError> {
    var canonical :- NormalizeKid(input);
    Ok(Dashed(canonical))
  }

  lemma DashedAppend(t: string, n: nat)
    requires 0 < n && n + DISPLAY_GROUP_SIZE <= |t| && n % DISPLAY_GROUP_SIZE == 0
    ensures Dashed(t[..n + DISPLAY_GROUP_SIZE]) == Dashed(t[..n]) + ['-'] + t[n..n + DISPLAY_GROUP_SIZE]
  {
    if n == DISPLAY_GROUP_SIZE {
      assert t[..n + DISPLAY_GROUP_SIZE][DISPLAY_GROUP_SIZE..] == t[n..n + DISPLAY_GROUP_SIZE];
      assert t[..n + DISPLAY_GROUP_SIZE][..DISPLAY_GROUP_SIZE] == t[..n];
    } else {
      var rest := t[DISPLAY_GROUP_SIZE..];
      var m := n - DISPLAY_GROUP_SIZE;
      DashedAppend(rest, m);
      assert t[..n + DISPLAY_GROUP_SIZE][DISPLAY_GROUP_SIZE..] == rest[..n];
      assert t[..n][DISPLAY_GROUP_SIZE..] == rest[..m];
      assert rest[m..n] == t[n..n + DISPLAY_GROUP_SIZE];
    }
  }

  method FormatKidDisplay(input: string) returns (r: Result<string, KidError>)
    ensures r == KidDisplay(input)
  {
    var normalized := NormalizeKid(input);
    if normalized.Err? {
      return normalized;
    }
    var canonical := normalized.value;
    var output: string := "";
    for index := 0 to KID_LENGTH / DISPLAY_GROUP_SIZE
      invariant output == Dashed(canonical[..4 * index])
    {
      if index > 0 {
        output := output + ['-'];
        DashedAppend(canonical, 4 * index);
      }
      output := output + canonical[4 * index..4 * index + 4];
    }
    assert canonical[..KID_LENGTH] == canonical;
    return Ok(output);
  }

  // ---- resolution --------------------------------------------------------------

  function NormalizeAll(candidates: seq<string>): Result<seq<string>, KidError> {
    if candidates == [] then Ok([])
    else
      var first :- NormalizeKid(candidates[0]);
      var rest :- NormalizeAll(candidates[1..]);
      Ok([first] + rest)
  }

  function Matches(kids: seq<string>, query: string): seq<string> {
    if kids == [] then []
    else if query <= kids[0] then [kids[0]] + Matches(kids[1..], query)
    else Matches(kids[1..], query)
  }

  function ResolveUniqueKid(candidates: seq<string>, query: string): Result<string, KidError> {
    var normalizedQuery :- NormalizeQuery(query);
    var kids :- NormalizeAll(candidates);
    var matches := Matches(kids, normalizedQuery);
    if |matches| == 1 then Ok(matches[0])
    else if |matches| == 0 then Err(NotFound)
    else Err(Ambiguous)
  }
}
