/**
 * The scan that bounds nesting and size before a JSON text is parsed. A text is
 * one `char` for each byte of the document.
 */
module JsonLimits {
  import opened Limits
  import opened Numbers
  import opened Wrappers

  datatype LimitError = DepthLimit | ElementLimit

  /** What the scan carries from one byte to the next. */
  datatype Scan = Scan(depth: nat, maxDepth: nat, elements: nat, inString: bool, escape: bool)

  const START := Scan(0, 0, 0, false, false)

  /** The counts alone, as if no limit stopped the scan. */
  function Counted(scan: Scan, c: char): Scan {
    if scan.escape then scan.(escape := false)
    else if scan.inString then
      if c == '\\' then scan.(escape := true) else if c == '\"' then scan.(inString := false) else scan
    else if c == '\"' then scan.(inString := true)
    else if c == '{' || c == '[' then
      scan.(depth := scan.depth + 1, maxDepth := Max(scan.maxDepth, scan.depth + 1), elements := scan.elements + 1)
    else if c == '}' || c == ']' then scan.(depth := if scan.depth == 0 then 0 else scan.depth - 1)
    else if c == ':' || c == ',' then scan.(elements := scan.elements + 1)
    else scan
  }

  function CountedAll(scan: Scan, text: string): Scan {
    if text == "" then scan else Counted(CountedAll(scan, text[..|text| - 1]), text[|text| - 1])
  }

  predicate WithinLimits(scan: Scan) {
    scan.maxDepth <= MAX_JSON_DEPTH && scan.elements <= MAX_JSON_ELEMENTS
  }

  class JsonScanState {
    var depth: nat
    var maxDepth: nat
    var elements: nat
    var inString: bool
    var escape: bool

    ghost function View(): Scan
      reads this
    {
      Scan(depth, maxDepth, elements, inString, escape)
    }

    constructor ()
      ensures View() == START
    {
      depth, maxDepth, elements, inString, escape := 0, 0, 0, false, false;
    }

    method ConsumeInString(c: char)
      requires inString && !escape
      modifies this
      ensures View() == Counted(old(View()), c)
    {
      if c == '\\' {
        escape := true;
      } else if c == '\"' {
        inString := false;
      }
    }

    method OpenContainer() returns (refused: Option<LimitError>)
      modifies this
      ensures View() == old(View()).(depth := old(depth) + 1, maxDepth := Max(old(maxDepth), old(depth) + 1),
                                     elements := old(elements) + 1)
      ensures refused == if maxDepth > MAX_JSON_DEPTH then Some(DepthLimit) else None
    {
      depth := depth + 1;
      if depth > maxDepth {
        maxDepth := depth;
      }
      elements := elements + 1;
      return if maxDepth > MAX_JSON_DEPTH then Some(DepthLimit) else None;
    }

    /** A byte that closes, escapes or opens a string never fails; the others are checked. */
    method Consume(c: char) returns (refused: Option<LimitError>)
      requires WithinLimits(View())
      modifies this
      ensures View() == Counted(old(View()), c)
      ensures refused.None? <==> WithinLimits(View())
      ensures refused == Some(DepthLimit) <==> maxDepth > MAX_JSON_DEPTH
    {
      if escape {
        escape := false;
        return None;
      }
      if inString {
        ConsumeInString(c);
        return None;
      }
      if c == '\"' {
        inString := true;
      } else if c == '{' || c == '[' {
        var tooDeep := OpenContainer();
        if tooDeep.Some? {
          return tooDeep;
        }
      } else if c == '}' || c == ']' {
        depth := if depth == 0 then 0 else depth - 1;
      } else if c == ':' || c == ',' {
        elements := elements + 1;
      }
      return if elements > MAX_JSON_ELEMENTS then Some(ElementLimit) else None;
    }
  }

  lemma {:induction false} CountsOnlyGrow(scan: Scan, text: string, n: nat)
    requires n <= |text|
    ensures CountedAll(scan, text[..n]).maxDepth <= CountedAll(scan, text).maxDepth
    ensures CountedAll(scan, text[..n]).elements <= CountedAll(scan, text).elements
  {
    if n == |text| {
      assert text[..n] == text;
    } else {
      CountsOnlyGrow(scan, text[..|text| - 1], n);
      assert text[..|text| - 1][..n] == text[..n];
    }
  }

  /** The error names the limit that the first `n` bytes break and the first `n - 1` do not. */
  ghost predicate FirstBreak(input: string, n: nat, error: LimitError) {
    0 < n <= |input| && WithinLimits(CountedAll(START, input[..n - 1]))
    && match error
       case DepthLimit => CountedAll(START, input[..n]).maxDepth > MAX_JSON_DEPTH
       case ElementLimit => CountedAll(START, input[..n]).maxDepth <= MAX_JSON_DEPTH
                            && CountedAll(START, input[..n]).elements > MAX_JSON_ELEMENTS
  }

  /**
   * Any bytes at all are accepted exactly when their final counts are within the
   * limits; otherwise the first limit broken is reported, depth before size.
   */
  method ValidateJsonLimits(input: string) returns (refused: Option<LimitError>)
    ensures refused.None? <==> WithinLimits(CountedAll(START, input))
    ensures refused.Some? ==> exists n :: FirstBreak(input, n, refused.value)
  {
    var state := new JsonScanState();
    for i := 0 to |input|
      invariant fresh(state)
      invariant state.View() == CountedAll(START, input[..i])
      invariant WithinLimits(state.View())
    {
      assert input[..i + 1][..i] == input[..i];
      refused := state.Consume(input[i]);
      if refused.Some? {
        CountsOnlyGrow(START, input, i + 1);
        assert FirstBreak(input, i + 1, refused.value);
        return;
      }
    }
    assert input[..|input|] == input;
    return None;
  }
}

/** The grammar of RFC 8259, with every choice of white space and escapes. */
module JsonGrammar {
  import opened Numbers
  import opened Wrappers

  // ---- section 2: white space around a structural character -----------------

  predicate IsWhite(text: string) {
    forall i :: 0 <= i < |text| ==> text[i] == ' ' || text[i] == '\t' || text[i] == '\n' || text[i] == '\r'
  }

  datatype Gap = Gap(before: string, after: string)

  predicate GoodGap(gap: Gap) {
    IsWhite(gap.before) && IsWhite(gap.after)
  }

  // ---- section 7: strings -----------------------------------------------------

  datatype Part = Plain(c: char) | Escape(c: char) | Unicode(digits: string)

  predicate IsDigit(c: char) {
    '0' <= c <= '9'
  }

  predicate IsHex(c: char) {
    IsDigit(c) || 'a' <= c <= 'f' || 'A' <= c <= 'F'
  }

  predicate GoodPart(part: Part) {
    match part
    case Plain(c) => c >= ' ' && c != '\"' && c != '\\'
    case Escape(c) => c in "\"\\/bfnrt"
    case Unicode(digits) => |digits| == 4 && forall i :: 0 <= i < 4 ==> IsHex(digits[i])
  }

  predicate GoodParts(parts: seq<Part>) {
    forall i :: 0 <= i < |parts| ==> GoodPart(parts[i])
  }

  function PartText(part: Part): string {
    match part
    case Plain(c) => [c]
    case Escape(c) => ['\\', c]
    case Unicode(digits) => "\\u" + digits
  }

  function PartsText(parts: seq<Part>): string {
    if parts == [] then "" else PartsText(parts[..|parts| - 1]) + PartText(parts[|parts| - 1])
  }

  function StringText(parts: seq<Part>): string {
    "\"" + PartsText(parts) + "\""
  }

  // ---- section 6: numbers -----------------------------------------------------

  datatype Exponent = Exponent(e: char, sign: string, digits: string)

  datatype Number = Number(minus: bool, whole: string, fraction: Option<string>, exponent: Option<Exponent>)

  predicate AllDigits(text: string) {
    forall i :: 0 <= i < |text| ==> IsDigit(text[i])
  }

  predicate GoodNumber(n: Number) {
    n.whole != "" && AllDigits(n.whole) && (n.whole[0] == '0' ==> |n.whole| == 1)
    && (n.fraction.Some? ==> n.fraction.value != "" && AllDigits(n.fraction.value))
    && (n.exponent.Some? ==>
          var x := n.exponent.value;
          x.e in "eE" && x.sign in {"", "+", "-"} && x.digits != "" && AllDigits(x.digits))
  }

  function NumberText(n: Number): string {
    (if n.minus then "-" else "") + n.whole
    + (if n.fraction.Some? then "." + n.fraction.value else "")
    + (if n.exponent.Some? then [n.exponent.value.e] + n.exponent.value.sign + n.exponent.value.digits else "")
  }

  // ---- sections 3, 4 and 5: values, objects and arrays -----------------------------

  /** The separator of the first item or member of a container is not written. */
  datatype Item = Item(comma: Gap, value: Value)

  datatype Member = Member(comma: Gap, name: seq<Part>, colon: Gap, value: Value)

  datatype Value =
    | Word(text: string)
    | Numeric(number: Number)
    | Str(parts: seq<Part>)
    | Array(open: Gap, items: seq<Item>, close: Gap)
    | Object(open: Gap, members: seq<Member>, close: Gap)

  predicate Good(v: Value) {
    match v
    case Word(text) => text in {"true", "false", "null"}
    case Numeric(number) => GoodNumber(number)
    case Str(parts) => GoodParts(parts)
    case Array(open, items, close) =>
      GoodGap(open) && GoodGap(close) && forall i :: 0 <= i < |items| ==> GoodItem(items[i])
    case Object(open, members, close) =>
      GoodGap(open) && GoodGap(close) && forall i :: 0 <= i < |members| ==> GoodMember(members[i])
  }

  predicate GoodItem(item: Item) {
    GoodGap(item.comma) && Good(item.value)
  }

  predicate GoodMember(member: Member) {
    GoodGap(member.comma) && GoodParts(member.name) && GoodGap(member.colon) && Good(member.value)
  }

  function Spaced(c: char, gap: Gap): string {
    gap.before + [c] + gap.after
  }

  function Text(v: Value): string {
    match v
    case Word(text) => text
    case Numeric(number) => NumberText(number)
    case Str(parts) => StringText(parts)
    case Array(open, items, close) => Spaced('[', open) + ItemsText(items) + Spaced(']', close)
    case Object(open, members, close) => Spaced('{', open) + MembersText(members) + Spaced('}', close)
  }

  function ItemText(item: Item, first: bool): string {
    (if first then "" else Spaced(',', item.comma)) + Text(item.value)
  }

  function ItemsText(items: seq<Item>): string {
    if items == [] then ""
    else
      var init, last := items[..|items| - 1], items[|items| - 1];
      ItemsText(init) + ItemText(last, init == [])
  }

  function NameText(member: Member, first: bool): string {
    (if first then "" else Spaced(',', member.comma)) + StringText(member.name) + Spaced(':', member.colon)
  }

  function MemberText(member: Member, first: bool): string {
    NameText(member, first) + Text(member.value)
  }

  function MembersText(members: seq<Member>): string {
    if members == [] then ""
    else
      var init, last := members[..|members| - 1], members[|members| - 1];
      MembersText(init) + MemberText(last, init == [])
  }

  // ---- the size of a value ---------------------------------------------------

  /** How deep the containers of a value nest. */
  function Depth(v: Value): nat {
    match v
    case Array(_, items, _) => 1 + ItemsDepth(items)
    case Object(_, members, _) => 1 + MembersDepth(members)
    case _ => 0
  }

  function ItemDepth(item: Item): nat {
    Depth(item.value)
  }

  function ItemsDepth(items: seq<Item>): nat {
    if items == [] then 0 else Max(ItemsDepth(items[..|items| - 1]), ItemDepth(items[|items| - 1]))
  }

  function MemberDepth(member: Member): nat {
    Depth(member.value)
  }

  function MembersDepth(members: seq<Member>): nat {
    if members == [] then 0 else Max(MembersDepth(members[..|members| - 1]), MemberDepth(members[|members| - 1]))
  }

  /** One for each container, each colon and each comma of a value. */
  function Size(v: Value): nat {
    match v
    case Array(_, items, _) => 1 + ItemsSize(items)
    case Object(_, members, _) => 1 + MembersSize(members)
    case _ => 0
  }

  function ItemSize(item: Item, first: bool): nat {
    (if first then 0 else 1) + Size(item.value)
  }

  function ItemsSize(items: seq<Item>): nat {
    if items == [] then 0
    else ItemsSize(items[..|items| - 1]) + ItemSize(items[|items| - 1], |items| == 1)
  }

  function MemberSize(member: Member, first: bool): nat {
    (if first then 1 else 2) + Size(member.value)
  }

  function MembersSize(members: seq<Member>): nat {
    if members == [] then 0
    else MembersSize(members[..|members| - 1]) + MemberSize(members[|members| - 1], |members| == 1)
  }
}

/** The scan and the grammar agree. */
module JsonProofs {
  import opened Limits
  import opened Numbers
  import opened Wrappers
  import opened JsonLimits
  import opened JsonGrammar

  // ---- scanning in pieces ---------------------------------------------------------

  lemma {:induction false} CountedConcat(scan: Scan, a: string, b: string)
    ensures CountedAll(scan, a + b) == CountedAll(CountedAll(scan, a), b)
  {
    if b == "" {
      assert a + b == a;
    } else {
      assert (a + b)[..|a + b| - 1] == a + b[..|b| - 1];
      CountedConcat(scan, a, b[..|b| - 1]);
    }
  }

  lemma CountedChain(scan: Scan, a: string, middle: Scan, b: string, end: Scan)
    requires CountedAll(scan, a) == middle && CountedAll(middle, b) == end
    ensures CountedAll(scan, a + b) == end
  {
    CountedConcat(scan, a, b);
  }

  lemma CountedOne(scan: Scan, c: char)
    ensures CountedAll(scan, [c]) == Counted(scan, c)
  {
    assert [c][..0] == "" && CountedAll(scan, "") == scan;
  }

  /** Outside strings, and with no more containers open than ever seen. */
  ghost predicate Between(scan: Scan) {
    !scan.inString && !scan.escape && scan.depth <= scan.maxDepth
  }

  predicate Loud(c: char) {
    c == '\"' || c == '[' || c == ']' || c == '{' || c == '}' || c == ':' || c == ','
  }

  ghost predicate Quiet(text: string) {
    forall i :: 0 <= i < |text| ==> !Loud(text[i])
  }

  lemma {:induction false} QuietCountsNothing(scan: Scan, text: string)
    requires Between(scan) && Quiet(text)
    ensures CountedAll(scan, text) == scan
  {
    if text == "" {
    } else {
      QuietCountsNothing(scan, text[..|text| - 1]);
      assert !Loud(text[|text| - 1]);
    }
  }

  lemma SpacedCounts(scan: Scan, c: char, gap: Gap)
    requires Between(scan) && GoodGap(gap)
    requires Between(Counted(scan, c))
    ensures CountedAll(scan, Spaced(c, gap)) == Counted(scan, c)
  {
    CountedConcat(scan, gap.before + [c], gap.after);
    CountedConcat(scan, gap.before, [c]);
    QuietCountsNothing(scan, gap.before);
    CountedOne(scan, c);
    QuietCountsNothing(Counted(scan, c), gap.after);
  }

  lemma QuietConcat(a: string, b: string)
    requires Quiet(a) && Quiet(b)
    ensures Quiet(a + b)
  {
  }

  lemma DigitsAreQuiet(text: string)
    requires AllDigits(text)
    ensures Quiet(text) && Quiet("." + text)
  {
  }

  lemma ExponentIsQuiet(x: Exponent)
    requires x.e in "eE" && x.sign in {"", "+", "-"} && AllDigits(x.digits)
    ensures Quiet([x.e] + x.sign + x.digits)
  {
    DigitsAreQuiet(x.digits);
    QuietConcat([x.e], x.sign);
    QuietConcat([x.e] + x.sign, x.digits);
  }

  lemma NumberIsQuiet(n: Number)
    requires GoodNumber(n)
    ensures Quiet(NumberText(n))
  {
    var minus := if n.minus then "-" else "";
    var fraction := if n.fraction.Some? then "." + n.fraction.value else "";
    var exponent :=
      if n.exponent.Some? then [n.exponent.value.e] + n.exponent.value.sign + n.exponent.value.digits else "";
    DigitsAreQuiet(n.whole);
    if n.fraction.Some? {
      DigitsAreQuiet(n.fraction.value);
    }
    if n.exponent.Some? {
      ExponentIsQuiet(n.exponent.value);
    }
    QuietConcat(minus, n.whole);
    QuietConcat(minus + n.whole, fraction);
    QuietConcat(minus + n.whole + fraction, exponent);
  }

  lemma WordIsQuiet(text: string)
    requires text in {"true", "false", "null"}
    ensures Quiet(text)
  {
  }

  // ---- strings ------------------------------------------------------------------

  lemma {:induction false} InsideString(scan: Scan, text: string)
    requires scan.inString && !scan.escape
    requires forall i :: 0 <= i < |text| ==> text[i] != '\\' && text[i] != '\"'
    ensures CountedAll(scan, text) == scan
  {
    if text == "" {
    } else {
      InsideString(scan, text[..|text| - 1]);
    }
  }

  lemma PartCountsNothing(scan: Scan, part: Part)
    requires scan.inString && !scan.escape && GoodPart(part)
    ensures CountedAll(scan, PartText(part)) == scan
  {
    match part
    case Plain(c) => CountedOne(scan, c);
    case Escape(c) =>
      assert PartText(part) == ['\\'] + [c];
      CountedConcat(scan, ['\\'], [c]);
      CountedOne(scan, '\\');
      CountedOne(scan.(escape := true), c);
    case Unicode(digits) =>
      assert PartText(part) == (['\\'] + ['u']) + digits;
      CountedConcat(scan, ['\\'] + ['u'], digits);
      CountedConcat(scan, ['\\'], ['u']);
      CountedOne(scan, '\\');
      CountedOne(scan.(escape := true), 'u');
      InsideString(scan, digits);
  }

  lemma {:induction false} PartsCountNothing(scan: Scan, parts: seq<Part>)
    requires scan.inString && !scan.escape && GoodParts(parts)
    ensures CountedAll(scan, PartsText(parts)) == scan
  {
    if parts == [] {
    } else {
      var init, last := parts[..|parts| - 1], parts[|parts| - 1];
      PartsCountNothing(scan, init);
      CountedConcat(scan, PartsText(init), PartText(last));
      PartCountsNothing(scan, last);
    }
  }

  lemma StringCountsNothing(scan: Scan, parts: seq<Part>)
    requires Between(scan) && GoodParts(parts)
    ensures CountedAll(scan, StringText(parts)) == scan
  {
    var inside := scan.(inString := true);
    CountedConcat(scan, ['\"'] + PartsText(parts), ['\"']);
    CountedConcat(scan, ['\"'], PartsText(parts));
    CountedOne(scan, '\"');
    PartsCountNothing(inside, parts);
    CountedOne(inside, '\"');
  }

  // ---- values -------------------------------------------------------------------

  /** The counts after something of this depth and size. */
  function After(scan: Scan, depth: nat, size: nat): Scan {
    scan.(maxDepth := Max(scan.maxDepth, scan.depth + depth), elements := scan.elements + size)
  }

  /** Wherever a value stands, the scan measures its depth and its size. */
  lemma {:induction false} ValueCounts(scan: Scan, v: Value)
    requires Between(scan) && Good(v)
    ensures CountedAll(scan, Text(v)) == After(scan, Depth(v), Size(v))
    decreases v
  {
    match v
    case Word(text) => WordIsQuiet(text); QuietCountsNothing(scan, text);
    case Numeric(number) => NumberIsQuiet(number); QuietCountsNothing(scan, NumberText(number));
    case Str(parts) => StringCountsNothing(scan, parts);
    case Array(open, items, close) =>
      var inner := Counted(scan, '[');
      ItemsCount(inner, items);
      ContainerCounts(scan, '[', open, ItemsText(items), ']', close, ItemsDepth(items), ItemsSize(items));
    case Object(open, members, close) =>
      var inner := Counted(scan, '{');
      MembersCount(inner, members);
      ContainerCounts(scan, '{', open, MembersText(members), '}', close, MembersDepth(members), MembersSize(members));
  }

  lemma ContainerCounts(scan: Scan, begin: char, open: Gap, body: string, end: char, close: Gap,
                        depth: nat, size: nat)
    requires Between(scan) && GoodGap(open) && GoodGap(close)
    requires begin == '[' || begin == '{'
    requires end == ']' || end == '}'
    requires CountedAll(Counted(scan, begin), body) == After(Counted(scan, begin), depth, size)
    ensures CountedAll(scan, Spaced(begin, open) + body + Spaced(end, close)) == After(scan, 1 + depth, 1 + size)
  {
    CountedConcat(scan, Spaced(begin, open) + body, Spaced(end, close));
    CountedConcat(scan, Spaced(begin, open), body);
    SpacedCounts(scan, begin, open);
    SpacedCounts(After(Counted(scan, begin), depth, size), end, close);
  }

  lemma {:induction false} ItemsCount(scan: Scan, items: seq<Item>)
    requires Between(scan) && forall i :: 0 <= i < |items| ==> GoodItem(items[i])
    ensures CountedAll(scan, ItemsText(items)) == After(scan, ItemsDepth(items), ItemsSize(items))
    decreases items
  {
    if items == [] {
    } else {
      var init, last := items[..|items| - 1], items[|items| - 1];
      ItemsCount(scan, init);
      var before := After(scan, ItemsDepth(init), ItemsSize(init));
      CountedConcat(scan, ItemsText(init), ItemText(last, init == []));
      ItemCounts(before, last, init == []);
    }
  }

  lemma ItemCounts(scan: Scan, item: Item, first: bool)
    requires Between(scan) && GoodItem(item)
    ensures CountedAll(scan, ItemText(item, first)) == After(scan, ItemDepth(item), ItemSize(item, first))
    decreases item
  {
    if first {
      assert ItemText(item, first) == Text(item.value);
      ValueCounts(scan, item.value);
    } else {
      CountedConcat(scan, Spaced(',', item.comma), Text(item.value));
      SpacedCounts(scan, ',', item.comma);
      ValueCounts(Counted(scan, ','), item.value);
    }
  }

  lemma {:induction false} MembersCount(scan: Scan, members: seq<Member>)
    requires Between(scan) && forall i :: 0 <= i < |members| ==> GoodMember(members[i])
    ensures CountedAll(scan, MembersText(members)) == After(scan, MembersDepth(members), MembersSize(members))
    decreases members
  {
    if members == [] {
    } else {
      var init, last := members[..|members| - 1], members[|members| - 1];
      MembersCount(scan, init);
      var before := After(scan, MembersDepth(init), MembersSize(init));
      CountedConcat(scan, MembersText(init), MemberText(last, init == []));
      MemberCounts(before, last, init == []);
    }
  }

  lemma MemberCounts(scan: Scan, member: Member, first: bool)
    requires Between(scan) && GoodMember(member)
    ensures CountedAll(scan, MemberText(member, first)) == After(scan, MemberDepth(member), MemberSize(member, first))
    decreases member
  {
    var named := scan.(elements := scan.elements + if first then 1 else 2);
    CountedConcat(scan, NameText(member, first), Text(member.value));
    NameCounts(scan, member, first);
    ValueCounts(named, member.value);
  }

  lemma NameCounts(scan: Scan, member: Member, first: bool)
    requires Between(scan) && GoodMember(member)
    ensures CountedAll(scan, NameText(member, first)) == scan.(elements := scan.elements + if first then 1 else 2)
  {
    if first {
      assert NameText(member, first) == "" + StringText(member.name) + Spaced(':', member.colon);
      ColonCounts(scan, "", scan, member.name, member.colon);
    } else {
      SpacedCounts(scan, ',', member.comma);
      ColonCounts(scan, Spaced(',', member.comma), Counted(scan, ','), member.name, member.colon);
    }
  }

  lemma ColonCounts(scan: Scan, comma: string, named: Scan, name: seq<Part>, colon: Gap)
    requires Between(named) && CountedAll(scan, comma) == named && GoodParts(name) && GoodGap(colon)
    ensures CountedAll(scan, comma + StringText(name) + Spaced(':', colon)) == Counted(named, ':')
  {
    StringCountsNothing(named, name);
    CountedChain(scan, comma, named, StringText(name), named);
    SpacedCounts(named, ':', colon);
    CountedChain(scan, comma + StringText(name), named, Spaced(':', colon), Counted(named, ':'));
  }

  // ---- the verdict ---------------------------------------------------------------

  /** A JSON text: one value with white space around it. */
  function Document(gap: Gap, v: Value): string {
    gap.before + Text(v) + gap.after
  }

  /**
   * Whatever the white space and the escapes, a JSON text is within the limits
   * exactly when its value nests no deeper than 32 and has no more containers,
   * colons and commas than the budget.
   */
  lemma AcceptedExactly(gap: Gap, v: Value)
    requires GoodGap(gap) && Good(v)
    ensures WithinLimits(CountedAll(START, Document(gap, v)))
       <==> Depth(v) <= MAX_JSON_DEPTH && Size(v) <= MAX_JSON_ELEMENTS
  {
    CountedConcat(START, gap.before + Text(v), gap.after);
    CountedConcat(START, gap.before, Text(v));
    QuietCountsNothing(START, gap.before);
    ValueCounts(START, v);
    QuietCountsNothing(After(START, Depth(v), Size(v)), gap.after);
  }

  // ---- documents with wrap items -----------------------------------------------------

  /** A value with one place left open, at any depth. */
  datatype Hole =
    | Here
    | InArray(open: Gap, before: seq<Item>, comma: Gap, inner: Hole, after: seq<Item>, close: Gap)
    | InObject(open: Gap, first: seq<Member>, comma: Gap, name: seq<Part>, colon: Gap, inner: Hole,
               rest: seq<Member>, close: Gap)

  function Plug(hole: Hole, v: Value): Value {
    match hole
    case Here => v
    case InArray(open, before, comma, inner, after, close) =>
      Array(open, before + [Item(comma, Plug(inner, v))] + after, close)
    case InObject(open, first, comma, name, colon, inner, rest, close) =>
      Object(open, first + [Member(comma, name, colon, Plug(inner, v))] + rest, close)
  }

  /** What the scan counts in a document when the open place holds a scalar. */
  function SizeAround(hole: Hole): nat {
    Size(Plug(hole, Word("null")))
  }

  lemma {:induction false} ItemsSizeReplaced(before: seq<Item>, comma: Gap, v: Value, w: Value, after: seq<Item>)
    ensures ItemsSize(before + [Item(comma, v)] + after) + Size(w)
         == ItemsSize(before + [Item(comma, w)] + after) + Size(v)
  {
    if after == [] {
      assert before + [Item(comma, v)] + after == before + [Item(comma, v)];
      assert before + [Item(comma, w)] + after == before + [Item(comma, w)];
    } else {
      var init, last := after[..|after| - 1], after[|after| - 1];
      ItemsSizeReplaced(before, comma, v, w, init);
      assert before + [Item(comma, v)] + after == before + [Item(comma, v)] + init + [last];
      assert before + [Item(comma, w)] + after == before + [Item(comma, w)] + init + [last];
    }
  }

  lemma {:induction false} MembersSizeReplaced(first: seq<Member>, m: Member, n: Member, rest: seq<Member>)
    ensures MembersSize(first + [m] + rest) + Size(n.value) == MembersSize(first + [n] + rest) + Size(m.value)
  {
    if rest == [] {
      assert first + [m] + rest == first + [m];
      assert first + [n] + rest == first + [n];
    } else {
      var init, last := rest[..|rest| - 1], rest[|rest| - 1];
      MembersSizeReplaced(first, m, n, init);
      assert first + [m] + rest == first + [m] + init + [last];
      assert first + [n] + rest == first + [n] + init + [last];
    }
  }

  lemma {:induction false} PlugSize(hole: Hole, v: Value)
    ensures Size(Plug(hole, v)) == SizeAround(hole) + Size(v)
  {
    match hole
    case Here =>
    case InArray(open, before, comma, inner, after, close) =>
      PlugSize(inner, v);
      ItemsSizeReplaced(before, comma, Plug(inner, v), Plug(inner, Word("null")), after);
    case InObject(open, first, comma, name, colon, inner, rest, close) =>
      PlugSize(inner, v);
      MembersSizeReplaced(first, Member(comma, name, colon, Plug(inner, v)),
                          Member(comma, name, colon, Plug(inner, Word("null"))), rest);
  }

  /** A wrap item on the wire: an object of five strings. */
  ghost predicate IsWrapItem(v: Value) {
    v.Object? && |v.members| == 5 && forall i :: 0 <= i < 5 ==> v.members[i].value.Str?
  }

  lemma WrapItemSize(v: Value)
    requires IsWrapItem(v)
    ensures Size(v) == 10
  {
    FlatSize(v.members);
  }

  lemma {:induction false} FlatSize(members: seq<Member>)
    requires forall i :: 0 <= i < |members| ==> members[i].value.Str?
    ensures MembersSize(members) == if members == [] then 0 else 2 * |members| - 1
  {
    if members == [] {
    } else {
      FlatSize(members[..|members| - 1]);
      assert Size(members[|members| - 1].value) == 0;
    }
  }

  lemma {:induction false} WrapItemsSize(items: seq<Item>)
    requires forall i :: 0 <= i < |items| ==> IsWrapItem(items[i].value)
    ensures ItemsSize(items) == if items == [] then 0 else JSON_ELEMENTS_PER_WRAP_ITEM * |items| - 1
  {
    if items == [] {
    } else {
      WrapItemsSize(items[..|items| - 1]);
      WrapItemSize(items[|items| - 1].value);
    }
  }

  /**
   * The budget is exact: a document no deeper than the limit that carries `n`
   * wrap items somewhere is accepted exactly when the rest of it counts no more
   * than the budget leaves. With up to 1000 items, 2000 elsewhere always fit.
   */
  lemma WrapBudget(gap: Gap, hole: Hole, wraps: Value)
    requires GoodGap(gap) && Good(Plug(hole, wraps)) && Depth(Plug(hole, wraps)) <= MAX_JSON_DEPTH
    requires wraps.Array? && forall i :: 0 <= i < |wraps.items| ==> IsWrapItem(wraps.items[i].value)
    ensures var n := |wraps.items|;
            var scanned := CountedAll(START, Document(gap, Plug(hole, wraps)));
            && (n > 0 ==> (WithinLimits(scanned)
                           <==> SizeAround(hole) + JSON_ELEMENTS_PER_WRAP_ITEM * n <= MAX_JSON_ELEMENTS))
            && (n <= MAX_WRAP_ITEMS && SizeAround(hole) <= JSON_ELEMENTS_DOCUMENT_OVERHEAD ==> WithinLimits(scanned))
  {
    AcceptedExactly(gap, Plug(hole, wraps));
    PlugSize(hole, wraps);
    WrapItemsSize(wraps.items);
  }
}
