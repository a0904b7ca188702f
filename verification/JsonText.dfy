/**
 * How documents are written as JSON: the compact canonical form of tokens, which
 * is the one of RFC 8785, and the indented form of whole files.
 */
module JsonText {
  import opened Numbers
  import opened JsonGrammar

  // ---- trees ------------------------------------------------------------------------------

  datatype Field = Field(name: string, value: Node)

  /** A document before it is written: scalars, and lists and records of nodes in order. */
  datatype Node = Leaf(scalar: Value) | List(items: seq<Node>) | Record(fields: seq<Field>)

  predicate IsScalar(v: Value) {
    v.Word? || v.Numeric? || v.Str?
  }

  /** Every leaf is a well-formed scalar. */
  predicate GoodNode(node: Node) {
    match node
    case Leaf(v) => IsScalar(v) && Good(v)
    case List(items) => forall i :: 0 <= i < |items| ==> GoodNode(items[i])
    case Record(fields) => forall i :: 0 <= i < |fields| ==> GoodField(fields[i])
  }

  predicate GoodField(field: Field) {
    GoodNode(field.value)
  }

  // ---- strings ------------------------------------------------------------------------------

  function HexDigit(n: nat): char
    requires n < 16
  {
    if n < 10 then ('0' as int + n) as char else ('a' as int + n - 10) as char
  }

  /** Section 3.2.2.2 of RFC 8785: what must be escaped, in the one way it may be. */
  function Quote(c: char): Part {
    if c == '\"' || c == '\\' then Escape(c)
    else if c == '\n' then Escape('n')
    else if c == '\r' then Escape('r')
    else if c == '\t' then Escape('t')
    else if c as int == 8 then Escape('b')
    else if c as int == 12 then Escape('f')
    else if c < ' ' then Unicode("00" + [HexDigit(c as int / 16), HexDigit(c as int % 16)])
    else Plain(c)
  }

  function Quoted(s: string): seq<Part> {
    if s == "" then [] else Quoted(s[..|s| - 1]) + [Quote(s[|s| - 1])]
  }

  function StringNode(s: string): Node {
    Leaf(Str(Quoted(s)))
  }

  /** Printable ASCII that no string has to escape. */
  predicate IsPlain(s: string) {
    forall i :: 0 <= i < |s| ==> ' ' <= s[i] <= '~' && s[i] != '\"' && s[i] != '\\'
  }

  // ---- writing --------------------------------------------------------------------------------

  datatype Style = Compact | Indented

  function Line(depth: nat): string {
    "\n" + seq(2 * depth, _ => ' ')
  }

  const NO_GAP := Gap("", "")

  /** After an opening bracket or a comma, in a container that is not empty. */
  function BreakGap(style: Style, depth: nat): Gap {
    if style.Compact? then NO_GAP else Gap("", Line(depth + 1))
  }

  function ColonGap(style: Style): Gap {
    if style.Compact? then NO_GAP else Gap("", " ")
  }

  function CloseGap(style: Style, depth: nat): Gap {
    if style.Compact? then NO_GAP else Gap(Line(depth), "")
  }

  function Written(style: Style, depth: nat, node: Node): Value
    decreases node, 0
  {
    match node
    case Leaf(v) => v
    case List(items) =>
      if items == [] then Array(NO_GAP, [], NO_GAP)
      else Array(BreakGap(style, depth), WrittenItems(style, depth, items), CloseGap(style, depth))
    case Record(fields) =>
      if fields == [] then Object(NO_GAP, [], NO_GAP)
      else Object(BreakGap(style, depth), WrittenFields(style, depth, fields), CloseGap(style, depth))
  }

  function WrittenItem(style: Style, depth: nat, node: Node): JsonGrammar.Item
    decreases node, 1
  {
    Item(BreakGap(style, depth), Written(style, depth + 1, node))
  }

  function WrittenItems(style: Style, depth: nat, items: seq<Node>): seq<JsonGrammar.Item>
    decreases items
  {
    if items == [] then []
    else WrittenItems(style, depth, items[..|items| - 1]) + [WrittenItem(style, depth, items[|items| - 1])]
  }

  function WrittenField(style: Style, depth: nat, field: Field): JsonGrammar.Member
    decreases field
  {
    Member(BreakGap(style, depth), Quoted(field.name), ColonGap(style), Written(style, depth + 1, field.value))
  }

  function WrittenFields(style: Style, depth: nat, fields: seq<Field>): seq<JsonGrammar.Member>
    decreases fields
  {
    if fields == [] then []
    else WrittenFields(style, depth, fields[..|fields| - 1]) + [WrittenField(style, depth, fields[|fields| - 1])]
  }

  // ---- measures -------------------------------------------------------------------------------

  function NodeDepth(node: Node): nat {
    match node
    case Leaf(_) => 0
    case List(items) => 1 + NodesDepth(items)
    case Record(fields) => 1 + FieldsDepth(fields)
  }

  function NodesDepth(items: seq<Node>): nat {
    if items == [] then 0 else Max(NodesDepth(items[..|items| - 1]), NodeDepth(items[|items| - 1]))
  }

  function FieldDepth(field: Field): nat {
    NodeDepth(field.value)
  }

  function FieldsDepth(fields: seq<Field>): nat {
    if fields == [] then 0 else Max(FieldsDepth(fields[..|fields| - 1]), FieldDepth(fields[|fields| - 1]))
  }

  /** One for each container, each colon and each comma. */
  function NodeSize(node: Node): nat {
    match node
    case Leaf(_) => 0
    case List(items) => 1 + NodesSize(items)
    case Record(fields) => 1 + FieldsSize(fields)
  }

  function NodesSize(items: seq<Node>): nat {
    if items == [] then 0
    else NodesSize(items[..|items| - 1]) + (if |items| == 1 then 0 else 1) + NodeSize(items[|items| - 1])
  }

  function FieldSize(field: Field): nat {
    1 + NodeSize(field.value)
  }

  function FieldsSize(fields: seq<Field>): nat {
    if fields == [] then 0
    else FieldsSize(fields[..|fields| - 1]) + (if |fields| == 1 then 0 else 1) + FieldSize(fields[|fields| - 1])
  }

  /** How many lines the indented text breaks into, after its first. */
  function Breaks(node: Node): nat {
    match node
    case Leaf(_) => 0
    case List(items) => if items == [] then 0 else 1 + NodesBreaks(items)
    case Record(fields) => if fields == [] then 0 else 1 + FieldsBreaks(fields)
  }

  function NodesBreaks(items: seq<Node>): nat {
    if items == [] then 0 else NodesBreaks(items[..|items| - 1]) + 1 + Breaks(items[|items| - 1])
  }

  function FieldBreaks(field: Field): nat {
    1 + Breaks(field.value)
  }

  function FieldsBreaks(fields: seq<Field>): nat {
    if fields == [] then 0 else FieldsBreaks(fields[..|fields| - 1]) + FieldBreaks(fields[|fields| - 1])
  }

  /** The white space of the indented text: line breaks, two spaces for each level, one after each colon. */
  function Blanks(node: Node): nat {
    match node
    case Leaf(_) => 0
    case List(items) => if items == [] then 0 else 1 + NodesBlanks(items)
    case Record(fields) => if fields == [] then 0 else 1 + FieldsBlanks(fields)
  }

  function NodesBlanks(items: seq<Node>): nat {
    if items == [] then 0
    else
      var last := items[|items| - 1];
      NodesBlanks(items[..|items| - 1]) + 3 + Blanks(last) + 2 * Breaks(last)
  }

  function FieldBlanks(field: Field): nat {
    4 + Blanks(field.value) + 2 * Breaks(field.value)
  }

  function FieldsBlanks(fields: seq<Field>): nat {
    if fields == [] then 0 else FieldsBlanks(fields[..|fields| - 1]) + FieldBlanks(fields[|fields| - 1])
  }

  /** `n` times `a`. */
  function Copies(a: nat, n: nat): nat {
    if n == 0 then 0 else Copies(a, n - 1) + a
  }

  function Sum(lens: seq<nat>): nat {
    if lens == [] then 0 else Sum(lens[..|lens| - 1]) + lens[|lens| - 1]
  }

  /** The length of the compact text. */
  function NodeLen(node: Node): nat {
    match node
    case Leaf(v) => |Text(v)|
    case List(items) => 2 + NodesLen(items)
    case Record(fields) => 2 + FieldsLen(fields)
  }

  function NodesLen(items: seq<Node>): nat {
    if items == [] then 0
    else NodesLen(items[..|items| - 1]) + (if |items| == 1 then 0 else 1) + NodeLen(items[|items| - 1])
  }

  function FieldLen(field: Field): nat {
    |StringText(Quoted(field.name))| + 1 + NodeLen(field.value)
  }

  function FieldsLen(fields: seq<Field>): nat {
    if fields == [] then 0
    else FieldsLen(fields[..|fields| - 1]) + (if |fields| == 1 then 0 else 1) + FieldLen(fields[|fields| - 1])
  }
}

/** What is written is JSON, and measures as the tree does. */
module JsonTextProofs {
  import opened Limits
  import opened Numbers
  import opened JsonLimits
  import opened JsonGrammar
  import opened JsonText
  import JsonProofs

  // ---- well-formedness ------------------------------------------------------------------

  lemma QuoteIsGood(c: char)
    ensures GoodPart(Quote(c))
  {
    if c < ' ' && Quote(c).Unicode? {
      var digits := "00" + [HexDigit(c as int / 16), HexDigit(c as int % 16)];
      assert digits[0] == '0' && digits[1] == '0';
    }
  }

  lemma {:induction false} QuotedIsGood(s: string)
    ensures GoodParts(Quoted(s))
  {
    if s == "" {
    } else {
      QuotedIsGood(s[..|s| - 1]);
      QuoteIsGood(s[|s| - 1]);
    }
  }

  lemma StringIsGood(s: string)
    ensures GoodNode(StringNode(s))
  {
    QuotedIsGood(s);
  }

  lemma GapsAreGood(style: Style, depth: nat)
    ensures GoodGap(BreakGap(style, depth)) && GoodGap(ColonGap(style)) && GoodGap(CloseGap(style, depth))
    ensures GoodGap(NO_GAP)
  {
  }

  lemma {:induction false} WrittenIsGood(style: Style, depth: nat, node: Node)
    requires GoodNode(node)
    ensures Good(Written(style, depth, node))
    decreases node
  {
    GapsAreGood(style, depth);
    match node
    case Leaf(_) =>
    case List(items) => ItemsAreGood(style, depth, items);
    case Record(fields) => FieldsAreGood(style, depth, fields);
  }

  lemma {:induction false} ItemsAreGood(style: Style, depth: nat, items: seq<Node>)
    requires forall i :: 0 <= i < |items| ==> GoodNode(items[i])
    ensures forall i :: 0 <= i < |WrittenItems(style, depth, items)| ==> GoodItem(WrittenItems(style, depth, items)[i])
    decreases items
  {
    if items != [] {
      ItemsAreGood(style, depth, items[..|items| - 1]);
      GapsAreGood(style, depth);
      WrittenIsGood(style, depth + 1, items[|items| - 1]);
    }
  }

  lemma {:induction false} FieldsAreGood(style: Style, depth: nat, fields: seq<Field>)
    requires forall i :: 0 <= i < |fields| ==> GoodField(fields[i])
    ensures forall i :: 0 <= i < |WrittenFields(style, depth, fields)| ==>
                          GoodMember(WrittenFields(style, depth, fields)[i])
    decreases fields
  {
    if fields != [] {
      FieldsAreGood(style, depth, fields[..|fields| - 1]);
      FieldIsGood(style, depth, fields[|fields| - 1]);
    }
  }

  lemma FieldIsGood(style: Style, depth: nat, field: Field)
    requires GoodField(field)
    ensures GoodMember(WrittenField(style, depth, field))
    decreases field
  {
    GapsAreGood(style, depth);
    QuotedIsGood(field.name);
    WrittenIsGood(style, depth + 1, field.value);
  }

  // ---- what a string stands for -----------------------------------------------------------

  function HexNumber(digits: string): nat {
    if digits == "" then 0
    else
      var c := digits[|digits| - 1];
      16 * HexNumber(digits[..|digits| - 1])
      + if IsDigit(c) then c as int - '0' as int
        else if 'a' <= c <= 'f' then c as int - 'a' as int + 10
        else if 'A' <= c <= 'F' then c as int - 'A' as int + 10
        else 0
  }

  /** Section 7 of RFC 8259: the code point a part of a string stands for. */
  function CodePoint(part: Part): nat {
    match part
    case Plain(c) => c as nat
    case Escape(c) =>
      (match c case 'b' => 0x08 case 't' => 0x09 case 'n' => 0x0A case 'f' => 0x0C case 'r' => 0x0D case _ => c as nat)
    case Unicode(digits) => HexNumber(digits)
  }

  /** A character is written as itself wherever RFC 8785 allows it, and always read back. */
  lemma QuoteReadsBack(c: char)
    ensures CodePoint(Quote(c)) == c as nat
    ensures Quote(c) == Plain(c) <==> ' ' <= c && c != '\"' && c != '\\'
  {
    if Quote(c).Unicode? {
      TwoHexDigits(c as nat);
    }
  }

  lemma HexDigitIs(n: nat)
    requires n < 16
    ensures HexNumber([HexDigit(n)]) == n
  {
    assert [HexDigit(n)][..0] == "" && HexNumber("") == 0;
  }

  lemma TwoHexDigits(n: nat)
    requires n < 256
    ensures HexNumber("00" + [HexDigit(n / 16), HexDigit(n % 16)]) == n
  {
    var high, low := HexDigit(n / 16), HexDigit(n % 16);
    HexDigitIs(n / 16);
    HexDigitIs(n % 16);
    assert ("00" + [high, low])[..3] == "00" + [high] && ("00" + [high])[..2] == "00";
    assert "00"[..1] == "0" && "0"[..0] == "" && HexNumber("0") == 0 && HexNumber("00") == 0;
    assert [high][..0] == "" && [low][..0] == "";
    assert HexNumber("00" + [high]) == n / 16;
  }

  /** What is written for a text stands for that text. */
  lemma {:induction false} StringsReadBack(s: string)
    ensures |Quoted(s)| == |s| && forall i :: 0 <= i < |s| ==> CodePoint(Quoted(s)[i]) == s[i] as nat
  {
    if s != "" {
      StringsReadBack(s[..|s| - 1]);
      QuoteReadsBack(s[|s| - 1]);
    }
  }

  // ---- depth and size ---------------------------------------------------------------------

  lemma {:induction false} WrittenMeasures(style: Style, depth: nat, node: Node)
    requires GoodNode(node)
    ensures Depth(Written(style, depth, node)) == NodeDepth(node)
    ensures Size(Written(style, depth, node)) == NodeSize(node)
    decreases node
  {
    match node
    case Leaf(_) =>
    case List(items) => ItemsMeasure(style, depth, items);
    case Record(fields) => FieldsMeasure(style, depth, fields);
  }

  lemma {:induction false} ItemsMeasure(style: Style, depth: nat, items: seq<Node>)
    requires forall i :: 0 <= i < |items| ==> GoodNode(items[i])
    ensures |WrittenItems(style, depth, items)| == |items|
    ensures ItemsDepth(WrittenItems(style, depth, items)) == NodesDepth(items)
    ensures ItemsSize(WrittenItems(style, depth, items)) == NodesSize(items)
    decreases items
  {
    if items != [] {
      ItemsMeasure(style, depth, items[..|items| - 1]);
      WrittenMeasures(style, depth + 1, items[|items| - 1]);
      var written := WrittenItems(style, depth, items);
      assert written[..|written| - 1] == WrittenItems(style, depth, items[..|items| - 1]);
    }
  }

  lemma {:induction false} FieldsMeasure(style: Style, depth: nat, fields: seq<Field>)
    requires forall i :: 0 <= i < |fields| ==> GoodField(fields[i])
    ensures |WrittenFields(style, depth, fields)| == |fields|
    ensures MembersDepth(WrittenFields(style, depth, fields)) == FieldsDepth(fields)
    ensures MembersSize(WrittenFields(style, depth, fields)) == FieldsSize(fields)
    decreases fields
  {
    if fields != [] {
      FieldsMeasure(style, depth, fields[..|fields| - 1]);
      FieldMeasures(style, depth, fields[|fields| - 1]);
      var written := WrittenFields(style, depth, fields);
      assert written[..|written| - 1] == WrittenFields(style, depth, fields[..|fields| - 1]);
    }
  }

  lemma FieldMeasures(style: Style, depth: nat, field: Field)
    requires GoodField(field)
    ensures MemberDepth(WrittenField(style, depth, field)) == FieldDepth(field)
    ensures MemberSize(WrittenField(style, depth, field), true) == FieldSize(field)
    ensures MemberSize(WrittenField(style, depth, field), false) == 1 + FieldSize(field)
    decreases field
  {
    WrittenMeasures(style, depth + 1, field.value);
  }

  /**
   * In either form the scan accepts a document exactly when its tree nests no deeper
   * than 32 and has no more containers, colons and commas than the budget: the
   * indentation is free.
   */
  lemma WrittenAcceptedExactly(style: Style, node: Node)
    requires GoodNode(node)
    ensures WithinLimits(CountedAll(START, Text(Written(style, 0, node))))
       <==> NodeDepth(node) <= MAX_JSON_DEPTH && NodeSize(node) <= MAX_JSON_ELEMENTS
  {
    WrittenIsGood(style, 0, node);
    WrittenMeasures(style, 0, node);
    var text := Text(Written(style, 0, node));
    JsonProofs.AcceptedExactly(NO_GAP, Written(style, 0, node));
    assert "" + text + "" == text;
  }

  // ---- length ---------------------------------------------------------------------------------

  lemma {:induction false} QuotedLen(s: string)
    requires IsPlain(s)
    ensures |PartsText(Quoted(s))| == |s| && |StringText(Quoted(s))| == |s| + 2
  {
    if s == "" {
    } else {
      QuotedLen(s[..|s| - 1]);
      var parts := Quoted(s);
      assert parts[..|parts| - 1] == Quoted(s[..|s| - 1]);
      assert Quote(s[|s| - 1]) == Plain(s[|s| - 1]);
    }
  }

  lemma StringLen(s: string)
    requires IsPlain(s)
    ensures NodeLen(StringNode(s)) == |s| + 2
  {
    QuotedLen(s);
  }

  lemma {:induction false} CompactLen(depth: nat, node: Node)
    requires GoodNode(node)
    ensures |Text(Written(Compact, depth, node))| == NodeLen(node)
    decreases node
  {
    match node
    case Leaf(_) =>
    case List(items) => ItemsLen(depth, items);
    case Record(fields) => CompactFieldsLen(depth, fields);
  }

  lemma {:induction false} ItemsLen(depth: nat, items: seq<Node>)
    requires forall i :: 0 <= i < |items| ==> GoodNode(items[i])
    ensures |WrittenItems(Compact, depth, items)| == |items|
    ensures |ItemsText(WrittenItems(Compact, depth, items))| == NodesLen(items)
    decreases items
  {
    if items != [] {
      ItemsLen(depth, items[..|items| - 1]);
      CompactLen(depth + 1, items[|items| - 1]);
      var written := WrittenItems(Compact, depth, items);
      assert written[..|written| - 1] == WrittenItems(Compact, depth, items[..|items| - 1]);
    }
  }

  lemma {:induction false} CompactFieldsLen(depth: nat, fields: seq<Field>)
    requires forall i :: 0 <= i < |fields| ==> GoodField(fields[i])
    ensures |WrittenFields(Compact, depth, fields)| == |fields|
    ensures |MembersText(WrittenFields(Compact, depth, fields))| == FieldsLen(fields)
    decreases fields
  {
    if fields != [] {
      CompactFieldsLen(depth, fields[..|fields| - 1]);
      CompactFieldLen(depth, fields[|fields| - 1]);
      var written := WrittenFields(Compact, depth, fields);
      assert written[..|written| - 1] == WrittenFields(Compact, depth, fields[..|fields| - 1]);
    }
  }

  lemma CompactFieldLen(depth: nat, field: Field)
    requires GoodField(field)
    ensures |MemberText(WrittenField(Compact, depth, field), true)| == FieldLen(field)
    ensures |MemberText(WrittenField(Compact, depth, field), false)| == 1 + FieldLen(field)
    decreases field
  {
    CompactLen(depth + 1, field.value);
  }

  lemma GapLens(c: char, depth: nat)
    ensures |Spaced(c, BreakGap(Indented, depth))| == 4 + 2 * depth
    ensures |Spaced(c, CloseGap(Indented, depth))| == 2 + 2 * depth
    ensures |Spaced(c, ColonGap(Indented))| == 2
  {
  }

  lemma ArrayLen(open: Gap, items: seq<Item>, close: Gap)
    ensures |Text(Array(open, items, close))| == |Spaced('[', open)| + |ItemsText(items)| + |Spaced(']', close)|
  {
  }

  lemma ObjectLen(open: Gap, members: seq<Member>, close: Gap)
    ensures |Text(Object(open, members, close))| == |Spaced('{', open)| + |MembersText(members)| + |Spaced('}', close)|
  {
  }

  lemma ItemsTextLen(init: seq<Item>, last: Item)
    ensures |ItemsText(init + [last])| == |ItemsText(init)| + |ItemText(last, init == [])|
  {
    var items := init + [last];
    assert items[..|items| - 1] == init;
  }

  lemma MembersTextLen(init: seq<Member>, last: Member)
    ensures |MembersText(init + [last])| == |MembersText(init)| + |MemberText(last, init == [])|
  {
    var members := init + [last];
    assert members[..|members| - 1] == init;
  }

  /** One level deeper, every line but the first moves by two. */
  lemma {:induction false} DeeperLen(depth: nat, node: Node)
    ensures |Text(Written(Indented, depth + 1, node))| == |Text(Written(Indented, depth, node))| + 2 * Breaks(node)
    decreases node
  {
    match node
    case Leaf(_) =>
    case List(items) =>
      if items != [] {
        DeeperItemsLen(depth, items);
        forall d: nat
          ensures |Text(Written(Indented, d, node))| == |ItemsText(WrittenItems(Indented, d, items))| + 6 + 4 * d
        {
          GapLens('[', d);
          GapLens(']', d);
          ArrayLen(BreakGap(Indented, d), WrittenItems(Indented, d, items), CloseGap(Indented, d));
        }
      }
    case Record(fields) =>
      if fields != [] {
        DeeperFieldsLen(depth, fields);
        forall d: nat
          ensures |Text(Written(Indented, d, node))| == |MembersText(WrittenFields(Indented, d, fields))| + 6 + 4 * d
        {
          GapLens('{', d);
          GapLens('}', d);
          ObjectLen(BreakGap(Indented, d), WrittenFields(Indented, d, fields), CloseGap(Indented, d));
        }
      }
  }

  lemma {:induction false} DeeperItemsLen(depth: nat, items: seq<Node>)
    requires items != []
    ensures |WrittenItems(Indented, depth, items)| == |WrittenItems(Indented, depth + 1, items)| == |items|
    ensures |ItemsText(WrittenItems(Indented, depth + 1, items))| + 2
         == |ItemsText(WrittenItems(Indented, depth, items))| + 2 * NodesBreaks(items)
    decreases items
  {
    var init, last := items[..|items| - 1], items[|items| - 1];
    DeeperLen(depth + 1, last);
    if init != [] {
      DeeperItemsLen(depth, init);
    }
    GapLens(',', depth);
    GapLens(',', depth + 1);
    ItemsTextLen(WrittenItems(Indented, depth, init), WrittenItem(Indented, depth, last));
    ItemsTextLen(WrittenItems(Indented, depth + 1, init), WrittenItem(Indented, depth + 1, last));
  }

  lemma {:induction false} DeeperFieldsLen(depth: nat, fields: seq<Field>)
    requires fields != []
    ensures |WrittenFields(Indented, depth, fields)| == |WrittenFields(Indented, depth + 1, fields)| == |fields|
    ensures |MembersText(WrittenFields(Indented, depth + 1, fields))| + 2
         == |MembersText(WrittenFields(Indented, depth, fields))| + 2 * FieldsBreaks(fields)
    decreases fields
  {
    var init, last := fields[..|fields| - 1], fields[|fields| - 1];
    DeeperLen(depth + 1, last.value);
    if init != [] {
      DeeperFieldsLen(depth, init);
    }
    GapLens(',', depth);
    GapLens(',', depth + 1);
    MembersTextLen(WrittenFields(Indented, depth, init), WrittenField(Indented, depth, last));
    MembersTextLen(WrittenFields(Indented, depth + 1, init), WrittenField(Indented, depth + 1, last));
  }

  /** The indented text is the compact one and its white space. */
  lemma {:induction false} IndentedLen(node: Node)
    ensures |Text(Written(Indented, 0, node))| == NodeLen(node) + Blanks(node)
    decreases node
  {
    match node
    case Leaf(_) =>
    case List(items) =>
      if items != [] {
        IndentedItemsLen(items);
        GapLens('[', 0);
        GapLens(']', 0);
        ArrayLen(BreakGap(Indented, 0), WrittenItems(Indented, 0, items), CloseGap(Indented, 0));
      }
    case Record(fields) =>
      if fields != [] {
        IndentedFieldsLen(fields);
        GapLens('{', 0);
        GapLens('}', 0);
        ObjectLen(BreakGap(Indented, 0), WrittenFields(Indented, 0, fields), CloseGap(Indented, 0));
      }
  }

  lemma {:induction false} IndentedItemsLen(items: seq<Node>)
    requires items != []
    ensures |WrittenItems(Indented, 0, items)| == |items|
    ensures |ItemsText(WrittenItems(Indented, 0, items))| + 3 == NodesLen(items) + NodesBlanks(items)
    decreases items
  {
    var init, last := items[..|items| - 1], items[|items| - 1];
    IndentedLen(last);
    DeeperLen(0, last);
    GapLens(',', 0);
    ItemsTextLen(WrittenItems(Indented, 0, init), WrittenItem(Indented, 0, last));
    if init == [] {
      assert NodesLen(init) == NodesBlanks(init) == |ItemsText(WrittenItems(Indented, 0, init))| == 0;
    } else {
      IndentedItemsLen(init);
    }
  }

  lemma {:induction false} IndentedFieldsLen(fields: seq<Field>)
    requires fields != []
    ensures |WrittenFields(Indented, 0, fields)| == |fields|
    ensures |MembersText(WrittenFields(Indented, 0, fields))| + 3 == FieldsLen(fields) + FieldsBlanks(fields)
    decreases fields
  {
    var init, last := fields[..|fields| - 1], fields[|fields| - 1];
    IndentedLen(last.value);
    DeeperLen(0, last.value);
    GapLens(',', 0);
    GapLens(':', 0);
    MembersTextLen(WrittenFields(Indented, 0, init), WrittenField(Indented, 0, last));
    if init == [] {
      assert FieldsLen(init) == FieldsBlanks(init) == |MembersText(WrittenFields(Indented, 0, init))| == 0;
    } else {
      IndentedFieldsLen(init);
    }
  }

  // ---- records of a few fields ---------------------------------------------------------------

  /** What the scan and the indentation make of a node. */
  datatype Shape = Shape(good: bool, size: nat, depth: nat, breaks: nat, blanks: nat)

  ghost function ShapeOf(node: Node): Shape {
    Shape(GoodNode(node), NodeSize(node), NodeDepth(node), Breaks(node), Blanks(node))
  }

  ghost function FieldShape(field: Field): Shape {
    Shape(GoodField(field), FieldSize(field), FieldDepth(field), FieldBreaks(field), FieldBlanks(field))
  }

  lemma StringFieldShape(name: string, s: string)
    ensures FieldShape(Field(name, StringNode(s))) == Shape(true, 1, 0, 1, 4)
  {
    StringIsGood(s);
    NodeField(name, StringNode(s));
  }

  /** A field that holds a string, as it is measured. */
  lemma StringField(name: string, s: string)
    requires IsPlain(name) && IsPlain(s)
    ensures FieldLen(Field(name, StringNode(s))) == |name| + |s| + 5
  {
    QuotedLen(name);
    StringLen(s);
  }

  lemma FieldsAppend(fields: seq<Field>, last: Field)
    ensures var comma := if fields == [] then 0 else 1;
            FieldsLen(fields + [last]) == FieldsLen(fields) + comma + FieldLen(last)
            && FieldsSize(fields + [last]) == FieldsSize(fields) + comma + FieldSize(last)
            && FieldsDepth(fields + [last]) == Max(FieldsDepth(fields), FieldDepth(last))
    ensures FieldsBreaks(fields + [last]) == FieldsBreaks(fields) + FieldBreaks(last)
    ensures FieldsBlanks(fields + [last]) == FieldsBlanks(fields) + FieldBlanks(last)
  {
    var all := fields + [last];
    assert all[..|all| - 1] == fields && all[|all| - 1] == last;
  }

  /** Fields side by side. */
  ghost function Beside(a: Shape, b: Shape): Shape {
    Shape(a.good && b.good, a.size + b.size + 1, Max(a.depth, b.depth), a.breaks + b.breaks, a.blanks + b.blanks)
  }

  /** Fields in a record, or items in a list. */
  ghost function Enclosed(a: Shape): Shape {
    Shape(a.good, 1 + a.size, 1 + a.depth, 1 + a.breaks, 1 + a.blanks)
  }

  /** A node as the value of a field. */
  ghost function AsField(a: Shape): Shape {
    Shape(a.good, 1 + a.size, a.depth, 1 + a.breaks, 4 + a.blanks + 2 * a.breaks)
  }

  lemma OneField(a: Field)
    ensures NodeLen(Record([a])) == 2 + FieldLen(a) && ShapeOf(Record([a])) == Enclosed(FieldShape(a))
  {
    FieldsAppend([], a);
    assert [] + [a] == [a];
  }

  /** Another field at the end of a record. */
  lemma MoreFields(fields: seq<Field>, last: Field, inner: Shape)
    requires fields != [] && ShapeOf(Record(fields)) == Enclosed(inner)
    ensures NodeLen(Record(fields + [last])) == NodeLen(Record(fields)) + 1 + FieldLen(last)
    ensures ShapeOf(Record(fields + [last])) == Enclosed(Beside(inner, FieldShape(last)))
  {
    FieldsAppend(fields, last);
    GoodAppend(fields, last);
  }

  lemma GoodAppend(fields: seq<Field>, last: Field)
    ensures GoodNode(Record(fields + [last])) <==> GoodNode(Record(fields)) && GoodField(last)
  {
    var all := fields + [last];
    assert all[|fields|] == last && forall i :: 0 <= i < |fields| ==> all[i] == fields[i];
  }

  lemma TwoFields(a: Field, b: Field)
    ensures NodeLen(Record([a, b])) == 3 + FieldLen(a) + FieldLen(b)
    ensures ShapeOf(Record([a, b])) == Enclosed(Beside(FieldShape(a), FieldShape(b)))
  {
    OneField(a);
    MoreFields([a], b, FieldShape(a));
    assert [a] + [b] == [a, b];
  }

  lemma ThreeFields(a: Field, b: Field, c: Field)
    ensures NodeLen(Record([a, b, c])) == 4 + FieldLen(a) + FieldLen(b) + FieldLen(c)
    ensures ShapeOf(Record([a, b, c])) == Enclosed(Beside(Beside(FieldShape(a), FieldShape(b)), FieldShape(c)))
  {
    TwoFields(a, b);
    MoreFields([a, b], c, Beside(FieldShape(a), FieldShape(b)));
    assert [a, b] + [c] == [a, b, c];
  }

  lemma FourFields(a: Field, b: Field, c: Field, d: Field)
    ensures NodeLen(Record([a, b, c, d])) == 5 + FieldLen(a) + FieldLen(b) + FieldLen(c) + FieldLen(d)
    ensures ShapeOf(Record([a, b, c, d]))
         == Enclosed(Beside(Beside(Beside(FieldShape(a), FieldShape(b)), FieldShape(c)), FieldShape(d)))
  {
    ThreeFields(a, b, c);
    MoreFields([a, b, c], d, Beside(Beside(FieldShape(a), FieldShape(b)), FieldShape(c)));
    assert [a, b, c] + [d] == [a, b, c, d];
  }

  lemma FiveFields(a: Field, b: Field, c: Field, d: Field, e: Field)
    ensures NodeLen(Record([a, b, c, d, e])) == 6 + FieldLen(a) + FieldLen(b) + FieldLen(c) + FieldLen(d) + FieldLen(e)
    ensures ShapeOf(Record([a, b, c, d, e]))
         == Enclosed(Beside(Beside(Beside(Beside(FieldShape(a), FieldShape(b)), FieldShape(c)), FieldShape(d)),
                            FieldShape(e)))
  {
    FourFields(a, b, c, d);
    MoreFields([a, b, c, d], e, Beside(Beside(Beside(FieldShape(a), FieldShape(b)), FieldShape(c)), FieldShape(d)));
    assert [a, b, c, d] + [e] == [a, b, c, d, e];
  }

  /** A record of three strings. */
  lemma ThreeStrings(a: string, x: string, b: string, y: string, c: string, z: string)
    requires IsPlain(a) && IsPlain(b) && IsPlain(c) && IsPlain(x) && IsPlain(y) && IsPlain(z)
    ensures NodeLen(Record([Field(a, StringNode(x)), Field(b, StringNode(y)), Field(c, StringNode(z))]))
         == 19 + |a| + |b| + |c| + |x| + |y| + |z|
  {
    StringField(a, x);
    StringField(b, y);
    StringField(c, z);
    ThreeFields(Field(a, StringNode(x)), Field(b, StringNode(y)), Field(c, StringNode(z)));
  }

  /** A record of five strings. */
  lemma FiveStrings(a: string, v: string, b: string, w: string, c: string, x: string, d: string, y: string, e: string,
                    z: string)
    requires IsPlain(a) && IsPlain(b) && IsPlain(c) && IsPlain(d) && IsPlain(e)
    requires IsPlain(v) && IsPlain(w) && IsPlain(x) && IsPlain(y) && IsPlain(z)
    ensures NodeLen(Record([Field(a, StringNode(v)), Field(b, StringNode(w)), Field(c, StringNode(x)),
                            Field(d, StringNode(y)), Field(e, StringNode(z))]))
         == 31 + |a| + |b| + |c| + |d| + |e| + |v| + |w| + |x| + |y| + |z|
  {
    StringField(a, v);
    StringField(b, w);
    StringField(c, x);
    StringField(d, y);
    StringField(e, z);
    FiveFields(Field(a, StringNode(v)), Field(b, StringNode(w)), Field(c, StringNode(x)), Field(d, StringNode(y)),
               Field(e, StringNode(z)));
  }

  lemma ThreeStringsShape(a: string, x: string, b: string, y: string, c: string, z: string)
    ensures ShapeOf(Record([Field(a, StringNode(x)), Field(b, StringNode(y)), Field(c, StringNode(z))]))
         == Shape(true, 6, 1, 4, 13)
  {
    StringFieldShape(a, x);
    StringFieldShape(b, y);
    StringFieldShape(c, z);
    ThreeFields(Field(a, StringNode(x)), Field(b, StringNode(y)), Field(c, StringNode(z)));
  }

  lemma FiveStringsShape(a: string, v: string, b: string, w: string, c: string, x: string, d: string, y: string,
                         e: string, z: string)
    ensures ShapeOf(Record([Field(a, StringNode(v)), Field(b, StringNode(w)), Field(c, StringNode(x)),
                            Field(d, StringNode(y)), Field(e, StringNode(z))]))
         == Shape(true, 10, 1, 6, 21)
  {
    StringFieldShape(a, v);
    StringFieldShape(b, w);
    StringFieldShape(c, x);
    StringFieldShape(d, y);
    StringFieldShape(e, z);
    FiveFields(Field(a, StringNode(v)), Field(b, StringNode(w)), Field(c, StringNode(x)), Field(d, StringNode(y)),
               Field(e, StringNode(z)));
  }

  /** A record of some field and three strings. */
  lemma FieldAndThree(f: Field, a: string, x: string, b: string, y: string, c: string, z: string)
    requires IsPlain(a) && IsPlain(b) && IsPlain(c) && IsPlain(x) && IsPlain(y) && IsPlain(z)
    ensures NodeLen(Record([f, Field(a, StringNode(x)), Field(b, StringNode(y)), Field(c, StringNode(z))]))
         == 20 + FieldLen(f) + |a| + |b| + |c| + |x| + |y| + |z|
  {
    StringField(a, x);
    StringField(b, y);
    StringField(c, z);
    FourFields(f, Field(a, StringNode(x)), Field(b, StringNode(y)), Field(c, StringNode(z)));
  }

  lemma FieldAndThreeShape(f: Field, a: string, x: string, b: string, y: string, c: string, z: string)
    ensures ShapeOf(Record([f, Field(a, StringNode(x)), Field(b, StringNode(y)), Field(c, StringNode(z))]))
         == Shape(FieldShape(f).good, 7 + FieldShape(f).size, 1 + FieldShape(f).depth, 4 + FieldShape(f).breaks,
                  13 + FieldShape(f).blanks)
  {
    StringFieldShape(a, x);
    StringFieldShape(b, y);
    StringFieldShape(c, z);
    FourFields(f, Field(a, StringNode(x)), Field(b, StringNode(y)), Field(c, StringNode(z)));
  }

  /** A record of four strings and some field. */
  lemma FourAndField(a: string, w: string, b: string, x: string, c: string, y: string, d: string, z: string, f: Field)
    requires IsPlain(a) && IsPlain(b) && IsPlain(c) && IsPlain(d)
    requires IsPlain(w) && IsPlain(x) && IsPlain(y) && IsPlain(z)
    ensures NodeLen(Record([Field(a, StringNode(w)), Field(b, StringNode(x)), Field(c, StringNode(y)),
                            Field(d, StringNode(z)), f]))
         == 26 + |a| + |b| + |c| + |d| + |w| + |x| + |y| + |z| + FieldLen(f)
  {
    StringField(a, w);
    StringField(b, x);
    StringField(c, y);
    StringField(d, z);
    FiveFields(Field(a, StringNode(w)), Field(b, StringNode(x)), Field(c, StringNode(y)), Field(d, StringNode(z)), f);
  }

  lemma FourAndFieldShape(a: string, w: string, b: string, x: string, c: string, y: string, d: string, z: string,
                          f: Field)
    ensures ShapeOf(Record([Field(a, StringNode(w)), Field(b, StringNode(x)), Field(c, StringNode(y)),
                            Field(d, StringNode(z)), f]))
         == Shape(FieldShape(f).good, 9 + FieldShape(f).size, 1 + FieldShape(f).depth, 5 + FieldShape(f).breaks,
                  17 + FieldShape(f).blanks)
  {
    StringFieldShape(a, w);
    StringFieldShape(b, x);
    StringFieldShape(c, y);
    StringFieldShape(d, z);
    FiveFields(Field(a, StringNode(w)), Field(b, StringNode(x)), Field(c, StringNode(y)), Field(d, StringNode(z)), f);
  }

  /** A record of two fields of any shape. */
  lemma TwoNodes(a: string, x: Node, b: string, y: Node)
    requires IsPlain(a) && IsPlain(b)
    ensures ShapeOf(Record([Field(a, x), Field(b, y)])) == Enclosed(Beside(AsField(ShapeOf(x)), AsField(ShapeOf(y))))
    ensures NodeLen(Record([Field(a, x), Field(b, y)])) == 9 + |a| + |b| + NodeLen(x) + NodeLen(y)
  {
    NodeField(a, x);
    NodeField(b, y);
    NodeFieldLen(a, x);
    NodeFieldLen(b, y);
    TwoFields(Field(a, x), Field(b, y));
  }

  /** A record of two strings, some field, and two strings. */
  lemma FieldBetween(a: string, w: string, b: string, x: string, f: Field, c: string, y: string, d: string, z: string)
    requires IsPlain(a) && IsPlain(b) && IsPlain(c) && IsPlain(d)
    ensures var node := Record([Field(a, StringNode(w)), Field(b, StringNode(x)), f, Field(c, StringNode(y)),
                                Field(d, StringNode(z))]);
            ShapeOf(node) == Shape(FieldShape(f).good, 9 + FieldShape(f).size, 1 + FieldShape(f).depth,
                                   5 + FieldShape(f).breaks, 17 + FieldShape(f).blanks)
            && (IsPlain(w) && IsPlain(x) && IsPlain(y) && IsPlain(z) ==>
                  NodeLen(node) == 26 + |a| + |b| + |c| + |d| + |w| + |x| + |y| + |z| + FieldLen(f))
  {
    StringFieldShape(a, w);
    StringFieldShape(b, x);
    StringFieldShape(c, y);
    StringFieldShape(d, z);
    FiveFields(Field(a, StringNode(w)), Field(b, StringNode(x)), f, Field(c, StringNode(y)), Field(d, StringNode(z)));
    if IsPlain(w) && IsPlain(x) && IsPlain(y) && IsPlain(z) {
      StringField(a, w);
      StringField(b, x);
      StringField(c, y);
      StringField(d, z);
    }
  }

  /** The length of a field is the length of its value, its name, the quotes and the colon. */
  lemma NodeFieldLen(name: string, node: Node)
    requires IsPlain(name)
    ensures FieldLen(Field(name, node)) == |name| + 3 + NodeLen(node)
  {
    QuotedLen(name);
  }

  // ---- lists of like nodes ------------------------------------------------------------------

  lemma NodesAppend(nodes: seq<Node>, last: Node)
    ensures var comma := if nodes == [] then 0 else 1;
            NodesLen(nodes + [last]) == NodesLen(nodes) + comma + NodeLen(last)
            && NodesSize(nodes + [last]) == NodesSize(nodes) + comma + NodeSize(last)
            && NodesDepth(nodes + [last]) == Max(NodesDepth(nodes), NodeDepth(last))
    ensures NodesBreaks(nodes + [last]) == NodesBreaks(nodes) + 1 + Breaks(last)
    ensures NodesBlanks(nodes + [last]) == NodesBlanks(nodes) + 3 + Blanks(last) + 2 * Breaks(last)
  {
    var all := nodes + [last];
    assert all[..|all| - 1] == nodes && all[|all| - 1] == last;
  }

  ghost predicate AllShaped(nodes: seq<Node>, shape: Shape) {
    forall i :: 0 <= i < |nodes| ==> ShapeOf(nodes[i]) == shape
  }

  lemma AllGood(nodes: seq<Node>, shape: Shape)
    requires AllShaped(nodes, shape) && shape.good
    ensures GoodNode(List(nodes))
  {
    forall i | 0 <= i < |nodes|
      ensures GoodNode(nodes[i])
    {
      assert ShapeOf(nodes[i]) == shape;
    }
  }

  lemma {:induction false} CopiesAre(a: nat, n: nat)
    ensures Copies(a, n) == a * n
  {
    if n > 0 {
      CopiesAre(a, n - 1);
    }
  }

  /** So many elements, line breaks and blanks for each item of a list. */
  lemma {:induction false} LikeNodesMeasure(nodes: seq<Node>, shape: Shape)
    requires AllShaped(nodes, shape)
    ensures NodesDepth(nodes) == (if nodes == [] then 0 else shape.depth)
    ensures NodesSize(nodes) == if nodes == [] then 0 else Copies(shape.size + 1, |nodes|) - 1
    ensures NodesBreaks(nodes) == Copies(1 + shape.breaks, |nodes|)
    ensures NodesBlanks(nodes) == Copies(3 + shape.blanks + 2 * shape.breaks, |nodes|)
  {
    if nodes != [] {
      var init, last := nodes[..|nodes| - 1], nodes[|nodes| - 1];
      LikeNodesMeasure(init, shape);
      assert ShapeOf(last) == shape;
    }
  }

  lemma LikeNodes(nodes: seq<Node>, shape: Shape)
    requires AllShaped(nodes, shape) && shape.good && shape.depth == 1
    ensures ShapeOf(List(nodes))
         == if nodes == [] then Shape(true, 1, 1, 0, 0)
            else Shape(true, (shape.size + 1) * |nodes|, 2, 1 + (1 + shape.breaks) * |nodes|,
                       1 + (3 + shape.blanks + 2 * shape.breaks) * |nodes|)
  {
    AllGood(nodes, shape);
    LikeNodesMeasure(nodes, shape);
    CopiesAre(shape.size + 1, |nodes|);
    CopiesAre(1 + shape.breaks, |nodes|);
    CopiesAre(3 + shape.blanks + 2 * shape.breaks, |nodes|);
  }

  lemma ListField(name: string, items: seq<Node>)
    requires IsPlain(name)
    ensures FieldLen(Field(name, List(items))) == |name| + 5 + NodesLen(items)
  {
    QuotedLen(name);
  }

  /** A field is shaped like its value and a colon. */
  lemma NodeField(name: string, node: Node)
    ensures FieldShape(Field(name, node)) == AsField(ShapeOf(node))
  {
  }

  lemma {:induction false} NodesLenIs(nodes: seq<Node>, lens: seq<nat>)
    requires |nodes| == |lens| && forall i :: 0 <= i < |nodes| ==> NodeLen(nodes[i]) == lens[i]
    ensures NodesLen(nodes) == if nodes == [] then 0 else Sum(lens) + |lens| - 1
  {
    if nodes != [] {
      var init, last := nodes[..|nodes| - 1], nodes[|nodes| - 1];
      NodesLenIs(init, lens[..|lens| - 1]);
      NodesAppend(init, last);
      assert nodes == init + [last];
    }
  }
}
