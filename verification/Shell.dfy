/**
 * Repair commands an operator can paste: a path quoted as one POSIX shell word.
 * A path is `None` when its bytes are not valid UTF-8; making it absolute is a
 * matter for the caller.
 */
module Shell {
  import opened Wrappers
  import opened Display

  predicate AnyNeedsPlaceholder(raw: string) {
    exists i :: 0 <= i < |raw| && NeedsPlaceholder(raw[i])
  }

  /** The characters between the outer quotes. */
  function Requoted(raw: string): string {
    if raw == "" then ""
    else
      var last := raw[|raw| - 1];
      Requoted(raw[..|raw| - 1]) + (if last == '\'' then "'\\''" else [last])
  }

  function QuotedArgument(path: Option<string>): Option<string> {
    match path
    case None => None
    case Some(raw) => if AnyNeedsPlaceholder(raw) then None else Some("'" + Requoted(raw) + "'")
  }

  method QuotePosixArgument(path: Option<string>) returns (quoted: Option<string>)
    ensures quoted == QuotedArgument(path)
  {
    if path.None? {
      return None;
    }
    var raw := path.value;
    if AnyNeedsPlaceholder(raw) {
      return None;
    }
    var text := "'";
    for i := 0 to |raw|
      invariant text == "'" + Requoted(raw[..i])
    {
      assert raw[..i + 1][..i] == raw[..i];
      if raw[i] == '\'' {
        text := text + "'\\''";
      } else {
        text := text + [raw[i]];
      }
    }
    assert raw[..|raw|] == raw;
    return Some(text + "'");
  }

  /** `absolute` is the path made absolute, or `None` when that failed. */
  function RepairCommand(command: string, absolute: Option<string>): Option<string> {
    match QuotedArgument(absolute)
    case None => None
    case Some(argument) => Some(command + " -- " + argument)
  }

  // ---- the shell that reads it ----------------------------------------------------

  datatype Mode = Unquoted | AfterBackslash | InQuotes

  /** The words completed so far, and the one being read, if any. */
  datatype Lexer = Lexer(words: seq<string>, word: Option<string>, mode: Mode)

  const BEGIN := Lexer([], None, Unquoted)

  /**
   * Characters POSIX XCU section 2.2 reserves when unquoted, apart from blanks,
   * the backslash and the single quote. The tokenizer gives up on them.
   */
  predicate Reserved(c: char) {
    c in "|&;<>()$`\"\n*?[#~=%"
  }

  function WithChar(lexer: Lexer, c: char): Lexer {
    lexer.(word := Some((if lexer.word.Some? then lexer.word.value else "") + [c]), mode := Unquoted)
  }

  function EndWord(lexer: Lexer): seq<string> {
    lexer.words + if lexer.word.Some? then [lexer.word.value] else []
  }

  /** Sections 2.2.1 (backslash), 2.2.2 (single quotes) and 2.3 (token recognition). */
  function Lexed(lexer: Lexer, c: char): Option<Lexer> {
    match lexer.mode
    case InQuotes =>
      if c == '\'' then Some(lexer.(mode := Unquoted)) else Some(WithChar(lexer, c).(mode := InQuotes))
    case AfterBackslash =>
      if c == '\n' then Some(lexer.(mode := Unquoted)) else Some(WithChar(lexer, c))
    case Unquoted =>
      if c == ' ' || c == '\t' then Some(Lexer(EndWord(lexer), None, Unquoted))
      else if c == '\'' then
        Some(lexer.(word := Some(if lexer.word.Some? then lexer.word.value else ""), mode := InQuotes))
      else if c == '\\' then Some(lexer.(mode := AfterBackslash))
      else if Reserved(c) then None
      else Some(WithChar(lexer, c))
  }

  function LexedAll(lexer: Lexer, text: string): Option<Lexer> {
    if text == "" then Some(lexer)
    else
      var before := LexedAll(lexer, text[..|text| - 1]);
      if before.None? then None else Lexed(before.value, text[|text| - 1])
  }

  /** The words of a command line, or `None` where it is not one the tokenizer covers. */
  function Tokens(text: string): Option<seq<string>> {
    match LexedAll(BEGIN, text)
    case None => None
    case Some(lexer) => if lexer.mode.Unquoted? then Some(EndWord(lexer)) else None
  }

  // ---- the round trip ---------------------------------------------------------------

  lemma {:induction false} LexedConcat(lexer: Lexer, a: string, b: string)
    requires LexedAll(lexer, a).Some?
    ensures LexedAll(lexer, a + b) == LexedAll(LexedAll(lexer, a).value, b)
  {
    if b == "" {
      assert a + b == a;
    } else {
      assert (a + b)[..|a + b| - 1] == a + b[..|b| - 1];
      LexedConcat(lexer, a, b[..|b| - 1]);
    }
  }

  lemma LexedOne(lexer: Lexer, c: char)
    ensures LexedAll(lexer, [c]) == Lexed(lexer, c)
  {
    assert [c][..0] == "" && LexedAll(lexer, "") == Some(lexer);
  }

  lemma LexedTwo(lexer: Lexer, c: char, d: char)
    requires Lexed(lexer, c).Some?
    ensures LexedAll(lexer, [c, d]) == Lexed(Lexed(lexer, c).value, d)
  {
    LexedOne(lexer, c);
    assert [c, d][..1] == [c];
  }

  lemma QuoteSpelledOut(lexer: Lexer)
    requires lexer.mode.InQuotes? && lexer.word.Some?
    ensures LexedAll(lexer, "'\\''") == Some(lexer.(word := Some(lexer.word.value + ['\''])))
  {
    assert "'\\''" == ['\'', '\\'] + ['\'', '\''];
    LexedTwo(lexer, '\'', '\\');
    LexedConcat(lexer, ['\'', '\\'], ['\'', '\'']);
    LexedTwo(lexer.(mode := AfterBackslash), '\'', '\'');
  }

  /** Inside the quotes the tokenizer reads back the raw characters, all in one word. */
  lemma {:induction false} RequotedReadsBack(lexer: Lexer, raw: string)
    requires lexer.mode.InQuotes? && lexer.word.Some?
    ensures LexedAll(lexer, Requoted(raw)) == Some(lexer.(word := Some(lexer.word.value + raw)))
  {
    if raw == "" {
      assert lexer.word.value + raw == lexer.word.value;
    } else {
      var init, last := raw[..|raw| - 1], raw[|raw| - 1];
      RequotedReadsBack(lexer, init);
      var before := lexer.(word := Some(lexer.word.value + init));
      assert lexer.word.value + raw == lexer.word.value + init + [last];
      LexedConcat(lexer, Requoted(init), if last == '\'' then "'\\''" else [last]);
      if last == '\'' {
        QuoteSpelledOut(before);
      } else {
        LexedOne(before, last);
      }
    }
  }

  lemma QuotedIsOneWord(lexer: Lexer, raw: string)
    requires lexer.mode.Unquoted? && lexer.word.None?
    ensures LexedAll(lexer, "'" + Requoted(raw) + "'") == Some(lexer.(word := Some(raw)))
  {
    var inside := lexer.(word := Some(""), mode := InQuotes);
    LexedOne(lexer, '\'');
    LexedConcat(lexer, "'", Requoted(raw));
    RequotedReadsBack(inside, raw);
    assert "" + raw == raw;
    LexedConcat(lexer, "'" + Requoted(raw), "'");
    LexedOne(inside.(word := Some(raw)), '\'');
  }

  lemma SeparatorIsOneWord(lexer: Lexer)
    requires lexer.mode.Unquoted?
    ensures LexedAll(lexer, " -- ") == Some(Lexer(EndWord(lexer) + ["--"], None, Unquoted))
  {
    var between := Lexer(EndWord(lexer), None, Unquoted);
    LexedOne(lexer, ' ');
    DashesAreOneWord(between);
    LexedConcat(lexer, " ", "-- ");
    assert " " + "-- " == " -- ";
  }

  lemma DashesAreOneWord(between: Lexer)
    requires between.mode.Unquoted? && between.word.None?
    ensures LexedAll(between, "-- ") == Some(Lexer(between.words + ["--"], None, Unquoted))
  {
    var dashes := between.(word := Some("--"));
    LexedTwo(between, '-', '-');
    assert "" + ['-'] == "-" && "-" + ['-'] == "--";
    LexedConcat(between, "--", " ");
    LexedOne(dashes, ' ');
    assert "--" + " " == "-- " && ['-', '-'] == "--";
  }

  /**
   * A command is shown exactly when the path is valid text that shows as itself;
   * the shell reads it as the command's own words, the `--`, and the path.
   */
  lemma RepairCommandNamesThePath(command: string, absolute: Option<string>)
    ensures RepairCommand(command, absolute).Some? <==> absolute.Some? && Showable(absolute.value)
    ensures RepairCommand(command, absolute).Some? && Tokens(command).Some? ==>
              Tokens(RepairCommand(command, absolute).value) == Some(Tokens(command).value + ["--", absolute.value])
  {
    if RepairCommand(command, absolute).Some? && Tokens(command).Some? {
      var raw := absolute.value;
      var argument := "'" + Requoted(raw) + "'";
      var done := LexedAll(BEGIN, command).value;
      LexedConcat(BEGIN, command, " -- ");
      SeparatorIsOneWord(done);
      LexedConcat(BEGIN, command + " -- ", argument);
      QuotedIsOneWord(Lexer(EndWord(done) + ["--"], None, Unquoted), raw);
      assert EndWord(done) + ["--"] + [raw] == EndWord(done) + ["--", raw];
    }
  }

  lemma {:induction false} RequotedIsShowable(raw: string)
    requires Showable(raw)
    ensures Showable(Requoted(raw))
  {
    if raw == "" {
    } else {
      RequotedIsShowable(raw[..|raw| - 1]);
      assert !NeedsPlaceholder(raw[|raw| - 1]);
      AsciiAndMarkShow('\'');
      AsciiAndMarkShow('\\');
    }
  }

  /** A shown command cannot forge a line or reorder itself on the terminal it is printed to. */
  lemma RepairCommandIsShowable(command: string, absolute: Option<string>)
    requires Showable(command) && RepairCommand(command, absolute).Some?
    ensures Showable(RepairCommand(command, absolute).value)
  {
    RequotedIsShowable(absolute.value);
    AsciiAndMarkShow(' ');
    AsciiAndMarkShow('-');
    AsciiAndMarkShow('\'');
  }
}
