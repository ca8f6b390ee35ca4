/** Quoting for the login shell (packages/tui-supervisor/src/PtyProxy.ts), against the shell's own rules for quoting:
    sections 2.2.1 and 2.2.2 of the Shell Command Language of POSIX.1-2017. */
module ShellQuoting {
  import opened Options

  function EscapeQuotes(value: string): string {
    if value == "" then ""
    else (if value[0] == '\'' then "'\\''" else [value[0]]) + EscapeQuotes(value[1..])
  }

  function ShellSingleQuote(value: string): string {
    "'" + EscapeQuotes(value) + "'"
  }

  /** The pane variables that are set and not empty, in their order. */
  function Assignments(tmux: string, tmuxPane: string): seq<string> {
    (if tmux == "" then [] else ["TMUX=" + ShellSingleQuote(tmux)])
    + (if tmuxPane == "" then [] else ["TMUX_PANE=" + ShellSingleQuote(tmuxPane)])
  }

  function Spaced(words: seq<string>): string {
    if words == [] then "" else if |words| == 1 then words[0] else words[0] + " " + Spaced(words[1..])
  }

  /** An absent variable is the empty string. */
  function BuildLoginShellCommand(cmd: string, tmux: string, tmuxPane: string): string {
    var assignments := Assignments(tmux, tmuxPane);
    if assignments == [] then cmd else "export " + Spaced(assignments) + "; " + cmd
  }

  // ---- How a shell reads it ----

  /** Characters that end a word outside quotes. */
  predicate EndsWord(c: char) {
    c == ' ' || c == '\t' || c == '\n' || c == ';' || c == '&' || c == '|' || c == '<' || c == '>' || c == '('
      || c == ')'
  }

  /** Characters that start an expansion or double quotes, which this fragment of the shell does not cover. */
  predicate Expands(c: char) {
    c == '$' || c == '`' || c == '\"' || c == '*' || c == '?' || c == '[' || c == '#' || c == '~'
  }

  datatype Word = Word(value: string, rest: string)

  function Prepend(c: char, w: Option<Word>): Option<Word> {
    if w.None? then None else Some(Word([c] + w.value.value, w.value.rest))
  }

  /** One word: a backslash outside quotes keeps the next character (and joins lines), single quotes keep everything
      up to the next one. None stands for an unfinished word, or one outside the fragment. */
  function ReadWord(quoted: bool, s: string): (r: Option<Word>)
    ensures r.Some? ==> |r.value.rest| <= |s|
    ensures r.Some? && (quoted || (s != "" && !EndsWord(s[0]))) ==> |r.value.rest| < |s|
    decreases |s|
  {
    if quoted then
      if s == "" then None
      else if s[0] == '\'' then ReadWord(false, s[1..])
      else Prepend(s[0], ReadWord(true, s[1..]))
    else
      if s == "" || EndsWord(s[0]) then Some(Word("", s))
      else if s[0] == '\'' then ReadWord(true, s[1..])
      else if s[0] == '\\' then
        if |s| < 2 then None
        else if s[1] == '\n' then ReadWord(false, s[2..])
        else Prepend(s[1], ReadWord(false, s[2..]))
      else if Expands(s[0]) then None
      else Prepend(s[0], ReadWord(false, s[1..]))
  }

  /** The words of a simple command, and what follows its terminating semicolon. */
  datatype Simple = Simple(words: seq<string>, rest: string)

  function ReadSimple(s: string): Option<Simple>
    decreases |s|
  {
    if s == "" then None
    else if s[0] == ';' then Some(Simple([], s[1..]))
    else if s[0] == ' ' then ReadSimple(s[1..])
    else if EndsWord(s[0]) then None
    else
      var w := ReadWord(false, s);
      if w.None? then None else
        var more := ReadSimple(w.value.rest);
        if more.None? then None else Some(Simple([w.value.value] + more.value.words, more.value.rest))
  }

  function PrependAll(prefix: string, w: Option<Word>): Option<Word> {
    if w.None? then None else Some(Word(prefix + w.value.value, w.value.rest))
  }

  /** Inside quotes, an escaped value is read as the value itself, and leaves the quotes as it found them. */
  lemma {:induction false} ReadEscaped(value: string, s: string)
    ensures ReadWord(true, EscapeQuotes(value) + s) == PrependAll(value, ReadWord(true, s))
    decreases |value|
  {
    if value == "" {
      assert EscapeQuotes(value) + s == s;
      assert ReadWord(true, s).Some? ==> "" + ReadWord(true, s).value.value == ReadWord(true, s).value.value;
    } else {
      var c := value[0];
      var tail := EscapeQuotes(value[1..]) + s;
      ReadEscaped(value[1..], s);
      PrependOne(c, value[1..], ReadWord(true, s));
      assert value == [c] + value[1..];
      if c == '\'' {
        assert EscapeQuotes(value) + s == ['\'', '\\', '\'', '\''] + tail;
        ReadQuoteDance(tail);
      } else {
        assert (EscapeQuotes(value) + s)[0] == c && (EscapeQuotes(value) + s)[1..] == tail;
      }
    }
  }

  /** Closing the quotes, an escaped quote, and opening them again reads as one quote. */
  lemma ReadQuoteDance(tail: string)
    ensures ReadWord(true, ['\'', '\\', '\'', '\''] + tail) == Prepend('\'', ReadWord(true, tail))
  {
    var s := ['\'', '\\', '\'', '\''] + tail;
    var s1 := ['\\', '\'', '\''] + tail;
    var s2 := ['\''] + tail;
    assert s[1..] == s1 && s1[2..] == s2 && s2[1..] == tail;
    assert ReadWord(false, s2) == ReadWord(true, tail);
    assert ReadWord(false, s1) == Prepend('\'', ReadWord(false, s2));
    assert ReadWord(true, s) == ReadWord(false, s1);
  }

  /** A quoted value followed by anything is read as the value, then whatever follows. */
  lemma QuoteRoundTrip(value: string, rest: string)
    ensures ReadWord(false, ShellSingleQuote(value) + rest) == PrependAll(value, ReadWord(false, rest))
  {
    QuotedText(value, rest);
    QuoteOpens(EscapeQuotes(value) + (['\''] + rest));
    ReadEscaped(value, ['\''] + rest);
    QuoteCloses(rest);
  }

  lemma QuotedText(value: string, rest: string)
    ensures ShellSingleQuote(value) + rest == ['\''] + (EscapeQuotes(value) + (['\''] + rest))
  {
  }

  lemma QuoteOpens(t: string)
    ensures ReadWord(false, ['\''] + t) == ReadWord(true, t)
  {
    assert (['\''] + t)[1..] == t;
  }

  lemma QuoteCloses(t: string)
    ensures ReadWord(true, ['\''] + t) == ReadWord(false, t)
  {
    assert (['\''] + t)[1..] == t;
  }

  /** A quoted value is exactly one word. */
  lemma QuotedIsOneWord(value: string, rest: string)
    requires rest == "" || EndsWord(rest[0])
    ensures ReadWord(false, ShellSingleQuote(value) + rest) == Some(Word(value, rest))
  {
    QuoteRoundTrip(value, rest);
    assert value + "" == value;
  }

  predicate PlainChar(c: char) {
    'A' <= c <= 'Z' || 'a' <= c <= 'z' || c == '_' || c == '='
  }

  predicate PlainName(name: string) {
    forall i | 0 <= i < |name| :: PlainChar(name[i])
  }

  lemma ReadPlainChar(c: char, s: string)
    requires PlainChar(c)
    ensures ReadWord(false, [c] + s) == Prepend(c, ReadWord(false, s))
  {
    assert ([c] + s)[1..] == s;
  }

  lemma {:induction false} ReadPlain(name: string, s: string)
    requires PlainName(name)
    ensures ReadWord(false, name + s) == PrependAll(name, ReadWord(false, s))
    decreases |name|
  {
    if name == "" {
      assert name + s == s;
      assert ReadWord(false, s).Some? ==> "" + ReadWord(false, s).value.value == ReadWord(false, s).value.value;
    } else {
      var c, tail := name[0], name[1..];
      assert name + s == [c] + (tail + s);
      ReadPlainChar(c, tail + s);
      ReadPlain(tail, s);
      PrependOne(c, tail, ReadWord(false, s));
      assert name == [c] + tail;
    }
  }

  lemma PrependOne(c: char, prefix: string, w: Option<Word>)
    ensures Prepend(c, PrependAll(prefix, w)) == PrependAll([c] + prefix, w)
  {
    if w.Some? {
      assert [c] + (prefix + w.value.value) == ([c] + prefix) + w.value.value;
    }
  }

  /** `NAME='value'` followed by the end of a word is one word, the value restored. */
  lemma ReadAssignment(name: string, value: string, rest: string)
    requires PlainName(name) && (rest == "" || EndsWord(rest[0]))
    ensures ReadWord(false, name + ShellSingleQuote(value) + rest) == Some(Word(name + value, rest))
  {
    assert name + ShellSingleQuote(value) + rest == name + (ShellSingleQuote(value) + rest);
    ReadPlain(name, ShellSingleQuote(value) + rest);
    QuotedIsOneWord(value, rest);
  }

  /** One word, then the rest of the simple command. */
  lemma ReadSimpleStep(s: string, value: string, rest: string)
    requires s != "" && !EndsWord(s[0]) && ReadWord(false, s) == Some(Word(value, rest))
    ensures ReadSimple(s)
         == if ReadSimple(rest).None? then None
            else Some(Simple([value] + ReadSimple(rest).value.words, ReadSimple(rest).value.rest))
  {
  }

  function Restored(tmux: string, tmuxPane: string): seq<string> {
    (if tmux == "" then [] else ["TMUX=" + tmux]) + (if tmuxPane == "" then [] else ["TMUX_PANE=" + tmuxPane])
  }

  lemma ReadEnd(cmd: string)
    ensures ReadSimple("; " + cmd) == Some(Simple([], " " + cmd))
  {
    assert ("; " + cmd)[1..] == " " + cmd;
  }

  lemma ReadBlank(s: string)
    ensures ReadSimple(" " + s) == ReadSimple(s)
  {
    assert (" " + s)[1..] == s;
  }

  lemma ReadLastAssignment(name: string, value: string, cmd: string)
    requires PlainName(name) && name != ""
    ensures ReadSimple(name + ShellSingleQuote(value) + ("; " + cmd)) == Some(Simple([name + value], " " + cmd))
  {
    var rest := "; " + cmd;
    var s := name + ShellSingleQuote(value) + rest;
    ReadAssignment(name, value, rest);
    assert s[0] == name[0] && PlainChar(name[0]);
    ReadEnd(cmd);
    ReadSimpleStep(s, name + value, rest);
    assert [name + value] + [] == [name + value];
  }

  lemma ReadFirstAssignment(name: string, value: string, s: string)
    requires PlainName(name) && name != ""
    ensures ReadSimple(name + ShellSingleQuote(value) + (" " + s))
         == if ReadSimple(s).None? then None
            else Some(Simple([name + value] + ReadSimple(s).value.words, ReadSimple(s).value.rest))
  {
    var rest := " " + s;
    var w := name + ShellSingleQuote(value) + rest;
    ReadAssignment(name, value, rest);
    assert w[0] == name[0] && PlainChar(name[0]);
    ReadBlank(s);
    ReadSimpleStep(w, name + value, rest);
  }

  /** A plain word and a blank, then the rest of the simple command. */
  lemma ReadCommandName(name: string, s: string)
    requires PlainName(name) && name != ""
    ensures ReadSimple(name + (" " + s))
         == if ReadSimple(s).None? then None
            else Some(Simple([name] + ReadSimple(s).value.words, ReadSimple(s).value.rest))
  {
    var rest := " " + s;
    var w := name + rest;
    ReadPlain(name, rest);
    assert ReadWord(false, rest) == Some(Word("", rest));
    assert name + "" == name;
    assert w[0] == name[0] && PlainChar(name[0]);
    ReadBlank(s);
    ReadSimpleStep(w, name, rest);
  }

  lemma ReadExport(s: string)
    ensures ReadSimple("export " + s)
         == if ReadSimple(s).None? then None
            else Some(Simple(["export"] + ReadSimple(s).value.words, ReadSimple(s).value.rest))
  {
    assert "export " + s == "export" + (" " + s);
    ReadCommandName("export", s);
  }

  lemma BothAssigned(cmd: string, tmux: string, tmuxPane: string)
    requires tmux != "" && tmuxPane != ""
    ensures BuildLoginShellCommand(cmd, tmux, tmuxPane)
         == "export " + ("TMUX=" + ShellSingleQuote(tmux) +
                         (" " + ("TMUX_PANE=" + ShellSingleQuote(tmuxPane) + ("; " + cmd))))
  {
    var first, second := "TMUX=" + ShellSingleQuote(tmux), "TMUX_PANE=" + ShellSingleQuote(tmuxPane);
    assert Assignments(tmux, tmuxPane) == [first, second];
    assert [first, second][1..] == [second];
    assert Spaced([first, second]) == first + " " + second;
    Regroup(first, second, cmd);
  }

  lemma Regroup(first: string, second: string, cmd: string)
    ensures "export " + (first + " " + second) + "; " + cmd == "export " + (first + (" " + (second + ("; " + cmd))))
  {
  }

  lemma RestoreBoth(cmd: string, tmux: string, tmuxPane: string)
    requires tmux != "" && tmuxPane != ""
    ensures ReadSimple(BuildLoginShellCommand(cmd, tmux, tmuxPane))
         == Some(Simple(["export"] + (["TMUX=" + tmux] + ["TMUX_PANE=" + tmuxPane]), " " + cmd))
  {
    var s := "TMUX_PANE=" + ShellSingleQuote(tmuxPane) + ("; " + cmd);
    BothAssigned(cmd, tmux, tmuxPane);
    ReadLastAssignment("TMUX_PANE=", tmuxPane, cmd);
    ExportedTwice("TMUX=", tmux, s, "TMUX_PANE=" + tmuxPane, " " + cmd);
  }

  /** export, an assignment, and what reads as one more. */
  lemma ExportedTwice(name: string, value: string, s: string, word: string, rest: string)
    requires PlainName(name) && name != "" && ReadSimple(s) == Some(Simple([word], rest))
    ensures ReadSimple("export " + (name + ShellSingleQuote(value) + (" " + s)))
         == Some(Simple(["export"] + ([name + value] + [word]), rest))
  {
    ReadFirstAssignment(name, value, s);
    ReadExport(name + ShellSingleQuote(value) + (" " + s));
  }

  lemma RestoreOne(cmd: string, name: string, value: string, built: string)
    requires PlainName(name) && name != ""
    requires built == "export " + Spaced([name + ShellSingleQuote(value)]) + "; " + cmd
    ensures ReadSimple(built) == Some(Simple(["export"] + [name + value], " " + cmd))
  {
    var s := name + ShellSingleQuote(value) + ("; " + cmd);
    assert built == "export " + s;
    ReadExport(s);
    ReadLastAssignment(name, value, cmd);
  }

  /** A shell reads the built command as one export that restores each variable to its value, followed by the command,
      unchanged; without variables it is the command alone. */
  lemma LoginCommandRestores(cmd: string, tmux: string, tmuxPane: string)
    ensures var built := BuildLoginShellCommand(cmd, tmux, tmuxPane);
            if tmux == "" && tmuxPane == "" then built == cmd
            else ReadSimple(built) == Some(Simple(["export"] + Restored(tmux, tmuxPane), " " + cmd))
  {
    var built := BuildLoginShellCommand(cmd, tmux, tmuxPane);
    if tmux != "" && tmuxPane != "" {
      RestoreBoth(cmd, tmux, tmuxPane);
    } else if tmux != "" {
      assert Assignments(tmux, tmuxPane) == ["TMUX=" + ShellSingleQuote(tmux)];
      RestoreOne(cmd, "TMUX=", tmux, built);
      assert Restored(tmux, tmuxPane) == ["TMUX=" + tmux];
    } else if tmuxPane != "" {
      assert Assignments(tmux, tmuxPane) == ["TMUX_PANE=" + ShellSingleQuote(tmuxPane)];
      RestoreOne(cmd, "TMUX_PANE=", tmuxPane, built);
      assert Restored(tmux, tmuxPane) == ["TMUX_PANE=" + tmuxPane];
    }
  }
}
