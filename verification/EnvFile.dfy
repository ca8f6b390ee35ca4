/** The env file of `KEY=value` lines with backslash escapes (packages/tui-supervisor/src/env.ts). */
module EnvFile {
  import opened Options
  import opened WhiteSpace

  predicate EndsLine(c: char) {
    c == '\n' || c == '\r' || c == '\U{2028}' || c == '\U{2029}'
  }

  /** A backslash disappears in front of any character but a line terminator. */
  function DecodePercentQ(value: string): string {
    if |value| >= 2 && value[0] == '\\' && !EndsLine(value[1]) then [value[1]] + DecodePercentQ(value[2..])
    else if value == "" then ""
    else [value[0]] + DecodePercentQ(value[1..])
  }

  function FirstIndex(s: string, c: char): (i: nat)
    ensures i <= |s|
  {
    if s == "" || s[0] == c then 0 else 1 + FirstIndex(s[1..], c)
  }

  function SplitLines(content: string): seq<string>
    decreases |content|
  {
    var i := FirstIndex(content, '\n');
    if i == |content| then [content] else [content[..i]] + SplitLines(content[i + 1..])
  }

  datatype Binding = Binding(key: string, value: string)

  /** The binding a line makes, if any: blank lines, comments and lines without a key make none. */
  function ParseLine(rawLine: string): Option<Binding> {
    var line := Trim(rawLine);
    if line == "" || line[0] == '#' then None else
      var eq := FirstIndex(line, '=');
      if eq == 0 || eq == |line| then None else Some(Binding(line[..eq], DecodePercentQ(line[eq + 1..])))
  }

  function ParseLines(lines: seq<string>): map<string, string> {
    if lines == [] then map[] else
      var before := ParseLines(lines[..|lines| - 1]);
      var b := ParseLine(lines[|lines| - 1]);
      if b.None? then before else before[b.value.key := b.value.value]
  }

  method ParseEnvFile(content: string) returns (values: map<string, string>)
    ensures values == ParseLines(SplitLines(content))
  {
    values := map[];
    var lines := SplitLines(content);
    for i := 0 to |lines|
      invariant values == ParseLines(lines[..i])
    {
      assert lines[..i + 1][..i] == lines[..i];
      var line := Trim(lines[i]);
      if line == "" || line[0] == '#' { continue; }
      var eq := FirstIndex(line, '=');
      if eq == 0 || eq == |line| { continue; }
      var key := line[..eq];
      var raw := line[eq + 1..];
      values := values[key := DecodePercentQ(raw)];
    }
    assert lines[..|lines|] == lines;
  }

  // ---- Writing such a file ----

  /** Escaping with a backslash whatever `special` asks for. */
  function Escape(special: char -> bool, value: string): string {
    if value == "" then ""
    else Escape(special, value[..|value| - 1]) +
         (if special(value[|value| - 1]) then ['\\', value[|value| - 1]] else [value[|value| - 1]])
  }

  function LineOf(special: char -> bool, b: Binding): string {
    b.key + "=" + Escape(special, b.value)
  }

  function Render(special: char -> bool, bindings: seq<Binding>): string {
    if bindings == [] then "" else LineOf(special, bindings[0]) + "\n" + Render(special, bindings[1..])
  }

  /** The last binding of a key counts. */
  function MapOf(bindings: seq<Binding>): map<string, string> {
    if bindings == [] then map[]
    else MapOf(bindings[..|bindings| - 1])[bindings[|bindings| - 1].key := bindings[|bindings| - 1].value]
  }

  predicate GoodKey(key: string) {
    key != "" && key[0] != '#' && !IsSpace(key[0]) && '=' !in key && '\n' !in key
  }

  predicate OneLine(value: string) {
    forall i | 0 <= i < |value| :: !EndsLine(value[i])
  }

  predicate NoTrailingSpace(value: string) {
    value == "" || !IsSpace(value[|value| - 1])
  }

  // ---- Decoding undoes escaping ----

  /** No backslash is left open: what follows is decoded on its own. */
  lemma {:induction false} DecodeEscaped(special: char -> bool, value: string, tail: string)
    requires special('\\') && OneLine(value)
    ensures DecodePercentQ(Escape(special, value) + tail) == value + DecodePercentQ(tail)
    decreases |value|
  {
    if value == "" {
      assert Escape(special, value) + tail == tail;
      assert value + DecodePercentQ(tail) == DecodePercentQ(tail);
    } else {
      var init, c := value[..|value| - 1], value[|value| - 1];
      var one := if special(c) then ['\\', c] else [c];
      Regroup(Escape(special, init), one, tail);
      DecodeEscaped(special, init, one + tail);
      DecodeOne(special, c, tail);
      Regroup(init, [c], DecodePercentQ(tail));
      assert value == init + [c];
    }
  }

  lemma Regroup(a: string, b: string, c: string)
    ensures (a + b) + c == a + (b + c)
  {
  }

  lemma DecodeOne(special: char -> bool, c: char, tail: string)
    requires special('\\') && !EndsLine(c)
    ensures DecodePercentQ((if special(c) then ['\\', c] else [c]) + tail) == [c] + DecodePercentQ(tail)
  {
    if special(c) {
      assert (['\\', c] + tail)[2..] == tail;
    } else {
      assert ([c] + tail)[1..] == tail;
    }
  }

  /** What is read back from an escaped value at the end of a line. */
  function Recovered(special: char -> bool, value: string): string {
    DecodePercentQ(TrimEnd(Escape(special, value)))
  }

  /** The value comes back exactly when it does not end with white space. */
  lemma {:induction false} RecoveredExactly(special: char -> bool, value: string)
    requires special('\\') && OneLine(value)
    ensures Recovered(special, value) == value <==> NoTrailingSpace(value)
    ensures |Recovered(special, value)| <= |value|
    decreases |value|
  {
    var e := Escape(special, value);
    assert e + "" == e && value + "" == value;
    DecodeEscaped(special, value, "");
    if value != "" {
      var init, c := value[..|value| - 1], value[|value| - 1];
      if IsSpace(c) {
        assert e[..|e| - 1] == if special(c) then Escape(special, init) + "\\" else Escape(special, init);
        if special(c) {
          var kept := Escape(special, init) + "\\";
          assert TrimEnd(e) == TrimEnd(kept) == kept;
          DecodeEscaped(special, init, "\\");
          assert DecodePercentQ("\\") == "\\";
          assert Recovered(special, value)[|init|] == '\\';
        } else {
          RecoveredExactly(special, init);
        }
      }
    }
  }

  // ---- One line ----

  lemma {:induction false} TrimEndAfter(a: string, b: string)
    requires a != "" && !IsSpace(a[|a| - 1])
    ensures TrimEnd(a + b) == a + TrimEnd(b)
    decreases |b|
  {
    if b == "" {
      assert a + b == a;
    } else if IsSpace(b[|b| - 1]) {
      assert (a + b)[..|a + b| - 1] == a + b[..|b| - 1];
      TrimEndAfter(a, b[..|b| - 1]);
    }
  }

  lemma {:induction false} FirstIndexOf(a: string, c: char, b: string)
    requires c !in a
    ensures FirstIndex(a + [c] + b, c) == |a|
    decreases |a|
  {
    if a != "" {
      assert (a + [c] + b)[1..] == a[1..] + [c] + b;
      FirstIndexOf(a[1..], c, b);
    }
  }

  /** A line binds its key to what is recovered of the value. */
  lemma LineBinds(special: char -> bool, b: Binding)
    requires GoodKey(b.key)
    ensures ParseLine(LineOf(special, b)) == Some(Binding(b.key, Recovered(special, b.value)))
  {
    var head := b.key + "=";
    var e := Escape(special, b.value);
    var raw := head + e;
    assert raw == LineOf(special, b);
    assert raw[0] == b.key[0];
    TrimEndAfter(head, e);
    var line := b.key + ['='] + TrimEnd(e);
    assert Trim(raw) == line;
    FirstIndexOf(b.key, '=', TrimEnd(e));
    assert line[..|b.key|] == b.key && line[|b.key| + 1..] == TrimEnd(e);
  }

  /** For a value of one line, the binding is recovered exactly when the value does not end with white space. */
  lemma LineRoundTrip(special: char -> bool, b: Binding)
    requires special('\\') && GoodKey(b.key) && OneLine(b.value)
    ensures ParseLine(LineOf(special, b)) == Some(b) <==> NoTrailingSpace(b.value)
  {
    LineBinds(special, b);
    RecoveredExactly(special, b.value);
  }

  // ---- Every line ----

  predicate Blank(s: string) {
    forall i | 0 <= i < |s| :: IsSpace(s[i])
  }

  /** A line is white space, a body that neither begins nor ends with it, and white space. */
  predicate Around(line: string, pre: string, body: string, post: string) {
    && line == pre + body + post && Blank(pre) && Blank(post)
    && (body == "" || (!IsSpace(body[0]) && !IsSpace(body[|body| - 1])))
  }

  lemma {:induction false} SkipBlank(pre: string, rest: string)
    requires Blank(pre) && (rest == "" || !IsSpace(rest[0]))
    ensures SkipSpaces(pre + rest) == rest
    decreases |pre|
  {
    if pre == "" {
      assert pre + rest == rest;
    } else {
      assert (pre + rest)[1..] == pre[1..] + rest;
      SkipBlank(pre[1..], rest);
    }
  }

  lemma {:induction false} AllBlank(s: string)
    requires Blank(s)
    ensures SkipSpaces(s) == "" && TrimEnd(s) == ""
    decreases |s|
  {
    if s != "" {
      AllBlank(s[1..]);
      AllBlank(s[..|s| - 1]);
    }
  }

  lemma TrimAround(line: string, pre: string, body: string, post: string)
    requires Around(line, pre, body, post)
    ensures Trim(line) == body
  {
    if body == "" {
      AllBlank(line);
    } else {
      assert line == pre + (body + post);
      SkipBlank(pre, body + post);
      TrimEndAfter(body, post);
      AllBlank(post);
    }
  }

  lemma HasBody(line: string)
    ensures exists pre, body, post :: Around(line, pre, body, post)
  {
    var i := 0;
    while i < |line| && IsSpace(line[i])
      invariant 0 <= i <= |line| && Blank(line[..i])
    {
      i := i + 1;
    }
    var j := |line|;
    while j > i && IsSpace(line[j - 1])
      invariant i <= j <= |line| && Blank(line[j..])
    {
      j := j - 1;
    }
    assert Around(line, line[..i], line[i..j], line[j..]);
  }

  /** Without its outer white space, a line binds what is before its first `=` to what is decoded of the rest; nothing
      when it begins with `#` or `=` or has no `=`. */
  lemma LineTold(line: string, pre: string, body: string, post: string)
    requires Around(line, pre, body, post)
    ensures body == "" || body[0] == '#' || body[0] == '=' || '=' !in body ==> ParseLine(line).None?
    ensures forall key, value | body == key + "=" + value && key != "" && key[0] != '#' && '=' !in key ::
              ParseLine(line) == Some(Binding(key, DecodePercentQ(value)))
  {
    TrimAround(line, pre, body, post);
    if '=' !in body {
      NoIndex(body, '=');
    }
    forall key, value | body == key + "=" + value && key != "" && key[0] != '#' && '=' !in key
      ensures ParseLine(line) == Some(Binding(key, DecodePercentQ(value)))
    {
      FirstIndexOf(key, '=', value);
      assert body[..|key|] == key && body[|key| + 1..] == value && body[0] == key[0];
    }
  }

  lemma {:induction false} NoIndex(s: string, c: char)
    requires c !in s
    ensures FirstIndex(s, c) == |s|
  {
    if s != "" {
      NoIndex(s[1..], c);
    }
  }

  function JoinedLines(lines: seq<string>): string {
    if lines == [] then "" else if |lines| == 1 then lines[0] else lines[0] + "\n" + JoinedLines(lines[1..])
  }

  lemma {:induction false} FirstIndexShape(s: string, c: char)
    ensures var i := FirstIndex(s, c); c !in s[..i] && (i < |s| ==> s[i] == c)
  {
    if s != "" && s[0] != c {
      FirstIndexShape(s[1..], c);
      var i := FirstIndex(s[1..], c);
      assert s[..i + 1] == [s[0]] + s[1..][..i];
    }
  }

  /** The lines of a file are what stands between its line feeds. */
  lemma {:induction false} LinesTold(content: string)
    ensures var lines := SplitLines(content);
            lines != [] && JoinedLines(lines) == content && forall k | 0 <= k < |lines| :: '\n' !in lines[k]
    decreases |content|
  {
    var i := FirstIndex(content, '\n');
    FirstIndexShape(content, '\n');
    if i < |content| {
      var rest := content[i + 1..];
      LinesTold(rest);
      assert content == content[..i] + "\n" + rest;
      assert SplitLines(content)[1..] == SplitLines(rest);
    } else {
      assert content[..i] == content;
    }
  }

  predicate Binds(line: string, key: string) {
    ParseLine(line).Some? && ParseLine(line).value.key == key
  }

  predicate NoneBinds(lines: seq<string>, from: nat, key: string) {
    forall k | from <= k < |lines| :: !Binds(lines[k], key)
  }

  /** A key has the value of the last line that binds it. */
  lemma {:induction false} LastLineCounts(lines: seq<string>, key: string, k: nat)
    requires k < |lines| && Binds(lines[k], key) && NoneBinds(lines, k + 1, key)
    ensures key in ParseLines(lines) && ParseLines(lines)[key] == ParseLine(lines[k]).value.value
  {
    if k < |lines| - 1 {
      LastLineCounts(lines[..|lines| - 1], key, k);
      assert !Binds(lines[|lines| - 1], key);
    }
  }

  /** And none when no line does. */
  lemma {:induction false} NoLineNoValue(lines: seq<string>, key: string)
    requires NoneBinds(lines, 0, key)
    ensures key !in ParseLines(lines)
  {
    if lines != [] {
      NoLineNoValue(lines[..|lines| - 1], key);
      assert !Binds(lines[|lines| - 1], key);
    }
  }

  /** A backslash stays at the end of a value and in front of a line terminator, which stays with it. */
  lemma LoneBackslash(special: char -> bool, value: string, tail: string)
    requires special('\\') && OneLine(value) && (tail == "" || EndsLine(tail[0]))
    ensures DecodePercentQ(Escape(special, value) + ("\\" + tail)) == value + "\\" + DecodePercentQ(tail)
    ensures tail != "" ==> DecodePercentQ(tail) == tail[..1] + DecodePercentQ(tail[1..])
  {
    DecodeEscaped(special, value, "\\" + tail);
    assert ("\\" + tail)[1..] == tail;
    Regroup(value, "\\", DecodePercentQ(tail));
  }

  // ---- The whole file ----

  predicate Good(b: Binding) {
    GoodKey(b.key) && OneLine(b.value) && NoTrailingSpace(b.value)
  }

  function LinesOf(special: char -> bool, bindings: seq<Binding>): seq<string> {
    if bindings == [] then [] else [LineOf(special, bindings[0])] + LinesOf(special, bindings[1..])
  }

  lemma {:induction false} EscapeOneLine(special: char -> bool, value: string)
    requires OneLine(value)
    ensures '\n' !in Escape(special, value)
    decreases |value|
  {
    if value != "" {
      EscapeOneLine(special, value[..|value| - 1]);
    }
  }

  lemma {:induction false} RenderLines(special: char -> bool, bindings: seq<Binding>)
    requires forall i | 0 <= i < |bindings| :: Good(bindings[i])
    ensures SplitLines(Render(special, bindings)) == LinesOf(special, bindings) + [""]
    decreases |bindings|
  {
    if bindings != [] {
      var line := LineOf(special, bindings[0]);
      var rest := Render(special, bindings[1..]);
      assert Good(bindings[0]);
      EscapeOneLine(special, bindings[0].value);
      FirstIndexOf(line, '\n', rest);
      var content := line + ['\n'] + rest;
      assert content == Render(special, bindings);
      assert content[..|line|] == line && content[|line| + 1..] == rest;
      RenderLines(special, bindings[1..]);
    }
  }

  lemma {:induction false} LinesOfSnoc(special: char -> bool, bindings: seq<Binding>)
    requires bindings != []
    ensures LinesOf(special, bindings)
         == LinesOf(special, bindings[..|bindings| - 1]) + [LineOf(special, bindings[|bindings| - 1])]
    decreases |bindings|
  {
    if |bindings| > 1 {
      var tail := bindings[1..];
      LinesOfSnoc(special, tail);
      assert tail[..|tail| - 1] == bindings[..|bindings| - 1][1..];
    }
  }

  lemma {:induction false} ParseLinesOf(special: char -> bool, bindings: seq<Binding>)
    requires special('\\') && forall i | 0 <= i < |bindings| :: Good(bindings[i])
    ensures ParseLines(LinesOf(special, bindings)) == MapOf(bindings)
    decreases |bindings|
  {
    if bindings != [] {
      var init, b := bindings[..|bindings| - 1], bindings[|bindings| - 1];
      var before := LinesOf(special, init);
      ParseLinesOf(special, init);
      LinesOfSnoc(special, bindings);
      assert (before + [LineOf(special, b)])[..|before|] == before;
      assert Good(b);
      LineRoundTrip(special, b);
    }
  }

  /** Reading a rendered file gives back its bindings, the last one of a key counting, whatever is escaped besides the
      backslash. */
  lemma FileRoundTrip(special: char -> bool, bindings: seq<Binding>)
    requires special('\\') && forall i | 0 <= i < |bindings| :: Good(bindings[i])
    ensures ParseLines(SplitLines(Render(special, bindings))) == MapOf(bindings)
  {
    RenderLines(special, bindings);
    ParseLinesOf(special, bindings);
    LastLineBlank(LinesOf(special, bindings));
  }

  lemma LastLineBlank(lines: seq<string>)
    ensures ParseLines(lines + [""]) == ParseLines(lines)
  {
    assert (lines + [""])[..|lines|] == lines;
    assert ParseLine("").None?;
  }
}
