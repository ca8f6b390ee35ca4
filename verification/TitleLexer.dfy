/** The title sequences of a terminal stream: `ESC ] 0 ;` or `ESC ] 2 ;`, a body without BEL and ESC, then BEL or `ESC
    \` (packages/tui-supervisor/src/TitleStateTracker.ts). */
module TitleLexer {

  const ESC: char := '\U{1B}'
  const BEL: char := '\U{07}'

  predicate IsBody(c: char) {
    c != BEL && c != ESC
  }

  predicate IsTitleCode(c: char) {
    c == '0' || c == '2'
  }

  /** Where the body that starts at i stops. */
  function BodyEnd(s: string, i: nat): (e: nat)
    requires i <= |s|
    ensures i <= e <= |s|
    decreases |s| - i
  {
    if i < |s| && IsBody(s[i]) then BodyEnd(s, i + 1) else i
  }

  predicate HasIntroducer(s: string) {
    |s| >= 4 && s[0] == ESC && s[1] == ']' && IsTitleCode(s[2]) && s[3] == ';'
  }

  datatype TitleMatch = NoMatch | Match(title: string, length: nat)

  /** The complete title sequence at the start of s. */
  function MatchHere(s: string): (m: TitleMatch)
    ensures m.Match? ==> 5 <= m.length <= |s|
  {
    if !HasIntroducer(s) then NoMatch else
      var e := BodyEnd(s, 4);
      if e < |s| && s[e] == BEL then Match(s[4..e], e + 1)
      else if e + 1 < |s| && s[e] == ESC && s[e + 1] == '\\' then Match(s[4..e], e + 2)
      else NoMatch
  }

  /** All of s is the beginning of a title sequence that more input could complete. */
  predicate IsPartial(s: string) {
    && s != "" && s[0] == ESC
    && (|s| > 1 ==> s[1] == ']')
    && (|s| > 2 ==> IsTitleCode(s[2]))
    && (|s| > 3 ==> s[3] == ';')
    && (forall k | 4 <= k < |s| - 1 :: IsBody(s[k]))
    && (|s| > 4 ==> s[|s| - 1] != BEL)
  }

  /** The longest suffix that is the beginning of a title sequence, or nothing. */
  function PartialTail(s: string): string {
    if s == "" || IsPartial(s) then s else PartialTail(s[1..])
  }

  datatype Found = Nothing | At(index: nat, title: string, end: nat)

  /** The first complete title at or after an index. */
  function NextTitle(data: string, from: nat): (f: Found)
    requires from <= |data|
    ensures f.At? ==> from <= f.index && f.index + 5 <= f.end <= |data|
    decreases |data| - from
  {
    if from == |data| then Nothing else
      var m := MatchHere(data[from..]);
      if m.Match? then At(from, m.title, from + m.length) else NextTitle(data, from + 1)
  }

  /** The titles of a stream, in order, and the unfinished title it ends with. */
  datatype Lexed = Lexed(titles: seq<string>, rest: string)

  function Lex(s: string): Lexed
    decreases |s|
  {
    if s == "" then Lexed([], "") else
      var m := MatchHere(s);
      if m.Match? then
        var after := Lex(s[m.length..]);
        Lexed([m.title] + after.titles, after.rest)
      else if IsPartial(s) then Lexed([], s)
      else Lex(s[1..])
  }

  // ---- One more character ----

  lemma {:induction false} BodyEndIs(s: string, i: nat, e: nat)
    requires i <= e <= |s|
    requires forall k | i <= k < e :: IsBody(s[k])
    requires e < |s| ==> !IsBody(s[e])
    ensures BodyEnd(s, i) == e
    decreases e - i
  {
    if i < e {
      BodyEndIs(s, i + 1, e);
    }
  }

  lemma {:induction false} BodyEndShape(s: string, i: nat)
    requires i <= |s|
    ensures var e := BodyEnd(s, i);
            (forall k | i <= k < e :: IsBody(s[k])) && (e < |s| ==> !IsBody(s[e]))
    decreases |s| - i
  {
    if i < |s| && IsBody(s[i]) {
      BodyEndShape(s, i + 1);
    }
  }

  lemma {:induction false} BodyEndSnoc(s: string, c: char, i: nat)
    requires i <= |s|
    ensures BodyEnd(s + [c], i) == if BodyEnd(s, i) < |s| then BodyEnd(s, i) else if IsBody(c) then |s| + 1 else |s|
    decreases |s| - i
  {
    if i < |s| && IsBody(s[i]) {
      BodyEndSnoc(s, c, i + 1);
    }
  }

  /** A complete title stays complete, with the same title and length. */
  lemma MatchKept(s: string, c: char)
    requires MatchHere(s).Match?
    ensures MatchHere(s + [c]) == MatchHere(s)
  {
    BodyEndSnoc(s, c, 4);
    var e := BodyEnd(s, 4);
    assert (s + [c])[4..e] == s[4..e];
  }

  /** A character that completes a title follows an unfinished one, and is the last of the sequence. */
  lemma MatchCompleted(s: string, c: char)
    requires MatchHere(s).NoMatch? && MatchHere(s + [c]).Match?
    ensures IsPartial(s) && MatchHere(s + [c]).length == |s| + 1
  {
    BodyEndSnoc(s, c, 4);
    BodyEndShape(s, 4);
  }

  lemma PartialSnoc(s: string, c: char)
    requires IsPartial(s + [c]) && s != ""
    ensures IsPartial(s)
  {
    var w := s + [c];
    assert forall k | 0 <= k < |s| :: s[k] == w[k];
  }

  /** No title can start where too little is left, or where there is no ESC. */
  lemma {:induction false} NoTitleWithoutEsc(s: string)
    requires forall k | 0 <= k < |s| - 2 :: s[k] != ESC
    ensures Lex(s) == Lexed([], PartialTail(s))
    decreases |s|
  {
    if s != "" {
      if !IsPartial(s) {
        NoTitleWithoutEsc(s[1..]);
      }
    }
  }

  /** The lexer as an automaton whose state is the unfinished title. */
  function Feed(rest: string, c: char): Lexed {
    var m := MatchHere(rest + [c]);
    if m.Match? then Lexed([m.title], "") else Lexed([], PartialTail(rest + [c]))
  }

  /** Lexing one more character is one step of the automaton. */
  lemma {:induction false} LexSnoc(s: string, c: char)
    ensures var step := Feed(Lex(s).rest, c);
            Lex(s + [c]) == Lexed(Lex(s).titles + step.titles, step.rest)
    decreases |s|
  {
    var w := s + [c];
    if s == "" {
      assert "" + [c] == w && w[1..] == "";
      assert Lex(w[1..]) == Lexed([], "") && PartialTail(w[1..]) == "";
      assert Lex("").rest == "";
    } else if MatchHere(s).Match? {
      MatchKept(s, c);
      var n := MatchHere(s).length;
      assert w[n..] == s[n..] + [c];
      LexSnoc(s[n..], c);
    } else if IsPartial(s) {
      LexSnocPartial(s, c);
    } else {
      if MatchHere(w).Match? {
        MatchCompleted(s, c);
      }
      if IsPartial(w) {
        PartialSnoc(s, c);
      }
      assert w[1..] == s[1..] + [c];
      LexSnoc(s[1..], c);
    }
  }

  lemma LexSnocPartial(s: string, c: char)
    requires IsPartial(s) && MatchHere(s).NoMatch?
    ensures Lex(s + [c]) == Feed(s, c)
  {
    var w := s + [c];
    if MatchHere(w).Match? {
      MatchCompleted(s, c);
      assert w[|w|..] == "";
    } else if !IsPartial(w) {
      assert forall k | 0 <= k < |w[1..]| - 2 :: w[1..][k] == s[k + 1];
      NoTitleWithoutEsc(w[1..]);
    }
  }

  lemma {:induction false} PartialHasNoTitle(s: string)
    requires IsPartial(s)
    ensures MatchHere(s).NoMatch? && Lex(s) == Lexed([], s)
  {
    if MatchHere(s).Match? {
      BodyEndShape(s, 4);
      assert false;
    }
  }

  lemma {:induction false} RestIsPartial(s: string)
    ensures Lex(s).rest == "" || IsPartial(Lex(s).rest)
    decreases |s|
  {
    if s != "" {
      var m := MatchHere(s);
      if m.Match? {
        RestIsPartial(s[m.length..]);
      } else if !IsPartial(s) {
        RestIsPartial(s[1..]);
      }
    }
  }

  /** Lexing may stop anywhere and go on from the unfinished title: no title is lost or counted twice. */
  lemma {:induction false} LexResume(a: string, b: string)
    ensures var next := Lex(Lex(a).rest + b);
            Lex(a + b) == Lexed(Lex(a).titles + next.titles, next.rest)
    decreases |b|
  {
    var r := Lex(a).rest;
    RestIsPartial(a);
    if b == "" {
      assert a + b == a && r + b == r;
      if r != "" {
        PartialHasNoTitle(r);
      }
    } else {
      var init, c := b[..|b| - 1], b[|b| - 1];
      LexResume(a, init);
      assert a + b == (a + init) + [c] && r + b == (r + init) + [c];
      LexSnoc(a + init, c);
      LexSnoc(r + init, c);
    }
  }

  // ---- The scan ----

  lemma {:induction false} NoMatchInPartial(s: string, i: nat)
    requires IsPartial(s) && 0 < i <= |s|
    ensures MatchHere(s[i..]).NoMatch?
  {
    if i < |s| {
      assert s[i..][0] == s[i];
    }
  }

  function Continue(data: string, f: Found, tail: string): Lexed
    requires f.At? ==> f.end <= |data|
  {
    if f.Nothing? then Lexed([], PartialTail(tail)) else
      var after := Lex(data[f.end..]);
      Lexed([f.title] + after.titles, after.rest)
  }

  /** Searching for titles left to right finds those of Lex. */
  lemma {:induction false} NextTitleLex(data: string, from: nat)
    requires from <= |data|
    ensures Lex(data[from..]) == Continue(data, NextTitle(data, from), data[from..])
    decreases |data| - from
  {
    if from < |data| {
      var s := data[from..];
      var m := MatchHere(s);
      if m.Match? {
        assert s[m.length..] == data[from + m.length..];
      } else if IsPartial(s) {
        NothingAfterPartial(data, from, from + 1);
      } else {
        assert s[1..] == data[from + 1..];
        NextTitleLex(data, from + 1);
      }
    }
  }

  lemma {:induction false} NothingAfterPartial(data: string, from: nat, i: nat)
    requires from < i <= |data| && IsPartial(data[from..])
    ensures NextTitle(data, i).Nothing?
    decreases |data| - i
  {
    if i < |data| {
      assert data[from..][i - from..] == data[i..];
      NoMatchInPartial(data[from..], i - from);
      NothingAfterPartial(data, from, i + 1);
    }
  }

  /** The sequence that sets a title. */
  function Encode(title: string): string {
    [ESC, ']', '0', ';'] + title + [BEL]
  }

  lemma EncodeLex(title: string, s: string)
    requires forall k | 0 <= k < |title| :: IsBody(title[k])
    ensures Lex(Encode(title) + s) == Lexed([title] + Lex(s).titles, Lex(s).rest)
  {
    var w := Encode(title) + s;
    var e := 4 + |title|;
    assert w[4..e] == title && w[e] == BEL;
    forall k | 4 <= k < e ensures IsBody(w[k]) { assert w[k] == title[k - 4]; }
    BodyEndIs(w, 4, e);
    assert w[e + 1..] == s;
  }

  // ---- Title sequences, told by their text ----

  /** Code 0 or 2, a title without BEL and ESC, and one of the two terminators. */
  predicate IsSequence(s: string, code: char, title: string, ending: string) {
    && (code == '0' || code == '2')
    && (forall k | 0 <= k < |title| :: title[k] != '\U{07}' && title[k] != '\U{1B}')
    && (ending == "\U{07}" || ending == "\U{1B}\\")
    && s == ['\U{1B}', ']', code, ';'] + title + ending
  }

  ghost predicate SetsTitle(s: string, title: string) {
    exists code, ending :: IsSequence(s, code, title, ending)
  }

  lemma SequenceAt(s: string, n: nat, code: char, title: string, ending: string)
    requires n <= |s| && IsSequence(s[..n], code, title, ending)
    ensures MatchHere(s) == Match(title, n)
  {
    var w, e := s[..n], 4 + |title|;
    assert w[4..e] == title && w[e..] == ending && w[e] == ending[0] && w[n - 1] == ending[|ending| - 1];
    assert s[4..e] == w[4..e] && s[e] == w[e] && s[n - 1] == w[n - 1];
    assert w[0] == ESC && w[1] == ']' && w[2] == code && w[3] == ';';
    forall k | 4 <= k < e ensures IsBody(s[k]) { assert s[k] == title[k - 4]; }
    BodyEndIs(s, 4, e);
  }

  lemma MatchIsSequence(s: string)
    requires MatchHere(s).Match?
    ensures SetsTitle(s[..MatchHere(s).length], MatchHere(s).title)
  {
    var e, n, title := BodyEnd(s, 4), MatchHere(s).length, MatchHere(s).title;
    BodyEndShape(s, 4);
    assert s[..n] == s[..4] + s[4..e] + s[e..n] && s[..4] == ['\U{1B}', ']', s[2], ';'];
    assert s[e..n] == if s[e] == BEL then "\U{07}" else "\U{1B}\\";
    assert IsSequence(s[..n], s[2], title, s[e..n]);
  }

  /** A title is found at the start of s exactly when s begins with a sequence that sets it. */
  lemma MatchTold(s: string, n: nat, title: string)
    requires n <= |s|
    ensures MatchHere(s) == Match(title, n) <==> SetsTitle(s[..n], title)
  {
    if MatchHere(s) == Match(title, n) {
      MatchIsSequence(s);
    }
    if code, ending :| IsSequence(s[..n], code, title, ending) {
      SequenceAt(s, n, code, title, ending);
    }
  }

  /** More input could complete s to a sequence. */
  ghost predicate Completable(s: string) {
    exists more, title :: more != "" && SetsTitle(s + more, title)
  }

  lemma CompleteWith(s: string, more: string, code: char, title: string, ending: string)
    requires IsSequence(s + more, code, title, ending) && more != ""
    ensures Completable(s)
  {
    assert SetsTitle(s + more, title);
  }

  lemma PartialCompletes(s: string)
    requires IsPartial(s)
    ensures Completable(s)
  {
    if |s| < 4 {
      var all := "\U{1B}]0;\U{07}";
      if |s| == 3 {
        CompleteWith(s, ";\U{07}", s[2], "", "\U{07}");
      } else {
        assert s + all[|s|..] == all;
        CompleteWith(s, all[|s|..], '0', "", "\U{07}");
      }
    } else if |s| > 4 && s[|s| - 1] == ESC {
      var e := |s| - 1;
      BodyOf(s, e);
      assert s + "\\" == ['\U{1B}', ']', s[2], ';'] + s[4..e] + "\U{1B}\\";
      CompleteWith(s, "\\", s[2], s[4..e], "\U{1B}\\");
    } else {
      BodyOf(s, |s|);
      assert s + "\U{07}" == ['\U{1B}', ']', s[2], ';'] + s[4..|s|] + "\U{07}";
      CompleteWith(s, "\U{07}", s[2], s[4..|s|], "\U{07}");
    }
  }

  lemma BodyOf(s: string, e: nat)
    requires IsPartial(s) && 4 <= e <= |s| && (e == |s| && e > 4 ==> s[e - 1] != ESC)
    ensures forall k | 0 <= k < e - 4 :: s[4..e][k] != '\U{07}' && s[4..e][k] != '\U{1B}'
  {
    forall k | 0 <= k < e - 4 ensures IsBody(s[4..e][k]) {
      assert s[4..e][k] == s[k + 4];
    }
  }

  lemma CompletableIsPartial(s: string, more: string, code: char, title: string, ending: string)
    requires s != "" && more != "" && IsSequence(s + more, code, title, ending)
    ensures IsPartial(s)
  {
    var w := ['\U{1B}', ']', code, ';'] + title + ending;
    assert forall k | 0 <= k < |s| :: s[k] == w[k];
    assert forall k | 4 <= k < 4 + |title| :: w[k] == title[k - 4];
    assert w[4 + |title|] == ending[0];
  }

  /** What is kept for the next chunk is exactly what more input could complete. */
  lemma PartialTold(s: string)
    ensures IsPartial(s) <==> s != "" && Completable(s)
  {
    if IsPartial(s) {
      PartialCompletes(s);
    }
    if s != "" && Completable(s) {
      var more, title :| more != "" && SetsTitle(s + more, title);
      var code, ending :| IsSequence(s + more, code, title, ending);
      CompletableIsPartial(s, more, code, title, ending);
    }
  }
}
