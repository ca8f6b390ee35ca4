/** The incremental title tracker: chunks in, agent state out (packages/tui-supervisor/src/TitleStateTracker.ts). */
module TitleStateTracker {
  import opened AgentTitles
  import opened TitleLexer

  const MAX_PENDING_LEN := 4096

  predicate IsMarker(agent: AgentKind, title: string) {
    Contains(title, "Action Required") || HasSpinner(title) || (agent == Claude && HasClaudeIdleMark(title))
  }

  /** What the tracker has concluded; a marker is needed once before titles are believed. */
  datatype Status = Status(state: PaneState, markerSeen: bool)

  function AnyMarker(agent: AgentKind, titles: seq<string>): bool {
    titles != [] && (IsMarker(agent, titles[|titles| - 1]) || AnyMarker(agent, titles[..|titles| - 1]))
  }

  /** The state after a believed title: an unrecognised one means idle, an empty one says nothing. */
  function Believed(agent: AgentKind, state: PaneState, title: string): PaneState {
    var classified := ClassifyTitle(agent, title);
    if classified != Unknown then classified else if title != "" then Idle else state
  }

  /** What one push makes of the complete titles of its chunk: only the last one decides. */
  function AfterChunk(agent: AgentKind, status: Status, titles: seq<string>): Status {
    if titles == [] || !(status.markerSeen || AnyMarker(agent, titles)) then status
    else Status(Believed(agent, status.state, titles[|titles| - 1]), true)
  }

  /** The reference: titles taken one at a time. */
  function AfterTitles(agent: AgentKind, status: Status, titles: seq<string>): Status {
    if titles == [] then status
    else AfterChunk(agent, AfterTitles(agent, status, titles[..|titles| - 1]), [titles[|titles| - 1]])
  }

  lemma MarkerSnoc(agent: AgentKind, titles: seq<string>, title: string)
    ensures AnyMarker(agent, titles + [title]) == (IsMarker(agent, title) || AnyMarker(agent, titles))
  {
    assert (titles + [title])[..|titles|] == titles;
  }

  /** The tracker's whole state. */
  datatype Tracked = Tracked(pending: string, status: Status)

  const INITIAL := Tracked("", Status(Unknown, false))

  function AfterPush(agent: AgentKind, t: Tracked, chunk: string): Tracked {
    var lexed := Lex(t.pending + chunk);
    Tracked(if |lexed.rest| <= MAX_PENDING_LEN then lexed.rest else "", AfterChunk(agent, t.status, lexed.titles))
  }

  function AfterPushes(agent: AgentKind, t: Tracked, chunks: seq<string>): Tracked {
    if chunks == [] then t
    else AfterPush(agent, AfterPushes(agent, t, chunks[..|chunks| - 1]), chunks[|chunks| - 1])
  }

  /** The titles found so far, and where scanning goes on. */
  predicate ScannedTo(data: string, titles: seq<string>, from: nat) {
    && from <= |data|
    && Lex(data).titles == titles + Lex(data[from..]).titles
    && Lex(data).rest == Lex(data[from..]).rest
  }

  lemma ScanStarts(data: string)
    ensures ScannedTo(data, [], 0)
  {
    assert data[0..] == data;
  }

  lemma Regroup(all: seq<string>, a: seq<string>, x: string, b: seq<string>, c: seq<string>)
    requires all == a + b && b == [x] + c
    ensures all == (a + [x]) + c
  {
  }

  lemma ScanOn(data: string, titles: seq<string>, from: nat, found: Found)
    requires ScannedTo(data, titles, from) && found == NextTitle(data, from) && found.At?
    ensures ScannedTo(data, titles + [found.title], found.end)
  {
    NextTitleLex(data, from);
    Regroup(Lex(data).titles, titles, found.title, Lex(data[from..]).titles, Lex(data[found.end..]).titles);
  }

  lemma ScanEnds(data: string, titles: seq<string>, from: nat)
    requires ScannedTo(data, titles, from) && NextTitle(data, from).Nothing?
    ensures Lex(data).titles == titles && PartialTail(data[from..]) == Lex(data).rest
  {
    NextTitleLex(data, from);
  }

  class Tracker {
    const agentKind: AgentKind
    var pending: string
    var state: PaneState
    var markerSeen: bool

    function Value(): Tracked
      reads this
    {
      Tracked(pending, Status(state, markerSeen))
    }

    constructor (agentKind: AgentKind)
      ensures this.agentKind == agentKind && Value() == INITIAL
    {
      this.agentKind := agentKind;
      pending, state, markerSeen := "", Unknown, false;
    }

    /** The exec loop: the last complete title of data, whether any carries a marker, and where scanning stopped. */
    method Scan(data: string) returns (last: seq<string>, markerInChunk: bool, scannedUpTo: nat)
      ensures var titles := Lex(data).titles;
              && last == (if titles == [] then [] else [titles[|titles| - 1]])
              && markerInChunk == AnyMarker(agentKind, titles)
      ensures scannedUpTo <= |data| && PartialTail(data[scannedUpTo..]) == Lex(data).rest
    {
      last, markerInChunk, scannedUpTo := [], false, 0;
      ghost var titles: seq<string> := [];
      var found := NextTitle(data, 0);
      ScanStarts(data);
      while found.At?
        invariant scannedUpTo <= |data| && found == NextTitle(data, scannedUpTo)
        invariant last == (if titles == [] then [] else [titles[|titles| - 1]])
        invariant markerInChunk == AnyMarker(agentKind, titles)
        invariant ScannedTo(data, titles, scannedUpTo)
        decreases |data| - scannedUpTo
      {
        ScanOn(data, titles, scannedUpTo, found);
        MarkerSnoc(agentKind, titles, found.title);
        titles := titles + [found.title];
        last := [found.title];
        if IsMarker(agentKind, found.title) {
          markerInChunk := true;
        }
        scannedUpTo := found.end;
        found := NextTitle(data, scannedUpTo);
      }
      ScanEnds(data, titles, scannedUpTo);
    }

    method Push(chunk: string)
      modifies this
      ensures Value() == AfterPush(agentKind, old(Value()), chunk)
    {
      var data := pending + chunk;
      pending := "";
      var last, markerInChunk, scannedUpTo := Scan(data);
      var partial := PartialTail(data[scannedUpTo..]);
      if 0 < |partial| <= MAX_PENDING_LEN {
        pending := partial;
      }
      if last != [] {
        if !markerSeen {
          if !markerInChunk { return; }
          markerSeen := true;
        }
        var lastTitle := last[0];
        var classified := ClassifyTitle(agentKind, lastTitle);
        if classified == Unknown {
          if |lastTitle| > 0 {
            state := Idle;
          }
          return;
        }
        state := classified;
      }
    }
  }

  // ---- A chunk of titles against one title at a time ----

  /** The last title that is not empty, or the empty title. */
  function LastSpoken(titles: seq<string>): string {
    if titles == [] then ""
    else if titles[|titles| - 1] != "" then titles[|titles| - 1]
    else LastSpoken(titles[..|titles| - 1])
  }

  lemma EmptyIsNoMarker(agent: AgentKind)
    ensures !IsMarker(agent, "") && ClassifyTitle(agent, "") == Unknown
  {
  }

  lemma MarkerAlone(agent: AgentKind, title: string)
    ensures AnyMarker(agent, [title]) == IsMarker(agent, title)
  {
    assert [title][..0] == [];
  }

  /** Taken one at a time, titles end where the last non-empty one leads, once a marker has been seen. */
  lemma {:induction false} AfterTitlesIs(agent: AgentKind, status: Status, titles: seq<string>)
    ensures AfterTitles(agent, status, titles)
         == if !(status.markerSeen || AnyMarker(agent, titles)) then status
            else Status(Believed(agent, status.state, LastSpoken(titles)), true)
  {
    EmptyIsNoMarker(agent);
    if titles != [] {
      var last := titles[|titles| - 1];
      AfterTitlesIs(agent, status, titles[..|titles| - 1]);
      MarkerAlone(agent, last);
    }
  }

  /** An empty title at the end of a chunk hides a believed one of another verdict. */
  predicate EmptyHides(agent: AgentKind, status: Status, titles: seq<string>) {
    && titles != [] && titles[|titles| - 1] == ""
    && (status.markerSeen || AnyMarker(agent, titles))
    && Believed(agent, status.state, LastSpoken(titles)) != status.state
  }

  /** A push agrees with its titles taken one at a time exactly when no empty title hides one. */
  lemma ChunkAgrees(agent: AgentKind, status: Status, titles: seq<string>)
    ensures AfterChunk(agent, status, titles) == AfterTitles(agent, status, titles)
       <==> !EmptyHides(agent, status, titles)
  {
    AfterTitlesIs(agent, status, titles);
    EmptyIsNoMarker(agent);
  }

  // ---- Whole streams ----

  function Flatten(chunks: seq<string>): string {
    if chunks == [] then "" else Flatten(chunks[..|chunks| - 1]) + chunks[|chunks| - 1]
  }

  /** No unfinished title is longer than the carry-over buffer where the stream is cut. */
  predicate CutsFit(chunks: seq<string>) {
    forall n | 0 <= n <= |chunks| :: |Lex(Flatten(chunks[..n])).rest| <= 4096
  }

  predicate TitlesSpeak(stream: string) {
    forall i | 0 <= i < |Lex(stream).titles| :: Lex(stream).titles[i] != ""
  }

  lemma {:induction false} AfterTitlesConcat(agent: AgentKind, status: Status, a: seq<string>, b: seq<string>)
    ensures AfterTitles(agent, status, a + b) == AfterTitles(agent, AfterTitles(agent, status, a), b)
  {
    if b == [] {
      assert a + b == a;
    } else {
      assert (a + b)[..|a + b| - 1] == a + b[..|b| - 1];
      AfterTitlesConcat(agent, status, a, b[..|b| - 1]);
    }
  }

  /** The reference for a whole stream: its titles taken one at a time, its unfinished title pending. */
  function Streamed(agent: AgentKind, stream: string): Tracked {
    Tracked(Lex(stream).rest, AfterTitles(agent, INITIAL.status, Lex(stream).titles))
  }

  /** The titles that a chunk completes. */
  function Completed(stream: string, chunk: string): seq<string> {
    Lex(Lex(stream).rest + chunk).titles
  }

  lemma StreamStep(agent: AgentKind, stream: string, chunk: string)
    ensures AfterPush(agent, Streamed(agent, stream), chunk) == Streamed(agent, stream + chunk)
       <==> |Lex(stream + chunk).rest| <= MAX_PENDING_LEN
            && !EmptyHides(agent, Streamed(agent, stream).status, Completed(stream, chunk))
  {
    LexResume(stream, chunk);
    AfterTitlesConcat(agent, INITIAL.status, Lex(stream).titles, Completed(stream, chunk));
    ChunkAgrees(agent, Streamed(agent, stream).status, Completed(stream, chunk));
  }

  lemma FlattenSnoc(chunks: seq<string>, n: nat)
    requires n < |chunks|
    ensures Flatten(chunks[..n + 1]) == Flatten(chunks[..n]) + chunks[n]
    ensures forall agent :: AfterPushes(agent, INITIAL, chunks[..n + 1])
                         == AfterPush(agent, AfterPushes(agent, INITIAL, chunks[..n]), chunks[n])
  {
    assert chunks[..n + 1][..n] == chunks[..n];
  }

  /** The tracker is where the reference is after the first n pushes. */
  predicate AgreesAfter(agent: AgentKind, chunks: seq<string>, n: nat)
    requires n <= |chunks|
  {
    AfterPushes(agent, INITIAL, chunks[..n]) == Streamed(agent, Flatten(chunks[..n]))
  }

  /** The n-th cut leaves an unfinished title that fits, and its chunk hides no title. */
  predicate CleanCut(agent: AgentKind, chunks: seq<string>, n: nat)
    requires n < |chunks|
  {
    var stream := Flatten(chunks[..n]);
    && |Lex(Flatten(chunks[..n + 1])).rest| <= 4096
    && !EmptyHides(agent, Streamed(agent, stream).status, Completed(stream, chunks[n]))
  }

  /** The tracker follows the titles of the stream through the first m pushes exactly when all their cuts are clean. */
  lemma StreamExact(agent: AgentKind, chunks: seq<string>, m: nat)
    requires m <= |chunks|
    ensures (forall n: nat | n <= m :: AgreesAfter(agent, chunks, n))
       <==> (forall n: nat | n < m :: CleanCut(agent, chunks, n))
  {
    forall n: nat | n < m && AgreesAfter(agent, chunks, n)
      ensures AgreesAfter(agent, chunks, n + 1) <==> CleanCut(agent, chunks, n)
    {
      NextCut(agent, chunks, n);
    }
    var agrees := (n: nat) => n <= m && AgreesAfter(agent, chunks, n);
    var clean := (n: nat) => n < m && CleanCut(agent, chunks, n);
    Chain(agrees, clean, m);
    assert forall n: nat | n <= m :: agrees(n) <==> AgreesAfter(agent, chunks, n);
    assert forall n: nat | n < m :: clean(n) <==> CleanCut(agent, chunks, n);
  }

  /** Agreement that each clean step keeps, and no other, lasts exactly through clean steps. */
  lemma {:induction false} Chain(agrees: nat -> bool, clean: nat -> bool, m: nat)
    requires agrees(0)
    requires forall n: nat | n < m && agrees(n) :: agrees(n + 1) <==> clean(n)
    ensures (forall n: nat | n <= m :: agrees(n)) <==> (forall n: nat | n < m :: clean(n))
  {
    if m > 0 {
      Chain(agrees, clean, m - 1);
      assert agrees(m - 1) ==> (agrees(m) <==> clean(m - 1));
    }
  }

  lemma NextCut(agent: AgentKind, chunks: seq<string>, n: nat)
    requires n < |chunks| && AgreesAfter(agent, chunks, n)
    ensures AgreesAfter(agent, chunks, n + 1) <==> CleanCut(agent, chunks, n)
  {
    FlattenSnoc(chunks, n);
    StreamStep(agent, Flatten(chunks[..n]), chunks[n]);
  }

  /** However a stream of non-empty titles is cut into pushes, the tracker ends where its titles, taken one at a time,
      lead, and carries the stream's unfinished title. */
  lemma StreamState(agent: AgentKind, chunks: seq<string>)
    requires CutsFit(chunks) && TitlesSpeak(Flatten(chunks))
    ensures AfterPushes(agent, INITIAL, chunks) == Streamed(agent, Flatten(chunks))
  {
    forall n | 0 <= n < |chunks| ensures CleanCut(agent, chunks, n) {
      SpeakingCut(agent, chunks, n);
    }
    StreamExact(agent, chunks, |chunks|);
    assert AgreesAfter(agent, chunks, |chunks|);
    assert chunks[..|chunks|] == chunks;
  }

  lemma SpeakingCut(agent: AgentKind, chunks: seq<string>, n: nat)
    requires n < |chunks| && CutsFit(chunks) && TitlesSpeak(Flatten(chunks))
    ensures CleanCut(agent, chunks, n)
  {
    TitlesSpeakPrefix(chunks, n + 1);
    FlattenSnoc(chunks, n);
    CompletedSpeak(Flatten(chunks[..n]), chunks[n]);
  }

  lemma CompletedSpeak(stream: string, chunk: string)
    requires TitlesSpeak(stream + chunk)
    ensures var titles := Completed(stream, chunk);
            titles == [] || titles[|titles| - 1] != ""
  {
    LexResume(stream, chunk);
    if Completed(stream, chunk) != [] {
      LastOfAppended(Lex(stream).titles, Completed(stream, chunk), Lex(stream + chunk).titles);
    }
  }

  lemma LastOfAppended(a: seq<string>, b: seq<string>, whole: seq<string>)
    requires whole == a + b && b != []
    ensures whole != [] && b[|b| - 1] == whole[|whole| - 1]
  {
  }

  lemma {:induction false} TitlesSpeakPrefix(chunks: seq<string>, n: nat)
    requires n <= |chunks| && TitlesSpeak(Flatten(chunks))
    ensures TitlesSpeak(Flatten(chunks[..n]))
    decreases |chunks| - n
  {
    assert chunks[..|chunks|] == chunks;
    if n < |chunks| {
      TitlesSpeakPrefix(chunks, n + 1);
      FlattenSnoc(chunks, n);
      LexResume(Flatten(chunks[..n]), chunks[n]);
      var some, all := Lex(Flatten(chunks[..n])).titles, Lex(Flatten(chunks[..n + 1])).titles;
      assert forall i | 0 <= i < |some| :: some[i] == all[i];
    }
  }

  /** Any two ways of cutting one stream end in the same state. */
  lemma ChunkingIrrelevant(agent: AgentKind, chunks: seq<string>, others: seq<string>)
    requires Flatten(chunks) == Flatten(others)
    requires CutsFit(chunks) && CutsFit(others) && TitlesSpeak(Flatten(chunks))
    ensures AfterPushes(agent, INITIAL, chunks) == AfterPushes(agent, INITIAL, others)
  {
    StreamState(agent, chunks);
    StreamState(agent, others);
  }

  /** The carry-over buffer never grows beyond its limit, whatever arrives. */
  lemma {:induction false} PendingBounded(agent: AgentKind, chunks: seq<string>)
    ensures var pending := AfterPushes(agent, INITIAL, chunks).pending;
            |pending| <= 4096 && (pending == "" || IsPartial(pending))
  {
    if chunks != [] {
      var t := AfterPushes(agent, INITIAL, chunks[..|chunks| - 1]);
      RestIsPartial(t.pending + chunks[|chunks| - 1]);
    }
  }

  // ---- The state, told by the text of the titles ----

  predicate OccursAt(word: string, text: string, i: nat) {
    i + |word| <= |text| && text[i..i + |word|] == word
  }

  /** A word occurs in a text. */
  ghost predicate Occurs(word: string, text: string) {
    exists i: nat :: OccursAt(word, text, i)
  }

  lemma {:induction false} ContainsAt(text: string, word: string, i: nat)
    requires OccursAt(word, text, i)
    ensures Contains(text, word)
    decreases i
  {
    if i == 0 {
      assert text[..|word|] == word;
    } else if text != "" {
      assert text[1..][i - 1..i - 1 + |word|] == text[i..i + |word|];
      ContainsAt(text[1..], word, i - 1);
    }
  }

  lemma {:induction false} ContainedOccurs(text: string, word: string)
    requires Contains(text, word)
    ensures Occurs(word, text)
    decreases |text|
  {
    if word <= text {
      assert OccursAt(word, text, 0);
    } else {
      ContainedOccurs(text[1..], word);
      var i: nat :| OccursAt(word, text[1..], i);
      assert text[1..][i..i + |word|] == text[i + 1..i + 1 + |word|];
      assert OccursAt(word, text, i + 1);
    }
  }

  lemma ContainsTold(text: string, word: string)
    ensures Contains(text, word) <==> Occurs(word, text)
  {
    if Contains(text, word) {
      ContainedOccurs(text, word);
    }
    if i: nat :| OccursAt(word, text, i) {
      ContainsAt(text, word, i);
    }
  }

  /** A spinner glyph: a braille cell, or one of nine others. */
  predicate SpinnerGlyph(c: char) {
    || '\U{2800}' <= c <= '\U{28FF}'
    || c in {'\U{25D0}', '\U{25D1}', '\U{25D2}', '\U{25D3}', '\U{273B}', '\U{2736}', '\U{273D}', '\U{2722}', '\U{2217}'}
  }

  predicate Spins(title: string) {
    |title| >= 2 && SpinnerGlyph(title[0]) && title[1] == ' '
  }

  /** A title that shows an agent at work, waiting or, for Claude, at rest. */
  ghost predicate Marks(agent: AgentKind, title: string) {
    || Occurs("Action Required", title) || Spins(title)
    || (agent == Claude && |title| >= 2 && title[0] == '\U{2733}' && title[1] == ' ')
  }

  ghost function TitleSays(title: string): PaneState {
    if Occurs("Action Required", title) then Blocked else if Spins(title) then Working else Idle
  }

  lemma SpinsTold(title: string)
    ensures HasSpinner(title) <==> Spins(title)
  {
  }

  lemma MarksTold(agent: AgentKind, title: string)
    ensures IsMarker(agent, title) <==> Marks(agent, title)
  {
    ContainsTold(title, "Action Required");
    SpinsTold(title);
  }

  lemma BelievedTold(agent: AgentKind, state: PaneState, title: string)
    ensures Believed(agent, state, title) == if title == "" then state else TitleSays(title)
  {
    ContainsTold(title, "Action Required");
    SpinsTold(title);
  }

  ghost predicate SomeMarks(agent: AgentKind, titles: seq<string>) {
    exists i | 0 <= i < |titles| :: Marks(agent, titles[i])
  }

  lemma {:induction false} AnyMarkerTold(agent: AgentKind, titles: seq<string>)
    ensures AnyMarker(agent, titles) <==> SomeMarks(agent, titles)
  {
    if titles != [] {
      var init := titles[..|titles| - 1];
      AnyMarkerTold(agent, init);
      MarksTold(agent, titles[|titles| - 1]);
      if i :| 0 <= i < |titles| && Marks(agent, titles[i]) && i < |init| {
        assert Marks(agent, init[i]);
      }
      if i :| 0 <= i < |init| && Marks(agent, init[i]) {
        assert Marks(agent, titles[i]);
      }
    }
  }

  /** The last title that is not empty is one. */
  predicate IsLastSpoken(titles: seq<string>, i: nat) {
    i < |titles| && titles[i] != "" && forall j | i < j < |titles| :: titles[j] == ""
  }

  lemma {:induction false} LastSpokenIs(titles: seq<string>, i: nat)
    requires IsLastSpoken(titles, i)
    ensures LastSpoken(titles) == titles[i]
  {
    if i < |titles| - 1 {
      LastSpokenIs(titles[..|titles| - 1], i);
    }
  }

  /** Before any marker the state is unknown; afterwards it is what the last title that is not empty says. */
  lemma TitlesTold(agent: AgentKind, titles: seq<string>, i: nat)
    requires IsLastSpoken(titles, i)
    ensures AfterTitles(agent, INITIAL.status, titles)
         == if SomeMarks(agent, titles) then Status(TitleSays(titles[i]), true) else Status(Unknown, false)
  {
    AfterTitlesIs(agent, INITIAL.status, titles);
    AnyMarkerTold(agent, titles);
    LastSpokenIs(titles, i);
    BelievedTold(agent, Unknown, titles[i]);
  }

  lemma {:induction false} NothingSpoken(agent: AgentKind, titles: seq<string>)
    requires forall j | 0 <= j < |titles| :: titles[j] == ""
    ensures AfterTitles(agent, INITIAL.status, titles) == Status(Unknown, false)
  {
    AfterTitlesIs(agent, INITIAL.status, titles);
    if titles != [] {
      NothingSpoken(agent, titles[..|titles| - 1]);
      EmptyIsNoMarker(agent);
    }
  }

  /** For every stream all of whose cuts are clean: before any marker the tracker is unknown; afterwards it is blocked
      exactly when the last title that is not empty contains "Action Required", else working exactly when that title
      begins with a spinner glyph and a blank, and idle in every other case. */
  lemma StreamSays(agent: AgentKind, chunks: seq<string>, i: nat)
    requires forall n: nat | n < |chunks| :: CleanCut(agent, chunks, n)
    requires IsLastSpoken(Lex(Flatten(chunks)).titles, i)
    ensures var titles := Lex(Flatten(chunks)).titles;
            AfterPushes(agent, INITIAL, chunks).status
            == if SomeMarks(agent, titles) then Status(TitleSays(titles[i]), true) else Status(Unknown, false)
  {
    StreamExact(agent, chunks, |chunks|);
    assert AgreesAfter(agent, chunks, |chunks|);
    assert chunks[..|chunks|] == chunks;
    TitlesTold(agent, Lex(Flatten(chunks)).titles, i);
  }

  /** And for any one push, cut where it may: the last title decides, once a marker has been seen. */
  lemma PushSays(agent: AgentKind, t: Tracked, chunk: string)
    ensures var lexed, u := Lex(t.pending + chunk), AfterPush(agent, t, chunk);
            var marked := t.status.markerSeen || SomeMarks(agent, lexed.titles);
            && u.pending == (if |lexed.rest| <= 4096 then lexed.rest else "")
            && (lexed.titles == [] || !marked ==> u.status == t.status)
            && (lexed.titles != [] && marked ==>
                  var last := lexed.titles[|lexed.titles| - 1];
                  u.status == Status(if last == "" then t.status.state else TitleSays(last), true))
  {
    var titles := Lex(t.pending + chunk).titles;
    AnyMarkerTold(agent, titles);
    if titles != [] {
      BelievedTold(agent, t.status.state, titles[|titles| - 1]);
    }
  }

  lemma MarkerIsClassified(agent: AgentKind, title: string)
    requires IsMarker(agent, title)
    ensures ClassifyTitle(agent, title) != Unknown
    ensures ClassifyTitle(agent, title) == TitleSays(title)
  {
    ContainsTold(title, "Action Required");
    SpinsTold(title);
  }

  /** Why empty titles must be excluded: after a marker title and an empty one in a single chunk the state is still
      unknown; in two chunks it is the marker's. */
  lemma EmptyTitleHidesMarker(agent: AgentKind, title: string)
    requires IsMarker(agent, title) && forall k | 0 <= k < |title| :: IsBody(title[k])
    ensures AfterPushes(agent, INITIAL, [Encode(title) + Encode("")]).status == Status(Unknown, true)
    ensures AfterPushes(agent, INITIAL, [Encode(title), Encode("")]).status == Status(ClassifyTitle(agent, title), true)
  {
    var a, b := Encode(title), Encode("");
    HiddenLex(title);
    MarkerIsClassified(agent, title);
    EmptyIsNoMarker(agent);
    HiddenTogether(agent, title);
    HiddenApart(agent, title);
    Pushed(agent, INITIAL, a + b);
    Pushed(agent, INITIAL, a);
    Pushed(agent, Tracked("", Status(ClassifyTitle(agent, title), true)), b);
    OnePush(agent, a + b);
    OnePush(agent, a);
    assert [a, b][..1] == [a];
  }

  lemma Pushed(agent: AgentKind, t: Tracked, chunk: string)
    requires t.pending == "" && Lex(chunk).rest == ""
    ensures AfterPush(agent, t, chunk) == Tracked("", AfterChunk(agent, t.status, Lex(chunk).titles))
  {
    assert "" + chunk == chunk;
  }

  lemma HiddenTogether(agent: AgentKind, title: string)
    requires IsMarker(agent, title)
    ensures AfterChunk(agent, INITIAL.status, [title, ""]) == Status(Unknown, true)
  {
    EmptyIsNoMarker(agent);
    MarkerSnoc(agent, [title], "");
    MarkerAlone(agent, title);
    assert [title] + [""] == [title, ""];
  }

  lemma HiddenApart(agent: AgentKind, title: string)
    requires IsMarker(agent, title)
    ensures var classified := Status(ClassifyTitle(agent, title), true);
            AfterChunk(agent, INITIAL.status, [title]) == classified
              && AfterChunk(agent, classified, [""]) == classified
  {
    EmptyIsNoMarker(agent);
    MarkerIsClassified(agent, title);
    MarkerAlone(agent, title);
  }

  lemma HiddenLex(title: string)
    requires forall k | 0 <= k < |title| :: IsBody(title[k])
    ensures Lex(Encode(title) + Encode("")) == Lexed([title, ""], "")
    ensures Lex(Encode(title)) == Lexed([title], "") && Lex(Encode("")) == Lexed([""], "")
  {
    var a, b := Encode(title), Encode("");
    assert a + "" == a && b + "" == b;
    EncodeLex(title, "");
    EncodeLex("", "");
    EncodeLex(title, b);
  }

  lemma OnePush(agent: AgentKind, chunk: string)
    ensures AfterPushes(agent, INITIAL, [chunk]) == AfterPush(agent, INITIAL, chunk)
  {
    assert [chunk][..0] == [];
  }
}
