/** Facts about splitting, joining and dot resolution that hold on every platform. */
module HostPathSegments {
  import opened HostPath

  // ---- Scans ----

  lemma {:induction false} NameEndIs(platform: Platform, s: string, i: nat, j: nat)
    requires i <= j <= |s|
    requires forall k | i <= k < j :: !IsSep(platform, s[k])
    requires j < |s| ==> IsSep(platform, s[j])
    ensures NameEnd(platform, s, i) == j
    decreases j - i
  {
    if i < j {
      NameEndIs(platform, s, i + 1, j);
    }
  }

  lemma {:induction false} SepRunEndIs(platform: Platform, s: string, i: nat, j: nat)
    requires i <= j <= |s|
    requires forall k | i <= k < j :: IsSep(platform, s[k])
    requires j < |s| ==> !IsSep(platform, s[j])
    ensures SepRunEnd(platform, s, i) == j
    decreases j - i
  {
    if i < j {
      SepRunEndIs(platform, s, i + 1, j);
    }
  }

  /** A name ends where it did when a separator and more are appended. */
  lemma {:induction false} NameEndKept(platform: Platform, s: string, rest: string, i: nat)
    requires i <= |s| && rest != "" && IsSep(platform, rest[0])
    ensures NameEnd(platform, s + rest, i) == NameEnd(platform, s, i)
    decreases |s| - i
  {
    if i < |s| {
      assert (s + rest)[i] == s[i];
      NameEndKept(platform, s, rest, i + 1);
    } else {
      assert (s + rest)[i] == rest[0];
    }
  }

  /** The scans of a suffix, seen from the whole. */
  lemma {:induction false} NameEndShift(platform: Platform, s: string, n: nat, i: nat)
    requires n + i <= |s|
    ensures NameEnd(platform, s, n + i) == n + NameEnd(platform, s[n..], i)
    decreases |s| - i
  {
    if n + i < |s| {
      assert s[n..][i] == s[n + i];
      NameEndShift(platform, s, n, i + 1);
    }
  }

  lemma {:induction false} SepRunShift(platform: Platform, s: string, n: nat, i: nat)
    requires n + i <= |s|
    ensures SepRunEnd(platform, s, n + i) == n + SepRunEnd(platform, s[n..], i)
    decreases |s| - i
  {
    if n + i < |s| {
      assert s[n..][i] == s[n + i];
      SepRunShift(platform, s, n, i + 1);
    }
  }

  // ---- Splitting is a homomorphism at separators ----

  /** A segment that splitting can return: a non-empty name other than `.`, free of separators. */
  predicate Clean(platform: Platform, s: string) {
    s != "" && s != "." && forall k | 0 <= k < |s| :: !IsSep(platform, s[k])
  }

  predicate AllClean(platform: Platform, segments: seq<string>) {
    forall i | 0 <= i < |segments| :: Clean(platform, segments[i])
  }

  function KeepOne(piece: string): seq<string> {
    if piece == "" || piece == "." then [] else [piece]
  }

  /** A reference tokenizer: one character at a time, a pending name ended by every separator. */
  function Tokens(platform: Platform, name: string, s: string): seq<string>
    decreases |s|
  {
    if s == "" then KeepOne(name)
    else if IsSep(platform, s[0]) then KeepOne(name) + Tokens(platform, "", s[1..])
    else Tokens(platform, name + [s[0]], s[1..])
  }

  lemma {:induction false} TokensName(platform: Platform, name: string, s: string, i: nat)
    requires i <= |s| && forall k | 0 <= k < i :: !IsSep(platform, s[k])
    ensures Tokens(platform, name, s) == Tokens(platform, name + s[..i], s[i..])
    decreases |s|
  {
    if i == 0 {
      assert name + s[..0] == name && s[0..] == s;
    } else {
      TokensName(platform, name + [s[0]], s[1..], i - 1);
      assert name + [s[0]] + s[1..][..i - 1] == name + s[..i];
      assert s[1..][i - 1..] == s[i..];
    }
  }

  lemma {:induction false} TokensSeps(platform: Platform, s: string, j: nat)
    requires j <= |s| && forall k | 0 <= k < j :: IsSep(platform, s[k])
    ensures Tokens(platform, "", s) == Tokens(platform, "", s[j..])
    decreases |s|
  {
    if j == 0 {
      assert s[0..] == s;
    } else {
      TokensSeps(platform, s[1..], j - 1);
      assert s[1..][j - 1..] == s[j..];
    }
  }

  /** A name, then a run of separators, then the rest. */
  lemma TokensPiece(platform: Platform, s: string, i: nat, j: nat)
    requires i == NameEnd(platform, s, 0) && i < |s| && j == SepRunEnd(platform, s, i)
    ensures j > i && Tokens(platform, "", s) == KeepOne(s[..i]) + Tokens(platform, "", s[j..])
  {
    TokensName(platform, "", s, i);
    assert "" + s[..i] == s[..i];
    TokensEnd(platform, s[..i], s, i);
    TokensRun(platform, s, i + 1, j);
  }

  lemma TokensEnd(platform: Platform, name: string, s: string, i: nat)
    requires i < |s| && IsSep(platform, s[i])
    ensures Tokens(platform, name, s[i..]) == KeepOne(name) + Tokens(platform, "", s[i + 1..])
  {
    assert s[i..][0] == s[i] && s[i..][1..] == s[i + 1..];
  }

  lemma {:induction false} TokensRun(platform: Platform, s: string, i: nat, j: nat)
    requires i <= j <= |s| && forall k | i <= k < j :: IsSep(platform, s[k])
    ensures Tokens(platform, "", s[i..]) == Tokens(platform, "", s[j..])
    decreases j - i
  {
    if i < j {
      TokensEnd(platform, "", s, i);
      TokensRun(platform, s, i + 1, j);
    }
  }

  lemma TokensLast(platform: Platform, s: string)
    requires NameEnd(platform, s, 0) == |s|
    ensures Tokens(platform, "", s) == KeepOne(s)
  {
    TokensName(platform, "", s, |s|);
    assert "" + s[..|s|] == s && s[|s|..] == "";
  }

  lemma KeepCons(piece: string, rest: seq<string>)
    ensures Keep([piece] + rest) == KeepOne(piece) + Keep(rest)
  {
    assert ([piece] + rest)[1..] == rest;
  }

  /** Splitting at runs of separators and filtering finds exactly the reference tokens. */
  lemma {:induction false} SegmentsAreTokens(platform: Platform, s: string)
    ensures SplitSegments(platform, s) == Tokens(platform, "", s)
    decreases |s|
  {
    var i := NameEnd(platform, s, 0);
    if i == |s| {
      TokensLast(platform, s);
      KeepCons(s, []);
      assert [s] + [] == [s];
    } else {
      var j := SepRunEnd(platform, s, i);
      TokensPiece(platform, s, i, j);
      SegmentsAreTokens(platform, s[j..]);
      KeepCons(s[..i], SplitRuns(platform, s[j..]));
    }
  }

  lemma {:induction false} TokensSplit(platform: Platform, name: string, a: string, c: char, b: string)
    requires IsSep(platform, c)
    ensures Tokens(platform, name, a + [c] + b) == Tokens(platform, name, a) + Tokens(platform, "", b)
    decreases |a|
  {
    var w := a + [c] + b;
    if a == "" {
      assert w[1..] == b;
    } else {
      assert w[1..] == a[1..] + [c] + b;
      TokensSplit(platform, if IsSep(platform, a[0]) then "" else name + [a[0]], a[1..], c, b);
    }
  }

  /** Segments of a path cut at any separator: those before it, then those after it. */
  lemma SegmentsSplit(platform: Platform, a: string, c: char, b: string)
    requires IsSep(platform, c)
    ensures SplitSegments(platform, a + [c] + b) == SplitSegments(platform, a) + SplitSegments(platform, b)
  {
    SegmentsAreTokens(platform, a + [c] + b);
    SegmentsAreTokens(platform, a);
    SegmentsAreTokens(platform, b);
    TokensSplit(platform, "", a, c, b);
  }

  lemma NoSepSegment(platform: Platform, s: string)
    requires forall k | 0 <= k < |s| :: !IsSep(platform, s[k])
    ensures SplitSegments(platform, s) == KeepOne(s)
  {
    SegmentsAreTokens(platform, s);
    TokensName(platform, "", s, |s|);
    assert "" + s[..|s|] == s && s[|s|..] == "";
  }

  /** Trailing separators add no segment. */
  lemma {:induction false} SegmentsTrailing(platform: Platform, s: string, e: nat)
    requires e <= |s| && forall k | e <= k < |s| :: IsSep(platform, s[k])
    ensures SplitSegments(platform, s) == SplitSegments(platform, s[..e])
    decreases |s|
  {
    if e == |s| {
      assert s[..e] == s;
    } else {
      var t := s[..|s| - 1];
      assert s == t + [s[|s| - 1]] + "" && t[..e] == s[..e];
      SegmentsSplit(platform, t, s[|s| - 1], "");
      NoSepSegment(platform, "");
      SegmentsTrailing(platform, t, e);
    }
  }

  lemma {:induction false} KeepClean(platform: Platform, pieces: seq<string>)
    requires forall i, k | 0 <= i < |pieces| && 0 <= k < |pieces[i]| :: !IsSep(platform, pieces[i][k])
    ensures AllClean(platform, Keep(pieces))
  {
    if pieces != [] {
      forall i, k | 0 <= i < |pieces[1..]| && 0 <= k < |pieces[1..][i]|
        ensures !IsSep(platform, pieces[1..][i][k])
      {
        assert pieces[1..][i] == pieces[i + 1];
      }
      KeepClean(platform, pieces[1..]);
    }
  }

  lemma {:induction false} SplitRunsNoSeps(platform: Platform, s: string)
    ensures forall i, k | 0 <= i < |SplitRuns(platform, s)| && 0 <= k < |SplitRuns(platform, s)[i]| ::
              !IsSep(platform, SplitRuns(platform, s)[i][k])
    decreases |s|
  {
    var i := NameEnd(platform, s, 0);
    if i < |s| {
      SplitRunsNoSeps(platform, s[SepRunEnd(platform, s, i)..]);
    }
  }

  lemma SegmentsClean(platform: Platform, s: string)
    ensures AllClean(platform, SplitSegments(platform, s))
  {
    SplitRunsNoSeps(platform, s);
    KeepClean(platform, SplitRuns(platform, s));
  }

  /** Joining clean segments and splitting again gives them back. */
  lemma {:induction false} JoinThenSplit(platform: Platform, segments: seq<string>)
    requires AllClean(platform, segments)
    ensures SplitSegments(platform, JoinWith(segments, SepOf(platform))) == segments
  {
    if segments == [] {
      NoSepSegment(platform, "");
    } else if |segments| == 1 {
      assert Clean(platform, segments[0]);
      NoSepSegment(platform, segments[0]);
    } else {
      assert Clean(platform, segments[0]);
      SegmentsSplit(platform, segments[0], SepOf(platform), JoinWith(segments[1..], SepOf(platform)));
      NoSepSegment(platform, segments[0]);
      JoinThenSplit(platform, segments[1..]);
    }
  }

  lemma {:induction false} JoinEnds(platform: Platform, segments: seq<string>)
    requires AllClean(platform, segments) && segments != []
    ensures var t := JoinWith(segments, SepOf(platform));
            |t| >= |segments[0]| && t[..|segments[0]|] == segments[0]
            && !HasTrailingSep(platform, t)
  {
    if |segments| > 1 {
      JoinEnds(platform, segments[1..]);
    }
  }

  // ---- Dot resolution ----

  /** What dot resolution returns: `..` only at the front, and nowhere under a root. */
  predicate Stacked(out: seq<string>, absolute: bool) {
    && (forall i, j | 0 <= i < j < |out| && out[j] == ".." :: out[i] == "..")
    && (absolute ==> forall i | 0 <= i < |out| :: out[i] != "..")
  }

  lemma {:induction false} ResolvedStacked(segments: seq<string>, absolute: bool)
    ensures Stacked(Resolved(segments, absolute), absolute)
  {
    if segments != [] {
      ResolvedStacked(segments[..|segments| - 1], absolute);
    }
  }

  lemma {:induction false} ResolvedClean(platform: Platform, segments: seq<string>, absolute: bool)
    requires AllClean(platform, segments)
    ensures AllClean(platform, Resolved(segments, absolute))
  {
    if segments != [] {
      ResolvedClean(platform, segments[..|segments| - 1], absolute);
      assert Clean(platform, segments[|segments| - 1]);
    }
  }

  /** Resolving what is already resolved changes nothing. */
  lemma {:induction false} ResolvedFixed(out: seq<string>, absolute: bool)
    requires Stacked(out, absolute)
    ensures Resolved(out, absolute) == out
  {
    if out != [] {
      var init := out[..|out| - 1];
      ResolvedFixed(init, absolute);
      assert out == init + [out[|out| - 1]];
    }
  }

  lemma ResolvedSnoc(a: seq<string>, x: string, absolute: bool)
    ensures Resolved(a + [x], absolute) == PushSegment(Resolved(a, absolute), x, absolute)
  {
    assert (a + [x])[..|a|] == a;
  }

  /** Only what a prefix resolves to matters for the rest. */
  lemma {:induction false} ResolvePrefix(a: seq<string>, b: seq<string>, absolute: bool)
    ensures Resolved(a + b, absolute) == Resolved(Resolved(a, absolute) + b, absolute)
  {
    var r := Resolved(a, absolute);
    if b == [] {
      assert a + b == a && r + b == r;
      ResolvedStacked(a, absolute);
      ResolvedFixed(r, absolute);
    } else {
      var init, x := b[..|b| - 1], b[|b| - 1];
      assert a + b == (a + init) + [x] && r + b == (r + init) + [x];
      ResolvedSnoc(a + init, x, absolute);
      ResolvedSnoc(r + init, x, absolute);
      ResolvePrefix(a, init, absolute);
    }
  }

  /** Only what a suffix resolves to, read as a relative list, matters for what is before it. */
  lemma {:induction false} ResolveSuffix(a: seq<string>, b: seq<string>, absolute: bool)
    ensures Resolved(a + b, absolute) == Resolved(a + Resolved(b, false), absolute)
  {
    if b == [] {
    } else {
      var init, x := b[..|b| - 1], b[|b| - 1];
      var r := Resolved(init, false);
      assert a + b == (a + init) + [x];
      ResolvedSnoc(a + init, x, absolute);
      ResolveSuffix(a, init, absolute);
      PushAfter(a, r, x, absolute);
    }
  }

  /** Pushing onto the whole resolves like pushing onto its last part. */
  lemma PushAfter(a: seq<string>, r: seq<string>, x: string, absolute: bool)
    ensures PushSegment(Resolved(a + r, absolute), x, absolute) == Resolved(a + PushSegment(r, x, false), absolute)
  {
    if x == ".." && r != [] && r[|r| - 1] != ".." {
      PopAfter(a, r, absolute);
    } else {
      assert a + PushSegment(r, x, false) == (a + r) + [x];
      ResolvedSnoc(a + r, x, absolute);
    }
  }

  lemma PopAfter(a: seq<string>, r: seq<string>, absolute: bool)
    requires r != [] && r[|r| - 1] != ".."
    ensures PushSegment(Resolved(a + r, absolute), "..", absolute) == Resolved(a + r[..|r| - 1], absolute)
  {
    var init, top := r[..|r| - 1], r[|r| - 1];
    assert a + r == (a + init) + [top];
    ResolvedSnoc(a + init, top, absolute);
    var before := Resolved(a + init, absolute);
    assert (before + [top])[..|before|] == before;
  }

  /** Dot resolution is a stack action: a list may be resolved in any two parts. */
  lemma ResolveStackAction(a: seq<string>, b: seq<string>, absolute: bool)
    ensures Resolved(a + b, absolute) == Resolved(Resolved(a, absolute) + Resolved(b, false), absolute)
    ensures Stacked(Resolved(a + b, absolute), absolute)
  {
    ResolvePrefix(a, b, absolute);
    ResolveSuffix(Resolved(a, absolute), b, absolute);
    ResolvedStacked(a + b, absolute);
  }

  /** Climbing n levels from a list whose last n entries are names drops exactly those. */
  lemma {:induction false} ResolveClimb(out: seq<string>, n: nat, absolute: bool)
    requires n <= |out| && Stacked(out, absolute)
    requires forall i | |out| - n <= i < |out| :: out[i] != ".."
    ensures Resolved(out + Climb(n), absolute) == out[..|out| - n]
  {
    if n == 0 {
      assert out + Climb(0) == out;
      ResolvedFixed(out, absolute);
    } else {
      assert out + Climb(n) == (out + Climb(n - 1)) + [".."];
      ResolvedSnoc(out + Climb(n - 1), "..", absolute);
      ResolveClimb(out, n - 1, absolute);
    }
  }
}
