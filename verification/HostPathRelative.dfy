/** relative undoes join. */
module HostPathRelative {
  import opened HostPath
  import opened HostPathSegments
  import opened HostPathPlaces
  import opened HostPathLaws

  // ---- Case folding ----

  predicate NoBackslash(s: string) {
    '\\' !in s
  }

  function Slashed(x: string, y: string): string {
    x + "\\" + y
  }

  /** What is assumed of the host's lower-casing: it works on the two sides of a backslash separately, makes none, and
      makes nothing empty. */
  ghost predicate CaseFold(lower: string -> string) {
    && (forall x: string :: lower(x) == "" <==> x == "")
    && (forall x: string, y: string :: lower(Slashed(x, y)) == Slashed(lower(x), lower(y)))
    && (forall x: string | NoBackslash(x) :: NoBackslash(lower(x)))
  }

  lemma FoldSep(platform: Platform, lower: string -> string, x: string, y: string)
    requires CaseFold(lower)
    ensures Fold(platform, lower, x + [SepOf(platform)] + y)
         == Fold(platform, lower, x) + [SepOf(platform)] + Fold(platform, lower, y)
  {
    if platform.Win32? {
      assert x + [SepOf(platform)] + y == Slashed(x, y);
    }
  }

  predicate FoldAlike(platform: Platform, lower: string -> string, a: seq<string>, b: seq<string>) {
    |a| == |b| && forall i | 0 <= i < |a| :: Fold(platform, lower, a[i]) == Fold(platform, lower, b[i])
  }

  lemma {:induction false} FoldJoin(platform: Platform, lower: string -> string, a: seq<string>, b: seq<string>)
    requires CaseFold(lower) && FoldAlike(platform, lower, a, b)
    ensures Fold(platform, lower, JoinWith(a, SepOf(platform))) == Fold(platform, lower, JoinWith(b, SepOf(platform)))
  {
    if |a| > 1 {
      FoldSep(platform, lower, a[0], JoinWith(a[1..], SepOf(platform)));
      FoldSep(platform, lower, b[0], JoinWith(b[1..], SepOf(platform)));
      FoldJoin(platform, lower, a[1..], b[1..]);
    }
  }

  /** What an absolute root has before its last separator. */
  function RootStem(canonical: string): string
    requires canonical != ""
  {
    canonical[..|canonical| - 1]
  }

  lemma RootSplit(platform: Platform, canonical: string, tail: string)
    requires CanonicalRoot(platform, canonical, true)
    ensures canonical != "" && canonical + tail == RootStem(canonical) + [SepOf(platform)] + tail
  {
    AbsoluteRootEnds(platform, canonical, true);
    assert canonical == RootStem(canonical) + [SepOf(platform)];
  }

  lemma SnocInjective(a: string, b: string, c: char)
    requires a + [c] + "" == b + [c] + ""
    ensures a == b
  {
    assert a == (a + [c] + "")[..|a + [c] + ""| - 1];
    assert b == (b + [c] + "")[..|b + [c] + ""| - 1];
  }

  lemma FoldStem(platform: Platform, lower: string -> string, a: string, b: string)
    requires CaseFold(lower) && CanonicalRoot(platform, a, true) && CanonicalRoot(platform, b, true)
    requires Fold(platform, lower, a) == Fold(platform, lower, b)
    ensures a != "" && b != "" && Fold(platform, lower, RootStem(a)) == Fold(platform, lower, RootStem(b))
  {
    RootSplit(platform, a, "");
    RootSplit(platform, b, "");
    assert a + "" == a && b + "" == b;
    FoldSep(platform, lower, RootStem(a), "");
    FoldSep(platform, lower, RootStem(b), "");
    assert Fold(platform, lower, "") == "";
    SnocInjective(Fold(platform, lower, RootStem(a)), Fold(platform, lower, RootStem(b)), SepOf(platform));
  }

  /** Places under roots that fold alike, with segments that fold alike, are spelled alike up to case. */
  lemma FoldRender(platform: Platform, lower: string -> string, a: Place, b: Place)
    requires CaseFold(lower)
    requires CanonicalRoot(platform, a.canonical, a.absolute) && a.absolute
    requires CanonicalRoot(platform, b.canonical, b.absolute) && b.absolute
    requires Fold(platform, lower, a.canonical) == Fold(platform, lower, b.canonical)
    requires FoldAlike(platform, lower, a.segments, b.segments)
    ensures Fold(platform, lower, Render(platform, a)) == Fold(platform, lower, Render(platform, b))
  {
    var ta, tb := JoinWith(a.segments, SepOf(platform)), JoinWith(b.segments, SepOf(platform));
    FoldJoin(platform, lower, a.segments, b.segments);
    FoldStem(platform, lower, a.canonical, b.canonical);
    RootSplit(platform, a.canonical, ta);
    RootSplit(platform, b.canonical, tb);
    FoldSep(platform, lower, RootStem(a.canonical), ta);
    FoldSep(platform, lower, RootStem(b.canonical), tb);
  }

  // ---- The segments relative compares ----

  /** The server and share of a UNC root, which relative compares before the segments; nothing for other roots. */
  function RootNames(canonical: string): seq<string> {
    if |canonical| >= 2 && canonical[..2] == "\\\\" then NonEmpty(SplitEach(Win32, canonical[2..])) else []
  }

  lemma SegmentsOfTrimmed(platform: Platform, p: string)
    requires Stable(platform, p)
    ensures var t := Trimmed(platform, p);
            SegmentsOf(platform, t, ParseRoot(platform, t))
            == RootNames(PlaceOf(platform, p).canonical) + PlaceOf(platform, p).segments
  {
    TrimmedForm(platform, p);
  }

  lemma {:induction false} LastSepOf(x: string, y: string)
    requires forall m | 0 <= m < |y| :: !IsSep(Win32, y[m])
    ensures LastSep(Win32, x + "\\" + y, 0, |x| + 1 + |y|) == |x|
    decreases |y|
  {
    LastSepDown(x + "\\" + y, |x|, |x| + 1 + |y|);
  }

  lemma {:induction false} LastSepDown(s: string, k: nat, hi: nat)
    requires k < hi <= |s| && IsSep(Win32, s[k])
    requires forall m | k < m < hi :: !IsSep(Win32, s[m])
    ensures LastSep(Win32, s, 0, hi) == k
    decreases hi
  {
    if k < hi - 1 {
      LastSepDown(s, k, hi - 1);
    }
  }

  lemma SplitEachSnoc(x: string, y: string)
    requires forall m | 0 <= m < |y| :: !IsSep(Win32, y[m])
    ensures SplitEach(Win32, x + "\\" + y) == SplitEach(Win32, x) + [y]
  {
    var s := x + "\\" + y;
    LastSepOf(x, y);
    assert s[..|x|] == x && s[|x| + 1..] == y;
  }

  lemma SplitEachOne(x: string)
    requires forall m | 0 <= m < |x| :: !IsSep(Win32, x[m])
    ensures SplitEach(Win32, x) == [x]
  {
  }

  lemma UncRootNames(server: string, share: string)
    requires IsName(server) && IsName(share)
    ensures RootNames(UncRoot(server, share)) == [server, share]
  {
    var root := UncRoot(server, share);
    assert root[..2] == "\\\\" && root[2..] == (server + "\\" + share) + "\\" + "";
    UncPieces(server, share);
    TwoNonEmpty(server, share);
  }

  lemma UncPieces(server: string, share: string)
    requires IsName(server) && IsName(share)
    ensures SplitEach(Win32, (server + "\\" + share) + "\\" + "") == [server, share, ""]
  {
    SplitEachSnoc(server + "\\" + share, "");
    SplitEachSnoc(server, share);
    SplitEachOne(server);
    assert [server] + [share] + [""] == [server, share, ""];
  }

  lemma TwoNonEmpty(a: string, b: string)
    requires a != "" && b != ""
    ensures NonEmpty([a, b, ""]) == [a, b]
  {
    assert [a, b, ""][1..] == [b, ""] && [b, ""][1..] == [""] && [""][1..] == [];
    assert NonEmpty([""]) == [];
    assert NonEmpty([b, ""]) == [b];
  }

  function BeforeBackslash(s: string): string {
    if s == "" || s[0] == '\\' then "" else [s[0]] + BeforeBackslash(s[1..])
  }

  lemma {:induction false} BeforeBackslashOf(x: string, y: string)
    requires NoBackslash(x)
    ensures BeforeBackslash(Slashed(x, y)) == x
  {
    if x != "" {
      assert Slashed(x, y)[1..] == Slashed(x[1..], y);
      BeforeBackslashOf(x[1..], y);
    }
  }

  lemma FirstBackslash(x: string, y: string, u: string, v: string)
    requires NoBackslash(x) && NoBackslash(u) && Slashed(x, y) == Slashed(u, v)
    ensures x == u && y == v
  {
    BeforeBackslashOf(x, y);
    BeforeBackslashOf(u, v);
    assert y == Slashed(x, y)[|x| + 1..] && v == Slashed(u, v)[|u| + 1..];
  }

  lemma NameNoBackslash(s: string)
    requires IsName(s)
    ensures NoBackslash(s)
  {
  }

  lemma UncFolded(lower: string -> string, server: string, share: string)
    requires CaseFold(lower) && IsName(server) && IsName(share)
    ensures lower(UncRoot(server, share))
         == Slashed("", Slashed("", Slashed(lower(server), Slashed(lower(share), ""))))
    ensures NoBackslash(lower(server)) && NoBackslash(lower(share))
  {
    NameNoBackslash(server);
    NameNoBackslash(share);
    var inner := Slashed(server, Slashed(share, ""));
    assert UncRoot(server, share) == Slashed("", Slashed("", inner));
    assert lower(Slashed(share, "")) == Slashed(lower(share), "");
    assert lower(inner) == Slashed(lower(server), Slashed(lower(share), ""));
    assert lower(Slashed("", inner)) == Slashed("", lower(inner));
  }

  lemma UncRootsAlike(lower: string -> string, s1: string, h1: string, s2: string, h2: string)
    requires CaseFold(lower) && IsName(s1) && IsName(h1) && IsName(s2) && IsName(h2)
    requires lower(UncRoot(s1, h1)) == lower(UncRoot(s2, h2))
    ensures lower(s1) == lower(s2) && lower(h1) == lower(h2)
  {
    UncFolded(lower, s1, h1);
    UncFolded(lower, s2, h2);
    var r1, r2 := Slashed(lower(h1), ""), Slashed(lower(h2), "");
    var q1, q2 := Slashed(lower(s1), r1), Slashed(lower(s2), r2);
    FirstBackslash("", Slashed("", q1), "", Slashed("", q2));
    FirstBackslash("", q1, "", q2);
    FirstBackslash(lower(s1), r1, lower(s2), r2);
    FirstBackslash(lower(h1), "", lower(h2), "");
  }

  /** A UNC root never folds like a drive root or a bare separator. */
  lemma UncUnlikeOthers(lower: string -> string, server: string, share: string, other: string)
    requires CaseFold(lower) && IsName(server) && IsName(share)
    requires other == "\\" || (|other| == 3 && HasDrivePrefix(other) && other[2] == '\\')
    ensures lower(UncRoot(server, share)) != lower(other)
  {
    UncFolded(lower, server, share);
    var head := if other == "\\" then "" else other[..2];
    assert other == Slashed(head, "");
    assert lower(other) == Slashed(lower(head), "");
    assert NoBackslash(head);
    var rest := Slashed("", Slashed(lower(server), Slashed(lower(share), "")));
    if lower(UncRoot(server, share)) == lower(other) {
      FirstBackslash("", rest, lower(head), "");
      assert false;
    }
  }

  lemma UncRootKey(server: string, share: string)
    requires IsName(server) && IsName(share)
    ensures RootKey(ParsedRoot(UncRoot(server, share), UncRoot(server, share), true)) == "\\\\" + server + "\\"
  {
    var root := UncRoot(server, share);
    assert root[..2] == "\\\\";
    forall k | 2 <= k < 2 + |server| ensures !IsSep(Win32, root[k]) { assert root[k] == server[k - 2]; }
    NameEndIs(Win32, root, 2, 2 + |server|);
    assert root[..2 + |server| + 1] == "\\\\" + server + "\\";
  }

  lemma UncRootsCompare(lower: string -> string, s1: string, h1: string, s2: string, h2: string)
    requires CaseFold(lower) && IsName(s1) && IsName(h1) && IsName(s2) && IsName(h2)
    requires lower(UncRoot(s1, h1)) == lower(UncRoot(s2, h2))
    ensures var a, b := UncRoot(s1, h1), UncRoot(s2, h2);
            && SameRoot(Win32, lower, ParsedRoot(a, a, true), ParsedRoot(b, b, true))
            && FoldAlike(Win32, lower, RootNames(a), RootNames(b))
  {
    UncRootKey(s1, h1);
    UncRootKey(s2, h2);
    UncRootNames(s1, h1);
    UncRootNames(s2, h2);
    UncRootsAlike(lower, s1, h1, s2, h2);
    UncKeysAlike(lower, s1, s2);
  }

  lemma PlainRootsCompare(platform: Platform, lower: string -> string, a: string, b: string)
    requires |a| < 2 || a[..2] != "\\\\"
    requires |b| < 2 || b[..2] != "\\\\"
    requires Fold(platform, lower, a) == Fold(platform, lower, b)
    ensures SameRoot(platform, lower, ParsedRoot(a, a, true), ParsedRoot(b, b, true))
    ensures FoldAlike(platform, lower, RootNames(a), RootNames(b))
  {
  }

  /** Roots that fold alike have keys that fold alike, and the same names to compare. */
  lemma RootsAlike(platform: Platform, lower: string -> string, a: string, b: string)
    requires CaseFold(lower)
    requires CanonicalRoot(platform, a, true) && CanonicalRoot(platform, b, true)
    requires Fold(platform, lower, a) == Fold(platform, lower, b)
    ensures SameRoot(platform, lower, ParsedRoot(a, a, true), ParsedRoot(b, b, true))
    ensures FoldAlike(platform, lower, RootNames(a), RootNames(b))
  {
    var uncA := platform.Win32? && exists s, h :: IsUncRoot(s, h, a);
    var uncB := platform.Win32? && exists s, h :: IsUncRoot(s, h, b);
    if uncA && uncB {
      var s1, h1 :| IsUncRoot(s1, h1, a);
      var s2, h2 :| IsUncRoot(s2, h2, b);
      UncRootsCompare(lower, s1, h1, s2, h2);
    } else if uncA {
      var s1, h1 :| IsUncRoot(s1, h1, a);
      UncUnlikeOthers(lower, s1, h1, b);
    } else if uncB {
      var s2, h2 :| IsUncRoot(s2, h2, b);
      UncUnlikeOthers(lower, s2, h2, a);
    } else {
      PlainRootsCompare(platform, lower, a, b);
    }
  }

  lemma UncKeysAlike(lower: string -> string, s1: string, s2: string)
    requires CaseFold(lower) && lower(s1) == lower(s2)
    ensures lower("\\\\" + s1 + "\\") == lower("\\\\" + s2 + "\\")
  {
    assert "\\\\" + s1 + "\\" == Slashed("", Slashed("", Slashed(s1, "")));
    assert "\\\\" + s2 + "\\" == Slashed("", Slashed("", Slashed(s2, "")));
    assert lower(Slashed(s1, "")) == lower(Slashed(s2, ""));
    assert lower(Slashed("", Slashed(s1, ""))) == lower(Slashed("", Slashed(s2, "")));
  }

  // ---- Climbing and descending ----

  lemma {:induction false} CommonShape(platform: Platform, lower: string -> string, a: seq<string>, b: seq<string>)
    ensures var n := CommonPrefix(platform, lower, a, b);
            && (forall i | 0 <= i < n :: Fold(platform, lower, a[i]) == Fold(platform, lower, b[i]))
            && (n < |a| && n < |b| ==> Fold(platform, lower, a[n]) != Fold(platform, lower, b[n]))
  {
    if a != [] && b != [] && Fold(platform, lower, a[0]) == Fold(platform, lower, b[0]) {
      CommonShape(platform, lower, a[1..], b[1..]);
    }
  }

  lemma {:induction false} CommonSkip(platform: Platform, lower: string -> string, na: seq<string>, nb: seq<string>,
                                      fa: seq<string>, fb: seq<string>)
    requires FoldAlike(platform, lower, na, nb)
    ensures CommonPrefix(platform, lower, na + fa, nb + fb) == |na| + CommonPrefix(platform, lower, fa, fb)
  {
    if na == [] {
      assert na + fa == fa && nb + fb == fb;
    } else {
      assert (na + fa)[1..] == na[1..] + fa && (nb + fb)[1..] == nb[1..] + fb;
      CommonSkip(platform, lower, na[1..], nb[1..], fa, fb);
    }
  }

  lemma RelativeSkip(platform: Platform, lower: string -> string, na: seq<string>, nb: seq<string>, fa: seq<string>,
                     fb: seq<string>)
    requires FoldAlike(platform, lower, na, nb)
    ensures RelativeSegments(platform, lower, na + fa, nb + fb) == RelativeSegments(platform, lower, fa, fb)
  {
    CommonSkip(platform, lower, na, nb, fa, fb);
    var c := CommonPrefix(platform, lower, fa, fb);
    assert (nb + fb)[|na| + c..] == fb[c..];
  }

  lemma RelativeClean(platform: Platform, lower: string -> string, fa: seq<string>, fb: seq<string>)
    requires AllClean(platform, fb)
    ensures AllClean(platform, RelativeSegments(platform, lower, fa, fb))
  {
    var r := RelativeSegments(platform, lower, fa, fb);
    var c := CommonPrefix(platform, lower, fa, fb);
    forall i | 0 <= i < |r| ensures Clean(platform, r[i]) {
      if i >= |fa| - c {
        assert r[i] == fb[c..][i - (|fa| - c)];
      }
    }
  }

  /** What is left after climbing out of fa and going down fb, when everything climbed out of is a name. */
  lemma ClimbThenDescend(fa: seq<string>, rest: seq<string>, c: nat, absolute: bool)
    requires Stacked(fa, absolute) && c <= |fa|
    requires forall i | c <= i < |fa| :: fa[i] != ".."
    requires Stacked(fa[..c] + rest, absolute)
    ensures Resolved(fa + (Climb(|fa| - c) + rest), absolute) == fa[..c] + rest
  {
    assert fa + (Climb(|fa| - c) + rest) == (fa + Climb(|fa| - c)) + rest;
    ResolvePrefix(fa + Climb(|fa| - c), rest, absolute);
    ResolveClimb(fa, |fa| - c, absolute);
    ResolvedFixed(fa[..c] + rest, absolute);
  }

  /** The text relative returns splits back into its segments. */
  lemma RelativeText(platform: Platform, lower: string -> string, from: string, to: string)
    requires CaseFold(lower) && Stable(platform, from) && Stable(platform, to)
    requires ParseRoot(platform, from).absolute == ParseRoot(platform, to).absolute
    requires if ParseRoot(platform, from).absolute
             then Fold(platform, lower, ParseRoot(platform, from).canonical)
               == Fold(platform, lower, ParseRoot(platform, to).canonical)
             else !platform.Win32?
    ensures var segments := RelativeSegments(platform, lower, PlaceOf(platform, from).segments,
                                             PlaceOf(platform, to).segments);
            && RelativePath(platform, lower, from, to) == JoinWith(segments, SepOf(platform))
            && SplitSegments(platform, RelativePath(platform, lower, from, to)) == segments
            && AllClean(platform, segments)
  {
    var pa, pb := PlaceOf(platform, from), PlaceOf(platform, to);
    TrimmedForm(platform, from);
    TrimmedForm(platform, to);
    SegmentsOfTrimmed(platform, from);
    SegmentsOfTrimmed(platform, to);
    PlaceShape(platform, from);
    PlaceShape(platform, to);
    if pa.absolute {
      RootsAlike(platform, lower, pa.canonical, pb.canonical);
    }
    RelativeSkip(platform, lower, RootNames(pa.canonical), RootNames(pb.canonical), pa.segments, pb.segments);
    RelativeClean(platform, lower, pa.segments, pb.segments);
    JoinThenSplit(platform, RelativeSegments(platform, lower, pa.segments, pb.segments));
  }

  /** The place reached by joining a path with what relative returns, when everything climbed out of is a name. */
  lemma JoinRelativePlace(platform: Platform, lower: string -> string, from: string, to: string)
    requires CaseFold(lower) && Anchored(platform, from)
    requires platform.Win32? ==> ParseRoot(platform, from).absolute
    requires ParseRoot(platform, from).absolute == ParseRoot(platform, to).absolute
    requires Stable(platform, to)
    requires ParseRoot(platform, from).absolute ==>
               Fold(platform, lower, ParseRoot(platform, from).canonical)
                 == Fold(platform, lower, ParseRoot(platform, to).canonical)
    ensures var pa, pb := PlaceOf(platform, from), PlaceOf(platform, to);
            var joined := PlaceOf(platform, Join(platform, [from, RelativePath(platform, lower, from, to)]));
            && joined.canonical == pa.canonical && joined.absolute == pa.absolute
            && joined.segments
               == Resolved(pa.segments + RelativeSegments(platform, lower, pa.segments, pb.segments), pa.absolute)
    ensures Stable(platform, Join(platform, [from, RelativePath(platform, lower, from, to)]))
  {
    var pa, pb := PlaceOf(platform, from), PlaceOf(platform, to);
    ParsedRootCanonical(platform, from);
    RelativeText(platform, lower, from, to);
    JoinPlace(platform, from, RelativePath(platform, lower, from, to));
    ResolvePrefix(Segments(platform, from), RelativeSegments(platform, lower, pa.segments, pb.segments), pa.absolute);
  }

  /** How many levels a resolved path climbs before its first name. */
  function Ups(segments: seq<string>): (n: nat)
    ensures n <= |segments|
  {
    if segments != [] && segments[0] == ".." then 1 + Ups(segments[1..]) else 0
  }

  /** What Ups counts: the leading entries are `..`, the next one is not. */
  lemma {:induction false} UpsShape(segments: seq<string>)
    ensures segments[..Ups(segments)] == Climb(Ups(segments))
    ensures Ups(segments) < |segments| ==> segments[Ups(segments)] != ".."
  {
    if segments != [] && segments[0] == ".." {
      UpsShape(segments[1..]);
    }
  }

  lemma StackedNames(segments: seq<string>, absolute: bool)
    requires Stacked(segments, absolute)
    ensures forall i | Ups(segments) <= i < |segments| :: segments[i] != ".."
    ensures absolute ==> Ups(segments) == 0
  {
    UpsShape(segments);
  }

  lemma SplicePosix(platform: Platform, lower: string -> string, fa: seq<string>, fb: seq<string>)
    requires !platform.Win32?
    ensures var c := CommonPrefix(platform, lower, fa, fb); fa[..c] + fb[c..] == fb
  {
    var c := CommonPrefix(platform, lower, fa, fb);
    CommonShape(platform, lower, fa, fb);
    assert fa[..c] == fb[..c];
    assert fb[..c] + fb[c..] == fb;
  }

  lemma SpliceStacked(fa: seq<string>, fb: seq<string>, c: nat)
    requires Stacked(fa, true) && Stacked(fb, true) && c <= |fa| && c <= |fb|
    ensures Stacked(fa[..c] + fb[c..], true)
  {
    var r := fa[..c] + fb[c..];
    assert forall i | 0 <= i < |r| :: r[i] == if i < c then fa[i] else fb[i];
  }

  lemma SpliceFolds(platform: Platform, lower: string -> string, fa: seq<string>, fb: seq<string>, c: nat)
    requires c <= |fa| && c <= |fb|
    requires forall i | 0 <= i < c :: Fold(platform, lower, fa[i]) == Fold(platform, lower, fb[i])
    ensures FoldAlike(platform, lower, fa[..c] + fb[c..], fb)
  {
  }

  lemma SpliceRooted(platform: Platform, lower: string -> string, fa: seq<string>, fb: seq<string>)
    requires Stacked(fa, true) && Stacked(fb, true)
    ensures var c := CommonPrefix(platform, lower, fa, fb);
            Stacked(fa[..c] + fb[c..], true) && FoldAlike(platform, lower, fa[..c] + fb[c..], fb)
  {
    var c := CommonPrefix(platform, lower, fa, fb);
    CommonShape(platform, lower, fa, fb);
    SpliceStacked(fa, fb, c);
    SpliceFolds(platform, lower, fa, fb, c);
  }

  lemma RootedDescend(platform: Platform, lower: string -> string, fa: seq<string>, fb: seq<string>)
    requires Stacked(fa, true) && Stacked(fb, true)
    ensures FoldAlike(platform, lower, Resolved(fa + RelativeSegments(platform, lower, fa, fb), true), fb)
  {
    var c := CommonPrefix(platform, lower, fa, fb);
    SpliceRooted(platform, lower, fa, fb);
    RelativeIs(platform, lower, fa, fb, c);
    RootedClimb(fa, fb[c..], c);
  }

  lemma RelativeIs(platform: Platform, lower: string -> string, fa: seq<string>, fb: seq<string>, c: nat)
    requires c == CommonPrefix(platform, lower, fa, fb)
    ensures RelativeSegments(platform, lower, fa, fb) == Climb(|fa| - c) + fb[c..]
  {
  }

  lemma RootedClimb(fa: seq<string>, rest: seq<string>, c: nat)
    requires Stacked(fa, true) && c <= |fa| && Stacked(fa[..c] + rest, true)
    ensures Resolved(fa + (Climb(|fa| - c) + rest), true) == fa[..c] + rest
  {
    ClimbThenDescend(fa, rest, c, true);
  }

  lemma PosixDescend(platform: Platform, lower: string -> string, fa: seq<string>, fb: seq<string>, absolute: bool)
    requires !platform.Win32? && Stacked(fa, absolute) && Stacked(fb, absolute)
    requires Ups(fa) <= CommonPrefix(platform, lower, fa, fb)
    ensures Resolved(fa + RelativeSegments(platform, lower, fa, fb), absolute) == fb
  {
    var c := CommonPrefix(platform, lower, fa, fb);
    StackedNames(fa, absolute);
    SplicePosix(platform, lower, fa, fb);
    ClimbThenDescend(fa, fb[c..], c, absolute);
  }

  /** relative undoes join between absolute paths under one root: `/` on posix; on win32 one drive, one UNC share, or a
      single leading separator. */
  lemma RelativeUndoesJoin(platform: Platform, lower: string -> string, from: string, to: string)
    requires CaseFold(lower) && Anchored(platform, from)
    requires ParseRoot(platform, from).absolute && ParseRoot(platform, to).absolute
    requires Fold(platform, lower, ParseRoot(platform, from).canonical)
             == Fold(platform, lower, ParseRoot(platform, to).canonical)
    ensures SamePath(platform, lower, Join(platform, [from, RelativePath(platform, lower, from, to)]), to)
  {
    var pa, pb := PlaceOf(platform, from), PlaceOf(platform, to);
    var j := Join(platform, [from, RelativePath(platform, lower, from, to)]);
    PlaceShape(platform, from);
    PlaceShape(platform, to);
    JoinRelativePlace(platform, lower, from, to);
    RootedDescend(platform, lower, pa.segments, pb.segments);
    TrimmedForm(platform, j);
    TrimmedForm(platform, to);
    FoldRender(platform, lower, PlaceOf(platform, j), pb);
  }

  // ---- Between two roots there is no way back ----

  lemma UncRenderFolded(lower: string -> string, server: string, share: string, tail: string)
    requires CaseFold(lower)
    ensures lower(UncRoot(server, share) + tail)
         == Slashed("", Slashed("", Slashed(lower(server), Slashed(lower(share), lower(tail)))))
  {
    var inner := Slashed(server, Slashed(share, tail));
    assert UncRoot(server, share) + tail == Slashed("", Slashed("", inner));
    assert lower(Slashed(share, tail)) == Slashed(lower(share), lower(tail));
    assert lower(inner) == Slashed(lower(server), lower(Slashed(share, tail)));
    assert lower(Slashed("", inner)) == Slashed("", lower(inner));
  }

  /** What a host other than a UNC share writes before the backslash of its root: nothing, or a drive. */
  predicate ShortRoot(canonical: string, head: string) {
    canonical == head + "\\" && NoBackslash(head)
  }

  lemma ShortRenderFolded(lower: string -> string, canonical: string, head: string, tail: string)
    requires CaseFold(lower) && ShortRoot(canonical, head)
    ensures lower(canonical + tail) == Slashed(lower(head), lower(tail)) && NoBackslash(lower(head))
  {
    assert canonical + tail == Slashed(head, tail);
  }

  lemma TailNoBackslash(lower: string -> string, segments: seq<string>)
    requires CaseFold(lower) && AllClean(Win32, segments)
    ensures var t := lower(JoinWith(segments, '\\')); t == "" || t[0] != '\\'
  {
    if segments != [] {
      var first := segments[0];
      assert Clean(Win32, first) && NoBackslash(first);
      assert lower(first) != "" && lower(first)[0] in lower(first);
      if |segments| > 1 {
        assert JoinWith(segments, '\\') == Slashed(first, JoinWith(segments[1..], '\\'));
        assert lower(JoinWith(segments, '\\')) == Slashed(lower(first), lower(JoinWith(segments[1..], '\\')));
      }
    }
  }

  lemma UncRendersAlike(lower: string -> string, s1: string, h1: string, t1: string, s2: string, h2: string, t2: string)
    requires CaseFold(lower) && IsName(s1) && IsName(h1) && IsName(s2) && IsName(h2)
    requires lower(UncRoot(s1, h1) + t1) == lower(UncRoot(s2, h2) + t2)
    ensures lower(UncRoot(s1, h1)) == lower(UncRoot(s2, h2))
  {
    UncFolded(lower, s1, h1);
    UncFolded(lower, s2, h2);
    UncRenderFolded(lower, s1, h1, t1);
    UncRenderFolded(lower, s2, h2, t2);
    var r1, r2 := Slashed(lower(h1), lower(t1)), Slashed(lower(h2), lower(t2));
    var q1, q2 := Slashed(lower(s1), r1), Slashed(lower(s2), r2);
    FirstBackslash("", Slashed("", q1), "", Slashed("", q2));
    FirstBackslash("", q1, "", q2);
    FirstBackslash(lower(s1), r1, lower(s2), r2);
    FirstBackslash(lower(h1), lower(t1), lower(h2), lower(t2));
  }

  lemma UncRenderUnlikeShort(lower: string -> string, server: string, share: string, t1: string, canonical: string,
                             head: string, t2: string)
    requires CaseFold(lower) && ShortRoot(canonical, head)
    requires lower(t2) == "" || lower(t2)[0] != '\\'
    ensures lower(UncRoot(server, share) + t1) != lower(canonical + t2)
  {
    UncRenderFolded(lower, server, share, t1);
    ShortRenderFolded(lower, canonical, head, t2);
    var rest := Slashed("", Slashed(lower(server), Slashed(lower(share), lower(t1))));
    if lower(UncRoot(server, share) + t1) == lower(canonical + t2) {
      FirstBackslash("", rest, lower(head), lower(t2));
      assert false;
    }
  }

  lemma ShortRendersAlike(lower: string -> string, c1: string, h1: string, t1: string, c2: string, h2: string,
                          t2: string)
    requires CaseFold(lower) && ShortRoot(c1, h1) && ShortRoot(c2, h2)
    requires lower(c1 + t1) == lower(c2 + t2)
    ensures lower(c1) == lower(c2)
  {
    ShortRenderFolded(lower, c1, h1, t1);
    ShortRenderFolded(lower, c2, h2, t2);
    FirstBackslash(lower(h1), lower(t1), lower(h2), lower(t2));
    ShortRenderFolded(lower, c1, h1, "");
    ShortRenderFolded(lower, c2, h2, "");
    assert c1 + "" == c1 && c2 + "" == c2;
  }

  lemma ShortOrUnc(canonical: string)
    requires CanonicalRoot(Win32, canonical, true)
    ensures canonical != ""
    ensures ShortRoot(canonical, RootStem(canonical)) || exists s, h :: IsUncRoot(s, h, canonical)
  {
  }

  /** Two absolute places that are spelled alike up to case have roots that fold alike. */
  lemma RenderFixesRoot(lower: string -> string, a: Place, b: Place)
    requires CaseFold(lower)
    requires CanonicalRoot(Win32, a.canonical, true) && AllClean(Win32, a.segments) && a.absolute
    requires CanonicalRoot(Win32, b.canonical, true) && AllClean(Win32, b.segments) && b.absolute
    requires lower(Render(Win32, a)) == lower(Render(Win32, b))
    ensures lower(a.canonical) == lower(b.canonical)
  {
    var ta, tb := Tail(Win32, a), Tail(Win32, b);
    TailNoBackslash(lower, a.segments);
    TailNoBackslash(lower, b.segments);
    assert ta == JoinWith(a.segments, '\\') && tb == JoinWith(b.segments, '\\');
    ShortOrUnc(a.canonical);
    ShortOrUnc(b.canonical);
    if s1, h1 :| IsUncRoot(s1, h1, a.canonical) {
      if s2, h2 :| IsUncRoot(s2, h2, b.canonical) {
        UncRendersAlike(lower, s1, h1, ta, s2, h2, tb);
      } else {
        UncRenderUnlikeShort(lower, s1, h1, ta, b.canonical, RootStem(b.canonical), tb);
      }
    } else if s2, h2 :| IsUncRoot(s2, h2, b.canonical) {
      UncRenderUnlikeShort(lower, s2, h2, tb, a.canonical, RootStem(a.canonical), ta);
    } else {
      ShortRendersAlike(lower, a.canonical, RootStem(a.canonical), ta, b.canonical, RootStem(b.canonical), tb);
    }
  }

  /** From an anchored absolute path relative undoes join exactly when the roots fold alike; between two drives, or two
      shares of one server, it never does. */
  lemma AnchoredRelativeExact(platform: Platform, lower: string -> string, from: string, to: string)
    requires CaseFold(lower) && Anchored(platform, from)
    requires ParseRoot(platform, from).absolute && ParseRoot(platform, to).absolute
    ensures SamePath(platform, lower, Join(platform, [from, RelativePath(platform, lower, from, to)]), to)
       <==> Fold(platform, lower, ParseRoot(platform, from).canonical)
            == Fold(platform, lower, ParseRoot(platform, to).canonical)
  {
    var j := Join(platform, [from, RelativePath(platform, lower, from, to)]);
    ParsedRootCanonical(platform, from);
    ParsedRootCanonical(platform, to);
    if Fold(platform, lower, ParseRoot(platform, from).canonical)
      == Fold(platform, lower, ParseRoot(platform, to).canonical) {
      RelativeUndoesJoin(platform, lower, from, to);
    } else if SamePath(platform, lower, j, to) {
      JoinPlace(platform, from, RelativePath(platform, lower, from, to));
      PlaceShape(platform, j);
      PlaceShape(platform, to);
      TrimmedForm(platform, j);
      TrimmedForm(platform, to);
      RenderFixesRoot(lower, PlaceOf(platform, j), PlaceOf(platform, to));
    }
  }

  // ---- posix, every pair of paths ----

  predicate AllNames(rest: seq<string>) {
    forall i | 0 <= i < |rest| :: rest[i] != ".."
  }

  lemma ClimbSplit(m: nat, n: nat, rest: seq<string>)
    ensures Climb(m + n) + rest == Climb(m) + (Climb(n) + rest)
  {
  }

  lemma ClimbStacked(n: nat, rest: seq<string>)
    requires AllNames(rest)
    ensures Stacked(Climb(n) + rest, false)
  {
  }

  lemma PileFixed(n: nat, rest: seq<string>)
    requires AllNames(rest)
    ensures Resolved(Climb(n) + rest, false) == Climb(n) + rest
  {
    ClimbStacked(n, rest);
    ResolvedFixed(Climb(n) + rest, false);
  }

  lemma PileUp(k: nat, n: nat, rest: seq<string>)
    requires AllNames(rest)
    ensures Resolved(Climb(k) + (Climb(n) + rest), false) == Climb(k + n) + rest
  {
    ClimbSplit(k, n, rest);
    PileFixed(k + n, rest);
  }

  /** A resolved list of k climbs and n names: climbing out of the names leaves the climbs. */
  lemma ClimbAllNames(fa: seq<string>, k: nat, n: nat)
    requires Stacked(fa, false) && k == Ups(fa) && |fa| == k + n
    ensures Resolved(fa + Climb(n), false) == Climb(k)
  {
    StackedNames(fa, false);
    UpsShape(fa);
    ClimbDownTo(fa, n, k);
  }

  lemma ClimbDownTo(fa: seq<string>, n: nat, k: nat)
    requires k + n == |fa| && Stacked(fa, false) && fa[..k] == Climb(k)
    requires forall i | k <= i < |fa| :: fa[i] != ".."
    ensures Resolved(fa + Climb(n), false) == Climb(k)
  {
    ResolveClimb(fa, n, false);
  }

  lemma ResolveThree(a: seq<string>, b: seq<string>, c: seq<string>, absolute: bool)
    ensures Resolved(a + (b + c), absolute) == Resolved(Resolved(a + b, absolute) + c, absolute)
  {
    assert a + (b + c) == (a + b) + c;
    ResolvePrefix(a + b, c, absolute);
  }

  lemma ClimbPastNames(fa: seq<string>, k: nat, names: nat, extra: nat, rest: seq<string>)
    requires Resolved(fa + Climb(names), false) == Climb(k)
    ensures Resolved(fa + (Climb(names + extra) + rest), false) == Resolved(Climb(k) + (Climb(extra) + rest), false)
  {
    ClimbSplit(names, extra, rest);
    ResolveThree(fa, Climb(names), Climb(extra) + rest, false);
  }

  lemma {:induction false} CommonOfUps(platform: Platform, lower: string -> string, fa: seq<string>, fb: seq<string>)
    requires !platform.Win32?
    ensures var c := CommonPrefix(platform, lower, fa, fb);
            if Ups(fa) <= Ups(fb) then c >= Ups(fa) else c == Ups(fb)
  {
    if fa != [] && fb != [] && fa[0] == ".." && fb[0] == ".." {
      CommonOfUps(platform, lower, fa[1..], fb[1..]);
    }
  }

  lemma NamesAfterUps(fb: seq<string>)
    requires Stacked(fb, false)
    ensures AllNames(fb[Ups(fb)..])
  {
    StackedNames(fb, false);
  }

  lemma PiledLength(k: nat, n: nat, rest: seq<string>)
    requires AllNames(rest)
    ensures |Resolved(Climb(k) + (Climb(n) + rest), false)| == k + n + |rest|
  {
    PileUp(k, n, rest);
  }

  /** Climbing some levels past all the names of fa leaves a list longer than fa's own climb by as many. */
  lemma TooFarLength(fa: seq<string>, k: nat, names: nat, extra: nat, total: nat, rest: seq<string>)
    requires Resolved(fa + Climb(names), false) == Climb(k) && total == names + extra
    requires AllNames(rest)
    ensures |Resolved(fa + (Climb(total) + rest), false)| == k + extra + |rest|
  {
    ClimbPastNames(fa, k, names, extra, rest);
    PiledLength(k, extra, rest);
  }

  lemma CommonBelow(platform: Platform, lower: string -> string, fa: seq<string>, fb: seq<string>, m: nat)
    requires !platform.Win32? && m == Ups(fb) < Ups(fa)
    ensures CommonPrefix(platform, lower, fa, fb) == m
  {
    CommonOfUps(platform, lower, fa, fb);
  }

  /** A target that climbs less than the start is not reached: what is reached is longer. */
  lemma RelativeTooFar(platform: Platform, lower: string -> string, fa: seq<string>, fb: seq<string>)
    requires !platform.Win32? && Ups(fb) < Ups(fa) && Stacked(fa, false) && Stacked(fb, false)
    ensures |Resolved(fa + RelativeSegments(platform, lower, fa, fb), false)| > |fb|
  {
    var m := Ups(fb);
    NamesAfterUps(fb);
    CommonBelow(platform, lower, fa, fb, m);
    RelativeIs(platform, lower, fa, fb, m);
    TooFarBy(fa, Ups(fa), m, fb[m..]);
  }

  lemma TooFarBy(fa: seq<string>, k: nat, m: nat, rest: seq<string>)
    requires Stacked(fa, false) && m < k == Ups(fa) && AllNames(rest)
    ensures |Resolved(fa + (Climb(|fa| - m) + rest), false)| > m + |rest|
  {
    TooFarAt(fa, k, |fa| - k, k - m, |fa| - m, rest);
  }

  lemma TooFarAt(fa: seq<string>, k: nat, names: nat, extra: nat, total: nat, rest: seq<string>)
    requires Stacked(fa, false) && k == Ups(fa) && |fa| == k + names && total == names + extra && AllNames(rest)
    ensures |Resolved(fa + (Climb(total) + rest), false)| == k + extra + |rest|
  {
    ClimbAllNames(fa, k, names);
    TooFarLength(fa, k, names, extra, total, rest);
  }

  /** Between two posix paths of one kind, relative leads back exactly when the target climbs at least as far. */
  lemma RelativeSegmentsExact(platform: Platform, lower: string -> string, fa: seq<string>, fb: seq<string>,
                              absolute: bool)
    requires !platform.Win32? && Stacked(fa, absolute) && Stacked(fb, absolute)
    ensures Resolved(fa + RelativeSegments(platform, lower, fa, fb), absolute) == fb <==> Ups(fa) <= Ups(fb)
  {
    if Ups(fa) <= Ups(fb) {
      CommonOfUps(platform, lower, fa, fb);
      PosixDescend(platform, lower, fa, fb, absolute);
    } else {
      StackedNames(fa, absolute);
      RelativeTooFar(platform, lower, fa, fb);
    }
  }

  /** When relative leads back, for any two posix paths. */
  predicate LeadsBack(platform: Platform, from: string, to: string) {
    if ParseRoot(platform, from).absolute == ParseRoot(platform, to).absolute
    then Ups(PlaceOf(platform, from).segments) <= Ups(PlaceOf(platform, to).segments)
    else from == ""
  }

  /** On posix relative undoes join exactly when LeadsBack holds. */
  lemma PosixRelativeExact(platform: Platform, lower: string -> string, from: string, to: string)
    requires !platform.Win32? && CaseFold(lower)
    ensures SamePath(platform, lower, Join(platform, [from, RelativePath(platform, lower, from, to)]), to)
       <==> LeadsBack(platform, from, to)
  {
    var rel := RelativePath(platform, lower, from, to);
    PosixSamePath(platform, lower, Join(platform, [from, rel]), to);
    PlaceShape(platform, from);
    PlaceShape(platform, to);
    var pa, pb := PlaceOf(platform, from), PlaceOf(platform, to);
    if pa.absolute != pb.absolute {
      PosixOtherRoot(platform, lower, from, to);
    } else if from != "" {
      JoinRelativePlace(platform, lower, from, to);
      RelativeSegmentsExact(platform, lower, pa.segments, pb.segments, pa.absolute);
    } else {
      PosixFromNowhere(platform, lower, to);
    }
  }

  lemma PosixOtherRoot(platform: Platform, lower: string -> string, from: string, to: string)
    requires !platform.Win32?
    requires ParseRoot(platform, from).absolute != ParseRoot(platform, to).absolute
    ensures PlaceOf(platform, Join(platform, [from, RelativePath(platform, lower, from, to)])) == PlaceOf(platform, to)
       <==> from == ""
  {
    TrimmedForm(platform, from);
    TrimmedForm(platform, to);
    var b := Trimmed(platform, to);
    assert RelativePath(platform, lower, from, to) == b;
    if from == "" {
      JoinTwo(platform, from, b);
      NormalizeKeepsPlace(platform, b);
    } else {
      JoinPlace(platform, from, b);
    }
  }

  lemma PosixFromNowhere(platform: Platform, lower: string -> string, to: string)
    requires !platform.Win32? && CaseFold(lower) && !ParseRoot(platform, to).absolute
    ensures PlaceOf(platform, Join(platform, ["", RelativePath(platform, lower, "", to)])) == PlaceOf(platform, to)
    ensures Ups(PlaceOf(platform, "").segments) == 0
  {
    var rel := RelativePath(platform, lower, "", to);
    var fb := PlaceOf(platform, to).segments;
    SegmentsOfEmpty(platform);
    PlaceShape(platform, to);
    RelativeText(platform, lower, "", to);
    FromNowhere(platform, lower, fb);
    JoinTwo(platform, "", rel);
    NormalizeKeepsPlace(platform, rel);
    PosixNames(platform, fb);
  }

  lemma FromNowhere(platform: Platform, lower: string -> string, fb: seq<string>)
    ensures RelativeSegments(platform, lower, [], fb) == fb
  {
    assert fb[0..] == fb;
  }

  /** On posix a list of names, written out, is the relative place of those names. */
  lemma PosixNames(platform: Platform, names: seq<string>)
    requires !platform.Win32? && AllClean(platform, names) && Stacked(names, false)
    ensures PlaceOf(platform, JoinWith(names, '/')) == Place("", false, names)
  {
    var p := JoinWith(names, '/');
    JoinThenSplit(platform, names);
    PosixSegments(platform, p);
    ResolvedFixed(names, false);
    if names != [] {
      JoinEnds(platform, names);
      assert Clean(platform, names[0]);
      assert p[0] == names[0][0];
    }
  }

  lemma EmptyRelativeSegments(platform: Platform, lower: string -> string, fa: seq<string>, fb: seq<string>)
    requires !platform.Win32?
    ensures RelativeSegments(platform, lower, fa, fb) == [] <==> fa == fb
  {
    var c := CommonPrefix(platform, lower, fa, fb);
    assert |RelativeSegments(platform, lower, fa, fb)| == (|fa| - c) + (|fb| - c);
    CommonShape(platform, lower, fa, fb);
    assert fa == fb ==> c == |fa|;
  }

  /** On posix, relative is the empty string exactly between paths that are the same. */
  lemma PosixRelativeEmpty(platform: Platform, lower: string -> string, from: string, to: string)
    requires !platform.Win32? && CaseFold(lower)
    ensures RelativePath(platform, lower, from, to) == "" <==> SamePath(platform, lower, from, to)
  {
    var pa, pb := PlaceOf(platform, from), PlaceOf(platform, to);
    PosixSamePath(platform, lower, from, to);
    if pa.absolute != pb.absolute {
      TrimmedForm(platform, from);
      TrimmedForm(platform, to);
      PlaceShape(platform, to);
      TailShape(platform, pb);
    } else {
      RelativeText(platform, lower, from, to);
      NoSepSegment(platform, "");
      EmptyRelativeSegments(platform, lower, pa.segments, pb.segments);
    }
  }
}
