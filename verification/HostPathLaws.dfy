/** The laws of normalize, join, dirname and basename. */
module HostPathLaws {
  import opened HostPath
  import opened HostPathSegments
  import opened HostPathPlaces

  // ---- normalize ----

  /** normalize keeps the place of a path exactly when the path is stable. */
  lemma NormalizeKeepsPlace(platform: Platform, p: string)
    ensures PlaceOf(platform, Normalize(platform, p)) == PlaceOf(platform, p) <==> Stable(platform, p)
  {
    var place := PlaceOf(platform, p);
    var t := KeptTrailing(platform, p);
    PlaceShape(platform, p);
    NormalForm(platform, p);
    if Stable(platform, p) {
      RenderReparse(platform, place, t);
    } else {
      var first := place.segments[0];
      JoinEnds(platform, place.segments);
      var n := Render(platform, place) + t;
      assert n[..|first|] == first;
      assert n[0] == first[0] && n[1] == first[1];
      assert ParseRoot(platform, n).canonical != "";
    }
  }

  lemma NormalizeNonEmpty(platform: Platform, p: string)
    ensures Normalize(platform, p) != ""
  {
    NormalForm(platform, p);
    PlaceShape(platform, p);
    var place := PlaceOf(platform, p);
    TailShape(platform, place);
    if place.absolute {
      AbsoluteRootEnds(platform, place.canonical, true);
    }
  }

  /** Two non-empty spellings of one place that agree on the trailing separator normalize alike. */
  lemma SamePlaceNormalize(platform: Platform, p: string, q: string)
    requires PlaceOf(platform, p) == PlaceOf(platform, q)
    requires HasTrailingSep(platform, p) == HasTrailingSep(platform, q)
          || (PlaceOf(platform, p).absolute && PlaceOf(platform, p).segments == [])
    ensures Normalize(platform, p) == Normalize(platform, q)
  {
    NormalForm(platform, p);
    NormalForm(platform, q);
  }

  lemma NormalTrailing(platform: Platform, p: string)
    ensures HasTrailingSep(platform, Normalize(platform, p)) == HasTrailingSep(platform, p)
         || (PlaceOf(platform, p).absolute && PlaceOf(platform, p).segments == [])
  {
    NormalForm(platform, p);
    PlaceShape(platform, p);
    var place := PlaceOf(platform, p);
    TailShape(platform, place);
    if Tail(platform, place) != "" && KeptTrailing(platform, p) == "" {
      assert Normalize(platform, p) == place.canonical + Tail(platform, place);
    }
  }

  /** normalize is idempotent on every stable path, so on every posix path and every win32 path with a root. */
  lemma NormalizeIdempotent(platform: Platform, p: string)
    requires Stable(platform, p)
    ensures Normalize(platform, Normalize(platform, p)) == Normalize(platform, p)
  {
    NormalizeKeepsPlace(platform, p);
    NormalTrailing(platform, p);
    SamePlaceNormalize(platform, Normalize(platform, p), p);
  }

  // ---- join ----

  predicate DriveAbsolute(p: string) {
    HasDrivePrefix(p) && |p| > 2 && IsSep(Win32, p[2])
  }

  /** Two separators and a server name, but no share: read as a path under a single separator, until a name follows. */
  predicate BareServer(p: string) {
    StartsWithTwoSeps(p) && |p| > 2 && !IsSep(Win32, p[2]) && MatchUnc(p).NoUnc?
  }

  /** A drive and nothing else: its working directory, until a separator follows. */
  predicate BareDrive(p: string) {
    HasDrivePrefix(p) && |p| == 2
  }

  /** A first part whose root survives being followed by a separator: every non-empty path but the two above. */
  predicate Anchored(platform: Platform, a: string) {
    a != "" && (platform.Win32? ==> !BareServer(a) && !BareDrive(a))
  }

  lemma PosixSegments(platform: Platform, p: string)
    requires !platform.Win32?
    ensures Segments(platform, p) == SplitSegments(platform, p)
  {
    if p != "" && p[0] == '/' {
      assert p == "" + [p[0]] + p[1..];
      SegmentsSplit(platform, "", p[0], p[1..]);
      NoSepSegment(platform, "");
    } else {
      assert p[0..] == p;
    }
  }

  lemma UncExtend(a: string, b: string)
    requires MatchUnc(a).Unc?
    ensures var w := a + "\\" + b;
            var ma, mw := MatchUnc(a), MatchUnc(w);
            && mw.Unc? && mw.server == ma.server && mw.share == ma.share
            && mw.rawLength == if ma.rawLength < |a| then ma.rawLength else |a| + 1 + SepRunEnd(Win32, b, 0)
  {
    var w := a + "\\" + b;
    var serverEnd := NameEnd(Win32, a, 2);
    var shareStart := SepRunEnd(Win32, a, serverEnd);
    var shareEnd := NameEnd(Win32, a, shareStart);
    NameEndIs(Win32, w, 2, serverEnd);
    SepRunEndIs(Win32, w, serverEnd, shareStart);
    NameEndIs(Win32, w, shareStart, shareEnd);
    var raw := SepRunEnd(Win32, a, shareEnd);
    UncExtendRaw(a, b, shareEnd);
    assert w[2..serverEnd] == a[2..serverEnd] && w[shareStart..shareEnd] == a[shareStart..shareEnd];
  }

  lemma UncExtendRaw(a: string, b: string, i: nat)
    requires i <= |a|
    ensures var raw := SepRunEnd(Win32, a, i);
            SepRunEnd(Win32, a + "\\" + b, i) == if raw < |a| then raw else |a| + 1 + SepRunEnd(Win32, b, 0)
  {
    var w := a + "\\" + b;
    var raw := SepRunEnd(Win32, a, i);
    if raw < |a| {
      SepRunEndIs(Win32, w, i, raw);
    } else {
      var jb := SepRunEnd(Win32, b, 0);
      forall k | i <= k < |a| + 1 + jb ensures IsSep(Win32, w[k]) {
        if k > |a| { assert w[k] == b[k - |a| - 1]; }
      }
      SepRunEndIs(Win32, w, i, |a| + 1 + jb);
    }
  }

  /** The string join hands to normalize for two non-empty parts. */
  function Joined(platform: Platform, a: string, b: string): string {
    var w := a + [SepOf(platform)] + b;
    if platform.Win32? && !StartsWithTwoSeps(a) then CollapseLeadingSeps(w) else w
  }

  lemma JoinTwo(platform: Platform, a: string, b: string)
    ensures a != "" && b != "" ==> Join(platform, [a, b]) == Normalize(platform, Joined(platform, a, b))
    ensures b == "" && a != "" ==> Join(platform, [a, b]) == Normalize(platform, a)
    ensures a == "" ==> Join(platform, [a, b]) == Normalize(platform, b)
  {
    assert [a, b][1..] == [b] && [b][1..] == [];
    assert NonEmpty([b]) == if b == "" then [] else [b];
    if a != "" && b != "" {
      assert NonEmpty([a, b]) == [a, b];
      assert JoinWith([a, b], SepOf(platform)) == a + [SepOf(platform)] + b;
    } else if b == "" && a != "" {
      assert NonEmpty([a, b]) == [a];
      OnePart(a);
    } else if a == "" && b != "" {
      assert NonEmpty([a, b]) == [b];
      OnePart(b);
    }
  }

  /** A single part keeps its leading separators. */
  lemma OnePart(a: string)
    requires a != ""
    ensures !StartsWithTwoSeps(a) ==> CollapseLeadingSeps(a) == a
  {
    if !StartsWithTwoSeps(a) {
      SepRunEndIs(Win32, a, 0, if IsSep(Win32, a[0]) then 1 else 0);
    }
  }

  /** Where a join with an anchored first part leads: the first part's root, then the segments of both. */
  lemma JoinedPlace(platform: Platform, a: string, b: string)
    requires Anchored(platform, a)
    ensures var root := ParseRoot(platform, a);
            PlaceOf(platform, Joined(platform, a, b))
            == Place(root.canonical, root.absolute,
                     Resolved(Segments(platform, a) + SplitSegments(platform, b), root.absolute))
    ensures Joined(platform, a, b) != ""
    ensures b != "" && !platform.Win32?
            ==> HasTrailingSep(platform, Joined(platform, a, b)) == HasTrailingSep(platform, b)
  {
    if !platform.Win32? {
      var w := a + ['/'] + b;
      PosixSegments(platform, w);
      PosixSegments(platform, a);
      SegmentsSplit(platform, a, '/', b);
      assert w[0] == a[0];
    } else if IsSep(Win32, a[0]) {
      if MatchUnc(a).Unc? {
        JoinedPlaceUnc(platform, a, b);
      } else {
        JoinedPlaceRooted(platform, a, b);
      }
    } else {
      JoinedPlaceSame(a, b);
    }
  }

  /** A win32 path that does not begin with a separator keeps the root it has, as it is written. */
  lemma JoinedPlaceSame(a: string, b: string)
    requires a != "" && !IsSep(Win32, a[0]) && !BareDrive(a)
    ensures Joined(Win32, a, b) != ""
    ensures ParseRoot(Win32, Joined(Win32, a, b)) == ParseRoot(Win32, a)
    ensures Segments(Win32, Joined(Win32, a, b)) == Segments(Win32, a) + SplitSegments(Win32, b)
  {
    var w := a + ['\\'] + b;
    var n := |ParseRoot(Win32, a).raw|;
    SepRunEndIs(Win32, w, 0, 0);
    assert w[..n] == a[..n] && (|a| >= 2 ==> w[..2] == a[..2]);
    assert w[n..] == a[n..] + ['\\'] + b;
    SegmentsSplit(Win32, a[n..], '\\', b);
  }

  lemma LeadingSepsAddNothing(b: string)
    ensures SplitSegments(Win32, b[SepRunEnd(Win32, b, 0)..]) == SplitSegments(Win32, b)
  {
    var jb := SepRunEnd(Win32, b, 0);
    SegmentsAreTokens(Win32, b);
    SegmentsAreTokens(Win32, b[jb..]);
    TokensSeps(Win32, b, jb);
  }

  /** What is left of a UNC path after its root, once a separator and more are appended. */
  lemma UncRest(a: string, b: string)
    requires MatchUnc(a).Unc?
    ensures var raw, w := MatchUnc(a).rawLength, a + "\\" + b;
            MatchUnc(w).Unc? && SplitSegments(Win32, w[MatchUnc(w).rawLength..])
              == SplitSegments(Win32, a[raw..]) + SplitSegments(Win32, b)
  {
    var w := a + "\\" + b;
    var raw := MatchUnc(a).rawLength;
    UncExtend(a, b);
    if raw < |a| {
      assert w[raw..] == a[raw..] + ['\\'] + b;
      SegmentsSplit(Win32, a[raw..], '\\', b);
    } else {
      assert w[|a| + 1 + SepRunEnd(Win32, b, 0)..] == b[SepRunEnd(Win32, b, 0)..];
      LeadingSepsAddNothing(b);
      assert a[raw..] == "";
      NoSepSegment(Win32, "");
      assert [] + SplitSegments(Win32, b) == SplitSegments(Win32, b);
    }
  }

  lemma UncParse(p: string)
    requires MatchUnc(p).Unc?
    ensures var m := MatchUnc(p);
            ParseRoot(Win32, p) == ParsedRoot(p[..m.rawLength], UncRoot(m.server, m.share), true)
            && Segments(Win32, p) == SplitSegments(Win32, p[m.rawLength..])
  {
  }

  lemma JoinedPlaceUnc(platform: Platform, a: string, b: string)
    requires platform.Win32? && MatchUnc(a).Unc?
    ensures ParseRoot(platform, Joined(platform, a, b)).canonical == ParseRoot(platform, a).canonical
    ensures ParseRoot(platform, Joined(platform, a, b)).absolute
    ensures Segments(platform, Joined(platform, a, b)) == Segments(platform, a) + SplitSegments(platform, b)
  {
    var w := a + "\\" + b;
    assert Joined(platform, a, b) == w;
    UncExtend(a, b);
    UncRest(a, b);
    UncParse(a);
    UncParse(w);
  }

  lemma JoinedPlaceRooted(platform: Platform, a: string, b: string)
    requires platform.Win32? && a != "" && IsSep(platform, a[0]) && MatchUnc(a).NoUnc? && !BareServer(a)
    ensures ParseRoot(platform, Joined(platform, a, b)).canonical == ParseRoot(platform, a).canonical == "\\"
    ensures ParseRoot(platform, Joined(platform, a, b)).absolute
    ensures Segments(platform, Joined(platform, a, b)) == Segments(platform, a) + SplitSegments(platform, b)
  {
    if StartsWithTwoSeps(a) {
      TwoSepsJoined(a, b);
    } else if |a| > 1 {
      RootedNameJoined(a, b);
    } else {
      BareRootJoined(a, b);
    }
  }

  /** Two separators before a third, or before nothing, are read as one. */
  lemma TwoSepsJoined(a: string, b: string)
    requires StartsWithTwoSeps(a) && (|a| > 2 ==> IsSep(Win32, a[2]))
    ensures ParseRoot(Win32, Joined(Win32, a, b)).canonical == ParseRoot(Win32, a).canonical == "\\"
    ensures ParseRoot(Win32, Joined(Win32, a, b)).absolute
    ensures Segments(Win32, Joined(Win32, a, b)) == Segments(Win32, a) + SplitSegments(Win32, b)
  {
    var w := a + "\\" + b;
    assert IsSep(Win32, w[2]);
    assert MatchUnc(w).NoUnc? && MatchUnc(a).NoUnc?;
    assert w[1..] == a[1..] + ['\\'] + b;
    SegmentsSplit(Win32, a[1..], '\\', b);
  }

  lemma RootedNameJoined(a: string, b: string)
    requires |a| > 1 && IsSep(Win32, a[0]) && !StartsWithTwoSeps(a)
    ensures ParseRoot(Win32, Joined(Win32, a, b)).canonical == ParseRoot(Win32, a).canonical == "\\"
    ensures ParseRoot(Win32, Joined(Win32, a, b)).absolute
    ensures Segments(Win32, Joined(Win32, a, b)) == Segments(Win32, a) + SplitSegments(Win32, b)
  {
    var w := a + "\\" + b;
    SepRunEndIs(Win32, w, 0, 1);
    assert w[1] == a[1];
    assert MatchUnc(w).NoUnc? && MatchUnc(a).NoUnc?;
    assert w[1..] == a[1..] + ['\\'] + b;
    SegmentsSplit(Win32, a[1..], '\\', b);
  }

  /** A bare separator and what follows: the leading separators shrink to one. */
  lemma BareRootCollapses(a: string, b: string)
    requires |a| == 1 && IsSep(Win32, a[0])
    ensures Joined(Win32, a, b) == "\\" + b[SepRunEnd(Win32, b, 0)..]
  {
    var w := a + "\\" + b;
    var jb := SepRunEnd(Win32, b, 0);
    forall k | 0 <= k < 2 + jb ensures IsSep(Win32, w[k]) {
      if k >= 2 { assert w[k] == b[k - 2]; }
    }
    SepRunEndIs(Win32, w, 0, 2 + jb);
    assert w[2 + jb..] == b[jb..];
  }

  lemma BareRootJoined(a: string, b: string)
    requires |a| == 1 && IsSep(Win32, a[0])
    ensures ParseRoot(Win32, Joined(Win32, a, b)).canonical == ParseRoot(Win32, a).canonical == "\\"
    ensures ParseRoot(Win32, Joined(Win32, a, b)).absolute
    ensures Segments(Win32, Joined(Win32, a, b)) == Segments(Win32, a) + SplitSegments(Win32, b)
  {
    var rest := b[SepRunEnd(Win32, b, 0)..];
    var q := "\\" + rest;
    BareRootCollapses(a, b);
    assert MatchUnc(q).NoUnc? && MatchUnc(a).NoUnc?;
    assert q[1..] == rest && a[1..] == "";
    LeadingSepsAddNothing(b);
    NoSepSegment(Win32, "");
    assert [] + SplitSegments(Win32, b) == SplitSegments(Win32, b);
  }

  /** The root of the first part and the segments of both. */
  function JoinTarget(platform: Platform, a: string, b: string): Place {
    var root := ParseRoot(platform, a);
    Place(root.canonical, root.absolute,
          Resolved(Segments(platform, a) + SplitSegments(platform, b), root.absolute))
  }

  /** A join with an anchored first part leads to the root of that part and the segments of both, exactly when what is
      written for that place does not begin with a name that reads as a drive. */
  lemma JoinPlaceExact(platform: Platform, a: string, b: string)
    requires Anchored(platform, a)
    ensures PlaceOf(platform, Join(platform, [a, b])) == JoinTarget(platform, a, b)
       <==> Plain(platform, JoinTarget(platform, a, b))
  {
    JoinTwo(platform, a, b);
    if b == "" {
      NoSepSegment(platform, "");
      assert Segments(platform, a) + [] == Segments(platform, a);
      NormalizeKeepsPlace(platform, a);
    } else {
      JoinedPlace(platform, a, b);
      NormalizeKeepsPlace(platform, Joined(platform, a, b));
    }
  }

  /** So it does on posix always, and on win32 whenever the first part has a root. */
  lemma JoinPlace(platform: Platform, a: string, b: string)
    requires Anchored(platform, a) && Plain(platform, JoinTarget(platform, a, b))
    ensures PlaceOf(platform, Join(platform, [a, b])) == JoinTarget(platform, a, b)
    ensures Stable(platform, Join(platform, [a, b]))
  {
    JoinPlaceExact(platform, a, b);
  }

  /** A bare drive becomes a rooted one. */
  lemma BareDriveJoined(a: string, b: string)
    requires BareDrive(a) && b != ""
    ensures PlaceOf(Win32, Join(Win32, [a, b])) == Place(a + "\\", true, Resolved(SplitSegments(Win32, b), true))
  {
    var w := a + "\\" + b;
    JoinTwo(Win32, a, b);
    SepRunEndIs(Win32, w, 0, 0);
    assert w[..3] == a + "\\" && w[..2] == a && w[3..] == b;
    NormalizeKeepsPlace(Win32, w);
  }

  /** A bare server followed by a name becomes a share of that name. */
  lemma BareServerJoined(a: string, b: string)
    requires BareServer(a) && SepRunEnd(Win32, b, 0) < |b|
    ensures var k := SepRunEnd(Win32, b, 0);
            var n := NameEnd(Win32, b, k);
            var w := a + "\\" + b;
            && Joined(Win32, a, b) == w
            && MatchUnc(w) == Unc(a[2..NameEnd(Win32, a, 2)], b[k..n], |a| + 1 + SepRunEnd(Win32, b, n))
  {
    var k := SepRunEnd(Win32, b, 0);
    ServerKept(a, b);
    BareServerShape(a);
    UncExtendRaw(a, b, NameEnd(Win32, a, 2));
    ServerShareMatch(a, b, a + "\\" + b, k, NameEnd(Win32, b, k));
  }

  lemma ServerShareMatch(a: string, b: string, w: string, k: nat, n: nat)
    requires BareServer(a) && w == a + "\\" + b && k < |b| && !IsSep(Win32, b[k]) && n == NameEnd(Win32, b, k)
    requires var serverEnd := NameEnd(Win32, a, 2);
             && 2 < serverEnd <= |a| && NameEnd(Win32, w, 2) == serverEnd && w[2..serverEnd] == a[2..serverEnd]
             && SepRunEnd(Win32, w, serverEnd) == |a| + 1 + k
    ensures MatchUnc(w) == Unc(a[2..NameEnd(Win32, a, 2)], b[k..n], |a| + 1 + SepRunEnd(Win32, b, n))
  {
    ServerShareEnds(a, b, w, k, n);
    LaterSlice(a, b, k, n);
    MatchUncIs(w, NameEnd(Win32, a, 2), |a| + 1 + k, |a| + 1 + n);
  }

  lemma ServerShareEnds(a: string, b: string, w: string, k: nat, n: nat)
    requires w == a + "\\" + b && k <= |b| && n == NameEnd(Win32, b, k)
    ensures NameEnd(Win32, w, |a| + 1 + k) == |a| + 1 + n
    ensures SepRunEnd(Win32, w, |a| + 1 + n) == |a| + 1 + SepRunEnd(Win32, b, n)
  {
    NameEndLater(a, b, k);
    SepRunEndLater(a, b, n);
  }

  lemma LaterSlice(a: string, b: string, k: nat, n: nat)
    requires k <= n <= |b|
    ensures (a + "\\" + b)[|a| + 1 + k..|a| + 1 + n] == b[k..n]
  {
  }

  lemma MatchUncIs(w: string, serverEnd: nat, shareStart: nat, shareEnd: nat)
    requires StartsWithTwoSeps(w) && 2 < serverEnd < shareStart < shareEnd <= |w|
    requires NameEnd(Win32, w, 2) == serverEnd && SepRunEnd(Win32, w, serverEnd) == shareStart
    requires NameEnd(Win32, w, shareStart) == shareEnd
    ensures MatchUnc(w) == Unc(w[2..serverEnd], w[shareStart..shareEnd], SepRunEnd(Win32, w, shareEnd))
  {
  }

  lemma BareServerShape(a: string)
    requires BareServer(a)
    ensures var serverEnd := NameEnd(Win32, a, 2); 2 < serverEnd && SepRunEnd(Win32, a, serverEnd) == |a|
  {
  }

  lemma ServerKept(a: string, b: string)
    requires |a| >= 2
    ensures var w, serverEnd := a + "\\" + b, NameEnd(Win32, a, 2);
            NameEnd(Win32, w, 2) == serverEnd && w[2..serverEnd] == a[2..serverEnd]
  {
    assert a + "\\" + b == a + ("\\" + b);
    NameEndKept(Win32, a, "\\" + b, 2);
  }

  lemma RestOfJoined(a: string, b: string)
    ensures (a + "\\" + b)[|a| + 1..] == b
  {
  }

  lemma NameEndLater(a: string, b: string, i: nat)
    requires i <= |b|
    ensures NameEnd(Win32, a + "\\" + b, |a| + 1 + i) == |a| + 1 + NameEnd(Win32, b, i)
  {
    RestOfJoined(a, b);
    NameEndShift(Win32, a + "\\" + b, |a| + 1, i);
  }

  lemma SepRunEndLater(a: string, b: string, i: nat)
    requires i <= |b|
    ensures SepRunEnd(Win32, a + "\\" + b, |a| + 1 + i) == |a| + 1 + SepRunEnd(Win32, b, i)
  {
    RestOfJoined(a, b);
    SepRunShift(Win32, a + "\\" + b, |a| + 1, i);
  }
}
