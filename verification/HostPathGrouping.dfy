/** join, in any grouping. */
module HostPathGrouping {
  import opened HostPath
  import opened HostPathSegments
  import opened HostPathPlaces
  import opened HostPathLaws
  import opened HostPathNormal
  import opened HostPathRelative

  function Beside(platform: Platform, b: string, c: string): string {
    b + [SepOf(platform)] + c
  }

  lemma JoinThree(platform: Platform, a: string, b: string, c: string)
    requires b != "" && c != ""
    ensures a != "" ==> Join(platform, [a, b, c]) == Normalize(platform, Joined(platform, a, Beside(platform, b, c)))
    ensures a == "" ==> Join(platform, [a, b, c]) == Join(platform, [b, c])
  {
    var sep := SepOf(platform);
    assert [a, b, c][1..] == [b, c] && [b, c][1..] == [c] && [c][1..] == [];
    assert NonEmpty([c]) == [c];
    assert NonEmpty([b, c]) == [b, c];
    assert JoinWith([b, c], sep) == Beside(platform, b, c);
    if a != "" {
      assert NonEmpty([a, b, c]) == [a, b, c];
      assert JoinWith([a, b, c], sep) == a + [sep] + JoinWith([b, c], sep);
    } else {
      assert NonEmpty([a, b, c]) == [b, c];
    }
  }

  lemma BesideSegments(platform: Platform, b: string, c: string)
    ensures SplitSegments(platform, Beside(platform, b, c)) == SplitSegments(platform, b) + SplitSegments(platform, c)
  {
    SegmentsSplit(platform, b, SepOf(platform), c);
  }

  /** A join ends with a separator exactly when its last part does. */
  lemma JoinedTrailing(platform: Platform, a: string, b: string)
    requires b != ""
    ensures HasTrailingSep(platform, Joined(platform, a, b)) == HasTrailingSep(platform, b)
  {
    var w := a + [SepOf(platform)] + b;
    assert w[|w| - 1] == b[|b| - 1];
    if platform.Win32? {
      CollapseTrailing(w);
    }
  }

  lemma CollapseTrailing(w: string)
    requires w != ""
    ensures HasTrailingSep(Win32, CollapseLeadingSeps(w)) == HasTrailingSep(Win32, w)
  {
  }

  // ---- Grouped to the left ----

  /** What is written after a canonical root decides whether more may follow. */
  lemma WrittenAnchored(canonical: string, absolute: bool, rest: string)
    requires CanonicalRoot(Win32, canonical, absolute)
    requires ParseRoot(Win32, canonical + rest) == ParsedRoot(canonical, canonical, absolute)
    requires rest == "" ==> absolute
    requires rest != "" ==> !IsSep(Win32, rest[0])
    ensures Anchored(Win32, canonical + rest)
  {
    var n := canonical + rest;
    if canonical == "\\" {
      assert rest != "" ==> n[1] == rest[0];
    }
  }

  lemma Assoc(a: string, b: string, c: string)
    ensures a + b + c == a + (b + c)
  {
  }

  lemma TailStarts(tail: string, t: string)
    requires (t == "" || t == "\\") && (tail == "" ==> t == "") && (tail != "" ==> !IsSep(Win32, tail[0]))
    ensures tail + t != "" ==> tail != "" && !IsSep(Win32, (tail + t)[0])
  {
  }

  lemma PlaceAnchored(place: Place, t: string, tail: string)
    requires CanonicalRoot(Win32, place.canonical, place.absolute)
    requires AllClean(Win32, place.segments) && Stacked(place.segments, place.absolute) && Plain(Win32, place)
    requires t == "" || (t == "\\" && !(place.segments == [] && place.absolute))
    requires tail == Tail(Win32, place)
    ensures Anchored(Win32, place.canonical + (tail + t))
  {
    RenderReparse(Win32, place, t);
    Assoc(place.canonical, tail, t);
    TailShape(Win32, place);
    TailStarts(tail, t);
    WrittenAnchored(place.canonical, place.absolute, tail + t);
  }

  /** A normal form can be followed by more: it is neither a bare server nor a bare drive. */
  lemma NormalAnchored(platform: Platform, p: string)
    requires Stable(platform, p)
    ensures Anchored(platform, Normalize(platform, p))
  {
    NormalizeNonEmpty(platform, p);
    if platform.Win32? {
      var place, t := PlaceOf(platform, p), KeptTrailing(platform, p);
      NormalForm(platform, p);
      PlaceShape(platform, p);
      PlaceAnchored(place, t, Tail(platform, place));
      Assoc(place.canonical, Tail(platform, place), t);
    }
  }

  lemma SamePlaceJoined(platform: Platform, x: string, y: string, c: string)
    requires c != "" && PlaceOf(platform, x) == PlaceOf(platform, y)
    requires HasTrailingSep(platform, x) == HasTrailingSep(platform, c) == HasTrailingSep(platform, y)
    ensures Normalize(platform, x) == Normalize(platform, y)
  {
    SamePlaceNormalize(platform, x, y);
  }

  lemma ResolveThrough(n: seq<string>, a: seq<string>, b: seq<string>, c: seq<string>, absolute: bool)
    requires Resolved(n, absolute) == Resolved(a + b, absolute)
    ensures Resolved(n + c, absolute) == Resolved(a + (b + c), absolute)
  {
    ResolvePrefix(n, c, absolute);
    ResolveThree(a, b, c, absolute);
  }

  lemma SameStartPlace(platform: Platform, n: string, a: string, b: string, c: string)
    requires Anchored(platform, a) && Anchored(platform, n)
    requires PlaceOf(platform, n) == JoinTarget(platform, a, b)
    ensures PlaceOf(platform, Joined(platform, n, c)) == PlaceOf(platform, Joined(platform, a, Beside(platform, b, c)))
  {
    JoinedPlace(platform, n, c);
    JoinedPlace(platform, a, Beside(platform, b, c));
    BesideSegments(platform, b, c);
    ResolveThrough(Segments(platform, n), Segments(platform, a), SplitSegments(platform, b), SplitSegments(platform, c),
                   ParseRoot(platform, a).absolute);
  }

  lemma BesideTrailing(platform: Platform, b: string, c: string)
    requires c != ""
    ensures Beside(platform, b, c) != ""
            && HasTrailingSep(platform, Beside(platform, b, c)) == HasTrailingSep(platform, c)
  {
    var bc := Beside(platform, b, c);
    assert bc[|bc| - 1] == c[|c| - 1];
  }

  /** The first part of a join may be any path of the same root whose segments resolve alike. */
  lemma SameStart(platform: Platform, n: string, a: string, b: string, c: string)
    requires Anchored(platform, a) && Anchored(platform, n) && c != ""
    requires PlaceOf(platform, n) == JoinTarget(platform, a, b)
    ensures Normalize(platform, Joined(platform, n, c))
            == Normalize(platform, Joined(platform, a, Beside(platform, b, c)))
  {
    var bc := Beside(platform, b, c);
    SameStartPlace(platform, n, a, b, c);
    BesideTrailing(platform, b, c);
    JoinedTrailing(platform, n, c);
    JoinedTrailing(platform, a, bc);
    SamePlaceJoined(platform, Joined(platform, n, c), Joined(platform, a, bc), c);
  }

  lemma JoinLeftGrouped(platform: Platform, a: string, b: string, c: string)
    requires Anchored(platform, a) && Plain(platform, JoinTarget(platform, a, b)) && b != "" && c != ""
    ensures Join(platform, [Join(platform, [a, b]), c]) == Join(platform, [a, b, c])
  {
    var n := Join(platform, [a, b]);
    JoinThree(platform, a, b, c);
    JoinTwo(platform, a, b);
    JoinedPlace(platform, a, b);
    JoinPlace(platform, a, b);
    NormalAnchored(platform, Joined(platform, a, b));
    JoinTwo(platform, n, c);
    SameStart(platform, n, a, b, c);
  }

  // ---- Grouped to the right ----

  predicate NoRoot(platform: Platform, b: string) {
    b != "" && ParseRoot(platform, b).canonical == ""
  }

  lemma NoRootAnchored(platform: Platform, b: string)
    requires NoRoot(platform, b)
    ensures Anchored(platform, b) && !ParseRoot(platform, b).absolute && ParseRoot(platform, b).raw == ""
    ensures Segments(platform, b) == SplitSegments(platform, b)
  {
    ParsedRootCanonical(platform, b);
    assert b[0..] == b;
  }

  lemma TailSegments(platform: Platform, place: Place, t: string)
    requires AllClean(platform, place.segments) && (t == "" || t == [SepOf(platform)])
    ensures SplitSegments(platform, Tail(platform, place) + t) == place.segments
  {
    var tail := Tail(platform, place);
    TailShape(platform, place);
    if t == "" {
      assert tail + t == tail;
    } else {
      assert tail + t == tail + [SepOf(platform)] + "";
      SegmentsSplit(platform, tail, SepOf(platform), "");
      NoSepSegment(platform, "");
    }
  }

  /** Normalizing a path without a root resolves its segments, even where it changes its place. */
  lemma NormalSegments(platform: Platform, w: string)
    requires PlaceOf(platform, w).canonical == ""
    ensures SplitSegments(platform, Normalize(platform, w)) == PlaceOf(platform, w).segments
    ensures HasTrailingSep(platform, Normalize(platform, w)) == HasTrailingSep(platform, w)
  {
    var place := PlaceOf(platform, w);
    PlaceShape(platform, w);
    NormalForm(platform, w);
    NormalTrailing(platform, w);
    TailSegments(platform, place, KeptTrailing(platform, w));
    assert Render(platform, place) == Tail(platform, place);
  }

  /** The rest of a join may be any path whose segments resolve alike. */
  lemma SameRest(platform: Platform, a: string, n: string, bc: string)
    requires Anchored(platform, a) && n != "" && bc != ""
    requires HasTrailingSep(platform, n) == HasTrailingSep(platform, bc)
    requires SplitSegments(platform, n) == Resolved(SplitSegments(platform, bc), false)
    ensures Normalize(platform, Joined(platform, a, n)) == Normalize(platform, Joined(platform, a, bc))
  {
    JoinedPlace(platform, a, n);
    JoinedPlace(platform, a, bc);
    ResolveSuffix(Segments(platform, a), SplitSegments(platform, bc), ParseRoot(platform, a).absolute);
    JoinedTrailing(platform, a, n);
    JoinedTrailing(platform, a, bc);
    SamePlaceJoined(platform, Joined(platform, a, n), Joined(platform, a, bc), bc);
  }

  lemma JoinRightGrouped(platform: Platform, a: string, b: string, c: string)
    requires Anchored(platform, a) && NoRoot(platform, b) && c != ""
    ensures Join(platform, [a, Join(platform, [b, c])]) == Join(platform, [a, b, c])
  {
    var w := Joined(platform, b, c);
    var n := Normalize(platform, w);
    JoinThree(platform, a, b, c);
    JoinTwo(platform, b, c);
    NoRootAnchored(platform, b);
    JoinedPlace(platform, b, c);
    BesideSegments(platform, b, c);
    NormalSegments(platform, w);
    NormalizeNonEmpty(platform, w);
    JoinedTrailing(platform, b, c);
    BesideTrailing(platform, b, c);
    JoinTwo(platform, a, n);
    SameRest(platform, a, n, Beside(platform, b, c));
  }

  /** Without a first part a join of posix paths is a join of the others, however grouped. */
  lemma PosixNothingFirst(platform: Platform, b: string, c: string)
    requires !platform.Win32? && b != "" && c != ""
    ensures Join(platform, ["", Join(platform, [b, c])]) == Join(platform, [b, c])
    ensures Join(platform, [Join(platform, ["", b]), c]) == Join(platform, [b, c])
  {
    var w, nb := Joined(platform, b, c), Normalize(platform, b);
    JoinTwo(platform, b, c);
    NormalizeIdempotent(platform, w);
    JoinTwo(platform, "", Normalize(platform, w));
    JoinTwo(platform, "", b);
    NormalizeKeepsPlace(platform, b);
    NormalAnchored(platform, b);
    JoinTwo(platform, nb, c);
    JoinedPlace(platform, nb, c);
    JoinedPlace(platform, b, c);
    ResolvePrefix(Segments(platform, nb), SplitSegments(platform, c), ParseRoot(platform, b).absolute);
    ResolvePrefix(Segments(platform, b), SplitSegments(platform, c), ParseRoot(platform, b).absolute);
    JoinedTrailing(platform, nb, c);
    JoinedTrailing(platform, b, c);
    SamePlaceJoined(platform, Joined(platform, nb, c), w, c);
  }

  /** A bare drive before something is the rooted drive. */
  lemma DriveAsRoot(a: string, b: string)
    requires BareDrive(a) && b != ""
    ensures Anchored(Win32, a + "\\") && ParseRoot(Win32, a + "\\").canonical != ""
    ensures Normalize(Win32, Joined(Win32, a, b)) == Normalize(Win32, Joined(Win32, a + "\\", b))
  {
    var root := a + "\\";
    RootedDrive(a);
    JoinedPlace(Win32, root, b);
    DriveJoinedPlace(a, b);
    JoinedTrailing(Win32, a, b);
    JoinedTrailing(Win32, root, b);
    assert [] + SplitSegments(Win32, b) == SplitSegments(Win32, b);
    SamePlaceJoined(Win32, Joined(Win32, a, b), Joined(Win32, root, b), b);
  }

  lemma RootedDrive(a: string)
    requires BareDrive(a)
    ensures var root := a + "\\";
            && Anchored(Win32, root) && ParseRoot(Win32, root) == ParsedRoot(root, root, true)
            && Segments(Win32, root) == []
  {
    var root := a + "\\";
    assert root[..2] == a && root[..3] == root && root[3..] == "" && MatchUnc(root).NoUnc?;
    NoSepSegment(Win32, "");
  }

  lemma DriveJoinedPlace(a: string, b: string)
    requires BareDrive(a)
    ensures PlaceOf(Win32, Joined(Win32, a, b)) == Place(a + "\\", true, Resolved(SplitSegments(Win32, b), true))
  {
    var w := a + "\\" + b;
    SepRunEndIs(Win32, w, 0, 0);
    assert w[..3] == a + "\\" && w[..2] == a && w[3..] == b;
  }

  lemma DriveGrouped(a: string, b: string, c: string)
    requires BareDrive(a) && NoRoot(Win32, b) && c != ""
    ensures Join(Win32, [a, Join(Win32, [b, c])]) == Join(Win32, [a, b, c])
    ensures Join(Win32, [Join(Win32, [a, b]), c]) == Join(Win32, [a, b, c])
  {
    var root := a + "\\";
    var bc := Join(Win32, [b, c]);
    JoinTwo(Win32, b, c);
    NormalizeNonEmpty(Win32, Joined(Win32, b, c));
    DriveAsRoot(a, b);
    DriveAsRoot(a, bc);
    DriveAsRoot(a, Beside(Win32, b, c));
    JoinTwo(Win32, a, b);
    JoinTwo(Win32, root, b);
    JoinTwo(Win32, a, bc);
    JoinTwo(Win32, root, bc);
    JoinThree(Win32, a, b, c);
    JoinThree(Win32, root, b, c);
    JoinRightGrouped(Win32, root, b, c);
    JoinLeftGrouped(Win32, root, b, c);
  }

  /** join is associative and agrees with joining all parts at once when the middle part has no root: on posix after
      any first part, on win32 after any anchored one and after a bare drive. Joining the first two first moreover needs
      that what is written for them does not begin with a name that reads as a drive. */
  lemma JoinAssociative(platform: Platform, a: string, b: string, c: string)
    requires NoRoot(platform, b) && c != ""
    requires platform.Win32? ==> Anchored(platform, a) || BareDrive(a)
    ensures Join(platform, [a, Join(platform, [b, c])]) == Join(platform, [a, b, c])
    ensures Plain(platform, JoinTarget(platform, a, b)) ==>
              Join(platform, [Join(platform, [a, b]), c]) == Join(platform, [a, b, c])
  {
    if a == "" {
      JoinThree(platform, a, b, c);
      PosixNothingFirst(platform, b, c);
    } else if platform.Win32? && BareDrive(a) {
      DriveGrouped(a, b, c);
    } else {
      JoinRightGrouped(platform, a, b, c);
      if Plain(platform, JoinTarget(platform, a, b)) {
        JoinLeftGrouped(platform, a, b, c);
      }
    }
  }

  /** With nothing first, the other two may be joined before exactly when normalizing what they make settles it. */
  lemma NothingFirst(platform: Platform, b: string, c: string)
    requires b != "" && c != ""
    ensures Join(platform, ["", Join(platform, [b, c])]) == Join(platform, ["", b, c])
       <==> Settles(platform, Joined(platform, b, c))
  {
    var w := Joined(platform, b, c);
    JoinThree(platform, "", b, c);
    JoinTwo(platform, b, c);
    JoinTwo(platform, "", Normalize(platform, w));
    NormalizeIdempotentExact(platform, w);
  }

  /** The proviso holds on posix, and after every first part with a root. */
  lemma RootedIsPlain(platform: Platform, a: string, b: string)
    requires platform.Win32? ==> ParseRoot(platform, a).canonical != ""
    ensures Plain(platform, JoinTarget(platform, a, b))
  {
  }

  // ---- A middle part under a root ----

  /** Levels below the start, counting those above as negative. */
  function Height(segments: seq<string>): int {
    |segments| - 2 * Ups(segments)
  }

  lemma {:induction false} UpsSnoc(s: seq<string>, x: string)
    ensures Ups(s + [x]) == if x == ".." && Ups(s) == |s| then |s| + 1 else Ups(s)
  {
    if s == [] {
      assert s + [x] == [x] && [x][1..] == [];
    } else {
      assert (s + [x])[1..] == s[1..] + [x];
      UpsSnoc(s[1..], x);
    }
  }

  lemma AllUps(s: seq<string>, absolute: bool)
    requires Stacked(s, absolute) && s != []
    ensures Ups(s) == |s| <==> s[|s| - 1] == ".."
  {
    StackedNames(s, absolute);
    UpsShape(s);
  }

  /** Each `..` goes down by one, at a root until there is nothing left. */
  lemma ClimbStep(s: seq<string>, absolute: bool)
    requires Stacked(s, absolute)
    ensures var t := PushSegment(s, "..", absolute);
            if absolute then |t| == (if s == [] then 0 else |s| - 1) else Height(t) == Height(s) - 1
  {
    if s != [] {
      AllUps(s, absolute);
      var init := s[..|s| - 1];
      UpsSnoc(init, s[|s| - 1]);
      assert s == init + [s[|s| - 1]];
      UpsSnoc(s, "..");
    }
  }

  lemma ClimbSnoc(r: seq<string>, u: nat, absolute: bool)
    requires u > 0
    ensures Resolved(r + Climb(u), absolute) == PushSegment(Resolved(r + Climb(u - 1), absolute), "..", absolute)
  {
    assert r + Climb(u) == (r + Climb(u - 1)) + [".."];
    ResolvedSnoc(r + Climb(u - 1), "..", absolute);
  }

  lemma {:induction false} ClimbHeight(r: seq<string>, u: nat, absolute: bool)
    requires Stacked(r, absolute)
    ensures var t := Resolved(r + Climb(u), absolute);
            if absolute then |t| == (if u <= |r| then |r| - u else 0) else Height(t) == Height(r) - u
  {
    if u == 0 {
      assert r + Climb(0) == r;
      ResolvedFixed(r, absolute);
    } else {
      ClimbSnoc(r, u, absolute);
      ClimbHeight(r, u - 1, absolute);
      ResolvedStacked(r + Climb(u - 1), absolute);
      ClimbStep(Resolved(r + Climb(u - 1), absolute), absolute);
    }
  }

  /** Climbing leads back to the same list only at a root, or not at all. */
  lemma ClimbReturns(r: seq<string>, u: nat, absolute: bool)
    requires Stacked(r, absolute)
    ensures Resolved(r + Climb(u), absolute) == r <==> u == 0 || (absolute && r == [])
  {
    ClimbHeight(r, u, absolute);
    if u == 0 {
      assert r + Climb(0) == r;
      ResolvedFixed(r, absolute);
    }
  }

  function Names(f: seq<string>): seq<string> {
    f[Ups(f)..]
  }

  lemma PushName(f: seq<string>, x: string)
    requires x != ".."
    ensures Names(f + [x]) == Names(f) + [x]
  {
    UpsSnoc(f, x);
  }

  /** `..` after a list pops its last name, if it has one. */
  lemma PushUp(f: seq<string>)
    requires Stacked(f, false)
    ensures PushSegment(Names(f), "..", true) == Names(PushSegment(f, "..", false))
  {
    if f == [] {
      UpsSnoc([], "..");
    } else if f[|f| - 1] == ".." {
      AllUps(f, false);
      UpsSnoc(f, "..");
      assert Names(f) == [];
    } else {
      var init, x := f[..|f| - 1], f[|f| - 1];
      assert f == init + [x];
      PushName(init, x);
      assert (Names(init) + [x])[..|Names(init)|] == Names(init);
    }
  }

  /** Under a root the leading `..` of a list are dropped, the names stay. */
  lemma {:induction false} RootDropsUps(x: seq<string>)
    ensures Resolved(x, true) == Names(Resolved(x, false))
  {
    if x != [] {
      var f, last := Resolved(x[..|x| - 1], false), x[|x| - 1];
      RootDropsUps(x[..|x| - 1]);
      ResolvedStacked(x[..|x| - 1], false);
      if last == ".." {
        PushUp(f);
      } else {
        PushName(f, last);
      }
    }
  }

  lemma StackedParts(f: seq<string>)
    requires Stacked(f, false)
    ensures f == Climb(Ups(f)) + Names(f) && AllNames(Names(f))
  {
    UpsShape(f);
    StackedNames(f, false);
    assert f == f[..Ups(f)] + Names(f);
  }

  /** Names after a resolved list are only appended. */
  lemma NamesAppend(s: seq<string>, names: seq<string>, absolute: bool)
    requires Stacked(s, absolute) && AllNames(names)
    ensures Resolved(s + names, absolute) == s + names
  {
    ResolvedFixed(s + names, absolute);
  }

  /** A resolved list leads out of where it starts. */
  predicate Climbs(segments: seq<string>) {
    segments != [] && segments[0] == ".."
  }

  lemma ClimbsUps(segments: seq<string>)
    ensures Climbs(segments) <==> Ups(segments) > 0
  {
  }

  /** Resolving a list first under a root and then after another list changes nothing exactly when it does not climb,
      or the other list is a root with nothing to climb out of. */
  lemma RootedMiddle(a: seq<string>, x: seq<string>, absolute: bool)
    ensures Resolved(a + Resolved(x, true), absolute) == Resolved(a + x, absolute)
       <==> !Climbs(Resolved(x, false)) || (absolute && Resolved(a, absolute) == [])
  {
    ClimbsUps(Resolved(x, false));
    var r, f := Resolved(a, absolute), Resolved(x, false);
    var u, names := Ups(f), Names(f);
    RootDropsUps(x);
    ResolvedStacked(x, false);
    ResolvedStacked(a, absolute);
    StackedParts(f);
    ResolvePrefix(a, names, absolute);
    NamesAppend(r, names, absolute);
    ResolveSuffix(a, x, absolute);
    ResolvePrefix(a, f, absolute);
    ResolveThree(r, Climb(u), names, absolute);
    ResolvedStacked(r + Climb(u), absolute);
    NamesAppend(Resolved(r + Climb(u), absolute), names, absolute);
    ClimbReturns(r, u, absolute);
    SameAppended(r, Resolved(r + Climb(u), absolute), names);
  }

  lemma SameAppended(r: seq<string>, s: seq<string>, names: seq<string>)
    ensures r + names == s + names <==> r == s
  {
    if r + names == s + names {
      assert r == (r + names)[..|r|] && s == (s + names)[..|s|];
    }
  }

  lemma PosixNormalSegments(platform: Platform, w: string)
    requires !platform.Win32? && ParseRoot(platform, w).absolute
    ensures SplitSegments(platform, Normalize(platform, w)) == Resolved(SplitSegments(platform, w), true)
  {
    PosixSegments(platform, w);
    PosixSegments(platform, Normalize(platform, w));
    PlaceShape(platform, w);
    NormalForm(platform, w);
    RenderReparse(platform, PlaceOf(platform, w), KeptTrailing(platform, w));
  }

  /** On posix a middle part under the root may be joined to the rest first exactly when the two do not climb above the
      root, or the first part is at the root itself. */
  lemma JoinRootedMiddle(platform: Platform, a: string, b: string, c: string)
    requires !platform.Win32? && a != "" && b != "" && b[0] == '/' && c != ""
    ensures PlaceOf(platform, Join(platform, [a, Join(platform, [b, c])]))
            == PlaceOf(platform, Join(platform, [a, b, c]))
       <==> !Climbs(Resolved(SplitSegments(platform, b) + SplitSegments(platform, c), false))
            || (PlaceOf(platform, a).absolute && PlaceOf(platform, a).segments == [])
  {
    var w := Joined(platform, b, c);
    var n := Normalize(platform, w);
    JoinThree(platform, a, b, c);
    JoinTwo(platform, b, c);
    BesideSegments(platform, b, c);
    PosixNormalSegments(platform, w);
    NormalizeNonEmpty(platform, w);
    JoinTwo(platform, a, n);
    JoinedPlace(platform, a, n);
    JoinedPlace(platform, a, w);
    NormalizeKeepsPlace(platform, Joined(platform, a, n));
    NormalizeKeepsPlace(platform, Joined(platform, a, w));
    RootedMiddle(Segments(platform, a), SplitSegments(platform, w), ParseRoot(platform, a).absolute);
  }
}
