/** relative undoes join: exactly when, for every absolute start. */
module HostPathRoots {
  import opened HostPath
  import opened HostPathSegments
  import opened HostPathPlaces
  import opened HostPathLaws
  import opened HostPathRelative
  import opened HostPathSame

  // ---- From a bare server ----

  function ServerOf(p: string): string
    requires |p| >= 2
  {
    p[2..NameEnd(Win32, p, 2)]
  }

  lemma BareServerRoot(from: string)
    requires BareServer(from)
    ensures IsName(ServerOf(from))
    ensures ParseRoot(Win32, from) == ParsedRoot(from[..1], "\\", true)
    ensures Stable(Win32, from)
  {
    forall k | 0 <= k < |ServerOf(from)| ensures !IsSep(Win32, ServerOf(from)[k]) {
      assert ServerOf(from)[k] == from[k + 2];
    }
  }

  /** Only a single separator has the key of a single separator. */
  lemma BareKeyAlone(lower: string -> string, canonical: string)
    requires CaseFold(lower) && CanonicalRoot(Win32, canonical, true)
    requires lower("\\") == lower(RootKey(ParsedRoot(canonical, canonical, true)))
    ensures canonical == "\\"
  {
    if server, share :| IsUncRoot(server, share, canonical) {
      UncRootKey(server, share);
      ServerKey(lower, server);
      assert false;
    } else if |canonical| == 3 {
      DriveKey(lower, canonical);
    }
  }

  lemma ServerKey(lower: string -> string, server: string)
    requires CaseFold(lower)
    ensures lower("\\") != lower("\\\\" + server + "\\")
  {
    var rest := Slashed("", Slashed(server, ""));
    assert "\\" == Slashed("", "") && "\\\\" + server + "\\" == Slashed("", rest);
    assert lower("") == "" && lower(rest) != "";
    if lower("\\") == lower("\\\\" + server + "\\") {
      FirstBackslash("", "", "", lower(rest));
      assert false;
    }
  }

  lemma DriveKey(lower: string -> string, canonical: string)
    requires CaseFold(lower) && |canonical| == 3 && HasDrivePrefix(canonical) && canonical[2] == '\\'
    ensures RootKey(ParsedRoot(canonical, canonical, true)) == canonical
    ensures lower("\\") != lower(canonical)
  {
    var drive := canonical[..2];
    assert canonical == Slashed(drive, "") && "\\" == Slashed("", "");
    assert lower(drive) != "";
    if lower("\\") == lower(canonical) {
      FirstBackslash("", "", lower(drive), "");
      assert false;
    }
  }

  /** The two forms relative can take from a bare server. */
  lemma RelativeFromServer(lower: string -> string, from: string, to: string)
    requires CaseFold(lower) && BareServer(from) && ParseRoot(Win32, to).absolute
    ensures var rel := RelativePath(Win32, lower, from, to);
            var pa, pb := PlaceOf(Win32, from), PlaceOf(Win32, to);
            if pb.canonical == "\\" then
              var segments := RelativeSegments(Win32, lower, pa.segments, pb.segments);
              rel == JoinWith(segments, '\\') && SplitSegments(Win32, rel) == segments && AllClean(Win32, segments)
            else rel == Render(Win32, pb)
  {
    BareServerRoot(from);
    PlaceShape(Win32, to);
    if PlaceOf(Win32, to).canonical == "\\" {
      RelativeText(Win32, lower, from, to);
    } else {
      TrimmedForm(Win32, from);
      TrimmedForm(Win32, to);
      if SameRoot(Win32, lower, ParseRoot(Win32, Trimmed(Win32, from)), ParseRoot(Win32, Trimmed(Win32, to))) {
        BareKeyAlone(lower, PlaceOf(Win32, to).canonical);
      }
    }
  }

  /** An empty relative form leads from a bare server back to the same place. */
  lemma NothingFromServer(lower: string -> string, from: string, to: string)
    requires CaseFold(lower) && BareServer(from) && ParseRoot(Win32, to).absolute
    requires RelativePath(Win32, lower, from, to) == ""
    ensures SamePath(Win32, lower, Join(Win32, [from, ""]), to)
  {
    var pa, pb := PlaceOf(Win32, from), PlaceOf(Win32, to);
    BareServerRoot(from);
    PlaceShape(Win32, from);
    PlaceShape(Win32, to);
    RelativeFromServer(lower, from, to);
    AbsoluteRootEnds(Win32, pb.canonical, true);
    NoSepSegment(Win32, "");
    EmptyIsAlike(Win32, lower, pa.segments, pb.segments);
    JoinTwo(Win32, from, "");
    NormalizeKeepsPlace(Win32, from);
    TrimmedForm(Win32, Join(Win32, [from, ""]));
    TrimmedForm(Win32, to);
    FoldRender(Win32, lower, pa, pb);
  }

  /** Where a bare server and a name lead: to a share. */
  lemma ShareOfServer(from: string, rel: string)
    requires BareServer(from) && rel != "" && !IsSep(Win32, rel[0])
    ensures var j := Join(Win32, [from, rel]);
            && Stable(Win32, j) && PlaceOf(Win32, j).absolute
            && exists server, share :: IsUncRoot(server, share, PlaceOf(Win32, j).canonical)
  {
    var w := Joined(Win32, from, rel);
    BareServerJoined(from, rel);
    JoinTwo(Win32, from, rel);
    var m := MatchUnc(w);
    MatchedNames(w);
    UncParse(w);
    NormalizeKeepsPlace(Win32, w);
    assert IsUncRoot(m.server, m.share, PlaceOf(Win32, w).canonical);
  }

  lemma MatchedNames(w: string)
    requires MatchUnc(w).Unc?
    ensures IsName(MatchUnc(w).server) && IsName(MatchUnc(w).share)
  {
  }

  /** A share is not a path under a drive or a single separator. */
  lemma ShareIsNoDrive(lower: string -> string, j: string, to: string)
    requires CaseFold(lower) && Stable(Win32, j) && PlaceOf(Win32, j).absolute
    requires exists server, share :: IsUncRoot(server, share, PlaceOf(Win32, j).canonical)
    requires ParseRoot(Win32, to).absolute && MatchUnc(to).NoUnc?
    ensures !SamePath(Win32, lower, j, to)
  {
    PlaceShape(Win32, j);
    PlaceShape(Win32, to);
    TrimmedForm(Win32, j);
    TrimmedForm(Win32, to);
    if SamePath(Win32, lower, j, to) {
      var server, share :| IsUncRoot(server, share, PlaceOf(Win32, j).canonical);
      RenderFixesRoot(lower, PlaceOf(Win32, j), PlaceOf(Win32, to));
      NotUncRoot(to);
      UncUnlikeOthers(lower, server, share, PlaceOf(Win32, to).canonical);
    }
  }

  lemma NotUncRoot(to: string)
    requires ParseRoot(Win32, to).absolute && MatchUnc(to).NoUnc?
    ensures var root := ParseRoot(Win32, to).canonical;
            root == "\\" || (|root| == 3 && HasDrivePrefix(root) && root[2] == '\\')
  {
  }

  // ---- From a bare server to a share ----

  predicate IsDots(name: string) {
    name == "." || name == ".."
  }

  /** A share whose name is `.` or `..` and reads, up to case, like its server and the server of the start. */
  predicate DotShare(lower: string -> string, from: string, to: string)
    requires |from| >= 2
  {
    var m := MatchUnc(to);
    m.Unc? && IsDots(m.share) && lower(ServerOf(from)) == lower(m.server) && lower(m.server) == lower(m.share)
  }

  /** A name in front of resolved segments under a root: `.` and `..` vanish. */
  lemma NameInFront(name: string, segments: seq<string>)
    requires IsName(name) && AllClean(Win32, segments) && Stacked(segments, true)
    ensures Resolved(KeepOne(name) + segments, true) == if IsDots(name) then segments else [name] + segments
  {
    ResolvedFixed(segments, true);
    if name == "." {
      assert [] + segments == segments;
    } else if name == ".." {
      ResolvePrefix([".."], segments, true);
      DotsAtRoot();
      assert [] + segments == segments;
    } else {
      ResolvedFixed([name] + segments, true);
    }
  }

  lemma DotsAtRoot()
    ensures Resolved([".."], true) == []
  {
    assert [".."] == [] + [".."];
    ResolvedSnoc([], "..", true);
  }

  /** Two share paths are spelled alike exactly when their servers, shares and tails are. */
  lemma UncRendersExact(lower: string -> string, s1: string, h1: string, t1: string, s2: string, h2: string, t2: string)
    requires CaseFold(lower) && IsName(s1) && IsName(h1) && IsName(s2) && IsName(h2)
    ensures lower(UncRoot(s1, h1) + t1) == lower(UncRoot(s2, h2) + t2)
       <==> lower(s1) == lower(s2) && lower(h1) == lower(h2) && lower(t1) == lower(t2)
  {
    UncFolded(lower, s1, h1);
    UncFolded(lower, s2, h2);
    UncRenderFolded(lower, s1, h1, t1);
    UncRenderFolded(lower, s2, h2, t2);
    if lower(UncRoot(s1, h1) + t1) == lower(UncRoot(s2, h2) + t2) {
      var r1, r2 := Slashed(lower(h1), lower(t1)), Slashed(lower(h2), lower(t2));
      var q1, q2 := Slashed(lower(s1), r1), Slashed(lower(s2), r2);
      FirstBackslash("", Slashed("", q1), "", Slashed("", q2));
      FirstBackslash("", q1, "", q2);
      FirstBackslash(lower(s1), r1, lower(s2), r2);
      FirstBackslash(lower(h1), lower(t1), lower(h2), lower(t2));
    }
  }

  /** A name more in front is never spelled like the rest. */
  lemma NameMoreDiffers(lower: string -> string, name: string, segments: seq<string>)
    requires CaseFold(lower) && name != ""
    ensures lower(JoinWith([name] + segments, '\\')) != lower(JoinWith(segments, '\\'))
  {
    if segments == [] {
      assert [name] + segments == [name];
    } else {
      assert ([name] + segments)[1..] == segments;
      assert JoinWith([name] + segments, '\\') == Slashed(name, JoinWith(segments, '\\'));
    }
  }

  lemma NameAt(s: string, i: nat, name: string)
    requires IsName(name) && i + |name| <= |s| && s[i..i + |name|] == name
    requires i + |name| < |s| ==> IsSep(Win32, s[i + |name|])
    ensures NameEnd(Win32, s, i) == i + |name|
  {
    forall k | i <= k < i + |name| ensures !IsSep(Win32, s[k]) {
      assert s[k] == s[i..i + |name|][k - i];
    }
    NameEndIs(Win32, s, i, i + |name|);
  }

  lemma ShareSlices(server: string, share: string, tail: string)
    requires IsName(server) && IsName(share)
    ensures var rel := UncRoot(server, share) + tail;
            && |rel| > 3 + |server| && rel[0] == '\\' && rel[1] == '\\' && rel[2] == server[0]
            && rel[2..2 + |server|] == server && rel[2 + |server|] == '\\'
            && rel[3 + |server|] == share[0] && rel[3 + |server|..] == share + ['\\'] + tail
  {
  }

  /** The spelling of a share path, taken apart at its server. */
  lemma SharePathParts(server: string, share: string, tail: string)
    requires IsName(server) && IsName(share)
    ensures var rel := UncRoot(server, share) + tail;
            && SepRunEnd(Win32, rel, 0) == 2 && NameEnd(Win32, rel, 2) == 2 + |server|
            && SepRunEnd(Win32, rel, 2 + |server|) == 3 + |server|
  {
    ShareSlices(server, share, tail);
    ShareScans(UncRoot(server, share) + tail, server);
  }

  lemma ShareScans(rel: string, server: string)
    requires IsName(server) && |rel| > 3 + |server| && rel[2..2 + |server|] == server
    requires IsSep(Win32, rel[0]) && IsSep(Win32, rel[1]) && !IsSep(Win32, rel[2])
    requires IsSep(Win32, rel[2 + |server|]) && !IsSep(Win32, rel[3 + |server|])
    ensures SepRunEnd(Win32, rel, 0) == 2 && NameEnd(Win32, rel, 2) == 2 + |server|
    ensures SepRunEnd(Win32, rel, 2 + |server|) == 3 + |server|
  {
    OneSepAt(rel, 1);
    NameAt(rel, 2, server);
    OneSepAt(rel, 2 + |server|);
  }

  lemma OneSepAt(s: string, i: nat)
    requires i + 1 < |s| && IsSep(Win32, s[i]) && !IsSep(Win32, s[i + 1])
    ensures SepRunEnd(Win32, s, i) == i + 1
  {
  }

  lemma TailOfJoined(from: string, rel: string, n: nat)
    requires n <= |rel|
    ensures (from + "\\" + rel)[|from| + 1 + n..] == rel[n..]
  {
  }

  /** A bare server followed by a whole share path: its server becomes the share. */
  lemma ServerThenShare(from: string, server: string, share: string, tail: string)
    requires BareServer(from) && IsName(server) && IsName(share)
    ensures var w := Joined(Win32, from, UncRoot(server, share) + tail);
            && ParseRoot(Win32, w).canonical == UncRoot(ServerOf(from), server) && ParseRoot(Win32, w).absolute
            && Segments(Win32, w) == SplitSegments(Win32, share + ['\\'] + tail)
  {
    var rel := UncRoot(server, share) + tail;
    ServerThenShareMatch(from, server, share, tail);
    ShareSlices(server, share, tail);
    ShareRest(from, rel, from + "\\" + rel, 3 + |server|);
  }

  lemma ShareRest(from: string, rel: string, w: string, n: nat)
    requires n <= |rel| && w == from + "\\" + rel && MatchUnc(w).Unc? && MatchUnc(w).rawLength == |from| + 1 + n
    ensures ParseRoot(Win32, w).canonical == UncRoot(MatchUnc(w).server, MatchUnc(w).share)
            && ParseRoot(Win32, w).absolute
    ensures Segments(Win32, w) == SplitSegments(Win32, rel[n..])
  {
    UncParse(w);
    TailOfJoined(from, rel, n);
  }

  lemma ServerThenShareMatch(from: string, server: string, share: string, tail: string)
    requires BareServer(from) && IsName(server) && IsName(share)
    ensures var rel := UncRoot(server, share) + tail;
            var w := from + "\\" + rel;
            Joined(Win32, from, rel) == w && MatchUnc(w) == Unc(ServerOf(from), server, |from| + 1 + (3 + |server|))
  {
    SharePathParts(server, share, tail);
    ShareSlices(server, share, tail);
    BareServerJoined(from, UncRoot(server, share) + tail);
  }

  lemma JoinServerThenShare(from: string, server: string, share: string, segments: seq<string>)
    requires BareServer(from) && IsName(server) && IsName(share)
    requires AllClean(Win32, segments) && Stacked(segments, true)
    ensures var j := Join(Win32, [from, UncRoot(server, share) + JoinWith(segments, '\\')]);
            Stable(Win32, j)
            && PlaceOf(Win32, j)
               == Place(UncRoot(ServerOf(from), server), true, if IsDots(share) then segments else [share] + segments)
  {
    var rel := UncRoot(server, share) + JoinWith(segments, '\\');
    ServerThenShare(from, server, share, JoinWith(segments, '\\'));
    SegmentsSplit(Win32, share, '\\', JoinWith(segments, '\\'));
    NoSepSegment(Win32, share);
    JoinThenSplit(Win32, segments);
    NameInFront(share, segments);
    JoinTwo(Win32, from, rel);
    NormalizeKeepsPlace(Win32, Joined(Win32, from, rel));
  }

  /** From a bare server to a share. */
  lemma ServerToShare(lower: string -> string, from: string, to: string)
    requires CaseFold(lower) && BareServer(from) && MatchUnc(to).Unc?
    ensures RelativePath(Win32, lower, from, to) != ""
    ensures SamePath(Win32, lower, Join(Win32, [from, RelativePath(Win32, lower, from, to)]), to)
            <==> DotShare(lower, from, to)
  {
    var m, pb := MatchUnc(to), PlaceOf(Win32, to);
    var rel := RelativePath(Win32, lower, from, to);
    var j := Join(Win32, [from, rel]);
    BareServerRoot(from);
    MatchedNames(to);
    UncParse(to);
    PlaceShape(Win32, to);
    RelativeFromServer(lower, from, to);
    assert rel == UncRoot(m.server, m.share) + JoinWith(pb.segments, '\\');
    JoinServerThenShare(from, m.server, m.share, pb.segments);
    var pj := PlaceOf(Win32, j);
    TrimmedForm(Win32, j);
    TrimmedForm(Win32, to);
    UncRendersExact(lower, ServerOf(from), m.server, JoinWith(pj.segments, '\\'), m.server, m.share,
                    JoinWith(pb.segments, '\\'));
    NameMoreDiffers(lower, m.share, pb.segments);
  }

  // ---- From every absolute path ----

  predicate RootsFoldAlike(platform: Platform, lower: string -> string, from: string, to: string) {
    Fold(platform, lower, ParseRoot(platform, from).canonical)
      == Fold(platform, lower, ParseRoot(platform, to).canonical)
  }

  /** When relative leads from one absolute path back to another: the roots fold alike; from a bare server only when
      the two are the same path, or to a share of dots. */
  predicate LeadsBackAbsolute(platform: Platform, lower: string -> string, from: string, to: string) {
    if platform.Win32? && BareServer(from) then SamePath(platform, lower, from, to) || DotShare(lower, from, to)
    else RootsFoldAlike(platform, lower, from, to)
  }

  lemma ServerRelativeExact(lower: string -> string, from: string, to: string)
    requires CaseFold(lower) && BareServer(from) && ParseRoot(Win32, to).absolute && MatchUnc(to).NoUnc?
    ensures SamePath(Win32, lower, Join(Win32, [from, RelativePath(Win32, lower, from, to)]), to)
       <==> SamePath(Win32, lower, from, to)
  {
    var rel := RelativePath(Win32, lower, from, to);
    BareServerRoot(from);
    AbsoluteRelativeEmpty(lower, from, to);
    if rel == "" {
      NothingFromServer(lower, from, to);
    } else {
      SomethingFromServer(lower, from, to);
    }
  }

  lemma RelativeStartsWithName(lower: string -> string, from: string, to: string)
    requires CaseFold(lower) && BareServer(from) && ParseRoot(Win32, to).absolute && MatchUnc(to).NoUnc?
    requires RelativePath(Win32, lower, from, to) != ""
    ensures !IsSep(Win32, RelativePath(Win32, lower, from, to)[0])
  {
    var rel := RelativePath(Win32, lower, from, to);
    RelativeFromServer(lower, from, to);
    NotUncRoot(to);
    if PlaceOf(Win32, to).canonical == "\\" {
      var segments := SplitSegments(Win32, rel);
      JoinEnds(Win32, segments);
      assert Clean(Win32, segments[0]) && rel[0] == segments[0][0];
    } else {
      assert rel[0] == PlaceOf(Win32, to).canonical[0];
    }
  }

  /** relative undoes join between absolute paths exactly when LeadsBackAbsolute holds. */
  lemma RelativeExact(platform: Platform, lower: string -> string, from: string, to: string)
    requires CaseFold(lower) && ParseRoot(platform, from).absolute && ParseRoot(platform, to).absolute
    ensures SamePath(platform, lower, Join(platform, [from, RelativePath(platform, lower, from, to)]), to)
       <==> LeadsBackAbsolute(platform, lower, from, to)
  {
    if platform.Win32? && BareServer(from) {
      if MatchUnc(to).Unc? {
        ServerToShare(lower, from, to);
        BareServerRoot(from);
        AbsoluteRelativeEmpty(lower, from, to);
      } else {
        ServerRelativeExact(lower, from, to);
      }
    } else {
      AnchoredRelativeExact(platform, lower, from, to);
    }
  }

  // ---- Where it does not lead back ----

  predicate PlainName(name: string) {
    IsName(name) && !IsDots(name)
  }

  lemma OneSegment(platform: Platform, name: string)
    requires PlainName(name)
    ensures SplitSegments(platform, name) == [name] && (forall absolute :: Resolved([name], absolute) == [name])
  {
    NoSepSegment(platform, name);
    assert [name] == [] + [name];
    ResolvedSnoc([], name, true);
    ResolvedSnoc([], name, false);
  }

  lemma ServerPlace(server: string)
    requires PlainName(server)
    ensures BareServer("\\\\" + server) && PlaceOf(Win32, "\\\\" + server) == Place("\\", true, [server])
  {
    var p := "\\\\" + server;
    NameEndOfServer(server);
    assert p[1..] == "" + ['\\'] + server;
    SegmentsSplit(Win32, "", '\\', server);
    NoSepSegment(Win32, "");
    OneSegment(Win32, server);
    assert [] + [server] == [server];
  }

  lemma NameEndOfServer(server: string)
    requires IsName(server)
    ensures var p := "\\\\" + server; NameEnd(Win32, p, 2) == |p| && p[2] == server[0]
  {
    var p := "\\\\" + server;
    assert p[2..2 + |server|] == server;
    NameAt(p, 2, server);
  }

  lemma RootedPlace(name: string)
    requires PlainName(name)
    ensures ParseRoot(Win32, "\\" + name) == ParsedRoot("\\", "\\", true)
    ensures PlaceOf(Win32, "\\" + name) == Place("\\", true, [name])
    ensures MatchUnc("\\" + name).NoUnc?
  {
    var p := "\\" + name;
    assert p[1] == name[0] && p[..1] == "\\" && p[1..] == name;
    OneSegment(Win32, name);
  }

  lemma NothingShared(platform: Platform, lower: string -> string, a: string, b: string)
    requires Fold(platform, lower, a) != Fold(platform, lower, b)
    ensures RelativeSegments(platform, lower, [a], [b]) == ["..", b]
  {
    assert [b][0..] == [b] && Climb(1) == [".."];
  }

  lemma TwoJoined(sep: char, a: string, b: string)
    ensures JoinWith([a, b], sep) == a + [sep] + b
  {
    assert [a, b][1..] == [b];
  }

  /** From a bare server to a name under the root: `\\srv` to `\x`. The roots are one, relative is `..\x`, and joining
      makes `..` the name of a share. */
  lemma ServerToName(lower: string -> string, server: string, name: string)
    requires CaseFold(lower) && PlainName(server) && PlainName(name) && lower(server) != lower(name)
    ensures var from, to := "\\\\" + server, "\\" + name;
            && ParseRoot(Win32, from).canonical == ParseRoot(Win32, to).canonical
            && ParseRoot(Win32, from).absolute && ParseRoot(Win32, to).absolute
            && RelativePath(Win32, lower, from, to) == "..\\" + name
            && !SamePath(Win32, lower, Join(Win32, [from, RelativePath(Win32, lower, from, to)]), to)
  {
    var from, to := "\\\\" + server, "\\" + name;
    ServerToNameRelative(lower, server, name);
    ServerPlace(server);
    RootedPlace(name);
    BareServerRoot(from);
    assert RelativePath(Win32, lower, from, to) != "";
    SomethingFromServer(lower, from, to);
  }

  /** From a bare server to a path under a drive or a single separator, whatever relative writes leads elsewhere. */
  lemma SomethingFromServer(lower: string -> string, from: string, to: string)
    requires CaseFold(lower) && BareServer(from) && ParseRoot(Win32, to).absolute && MatchUnc(to).NoUnc?
    requires RelativePath(Win32, lower, from, to) != ""
    ensures !SamePath(Win32, lower, Join(Win32, [from, RelativePath(Win32, lower, from, to)]), to)
  {
    var rel := RelativePath(Win32, lower, from, to);
    RelativeStartsWithName(lower, from, to);
    ShareOfServer(from, rel);
    ShareIsNoDrive(lower, Join(Win32, [from, rel]), to);
  }

  lemma ServerToNameRelative(lower: string -> string, server: string, name: string)
    requires CaseFold(lower) && PlainName(server) && PlainName(name) && lower(server) != lower(name)
    ensures RelativePath(Win32, lower, "\\\\" + server, "\\" + name) == "..\\" + name
  {
    ServerPlace(server);
    RootedPlace(name);
    RelativeFromServer(lower, "\\\\" + server, "\\" + name);
    UpToText(Win32, lower, server, name, RelativePath(Win32, lower, "\\\\" + server, "\\" + name));
  }

  function UpText(platform: Platform, b: string): string {
    if platform.Win32? then "..\\" + b else "../" + b
  }

  lemma UpToText(platform: Platform, lower: string -> string, a: string, b: string, rel: string)
    requires Fold(platform, lower, a) != Fold(platform, lower, b)
    requires rel == JoinWith(RelativeSegments(platform, lower, [a], [b]), SepOf(platform))
    ensures rel == UpText(platform, b)
  {
    UpToName(platform, lower, a, b);
  }

  lemma UpToName(platform: Platform, lower: string -> string, a: string, b: string)
    requires Fold(platform, lower, a) != Fold(platform, lower, b)
    ensures JoinWith(RelativeSegments(platform, lower, [a], [b]), SepOf(platform)) == ".." + [SepOf(platform)] + b
  {
    NothingShared(platform, lower, a, b);
    TwoJoined(SepOf(platform), "..", b);
  }

  lemma SharePlace(server: string, share: string, name: string)
    requires IsName(server) && IsName(share) && PlainName(name)
    ensures var p := UncRoot(server, share) + name;
            && ParseRoot(Win32, p).canonical == UncRoot(server, share)
            && PlaceOf(Win32, p) == Place(UncRoot(server, share), true, [name])
  {
    var p := UncRoot(server, share) + name;
    UncReparse(server, share, name);
    UncParse(p);
    assert p[|UncRoot(server, share)|..] == name;
    OneSegment(Win32, name);
  }

  lemma ServerShared(lower: string -> string, server: string, a: string, x: string, b: string, y: string)
    requires lower(a) != lower(b)
    ensures JoinWith(RelativeSegments(Win32, lower, [server, a] + [x], [server, b] + [y]), '\\')
            == "..\\..\\" + b + "\\" + y
  {
    var segA, segB := [server, a] + [x], [server, b] + [y];
    assert segA[1..] == [a, x] && segB[1..] == [b, y];
    assert CommonPrefix(Win32, lower, [a, x], [b, y]) == 0;
    assert RelativeSegments(Win32, lower, segA, segB) == ["..", "..", b, y];
    FourJoined("..", "..", b, y);
  }

  lemma FourJoined(a: string, b: string, c: string, d: string)
    ensures JoinWith([a, b, c, d], '\\') == a + "\\" + b + "\\" + c + "\\" + d
  {
    TwoJoined('\\', c, d);
    assert [b, c, d][1..] == [c, d];
    var two, three := JoinWith([c, d], '\\'), JoinWith([b, c, d], '\\');
    assert three == b + ['\\'] + two;
    assert [a, b, c, d][1..] == [b, c, d];
    assert JoinWith([a, b, c, d], '\\') == a + ['\\'] + three;
  }

  /** Between two shares of one server: `\\srv\a\x` to `\\srv\b\y`. They have a relative form, `..\..\b\y`, which
      climbs above the share and does not lead there. */
  lemma ShareToShare(lower: string -> string, server: string, a: string, x: string, b: string, y: string)
    requires CaseFold(lower) && IsName(server) && IsName(a) && IsName(b) && PlainName(x) && PlainName(y)
    requires lower(a) != lower(b)
    ensures var from, to := UncRoot(server, a) + x, UncRoot(server, b) + y;
            && RelativePath(Win32, lower, from, to) == "..\\..\\" + b + "\\" + y
            && !SamePath(Win32, lower, Join(Win32, [from, RelativePath(Win32, lower, from, to)]), to)
  {
    var from, to := UncRoot(server, a) + x, UncRoot(server, b) + y;
    SharePlace(server, a, x);
    SharePlace(server, b, y);
    ShareRelative(lower, server, a, x, b, y);
    if lower(UncRoot(server, a)) == lower(UncRoot(server, b)) {
      UncRootsAlike(lower, server, a, server, b);
    }
    ShareIsNoServer(server, a, x);
    RelativeExact(Win32, lower, from, to);
  }

  lemma ShareIsNoServer(server: string, share: string, name: string)
    requires IsName(server) && IsName(share) && PlainName(name)
    ensures var p := UncRoot(server, share) + name; MatchUnc(p).Unc? && ParseRoot(Win32, p).absolute
  {
    UncReparse(server, share, name);
  }

  lemma ShareRelative(lower: string -> string, server: string, a: string, x: string, b: string, y: string)
    requires CaseFold(lower) && IsName(server) && IsName(a) && IsName(b) && PlainName(x) && PlainName(y)
    requires lower(a) != lower(b)
    ensures RelativePath(Win32, lower, UncRoot(server, a) + x, UncRoot(server, b) + y) == "..\\..\\" + b + "\\" + y
  {
    ShareTrimmed(server, a, x);
    ShareTrimmed(server, b, y);
    ServerShared(lower, server, a, x, b, y);
  }

  /** What relative compares of a share path: the key of its server, and server, share and name. */
  lemma ShareTrimmed(server: string, share: string, name: string)
    requires IsName(server) && IsName(share) && PlainName(name)
    ensures var t := Trimmed(Win32, UncRoot(server, share) + name);
            && RootKey(ParseRoot(Win32, t)) == "\\\\" + server + "\\" && ParseRoot(Win32, t).absolute
            && SegmentsOf(Win32, t, ParseRoot(Win32, t)) == [server, share] + [name]
  {
    var p := UncRoot(server, share) + name;
    SharePlace(server, share, name);
    TrimmedForm(Win32, p);
    SegmentsOfTrimmed(Win32, p);
    UncRootNames(server, share);
    UncRootKey(server, share);
  }

  lemma PosixNamePlace(platform: Platform, name: string)
    requires !platform.Win32? && IsName(name) && name != "."
    ensures PlaceOf(platform, name) == Place("", false, [name])
  {
    assert Clean(platform, name);
    PosixNames(platform, [name]);
  }

  /** From a posix path that climbs out of its start: `..` to `a`. relative is `../a`, which climbs twice. */
  lemma ClimbToName(platform: Platform, lower: string -> string, name: string)
    requires !platform.Win32? && CaseFold(lower) && PlainName(name)
    ensures RelativePath(platform, lower, "..", name) == "../" + name
    ensures !SamePath(platform, lower, Join(platform, ["..", RelativePath(platform, lower, "..", name)]), name)
  {
    NameToName(platform, lower, "..", name);
    PosixNamePlace(platform, "..");
    PosixNamePlace(platform, name);
    PosixRelativeExact(platform, lower, "..", name);
    UpsOfOne("..");
    UpsOfOne(name);
  }

  lemma UpsOfOne(name: string)
    ensures Ups([name]) == if name == ".." then 1 else 0
  {
    assert [name][1..] == [];
  }

  lemma NameToName(platform: Platform, lower: string -> string, start: string, name: string)
    requires !platform.Win32? && CaseFold(lower) && IsName(start) && IsName(name) && start != name
    requires start != "." && name != "."
    ensures RelativePath(platform, lower, start, name) == "../" + name
  {
    PosixNamePlace(platform, start);
    PosixNamePlace(platform, name);
    NameHasNoRoot(platform, start);
    NameHasNoRoot(platform, name);
    RelativeText(platform, lower, start, name);
    UpToText(platform, lower, start, name, RelativePath(platform, lower, start, name));
  }

  lemma NameHasNoRoot(platform: Platform, name: string)
    requires !platform.Win32? && IsName(name)
    ensures !ParseRoot(platform, name).absolute
  {
  }

  lemma ServerItself(name: string)
    requires IsName(name)
    ensures var p := "\\\\" + name; BareServer(p) && ServerOf(p) == name
  {
    var p := "\\\\" + name;
    NameEndOfServer(name);
    assert p[2..] == name;
  }

  lemma ShareItself(server: string, share: string)
    requires IsName(server) && IsName(share)
    ensures MatchUnc(UncRoot(server, share)) == Unc(server, share, |UncRoot(server, share)|)
  {
    UncReparse(server, share, "");
    assert UncRoot(server, share) + "" == UncRoot(server, share);
  }

  /** From a server to its share of the same name: relative writes the share out whole, and joining leads to it only
      when the name is `.` or `..`. */
  lemma ServerToOwnShare(lower: string -> string, name: string)
    requires CaseFold(lower) && IsName(name)
    ensures var from, to := "\\\\" + name, UncRoot(name, name);
            && RelativePath(Win32, lower, from, to) != ""
            && (SamePath(Win32, lower, Join(Win32, [from, RelativePath(Win32, lower, from, to)]), to) <==> IsDots(name))
  {
    ServerItself(name);
    ShareItself(name, name);
    ServerToShare(lower, "\\\\" + name, UncRoot(name, name));
  }
}
