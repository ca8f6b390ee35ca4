/** The place a path names: its canonical root and its resolved segments. Every function of the path algebra is a
    function of places, which is what makes its laws provable. */
module HostPathPlaces {
  import opened HostPath
  import opened HostPathSegments

  datatype Place = Place(canonical: string, absolute: bool, segments: seq<string>)

  function Segments(platform: Platform, p: string): seq<string> {
    SplitSegments(platform, p[|ParseRoot(platform, p).raw|..])
  }

  function PlaceOf(platform: Platform, p: string): Place {
    var root := ParseRoot(platform, p);
    Place(root.canonical, root.absolute, Resolved(Segments(platform, p), root.absolute))
  }

  /** What is written after the root of a place. */
  function Tail(platform: Platform, place: Place): string {
    if place.segments == [] then (if place.absolute then "" else ".")
    else JoinWith(place.segments, SepOf(platform))
  }

  /** The spelling of a place without a trailing separator. */
  function Render(platform: Platform, place: Place): string {
    place.canonical + Tail(platform, place)
  }

  /** The trailing separator normalization keeps: the one the path had, unless the path is a bare root. */
  function KeptTrailing(platform: Platform, p: string): string {
    var place := PlaceOf(platform, p);
    if HasTrailingSep(platform, p) && !(place.segments == [] && place.absolute) then [SepOf(platform)] else ""
  }

  /** A place without a root must not begin with a name that reads as a drive. */
  predicate Plain(platform: Platform, place: Place) {
    platform.Win32? && place.canonical == "" && place.segments != [] ==> !HasDrivePrefix(place.segments[0])
  }

  /** Excludes `./C:`, which resolves to the name `C:` and would be written as a drive. */
  predicate Stable(platform: Platform, p: string) {
    Plain(platform, PlaceOf(platform, p))
  }

  // ---- Canonical roots ----

  predicate IsName(s: string) {
    s != "" && forall k | 0 <= k < |s| :: !IsSep(Win32, s[k])
  }

  predicate IsUncRoot(server: string, share: string, canonical: string) {
    IsName(server) && IsName(share) && canonical == UncRoot(server, share)
  }

  ghost predicate CanonicalRoot(platform: Platform, canonical: string, absolute: bool) {
    if !platform.Win32? then canonical == if absolute then "/" else "" else
      || (canonical == "" && !absolute)
      || (canonical == "\\" && absolute)
      || (|canonical| == 2 && HasDrivePrefix(canonical) && !absolute)
      || (|canonical| == 3 && HasDrivePrefix(canonical) && canonical[2] == '\\' && absolute)
      || (absolute && exists server, share :: IsUncRoot(server, share, canonical))
  }

  lemma ParsedRootCanonical(platform: Platform, p: string)
    ensures var root := ParseRoot(platform, p);
            CanonicalRoot(platform, root.canonical, root.absolute)
  {
    if platform.Win32? {
      var unc := MatchUnc(p);
      if unc.Unc? {
        assert IsUncRoot(unc.server, unc.share, ParseRoot(platform, p).canonical);
      }
    }
  }

  lemma UncReparse(server: string, share: string, tail: string)
    requires IsName(server) && IsName(share)
    requires tail == "" || !IsSep(Win32, tail[0])
    ensures MatchUnc(UncRoot(server, share) + tail) == Unc(server, share, |UncRoot(server, share)|)
  {
    var p := UncRoot(server, share) + tail;
    var serverEnd, shareStart := 2 + |server|, 3 + |server|;
    var shareEnd := shareStart + |share|;
    assert p[2..serverEnd] == server && p[shareStart..shareEnd] == share;
    forall k | 2 <= k < serverEnd ensures !IsSep(Win32, p[k]) { assert p[k] == server[k - 2]; }
    forall k | shareStart <= k < shareEnd ensures !IsSep(Win32, p[k]) { assert p[k] == share[k - shareStart]; }
    assert p[serverEnd] == '\\' && p[shareEnd] == '\\';
    assert !IsSep(Win32, p[shareStart]);
    NameEndIs(Win32, p, 2, serverEnd);
    SepRunEndIs(Win32, p, serverEnd, shareStart);
    NameEndIs(Win32, p, shareStart, shareEnd);
    assert tail != "" ==> p[shareEnd + 1] == tail[0];
    SepRunEndIs(Win32, p, shareEnd, shareEnd + 1);
  }

  /** A canonical root followed by a name is read back as that root. */
  lemma RootReparse(platform: Platform, canonical: string, absolute: bool, tail: string)
    requires CanonicalRoot(platform, canonical, absolute)
    requires tail == "" || !IsSep(platform, tail[0])
    requires platform.Win32? && canonical == "" ==> !HasDrivePrefix(tail)
    ensures ParseRoot(platform, canonical + tail) == ParsedRoot(canonical, canonical, absolute)
  {
    var p := canonical + tail;
    if platform.Win32? && |canonical| >= 4 {
      var server, share :| IsUncRoot(server, share, canonical);
      UncReparse(server, share, tail);
      assert p[..|canonical|] == canonical;
    } else if platform.Win32? {
      if server, share :| IsUncRoot(server, share, canonical) {
        assert false;
      }
      assert MatchUnc(p).NoUnc?;
      if |canonical| == 3 {
        assert p[..3] == canonical && p[..2] + "\\" == canonical;
      } else if |canonical| == 2 {
        assert p[..2] == canonical;
      } else if |canonical| == 1 {
        assert p[..1] == canonical;
      } else {
        assert p == tail;
      }
    }
  }

  // ---- Normal forms ----

  lemma PlaceShape(platform: Platform, p: string)
    ensures var place := PlaceOf(platform, p);
            && CanonicalRoot(platform, place.canonical, place.absolute)
            && AllClean(platform, place.segments)
            && Stacked(place.segments, place.absolute)
  {
    ParsedRootCanonical(platform, p);
    SegmentsClean(platform, p[|ParseRoot(platform, p).raw|..]);
    ResolvedClean(platform, Segments(platform, p), ParseRoot(platform, p).absolute);
    ResolvedStacked(Segments(platform, p), ParseRoot(platform, p).absolute);
  }

  lemma SegmentsOfEmpty(platform: Platform)
    ensures PlaceOf(platform, "") == Place("", false, [])
  {
    NoSepSegment(platform, "");
  }

  /** An absolute root ends with a separator of the host. */
  lemma AbsoluteRootEnds(platform: Platform, canonical: string, absolute: bool)
    requires CanonicalRoot(platform, canonical, absolute) && absolute
    ensures canonical != "" && canonical[|canonical| - 1] == SepOf(platform)
  {
  }

  /** normalize writes the place of the path, and keeps the trailing separator. */
  lemma NormalForm(platform: Platform, p: string)
    ensures Normalize(platform, p) == Render(platform, PlaceOf(platform, p)) + KeptTrailing(platform, p)
  {
    if p == "" {
      SegmentsOfEmpty(platform);
      assert Render(platform, Place("", false, [])) + "" == ".";
    } else {
      PlaceShape(platform, p);
      NothingWritten(platform, PlaceOf(platform, p));
      NormalizeCases(platform, p);
      CasesWritten(platform, PlaceOf(platform, p), if HasTrailingSep(platform, p) then [SepOf(platform)] else "");
    }
  }

  /** The cases of normalize are one spelling. */
  lemma CasesWritten(platform: Platform, place: Place, trailing: string)
    requires JoinWith(place.segments, SepOf(platform)) == "" <==> place.segments == []
    requires place.absolute ==> place.canonical != ""
    ensures var tail := JoinWith(place.segments, SepOf(platform));
            (if tail != "" then place.canonical + tail + trailing
             else if place.canonical == "" then "." + trailing
             else if place.absolute then place.canonical
             else place.canonical + "." + trailing)
            == Render(platform, place) + (if place.segments == [] && place.absolute then "" else trailing)
  {
  }

  /** A place without segments writes nothing after its root, and an absolute root is not empty. */
  lemma NothingWritten(platform: Platform, place: Place)
    requires CanonicalRoot(platform, place.canonical, place.absolute) && AllClean(platform, place.segments)
    ensures JoinWith(place.segments, SepOf(platform)) == "" <==> place.segments == []
    ensures place.absolute ==> place.canonical != ""
  {
    if place.segments != [] {
      JoinEnds(platform, place.segments);
      assert Clean(platform, place.segments[0]);
    }
  }

  lemma NormalizeCases(platform: Platform, p: string)
    requires p != ""
    ensures var place := PlaceOf(platform, p);
            var tail := JoinWith(place.segments, SepOf(platform));
            var trailing := if HasTrailingSep(platform, p) then [SepOf(platform)] else "";
            Normalize(platform, p)
            == if tail != "" then place.canonical + tail + trailing
               else if place.canonical == "" then "." + trailing
               else if place.absolute then place.canonical
               else place.canonical + "." + trailing
  {
  }

  lemma TailShape(platform: Platform, place: Place)
    requires AllClean(platform, place.segments)
    ensures var tail := Tail(platform, place);
            && (tail == "" <==> place.segments == [] && place.absolute)
            && (tail != "" ==> !IsSep(platform, tail[0]) && !IsSep(platform, tail[|tail| - 1]))
            && SplitSegments(platform, tail) == place.segments
  {
    if place.segments == [] {
      NoSepSegment(platform, Tail(platform, place));
    } else {
      JoinEnds(platform, place.segments);
      JoinThenSplit(platform, place.segments);
      assert Clean(platform, place.segments[0]);
      assert Tail(platform, place)[0] == place.segments[0][0];
    }
  }

  lemma TailNotDrive(platform: Platform, place: Place, t: string)
    requires platform.Win32? && place.canonical == "" && !place.absolute
    requires AllClean(platform, place.segments) && Plain(platform, place)
    requires t == "" || t == "\\"
    ensures !HasDrivePrefix(Tail(platform, place) + t)
  {
    if place.segments != [] {
      var first := place.segments[0];
      JoinEnds(platform, place.segments);
      assert Clean(platform, first);
      var tail := Tail(platform, place);
      assert tail[..|first|] == first;
      if |first| == 1 && |tail| > 1 {
        assert tail[1] == '\\';
      }
      if |first| >= 2 {
        assert tail[0] == first[0] && tail[1] == first[1];
      }
    }
  }

  /** Reading back what Render wrote, with or without a trailing separator, gives the same root and place. */
  lemma RenderReparse(platform: Platform, place: Place, t: string)
    requires CanonicalRoot(platform, place.canonical, place.absolute)
    requires AllClean(platform, place.segments) && Stacked(place.segments, place.absolute)
    requires Plain(platform, place)
    requires t == "" || (t == [SepOf(platform)] && !(place.segments == [] && place.absolute))
    ensures ParseRoot(platform, Render(platform, place) + t)
         == ParsedRoot(place.canonical, place.canonical, place.absolute)
    ensures Segments(platform, Render(platform, place) + t) == place.segments
    ensures PlaceOf(platform, Render(platform, place) + t) == place
  {
    var tail := Tail(platform, place);
    TailShape(platform, place);
    assert Render(platform, place) + t == place.canonical + (tail + t);
    if platform.Win32? && place.canonical == "" {
      TailNotDrive(platform, place, t);
    }
    RootReparse(platform, place.canonical, place.absolute, tail + t);
    assert (place.canonical + (tail + t))[|place.canonical|..] == tail + t;
    if t == "" {
      assert tail + t == tail;
    } else {
      assert tail + t == tail + [SepOf(platform)] + "";
      SegmentsSplit(platform, tail, SepOf(platform), "");
      NoSepSegment(platform, "");
    }
    ResolvedFixed(place.segments, place.absolute);
  }

  /** The trimmed form of a path is the spelling of its place. */
  lemma TrimmedForm(platform: Platform, p: string)
    requires Stable(platform, p)
    ensures Trimmed(platform, p) == Render(platform, PlaceOf(platform, p))
    ensures PlaceOf(platform, Trimmed(platform, p)) == PlaceOf(platform, p)
    ensures var place := PlaceOf(platform, p);
            ParseRoot(platform, Trimmed(platform, p)) == ParsedRoot(place.canonical, place.canonical, place.absolute)
    ensures Segments(platform, Trimmed(platform, p)) == PlaceOf(platform, p).segments
  {
    var place := PlaceOf(platform, p);
    var t := KeptTrailing(platform, p);
    var r := Render(platform, place);
    NormalForm(platform, p);
    assert Trimmed(platform, p) == r by {
      PlaceShape(platform, p);
      RenderReparse(platform, place, t);
      DropTrailing(platform, place, t);
    }
    PlaceShape(platform, p);
    RenderReparse(platform, place, "");
    assert r + "" == r;
  }

  lemma DropTrailing(platform: Platform, place: Place, t: string)
    requires AllClean(platform, place.segments)
    requires t == "" || (t == [SepOf(platform)] && !(place.segments == [] && place.absolute))
    ensures var n := Render(platform, place) + t;
            Render(platform, place)
            == if |n| > |place.canonical| && HasTrailingSep(platform, n) then n[..|n| - 1] else n
  {
    TailShape(platform, place);
    var n := Render(platform, place) + t;
    if t != "" {
      assert n[..|n| - 1] == Render(platform, place);
    } else {
      assert n == Render(platform, place);
      var tail := Tail(platform, place);
      if tail != "" {
        assert n[|n| - 1] == tail[|tail| - 1];
      }
    }
  }

  /** On posix two paths are the same exactly when they name the same place. */
  lemma PosixSamePath(platform: Platform, lower: string -> string, a: string, b: string)
    requires !platform.Win32?
    ensures SamePath(platform, lower, a, b) <==> PlaceOf(platform, a) == PlaceOf(platform, b)
  {
    TrimmedForm(platform, a);
    TrimmedForm(platform, b);
  }
}
