/** Exactly which paths normalize settles: those whose normal form normalizes to itself. */
module HostPathNormal {
  import opened HostPath
  import opened HostPathSegments
  import opened HostPathPlaces
  import opened HostPathLaws

  /** Whether normalizing once is enough. Only a win32 path without a root, whose first name reads as a drive, can fail:
      alone it is a bare drive (`./C:`, written `C:`, then `C:.`), or a drive and a dot before other names (`./C:./a`,
      written `C:.\a`, then `C:a`). */
  predicate Settles(platform: Platform, p: string) {
    Stable(platform, p) ||
      var names := PlaceOf(platform, p).segments;
      if |names[0]| == 2 then |names| > 1 || HasTrailingSep(platform, p)
      else |names| == 1 || names[0][2..] != "."
  }

  /** What is written for a place, with or without a trailing separator, is a normal form. */
  lemma RenderedIsNormal(platform: Platform, place: Place, t: string)
    requires CanonicalRoot(platform, place.canonical, place.absolute)
    requires AllClean(platform, place.segments) && Stacked(place.segments, place.absolute)
    requires Plain(platform, place)
    requires t == "" || (t == [SepOf(platform)] && !(place.segments == [] && place.absolute))
    ensures Normalize(platform, Render(platform, place) + t) == Render(platform, place) + t
  {
    RenderReparse(platform, place, t);
    NormalForm(platform, Render(platform, place) + t);
    TrailingIs(platform, place, t);
  }

  lemma TrailingIs(platform: Platform, place: Place, t: string)
    requires AllClean(platform, place.segments)
    requires t == "" || (t == [SepOf(platform)] && !(place.segments == [] && place.absolute))
    ensures HasTrailingSep(platform, Render(platform, place) + t) && !(place.segments == [] && place.absolute)
       <==> t != ""
  {
    TailShape(platform, place);
    var n, tail := Render(platform, place) + t, Tail(platform, place);
    if t == "" && tail != "" {
      assert n[|n| - 1] == tail[|tail| - 1];
    }
  }

  /** A first name that reads as a drive is followed by names only, no `..`. */
  lemma UnstableShape(p: string)
    requires !Stable(Win32, p)
    ensures var place := PlaceOf(Win32, p);
            && place.segments != [] && HasDrivePrefix(place.segments[0])
            && AllClean(Win32, place.segments)
            && (forall i | 0 <= i < |place.segments| :: place.segments[i] != "..")
            && Normalize(Win32, p) == JoinWith(place.segments, '\\') + (if HasTrailingSep(Win32, p) then "\\" else "")
  {
    PlaceShape(Win32, p);
    NormalForm(Win32, p);
    var place := PlaceOf(Win32, p);
    assert place.canonical == "" && place.segments[0] != "..";
    assert Render(Win32, place) == Tail(Win32, place);
  }

  /** A bare drive before other names, or before a trailing separator, is read back as a rooted drive. */
  lemma BareDriveFirst(names: seq<string>, t: string)
    requires names != [] && HasDrivePrefix(names[0]) && |names[0]| == 2 && AllClean(Win32, names)
    requires forall i | 0 <= i < |names| :: names[i] != ".."
    requires t == "" || t == "\\"
    ensures Normalize(Win32, JoinWith(names, '\\') + t) == JoinWith(names, '\\') + t <==> |names| > 1 || t != ""
  {
    var n := JoinWith(names, '\\') + t;
    var place := Place(names[0] + "\\", true, names[1..]);
    assert AllClean(Win32, names[1..]) && Stacked(names[1..], true);
    if |names| > 1 {
      RenderedIsNormal(Win32, place, t);
      assert n == Render(Win32, place) + t;
    } else if t != "" {
      RenderedIsNormal(Win32, place, "");
      assert n == Render(Win32, place) + "";
    } else {
      BareDriveNormal(names[0]);
      assert n == names[0];
    }
  }

  lemma BareDriveNormal(drive: string)
    requires BareDrive(drive)
    ensures Normalize(Win32, drive) == drive + "."
  {
    BareDrivePlace(drive);
    NormalForm(Win32, drive);
    assert Render(Win32, Place(drive, false, [])) == drive + ".";
  }

  lemma BareDrivePlace(drive: string)
    requires BareDrive(drive)
    ensures PlaceOf(Win32, drive) == Place(drive, false, []) && !HasTrailingSep(Win32, drive)
  {
    assert drive[2..] == "" && drive[..2] == drive;
    NoSepSegment(Win32, "");
  }

  /** A longer name that reads as a drive is read back as a drive and a name below its working directory. */
  lemma DriveAndNameFirst(names: seq<string>, t: string)
    requires names != [] && HasDrivePrefix(names[0]) && |names[0]| > 2 && AllClean(Win32, names)
    requires forall i | 0 <= i < |names| :: names[i] != ".."
    requires t == "" || t == "\\"
    ensures Normalize(Win32, JoinWith(names, '\\') + t) == JoinWith(names, '\\') + t
       <==> |names| == 1 || names[0][2..] != "."
  {
    var drive, name := names[0][..2], names[0][2..];
    assert names[0] == drive + name;
    if name != "." {
      DriveAndName(drive, name, names, t);
    } else if |names| == 1 {
      DriveAndDotAlone(drive, t);
    } else {
      DriveAndDot(drive, names[1..], t);
      DotDropped(drive, names, t);
    }
  }

  /** What is written with the dot is longer than without. */
  lemma DotDropped(drive: string, names: seq<string>, t: string)
    requires |names| > 1 && names[0] == drive + "."
    ensures JoinWith(names, '\\') + t == drive + ".\\" + JoinWith(names[1..], '\\') + t
    ensures JoinWith(names, '\\') + t != drive + JoinWith(names[1..], '\\') + t
  {
    var below := JoinWith(names[1..], '\\');
    assert JoinWith(names, '\\') == drive + ".\\" + below;
    assert |drive + ".\\" + below + t| == |drive + below + t| + 2;
  }

  lemma DriveAndDotAlone(drive: string, t: string)
    requires HasDrivePrefix(drive) && |drive| == 2
    requires t == "" || t == "\\"
    ensures Normalize(Win32, drive + "." + t) == drive + "." + t
  {
    RenderedIsNormal(Win32, Place(drive, false, []), t);
  }

  lemma DriveAndName(drive: string, name: string, names: seq<string>, t: string)
    requires HasDrivePrefix(drive) && |drive| == 2 && name != "" && name != "."
    requires names != [] && names[0] == drive + name && AllClean(Win32, names)
    requires forall i | 0 <= i < |names| :: names[i] != ".."
    requires t == "" || t == "\\"
    ensures Normalize(Win32, JoinWith(names, '\\') + t) == JoinWith(names, '\\') + t
  {
    var below := [name] + names[1..];
    DriveOff(drive, name, names);
    var place := Place(drive, false, below);
    RenderedIsNormal(Win32, place, t);
    assert Render(Win32, place) == JoinWith(names, '\\');
  }

  /** The names below the drive, once the first loses its drive letter. */
  lemma DriveOff(drive: string, name: string, names: seq<string>)
    requires name != "" && name != "."
    requires names != [] && names[0] == drive + name && AllClean(Win32, names)
    requires forall i | 0 <= i < |names| :: names[i] != ".."
    ensures var below := [name] + names[1..];
            && AllClean(Win32, below) && Stacked(below, false)
            && JoinWith(names, '\\') == drive + JoinWith(below, '\\')
  {
    var below := [name] + names[1..];
    assert below[1..] == names[1..];
    CleanSuffix(drive, name);
    assert forall i | 0 < i < |below| :: below[i] == names[i];
    JoinFirst(drive, name, names[1..]);
    assert names == [drive + name] + names[1..];
  }

  lemma CleanSuffix(drive: string, name: string)
    requires name != "" && name != "." && Clean(Win32, drive + name)
    ensures Clean(Win32, name)
  {
    forall k | 0 <= k < |name| ensures !IsSep(Win32, name[k]) {
      assert (drive + name)[|drive| + k] == name[k];
    }
  }

  lemma JoinFirst(drive: string, name: string, rest: seq<string>)
    ensures JoinWith([drive + name] + rest, '\\') == drive + JoinWith([name] + rest, '\\')
  {
    if rest == [] {
      assert [drive + name] + rest == [drive + name] && [name] + rest == [name];
    } else {
      assert ([drive + name] + rest)[1..] == rest && ([name] + rest)[1..] == rest;
    }
  }

  /** A drive and a dot before other names lose the dot. */
  lemma DriveAndDot(drive: string, names: seq<string>, t: string)
    requires HasDrivePrefix(drive) && |drive| == 2
    requires names != [] && AllClean(Win32, names)
    requires forall i | 0 <= i < |names| :: names[i] != ".."
    requires t == "" || t == "\\"
    ensures Normalize(Win32, drive + ".\\" + JoinWith(names, '\\') + t) == drive + JoinWith(names, '\\') + t
  {
    var n := drive + ".\\" + JoinWith(names, '\\') + t;
    DriveAndDotSegments(drive, names, t);
    ResolvedFixed(names, false);
    NormalForm(Win32, n);
    NotSepEnd(names);
    EndsLike(drive + ".\\", JoinWith(names, '\\'), t);
  }

  lemma EndsLike(head: string, below: string, t: string)
    requires below != "" && (t == "" || t == "\\")
    ensures HasTrailingSep(Win32, head + below + t) <==> t != "" || HasTrailingSep(Win32, below)
  {
    var n := head + below + t;
    assert n[|n| - 1] == if t == "" then below[|below| - 1] else '\\';
  }

  lemma NotSepEnd(names: seq<string>)
    requires names != [] && AllClean(Win32, names)
    ensures JoinWith(names, '\\') != "" && !HasTrailingSep(Win32, JoinWith(names, '\\'))
  {
    JoinEnds(Win32, names);
    assert Clean(Win32, names[0]);
  }

  lemma DriveAndDotSegments(drive: string, names: seq<string>, t: string)
    requires HasDrivePrefix(drive) && |drive| == 2 && AllClean(Win32, names)
    requires t == "" || t == "\\"
    ensures var n := drive + ".\\" + JoinWith(names, '\\') + t;
            ParseRoot(Win32, n) == ParsedRoot(drive, drive, false) && Segments(Win32, n) == names
  {
    var rest := JoinWith(names, '\\') + t;
    assert drive + ".\\" + JoinWith(names, '\\') + t == drive + (".\\" + rest);
    DriveThen(drive, ".\\" + rest);
    DotFirst(rest);
    JoinedSegments(names, t);
  }

  lemma DriveThen(drive: string, rest: string)
    requires BareDrive(drive) && rest != "" && !IsSep(Win32, rest[0])
    ensures ParseRoot(Win32, drive + rest) == ParsedRoot(drive, drive, false)
    ensures Segments(Win32, drive + rest) == SplitSegments(Win32, rest)
  {
    var p := drive + rest;
    assert p[..2] == drive && p[2..] == rest && p[2] == rest[0];
  }

  lemma DotFirst(rest: string)
    ensures SplitSegments(Win32, ".\\" + rest) == SplitSegments(Win32, rest)
  {
    assert ".\\" + rest == "." + ['\\'] + rest;
    SegmentsSplit(Win32, ".", '\\', rest);
    NoSepSegment(Win32, ".");
  }

  lemma JoinedSegments(names: seq<string>, t: string)
    requires AllClean(Win32, names)
    requires t == "" || t == "\\"
    ensures SplitSegments(Win32, JoinWith(names, '\\') + t) == names
  {
    var below := JoinWith(names, '\\');
    JoinThenSplit(Win32, names);
    if t == "" {
      assert below + t == below;
    } else {
      assert below + t == below + ['\\'] + "";
      SegmentsSplit(Win32, below, '\\', "");
      NoSepSegment(Win32, "");
    }
  }

  /** normalize is idempotent on a path exactly when it settles it. */
  lemma NormalizeIdempotentExact(platform: Platform, p: string)
    ensures Normalize(platform, Normalize(platform, p)) == Normalize(platform, p) <==> Settles(platform, p)
  {
    if Stable(platform, p) {
      NormalizeIdempotent(platform, p);
    } else {
      UnstableShape(p);
      var names := PlaceOf(platform, p).segments;
      var t := if HasTrailingSep(platform, p) then "\\" else "";
      if |names[0]| == 2 {
        BareDriveFirst(names, t);
      } else {
        DriveAndNameFirst(names, t);
      }
    }
  }

  // ---- The input ----

  lemma DotDriveSegments(drive: string)
    requires BareDrive(drive)
    ensures var p := "./" + drive;
            ParseRoot(Win32, p) == ParsedRoot("", "", false) && Segments(Win32, p) == [drive]
  {
    var p := "./" + drive;
    assert p == "." + ['/'] + drive && p[0..] == p;
    SegmentsSplit(Win32, ".", '/', drive);
    NoSepSegment(Win32, ".");
    NoSepSegment(Win32, drive);
    assert [] + [drive] == [drive];
  }

  lemma DotDrivePlace(drive: string)
    requires BareDrive(drive)
    ensures PlaceOf(Win32, "./" + drive) == Place("", false, [drive])
  {
    DotDriveSegments(drive);
    ResolvedSnoc([], drive, false);
    assert [] + [drive] == [drive];
  }

  /** The path that is not stable: `./C:` normalizes to the drive `C:`, and that to `C:.`. */
  lemma DotDriveIsUnstable(drive: string)
    requires BareDrive(drive)
    ensures Normalize(Win32, "./" + drive) == drive && !Stable(Win32, "./" + drive)
    ensures Normalize(Win32, drive) == drive + "."
  {
    DotDrivePlace(drive);
    NormalForm(Win32, "./" + drive);
    DotDriveTrailing(drive);
    assert Render(Win32, Place("", false, [drive])) == drive;
    BareDriveNormal(drive);
  }

  lemma DotDriveTrailing(drive: string)
    requires BareDrive(drive)
    ensures !HasTrailingSep(Win32, "./" + drive)
  {
    var p := "./" + drive;
    assert p[|p| - 1] == drive[1];
  }
}
