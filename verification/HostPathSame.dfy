/** When two win32 paths are the same, and when relative between them is empty. */
module HostPathSame {
  import opened HostPath
  import opened HostPathSegments
  import opened HostPathPlaces
  import opened HostPathLaws
  import opened HostPathRelative

  // ---- Texts that fold alike ----

  predicate NoBackslashes(pieces: seq<string>) {
    forall i | 0 <= i < |pieces| :: NoBackslash(pieces[i])
  }

  lemma JoinCons(a: seq<string>)
    requires |a| > 1
    ensures JoinWith(a, '\\') == Slashed(a[0], JoinWith(a[1..], '\\'))
  {
  }

  lemma OnePieceDiffers(lower: string -> string, one: string, x: string, y: string)
    requires CaseFold(lower) && NoBackslash(one)
    ensures lower(one) != lower(Slashed(x, y))
  {
    assert '\\' in Slashed(lower(x), lower(y));
  }

  lemma SlashedAlike(lower: string -> string, a: string, x: string, b: string, y: string)
    requires CaseFold(lower) && NoBackslash(a) && NoBackslash(b)
    ensures lower(Slashed(a, x)) == lower(Slashed(b, y)) <==> lower(a) == lower(b) && lower(x) == lower(y)
  {
    if lower(Slashed(a, x)) == lower(Slashed(b, y)) {
      FirstBackslash(lower(a), lower(x), lower(b), lower(y));
    }
  }

  lemma FoldAlikeCons(lower: string -> string, a: seq<string>, b: seq<string>)
    requires a != [] && b != []
    ensures FoldAlike(Win32, lower, a, b) <==> lower(a[0]) == lower(b[0]) && FoldAlike(Win32, lower, a[1..], b[1..])
  {
    if lower(a[0]) == lower(b[0]) && FoldAlike(Win32, lower, a[1..], b[1..]) {
      forall i | 0 <= i < |a| ensures lower(a[i]) == lower(b[i]) {
        if i > 0 {
          assert a[i] == a[1..][i - 1] && b[i] == b[1..][i - 1];
        }
      }
    }
  }

  /** Joined texts fold alike exactly when their pieces do. */
  lemma {:induction false} JoinedAlike(lower: string -> string, a: seq<string>, b: seq<string>)
    requires CaseFold(lower) && a != [] && b != [] && NoBackslashes(a) && NoBackslashes(b)
    ensures lower(JoinWith(a, '\\')) == lower(JoinWith(b, '\\')) <==> FoldAlike(Win32, lower, a, b)
  {
    if |a| > 1 && |b| > 1 {
      JoinCons(a);
      JoinCons(b);
      SlashedAlike(lower, a[0], JoinWith(a[1..], '\\'), b[0], JoinWith(b[1..], '\\'));
      JoinedAlike(lower, a[1..], b[1..]);
      FoldAlikeCons(lower, a, b);
    } else if |a| > 1 {
      JoinCons(a);
      OnePieceDiffers(lower, b[0], a[0], JoinWith(a[1..], '\\'));
    } else if |b| > 1 {
      JoinCons(b);
      OnePieceDiffers(lower, a[0], b[0], JoinWith(b[1..], '\\'));
    }
  }

  lemma CleanNoBackslash(segments: seq<string>)
    requires AllClean(Win32, segments)
    ensures NoBackslashes(segments)
  {
    forall i | 0 <= i < |segments| ensures NoBackslash(segments[i]) {
      assert Clean(Win32, segments[i]);
    }
  }

  lemma JoinedNotEmpty(lower: string -> string, segments: seq<string>)
    requires CaseFold(lower) && AllClean(Win32, segments) && segments != []
    ensures lower(JoinWith(segments, '\\')) != ""
  {
    JoinEnds(Win32, segments);
    assert Clean(Win32, segments[0]);
  }

  /** Clean segments, written out, fold alike exactly when they do one by one. */
  lemma SegmentsAlike(lower: string -> string, a: seq<string>, b: seq<string>)
    requires CaseFold(lower) && AllClean(Win32, a) && AllClean(Win32, b)
    ensures lower(JoinWith(a, '\\')) == lower(JoinWith(b, '\\')) <==> FoldAlike(Win32, lower, a, b)
  {
    if a != [] && b != [] {
      CleanNoBackslash(a);
      CleanNoBackslash(b);
      JoinedAlike(lower, a, b);
    } else if a != [] {
      JoinedNotEmpty(lower, a);
    } else if b != [] {
      JoinedNotEmpty(lower, b);
    }
  }

  // ---- Absolute paths ----

  /** Roots that fold alike, and segments that do one by one. */
  predicate PlacesAlike(lower: string -> string, a: Place, b: Place) {
    && a.absolute == b.absolute && lower(a.canonical) == lower(b.canonical)
    && FoldAlike(Win32, lower, a.segments, b.segments)
  }

  lemma PrefixCancels(p: string, x: string, y: string)
    requires p + x == p + y
    ensures x == y
  {
    assert (p + x)[|p|..] == x && (p + y)[|p|..] == y;
  }

  /** Under roots that fold alike, spellings fold alike only when what follows the roots does. */
  lemma TailsAlike(lower: string -> string, ca: string, ta: string, cb: string, tb: string)
    requires CaseFold(lower) && CanonicalRoot(Win32, ca, true) && CanonicalRoot(Win32, cb, true)
    requires lower(ca) == lower(cb) && lower(ca + ta) == lower(cb + tb)
    ensures lower(ta) == lower(tb)
  {
    FoldStem(Win32, lower, ca, cb);
    RootSplit(Win32, ca, ta);
    RootSplit(Win32, cb, tb);
    FoldSep(Win32, lower, RootStem(ca), ta);
    FoldSep(Win32, lower, RootStem(cb), tb);
    PrefixCancels(lower(RootStem(ca)) + ['\\'], lower(ta), lower(tb));
  }

  lemma RendersAlike(lower: string -> string, a: Place, b: Place)
    requires CaseFold(lower) && a.absolute && b.absolute
    requires CanonicalRoot(Win32, a.canonical, true) && AllClean(Win32, a.segments)
    requires CanonicalRoot(Win32, b.canonical, true) && AllClean(Win32, b.segments)
    ensures lower(Render(Win32, a)) == lower(Render(Win32, b)) <==> PlacesAlike(lower, a, b)
  {
    if PlacesAlike(lower, a, b) {
      FoldRender(Win32, lower, a, b);
    }
    if lower(Render(Win32, a)) == lower(Render(Win32, b)) {
      RenderFixesRoot(lower, a, b);
      TailsAlike(lower, a.canonical, JoinWith(a.segments, '\\'), b.canonical, JoinWith(b.segments, '\\'));
      SegmentsAlike(lower, a.segments, b.segments);
    }
  }

  /** Two absolute win32 paths are the same exactly when their roots and their segments fold alike. */
  lemma AbsoluteSamePath(lower: string -> string, a: string, b: string)
    requires CaseFold(lower) && ParseRoot(Win32, a).absolute && ParseRoot(Win32, b).absolute
    ensures SamePath(Win32, lower, a, b) <==> PlacesAlike(lower, PlaceOf(Win32, a), PlaceOf(Win32, b))
  {
    PlaceShape(Win32, a);
    PlaceShape(Win32, b);
    TrimmedForm(Win32, a);
    TrimmedForm(Win32, b);
    RendersAlike(lower, PlaceOf(Win32, a), PlaceOf(Win32, b));
  }

  // ---- Every stable path ----

  /** The spelling of a place, cut at its backslashes: what a root holds before its last backslash, then the segments;
      a path without an absolute root begins with its drive, if any, and its first segment in one piece. */
  function Pieces(place: Place): seq<string> {
    if place.absolute then
      RootPieces(place.canonical) + (if place.segments == [] then [""] else place.segments)
    else
      var names := if place.segments == [] then ["."] else place.segments;
      [place.canonical + names[0]] + names[1..]
  }

  function RootPieces(canonical: string): seq<string> {
    if |canonical| >= 2 && canonical[..2] == "\\\\" then ["", ""] + RootNames(canonical)
    else if canonical == "" then [] else [RootStem(canonical)]
  }

  lemma {:induction false} JoinAppend(a: seq<string>, b: seq<string>)
    requires a != [] && b != []
    ensures JoinWith(a + b, '\\') == Slashed(JoinWith(a, '\\'), JoinWith(b, '\\'))
  {
    if |a| == 1 {
      assert (a + b)[1..] == b;
    } else {
      assert (a + b)[1..] == a[1..] + b;
      JoinAppend(a[1..], b);
      JoinCons(a);
      SlashedAssoc(a[0], JoinWith(a[1..], '\\'), JoinWith(b, '\\'));
    }
  }

  lemma SlashedAssoc(x: string, y: string, z: string)
    ensures Slashed(x, Slashed(y, z)) == Slashed(Slashed(x, y), z)
  {
  }

  lemma UncRootPieces(server: string, share: string)
    requires IsName(server) && IsName(share)
    ensures var pieces := RootPieces(UncRoot(server, share));
            && pieces != [] && NoBackslashes(pieces) && Slashed(JoinWith(pieces, '\\'), "") == UncRoot(server, share)
  {
    var root := UncRoot(server, share);
    UncRootNames(server, share);
    NameNoBackslash(server);
    NameNoBackslash(share);
    assert root[..2] == "\\\\";
    assert RootPieces(root) == ["", "", server, share];
    FourPieces(server, share);
  }

  lemma FourPieces(server: string, share: string)
    ensures Slashed(JoinWith(["", "", server, share], '\\'), "") == UncRoot(server, share)
  {
    var all := ["", "", server, share];
    assert all[1..] == ["", server, share] && all[1..][1..] == [server, share] && [server, share][1..] == [share];
    assert JoinWith([share], '\\') == share;
    assert JoinWith([server, share], '\\') == server + "\\" + share;
    assert JoinWith(["", server, share], '\\') == "\\" + (server + "\\" + share);
  }

  lemma ShortRootPieces(canonical: string)
    requires canonical != "" && ShortRoot(canonical, RootStem(canonical))
    requires |canonical| < 2 || canonical[..2] != "\\\\"
    ensures var pieces := RootPieces(canonical);
            pieces != [] && NoBackslashes(pieces) && Slashed(JoinWith(pieces, '\\'), "") == canonical
  {
  }

  lemma RootPiecesJoin(canonical: string)
    requires CanonicalRoot(Win32, canonical, true)
    ensures var pieces := RootPieces(canonical);
            pieces != [] && NoBackslashes(pieces) && Slashed(JoinWith(pieces, '\\'), "") == canonical
  {
    if server, share :| IsUncRoot(server, share, canonical) {
      UncRootPieces(server, share);
    } else {
      ShortOrUnc(canonical);
      ShortRootPieces(canonical);
    }
  }

  lemma AbsolutePieces(place: Place)
    requires place.absolute && CanonicalRoot(Win32, place.canonical, true) && AllClean(Win32, place.segments)
    ensures var pieces := Pieces(place);
            pieces != [] && NoBackslashes(pieces) && JoinWith(pieces, '\\') == Render(Win32, place)
  {
    var names := if place.segments == [] then [""] else place.segments;
    var root := RootPieces(place.canonical);
    RootPiecesJoin(place.canonical);
    CleanNoBackslash(place.segments);
    JoinAppend(root, names);
    SlashedRoot(JoinWith(root, '\\'), JoinWith(names, '\\'), place.canonical);
    BothNoBackslash(root, names);
  }

  lemma SlashedRoot(stem: string, tail: string, canonical: string)
    requires Slashed(stem, "") == canonical
    ensures Slashed(stem, tail) == canonical + tail
  {
    assert Slashed(stem, tail) == Slashed(stem, "") + tail;
  }

  lemma BothNoBackslash(a: seq<string>, b: seq<string>)
    requires NoBackslashes(a) && NoBackslashes(b)
    ensures NoBackslashes(a + b)
  {
  }

  lemma RelativePieces(place: Place)
    requires !place.absolute && CanonicalRoot(Win32, place.canonical, false) && AllClean(Win32, place.segments)
    ensures var pieces := Pieces(place);
            pieces != [] && NoBackslashes(pieces) && JoinWith(pieces, '\\') == Render(Win32, place)
  {
    var names := if place.segments == [] then ["."] else place.segments;
    CleanNoBackslash(place.segments);
    assert NoBackslash(place.canonical);
    FirstGrows(place.canonical, names);
  }

  lemma FirstGrows(head: string, names: seq<string>)
    requires names != [] && NoBackslash(head) && NoBackslashes(names)
    ensures var pieces := [head + names[0]] + names[1..];
            NoBackslashes(pieces) && JoinWith(pieces, '\\') == head + JoinWith(names, '\\')
  {
    var pieces := [head + names[0]] + names[1..];
    assert forall i | 0 < i < |pieces| :: pieces[i] == names[i];
    JoinedFirst(head, names[0], names[1..]);
    assert names == [names[0]] + names[1..];
  }

  lemma JoinedFirst(head: string, name: string, rest: seq<string>)
    ensures JoinWith([head + name] + rest, '\\') == head + JoinWith([name] + rest, '\\')
  {
    assert ([head + name] + rest)[1..] == rest && ([name] + rest)[1..] == rest;
  }

  lemma PiecesJoin(p: string)
    ensures var place := PlaceOf(Win32, p);
            var pieces := Pieces(place);
            pieces != [] && NoBackslashes(pieces) && JoinWith(pieces, '\\') == Render(Win32, place)
  {
    PlaceShape(Win32, p);
    if PlaceOf(Win32, p).absolute {
      AbsolutePieces(PlaceOf(Win32, p));
    } else {
      RelativePieces(PlaceOf(Win32, p));
    }
  }

  /** Two stable win32 paths are the same exactly when the pieces of their spellings fold alike. */
  lemma StableSamePath(lower: string -> string, a: string, b: string)
    requires CaseFold(lower) && Stable(Win32, a) && Stable(Win32, b)
    ensures SamePath(Win32, lower, a, b)
       <==> FoldAlike(Win32, lower, Pieces(PlaceOf(Win32, a)), Pieces(PlaceOf(Win32, b)))
  {
    TrimmedForm(Win32, a);
    TrimmedForm(Win32, b);
    PiecesJoin(a);
    PiecesJoin(b);
    JoinedAlike(lower, Pieces(PlaceOf(Win32, a)), Pieces(PlaceOf(Win32, b)));
  }

  // ---- When relative is empty ----

  lemma KeysOfAlike(lower: string -> string, a: Place, b: Place)
    requires CaseFold(lower) && a.absolute == b.absolute && lower(a.canonical) == lower(b.canonical)
    requires CanonicalRoot(Win32, a.canonical, a.absolute) && CanonicalRoot(Win32, b.canonical, b.absolute)
    ensures SameRoot(Win32, lower, ParsedRoot(a.canonical, a.canonical, a.absolute),
                     ParsedRoot(b.canonical, b.canonical, b.absolute))
    ensures FoldAlike(Win32, lower, RootNames(a.canonical), RootNames(b.canonical))
  {
    if a.absolute {
      RootsAlike(Win32, lower, a.canonical, b.canonical);
    } else {
      RelativeRootHasNoNames(a.canonical);
      RelativeRootHasNoNames(b.canonical);
    }
  }

  lemma RelativeRootHasNoNames(canonical: string)
    requires CanonicalRoot(Win32, canonical, false)
    ensures RootNames(canonical) == [] && RootKey(ParsedRoot(canonical, canonical, false)) == canonical
  {
  }

  lemma EmptyIsAlike(platform: Platform, lower: string -> string, fa: seq<string>, fb: seq<string>)
    ensures RelativeSegments(platform, lower, fa, fb) == [] <==> FoldAlike(platform, lower, fa, fb)
  {
    var c := CommonPrefix(platform, lower, fa, fb);
    RelativeIs(platform, lower, fa, fb, c);
    CommonShape(platform, lower, fa, fb);
  }

  predicate NonEmptyAll(pieces: seq<string>) {
    forall i | 0 <= i < |pieces| :: pieces[i] != ""
  }

  lemma JoinedEmpty(pieces: seq<string>)
    requires NonEmptyAll(pieces)
    ensures JoinWith(pieces, '\\') == "" <==> pieces == []
  {
    if pieces != [] {
      assert pieces[0] != "";
    }
  }

  lemma RelativeNonEmpty(lower: string -> string, fa: seq<string>, fb: seq<string>)
    requires NonEmptyAll(fb)
    ensures NonEmptyAll(RelativeSegments(Win32, lower, fa, fb))
  {
    var c := CommonPrefix(Win32, lower, fa, fb);
    RelativeIs(Win32, lower, fa, fb, c);
    var r := RelativeSegments(Win32, lower, fa, fb);
    forall i | 0 <= i < |r| ensures r[i] != "" {
      if i >= |fa| - c {
        assert r[i] == fb[c..][i - (|fa| - c)];
      }
    }
  }

  lemma NamesNonEmpty(p: string)
    ensures NonEmptyAll(RootNames(PlaceOf(Win32, p).canonical) + PlaceOf(Win32, p).segments)
  {
    var place := PlaceOf(Win32, p);
    PlaceShape(Win32, p);
    RootNamesNonEmpty(place.canonical, place.absolute);
    forall i | 0 <= i < |place.segments| ensures place.segments[i] != "" {
      assert Clean(Win32, place.segments[i]);
    }
  }

  lemma RootNamesNonEmpty(canonical: string, absolute: bool)
    requires CanonicalRoot(Win32, canonical, absolute)
    ensures NonEmptyAll(RootNames(canonical))
  {
    if server, share :| IsUncRoot(server, share, canonical) {
      UncRootNames(server, share);
    }
  }

  /** What relative compares of a path: the key of its root, and the names of its root before its segments. */
  lemma RelativeIsJoined(lower: string -> string, from: string, to: string)
    requires Stable(Win32, from) && Stable(Win32, to)
    ensures var a, b := PlaceOf(Win32, from), PlaceOf(Win32, to);
            RelativePath(Win32, lower, from, to)
            == if !SameRoot(Win32, lower, ParsedRoot(a.canonical, a.canonical, a.absolute),
                            ParsedRoot(b.canonical, b.canonical, b.absolute))
               then Render(Win32, b)
               else JoinWith(RelativeSegments(Win32, lower, RootNames(a.canonical) + a.segments,
                                              RootNames(b.canonical) + b.segments), '\\')
  {
    TrimmedForm(Win32, from);
    TrimmedForm(Win32, to);
    SegmentsOfTrimmed(Win32, from);
    SegmentsOfTrimmed(Win32, to);
  }

  lemma RenderNonEmpty(p: string)
    ensures Render(Win32, PlaceOf(Win32, p)) != ""
  {
    var place := PlaceOf(Win32, p);
    PlaceShape(Win32, p);
    TailShape(Win32, place);
    if place.absolute {
      AbsoluteRootEnds(Win32, place.canonical, true);
    }
  }

  predicate IsUncText(canonical: string) {
    |canonical| >= 2 && canonical[..2] == "\\\\"
  }

  lemma PlainKey(canonical: string, absolute: bool)
    requires CanonicalRoot(Win32, canonical, absolute) && !IsUncText(canonical)
    ensures RootKey(ParsedRoot(canonical, canonical, absolute)) == canonical && RootNames(canonical) == []
  {
  }

  /** The key of a share is never that of another root. */
  lemma ShareKeyAlone(lower: string -> string, server: string, share: string, canonical: string)
    requires CaseFold(lower) && IsName(server) && IsName(share)
    requires CanonicalRoot(Win32, canonical, true) && !IsUncText(canonical)
    ensures lower("\\\\" + server + "\\") != lower(canonical)
  {
    NotShareText(canonical);
    var head, rest := RootStem(canonical), Slashed("", Slashed(server, ""));
    assert canonical == Slashed(head, "") && NoBackslash(head);
    assert "\\\\" + server + "\\" == Slashed("", rest);
    SlashedAlike(lower, "", rest, head, "");
    assert lower(rest) == Slashed(lower(""), lower(Slashed(server, ""))) && lower("") == "";
  }

  lemma NotShareText(canonical: string)
    requires CanonicalRoot(Win32, canonical, true) && !IsUncText(canonical)
    ensures canonical != "" && ShortRoot(canonical, RootStem(canonical))
  {
    ShortOrUnc(canonical);
    if server, share :| IsUncRoot(server, share, canonical) {
      assert false;
    }
  }

  lemma UncTextIs(canonical: string, absolute: bool)
    requires CanonicalRoot(Win32, canonical, absolute) && IsUncText(canonical)
    ensures absolute && exists server, share :: IsUncRoot(server, share, canonical)
  {
  }

  lemma SharesAlike(lower: string -> string, s1: string, h1: string, a: seq<string>, s2: string, h2: string,
                    b: seq<string>)
    requires CaseFold(lower) && IsName(s1) && IsName(h1) && IsName(s2) && IsName(h2)
    requires FoldAlike(Win32, lower, [s1, h1] + a, [s2, h2] + b)
    ensures lower(UncRoot(s1, h1)) == lower(UncRoot(s2, h2)) && FoldAlike(Win32, lower, a, b)
  {
    var x, y := [s1, h1] + a, [s2, h2] + b;
    assert lower(x[0]) == lower(y[0]) && lower(x[1]) == lower(y[1]);
    UncFolded(lower, s1, h1);
    UncFolded(lower, s2, h2);
    forall i | 0 <= i < |a| ensures lower(a[i]) == lower(b[i]) {
      assert a[i] == x[i + 2] && b[i] == y[i + 2];
    }
  }

  /** Keys and names that fold alike come from roots and segments that do. */
  lemma NamesAlike(lower: string -> string, a: Place, b: Place)
    requires CaseFold(lower)
    requires CanonicalRoot(Win32, a.canonical, a.absolute) && CanonicalRoot(Win32, b.canonical, b.absolute)
    requires SameRoot(Win32, lower, ParsedRoot(a.canonical, a.canonical, a.absolute),
                      ParsedRoot(b.canonical, b.canonical, b.absolute))
    requires FoldAlike(Win32, lower, RootNames(a.canonical) + a.segments, RootNames(b.canonical) + b.segments)
    ensures PlacesAlike(lower, a, b)
  {
    if IsUncText(a.canonical) {
      UncTextIs(a.canonical, a.absolute);
      var s1, h1 :| IsUncRoot(s1, h1, a.canonical);
      UncRootKey(s1, h1);
      if IsUncText(b.canonical) {
        UncTextIs(b.canonical, b.absolute);
        var s2, h2 :| IsUncRoot(s2, h2, b.canonical);
        UncRootNames(s1, h1);
        UncRootNames(s2, h2);
        SharesAlike(lower, s1, h1, a.segments, s2, h2, b.segments);
      } else {
        PlainKey(b.canonical, b.absolute);
        ShareKeyAlone(lower, s1, h1, b.canonical);
      }
    } else if IsUncText(b.canonical) {
      UncTextIs(b.canonical, b.absolute);
      var s2, h2 :| IsUncRoot(s2, h2, b.canonical);
      UncRootKey(s2, h2);
      PlainKey(a.canonical, a.absolute);
      ShareKeyAlone(lower, s2, h2, a.canonical);
    } else {
      PlainKey(a.canonical, a.absolute);
      PlainKey(b.canonical, b.absolute);
      assert [] + a.segments == a.segments && [] + b.segments == b.segments;
    }
  }

  lemma AlikeAppend(lower: string -> string, na: seq<string>, a: seq<string>, nb: seq<string>, b: seq<string>)
    requires FoldAlike(Win32, lower, na, nb) && FoldAlike(Win32, lower, a, b)
    ensures FoldAlike(Win32, lower, na + a, nb + b)
  {
  }

  /** Between stable win32 paths relative is empty exactly when their roots and their segments fold alike. */
  lemma RelativeEmpty(lower: string -> string, from: string, to: string)
    requires CaseFold(lower) && Stable(Win32, from) && Stable(Win32, to)
    ensures RelativePath(Win32, lower, from, to) == "" <==> PlacesAlike(lower, PlaceOf(Win32, from), PlaceOf(Win32, to))
  {
    var a, b := PlaceOf(Win32, from), PlaceOf(Win32, to);
    PlaceShape(Win32, from);
    PlaceShape(Win32, to);
    RenderNonEmpty(to);
    NamesNonEmpty(to);
    RelativeIsJoined(lower, from, to);
    var na, nb := RootNames(a.canonical) + a.segments, RootNames(b.canonical) + b.segments;
    RelativeNonEmpty(lower, na, nb);
    JoinedEmpty(RelativeSegments(Win32, lower, na, nb));
    EmptyIsAlike(Win32, lower, na, nb);
    if PlacesAlike(lower, a, b) {
      KeysOfAlike(lower, a, b);
      AlikeAppend(lower, RootNames(a.canonical), a.segments, RootNames(b.canonical), b.segments);
    } else if RelativePath(Win32, lower, from, to) == "" {
      NamesAlike(lower, a, b);
    }
  }

  /** So between absolute win32 paths relative is empty exactly when they are the same. */
  lemma AbsoluteRelativeEmpty(lower: string -> string, from: string, to: string)
    requires CaseFold(lower) && ParseRoot(Win32, from).absolute && ParseRoot(Win32, to).absolute
    ensures RelativePath(Win32, lower, from, to) == "" <==> SamePath(Win32, lower, from, to)
  {
    ParsedRootCanonical(Win32, from);
    ParsedRootCanonical(Win32, to);
    RelativeEmpty(lower, from, to);
    AbsoluteSamePath(lower, from, to);
  }

  /** Paths of different kinds can be the same: a name that the host lower-cases to a drive, and a drive. */
  lemma FoldsToDrive(lower: string -> string, name: string, drive: string)
    requires CaseFold(lower) && lower(name) == lower(drive) && BareDrive(drive)
    requires Clean(Win32, name) && name != ".." && !HasDrivePrefix(name)
    ensures var a, b := name + "\\x", drive + "\\x";
            SamePath(Win32, lower, a, b) && !ParseRoot(Win32, a).absolute && ParseRoot(Win32, b).absolute
  {
    RootlessTwo(name);
    DriveOne(drive);
    TrimmedForm(Win32, name + "\\x");
    TrimmedForm(Win32, drive + "\\x");
    assert name + "\\x" == Slashed(name, "x") && drive + "\\x" == Slashed(drive, "x");
  }

  lemma TwoResolved(name: string, absolute: bool)
    requires name != ".."
    ensures Resolved([name, "x"], absolute) == [name, "x"] && Resolved(["x"], absolute) == ["x"]
  {
    assert [name, "x"] == [name] + ["x"] && [name] == [] + [name] && ["x"] == [] + ["x"];
    ResolvedSnoc([], name, absolute);
    ResolvedSnoc([], "x", absolute);
    ResolvedSnoc([name], "x", absolute);
  }

  lemma RootlessTwo(name: string)
    requires Clean(Win32, name) && name != ".." && !HasDrivePrefix(name)
    ensures var p := name + "\\x";
            PlaceOf(Win32, p) == Place("", false, [name, "x"]) && Stable(Win32, p)
              && Render(Win32, PlaceOf(Win32, p)) == p
  {
    var p := name + "\\x";
    RootlessRoot(name);
    TwoSegments(name);
    assert p[0..] == p;
    TwoResolved(name, false);
    TwoWritten(name);
  }

  lemma TwoWritten(name: string)
    ensures Render(Win32, Place("", false, [name, "x"])) == name + "\\x"
  {
    assert [name, "x"][1..] == ["x"];
    assert JoinWith(["x"], '\\') == "x";
    assert JoinWith([name, "x"], '\\') == name + "\\x";
  }

  lemma TwoSegments(name: string)
    requires Clean(Win32, name)
    ensures SplitSegments(Win32, name + "\\x") == [name, "x"]
  {
    assert name + "\\x" == name + ['\\'] + "x";
    SegmentsSplit(Win32, name, '\\', "x");
    NoSepSegment(Win32, name);
    NoSepSegment(Win32, "x");
    assert [name] + ["x"] == [name, "x"];
  }

  lemma RootlessRoot(name: string)
    requires Clean(Win32, name) && !HasDrivePrefix(name)
    ensures ParseRoot(Win32, name + "\\x") == ParsedRoot("", "", false)
  {
    var p := name + "\\x";
    assert p[0] == name[0] && (|name| > 1 ==> p[1] == name[1]) && (|name| == 1 ==> p[1] == '\\');
  }

  lemma DriveOne(drive: string)
    requires BareDrive(drive)
    ensures var p := drive + "\\x";
            && ParseRoot(Win32, p).absolute && PlaceOf(Win32, p) == Place(drive + "\\", true, ["x"])
            && Render(Win32, PlaceOf(Win32, p)) == p
  {
    var p := drive + "\\x";
    DriveOneRoot(drive);
    assert p[3..] == "x";
    NoSepSegment(Win32, "x");
    TwoResolved("", true);
    assert Render(Win32, Place(drive + "\\", true, ["x"])) == p;
  }

  lemma DriveOneRoot(drive: string)
    requires BareDrive(drive)
    ensures ParseRoot(Win32, drive + "\\x") == ParsedRoot(drive + "\\", drive + "\\", true)
  {
    var p := drive + "\\x";
    assert MatchUnc(p).NoUnc? && p[..3] == drive + "\\" && p[..2] == drive;
  }

  // ---- Such a name ----

  const KELVIN: char := '\U{212A}'

  /** Lower-casing of the Latin capitals and of the Kelvin sign, character by character. */
  function FoldChar(c: char): char {
    if 'A' <= c <= 'Z' then ((c as int) + 32) as char else if c == KELVIN then 'k' else c
  }

  function FoldText(s: string): (r: string)
    ensures |r| == |s|
  {
    if s == "" then "" else [FoldChar(s[0])] + FoldText(s[1..])
  }

  lemma {:induction false} FoldAppend(a: string, b: string)
    ensures FoldText(a + b) == FoldText(a) + FoldText(b)
  {
    if a == "" {
      assert a + b == b;
    } else {
      assert (a + b)[1..] == a[1..] + b;
      FoldAppend(a[1..], b);
    }
  }

  lemma FoldSlashed(x: string, y: string)
    ensures FoldText(Slashed(x, y)) == Slashed(FoldText(x), FoldText(y))
  {
    FoldAppend(x + "\\", y);
    FoldAppend(x, "\\");
    assert FoldText("\\") == "\\";
  }

  lemma {:induction false} FoldMakesNone(x: string)
    requires NoBackslash(x)
    ensures NoBackslash(FoldText(x))
  {
    if x != "" {
      assert x[0] in x && NoBackslash(x[1..]);
      FoldMakesNone(x[1..]);
    }
  }

  lemma FoldTextIsCaseFold()
    ensures CaseFold(FoldText)
  {
    forall x: string, y: string ensures FoldText(Slashed(x, y)) == Slashed(FoldText(x), FoldText(y)) {
      FoldSlashed(x, y);
    }
    forall x: string | NoBackslash(x) ensures NoBackslash(FoldText(x)) {
      FoldMakesNone(x);
    }
  }

  lemma FoldTwo(a: char, b: char)
    ensures FoldText([a, b]) == [FoldChar(a), FoldChar(b)]
  {
    assert [a, b][1..] == [b] && [b][1..] == [];
    assert FoldText([b]) == [FoldChar(b)] + FoldText([]);
  }

  /** The Kelvin sign and a colon, a name, and the drive `k:`. */
  lemma KelvinIsADrive()
    ensures CaseFold(FoldText)
    ensures var a, b := [KELVIN, ':'] + "\\x", ['k', ':'] + "\\x";
            SamePath(Win32, FoldText, a, b) && !ParseRoot(Win32, a).absolute && ParseRoot(Win32, b).absolute
  {
    FoldTextIsCaseFold();
    FoldTwo(KELVIN, ':');
    FoldTwo('k', ':');
    FoldsToDrive(FoldText, [KELVIN, ':'], ['k', ':']);
  }
}
