/** What dirname and basename split, join puts together again: exactly when, for win32 paths. */
module HostPathRejoin {
  import opened HostPath
  import opened HostPathSegments
  import opened HostPathPlaces
  import opened HostPathLaws
  import opened HostPathDirname
  import opened HostPathRelative
  import opened HostPathRoots

  /** A UNC path needs something below its share, since a share is its own dirname and yet has a basename; a path of
      names relative to a drive needs more than one, since a separator after the drive would make it a root. */
  predicate Rejoins(p: string) {
    var m := MatchUnc(p);
    if m.Unc? then m.rawLength < |p| || IsDots(m.share)
    else if HasDrivePrefix(p) && !DriveAbsolute(p) then |p| == 2 || LastCut(Win32, p, 2) != -1
    else true
  }

  function Rejoined(p: string): string {
    Join(Win32, [DirnameOf(Win32, p), Basename(Win32, p, "")])
  }

  lemma SamePlaces(lower: string -> string, j: string, p: string)
    requires Stable(Win32, j) && Stable(Win32, p) && PlaceOf(Win32, j) == PlaceOf(Win32, p)
    ensures SamePath(Win32, lower, j, p)
  {
    TrimmedForm(Win32, j);
    TrimmedForm(Win32, p);
  }

  /** A directory under the root of the path, with all its segments but the last. */
  lemma RejoinedSame(lower: string -> string, p: string, d: string, b: string)
    requires Anchored(Win32, d) && Stable(Win32, p)
    requires ParseRoot(Win32, d).canonical == ParseRoot(Win32, p).canonical
    requires ParseRoot(Win32, d).absolute == ParseRoot(Win32, p).absolute
    requires Segments(Win32, p) == Segments(Win32, d) + KeepOne(b) && SplitSegments(Win32, b) == KeepOne(b)
    ensures SamePath(Win32, lower, Join(Win32, [d, b]), p)
  {
    assert JoinTarget(Win32, d, b) == PlaceOf(Win32, p);
    JoinPlace(Win32, d, b);
    SamePlaces(lower, Join(Win32, [d, b]), p);
  }

  // ---- UNC paths ----

  function ShareStart(p: string): (k: nat)
    requires |p| >= 2
    ensures 2 <= k <= |p|
  {
    SepRunEnd(Win32, p, NameEnd(Win32, p, 2))
  }

  /** Where the share of a UNC path ends. */
  function ShareEnd(p: string): (n: nat)
    requires |p| >= 2
    ensures 2 <= n <= |p| && (n < |p| ==> IsSep(Win32, p[n]))
  {
    NameEnd(Win32, p, ShareStart(p))
  }

  lemma UncParts(p: string)
    requires MatchUnc(p).Unc?
    ensures var m := MatchUnc(p);
            && ShareStart(p) < ShareEnd(p)
            && m.server == p[2..NameEnd(Win32, p, 2)] && m.share == p[ShareStart(p)..ShareEnd(p)]
            && m.rawLength == SepRunEnd(Win32, p, ShareEnd(p))
            && DirRootOf(p) == (if ShareEnd(p) == |p| then WholePath else RootUpTo(ShareEnd(p) + 1, ShareEnd(p) + 1))
  {
  }

  lemma UncSegments(p: string)
    requires MatchUnc(p).Unc?
    ensures Segments(Win32, p) == SplitSegments(Win32, p[ShareEnd(p)..])
  {
    UncParts(p);
    UncParse(p);
    SkipSeps(p, ShareEnd(p));
  }

  lemma SliceTwice(p: string, n: nat, m: nat)
    requires n <= m <= |p|
    ensures p[n..][m - n..] == p[m..]
  {
  }

  lemma SkipSeps(p: string, n: nat)
    requires n <= |p|
    ensures SplitSegments(Win32, p[SepRunEnd(Win32, p, n)..]) == SplitSegments(Win32, p[n..])
  {
    SepRunShift(Win32, p, n, 0);
    LeadingSepsAddNothing(p[n..]);
    SliceTwice(p, n, SepRunEnd(Win32, p, n));
  }

  /** A prefix of a UNC path that holds its share has the same root. */
  lemma UncPrefix(p: string, n: nat)
    requires MatchUnc(p).Unc? && ShareEnd(p) <= n <= |p|
    ensures var d, m := p[..n], MatchUnc(p);
            && MatchUnc(d).Unc? && MatchUnc(d).server == m.server && MatchUnc(d).share == m.share
            && ShareEnd(d) == ShareEnd(p)
  {
    var d := p[..n];
    var serverEnd := NameEnd(Win32, p, 2);
    UncParts(p);
    NameEndIs(Win32, d, 2, serverEnd);
    SepRunEndIs(Win32, d, serverEnd, ShareStart(p));
    NameEndIs(Win32, d, ShareStart(p), ShareEnd(p));
    MatchUncIs(d, serverEnd, ShareStart(p), ShareEnd(p));
    SliceOfPrefix(p, n, 2, serverEnd);
    SliceOfPrefix(p, n, ShareStart(p), ShareEnd(p));
  }

  lemma SliceOfPrefix(p: string, n: nat, i: nat, j: nat)
    requires i <= j <= n <= |p|
    ensures p[..n][i..j] == p[i..j]
  {
  }

  /** The last name of a path is that of what follows a separator, when a name follows. */
  lemma LastNameSuffix(p: string, n: nat, k: nat)
    requires n < k < |p| && IsSep(Win32, p[n]) && !IsSep(Win32, p[k])
    ensures LastName(Win32, p) == LastName(Win32, p[n..])
  {
    var e := BodyEnd(Win32, p, n, |p|);
    assert e > k;
    BodyEndIs(Win32, p, 0, |p|, e);
    var cut := LastSep(Win32, p, n, e);
    assert cut >= n;
    LastSepIs(Win32, p, 0, e, cut);
    LastNameFrom(p, n, e, cut);
  }

  /** The last name of what follows n, told from the scans of the whole. */
  lemma LastNameFrom(p: string, n: nat, e: nat, cut: int)
    requires n <= cut < e <= |p| && e == BodyEnd(Win32, p, n, |p|) && cut == LastSep(Win32, p, n, e)
    ensures LastName(Win32, p[n..]) == p[cut + 1..e]
  {
    LastNameShift(p, n, p[n..], e, cut);
    LastNameScanned(p[n..], e - n, cut - n);
    SliceOfSuffix(p, n, cut + 1, e);
  }

  lemma LastNameShift(p: string, n: nat, q: string, e: nat, cut: int)
    requires n <= cut < e <= |p| && e == BodyEnd(Win32, p, n, |p|) && cut == LastSep(Win32, p, n, e) && q == p[n..]
    ensures BodyEnd(Win32, q, 0, |q|) == e - n && LastSep(Win32, q, 0, e - n) == cut - n
  {
    BodyEndShift(Win32, p, n, 0, |q|);
    LastSepShift(Win32, p, n, 0, e - n);
  }

  lemma LastNameScanned(q: string, e: nat, k: int)
    requires e == BodyEnd(Win32, q, 0, |q|) && k == LastSep(Win32, q, 0, e)
    ensures LastName(Win32, q) == q[k + 1..e]
  {
  }

  lemma SliceOfSuffix(p: string, n: nat, i: nat, e: nat)
    requires n <= i <= e <= |p|
    ensures p[n..][i - n..e - n] == p[i..e]
  {
  }

  lemma NoDriveBasename(p: string)
    requires !HasDrivePrefix(p)
    ensures Basename(Win32, p, "") == LastName(Win32, p)
  {
    BasenameIs(Win32, p);
  }

  lemma UncDirname(p: string)
    requires MatchUnc(p).Unc?
    ensures DirnameOf(Win32, p) == if ShareEnd(p) == |p| then p else CutAfter(p, ShareEnd(p))
  {
    UncParts(p);
  }

  /** Below a share. */
  lemma UncRejoins(lower: string -> string, p: string)
    requires MatchUnc(p).Unc? && MatchUnc(p).rawLength < |p|
    ensures SamePath(Win32, lower, Rejoined(p), p)
  {
    var n, d := ShareEnd(p), CutAfter(p, ShareEnd(p));
    UncParts(p);
    UncDirname(p);
    NoDriveBasename(p);
    CutAfterShape(p, n);
    UncPrefix(p, |d|);
    UncParse(p);
    UncParse(d);
    UncSegments(p);
    UncSegments(d);
    RootedDirBase(p, n);
    LastNameSuffix(p, n, MatchUnc(p).rawLength);
    NameSegments(Win32, p);
    RejoinedSame(lower, p, d, LastName(Win32, p));
  }

  lemma OnlySeps(s: string)
    requires forall k | 0 <= k < |s| :: IsSep(Win32, s[k])
    ensures SplitSegments(Win32, s) == []
  {
    SegmentsTrailing(Win32, s, 0);
    NoSepSegment(Win32, "");
    assert s[..0] == "";
  }

  lemma ShareAloneSegments(p: string)
    requires MatchUnc(p).Unc? && MatchUnc(p).rawLength == |p|
    ensures Segments(Win32, p) == []
  {
    UncParts(p);
    UncParse(p);
    OnlySeps("");
    assert p[|p|..] == "";
  }

  lemma ShareAloneDirname(p: string)
    requires MatchUnc(p).Unc? && MatchUnc(p).rawLength == |p|
    ensures DirnameOf(Win32, p) == p || (ShareEnd(p) < |p| && DirnameOf(Win32, p) == p[..ShareEnd(p) + 1])
  {
    var n := ShareEnd(p);
    UncParts(p);
    UncDirname(p);
    if n < |p| {
      BodyEndIs(Win32, p, n + 1, |p|, n + 1);
    }
  }

  /** A share alone, with any separators after it: dirname keeps the share, with at most one. */
  lemma ShareAloneParts(p: string)
    requires MatchUnc(p).Unc? && MatchUnc(p).rawLength == |p|
    ensures var d, m := DirnameOf(Win32, p), MatchUnc(p);
            && MatchUnc(d).Unc? && MatchUnc(d).server == m.server && MatchUnc(d).share == m.share
            && MatchUnc(d).rawLength == |d|
  {
    ShareAloneDirname(p);
    if DirnameOf(Win32, p) != p {
      UncPrefix(p, ShareEnd(p) + 1);
      UncParts(p[..ShareEnd(p) + 1]);
    }
  }

  lemma ShareAloneName(p: string)
    requires MatchUnc(p).Unc? && MatchUnc(p).rawLength == |p|
    ensures LastName(Win32, p) == MatchUnc(p).share
  {
    var n, k := ShareEnd(p), ShareStart(p);
    UncParts(p);
    BodyEndIs(Win32, p, 0, |p|, n);
    ShareBegins(p);
    LastSepIs(Win32, p, 0, n, k - 1);
  }

  lemma ShareBegins(p: string)
    requires MatchUnc(p).Unc?
    ensures IsSep(Win32, p[ShareStart(p) - 1])
  {
  }

  /** A share alone does not rejoin, unless its name is `.` or `..`. */
  lemma ShareAlone(lower: string -> string, p: string)
    requires CaseFold(lower) && MatchUnc(p).Unc? && MatchUnc(p).rawLength == |p|
    ensures SamePath(Win32, lower, Rejoined(p), p) <==> IsDots(MatchUnc(p).share)
  {
    ShareAloneParts(p);
    NoDriveBasename(p);
    ShareAloneName(p);
    ShareAloneSegments(p);
    ShareJoined(DirnameOf(Win32, p));
    ShareNamed(lower, p, Rejoined(p));
  }

  /** A share alone, joined with its own name. */
  lemma ShareJoined(d: string)
    requires MatchUnc(d).Unc? && MatchUnc(d).rawLength == |d|
    ensures var m := MatchUnc(d);
            var j := Join(Win32, [d, m.share]);
            Stable(Win32, j) && PlaceOf(Win32, j)
              == Place(UncRoot(m.server, m.share), true, if IsDots(m.share) then [] else [m.share])
  {
    var share := MatchUnc(d).share;
    MatchedNames(d);
    UncParse(d);
    ShareAloneSegments(d);
    ShareResolved(share);
    assert JoinTarget(Win32, d, share)
           == Place(ParseRoot(Win32, d).canonical, true, Resolved([] + SplitSegments(Win32, share), true));
    JoinPlace(Win32, d, share);
  }

  lemma ShareResolved(share: string)
    requires IsName(share)
    ensures Resolved([] + SplitSegments(Win32, share), true) == if IsDots(share) then [] else [share]
  {
    NoSepSegment(Win32, share);
    OneResolved(share, true);
    assert [] + KeepOne(share) == KeepOne(share);
  }

  lemma ShareNamed(lower: string -> string, p: string, j: string)
    requires CaseFold(lower) && MatchUnc(p).Unc? && Segments(Win32, p) == [] && Stable(Win32, j)
    requires var m := MatchUnc(p);
             PlaceOf(Win32, j) == Place(UncRoot(m.server, m.share), true, if IsDots(m.share) then [] else [m.share])
    ensures SamePath(Win32, lower, j, p) <==> IsDots(MatchUnc(p).share)
  {
    var m := MatchUnc(p);
    MatchedNames(p);
    UncParse(p);
    TrimmedForm(Win32, j);
    TrimmedForm(Win32, p);
    if IsDots(m.share) {
      SamePlaces(lower, j, p);
    } else {
      UncRendersExact(lower, m.server, m.share, m.share, m.server, m.share, "");
    }
  }

  // ---- Paths relative to a drive ----

  lemma DriveRelative(p: string)
    requires HasDrivePrefix(p) && !DriveAbsolute(p)
    ensures ParseRoot(Win32, p) == ParsedRoot(p[..2], p[..2], false)
            && Segments(Win32, p) == SplitSegments(Win32, p[2..])
    ensures Basename(Win32, p, "") == LastName(Win32, p[2..])
    ensures var cut := LastCut(Win32, p, 2); DirnameOf(Win32, p) == if cut == -1 then p[..2] else p[..cut]
  {
    DriveRelativeRoot(p);
    BasenameIs(Win32, p);
    DriveRelativeDirname(p);
  }

  lemma DriveRelativeRoot(p: string)
    requires HasDrivePrefix(p) && !DriveAbsolute(p)
    ensures ParseRoot(Win32, p) == ParsedRoot(p[..2], p[..2], false)
  {
    assert MatchUnc(p).NoUnc?;
  }

  lemma DriveRelativeDirname(p: string)
    requires HasDrivePrefix(p) && !DriveAbsolute(p)
    ensures var cut := LastCut(Win32, p, 2); DirnameOf(Win32, p) == if cut == -1 then p[..2] else p[..cut]
  {
    assert DirRootOf(p) == RootUpTo(2, 2);
  }

  /** Several names relative to a drive. */
  lemma DriveNamesRejoin(lower: string -> string, p: string)
    requires HasDrivePrefix(p) && !DriveAbsolute(p) && LastCut(Win32, p, 2) != -1
    ensures SamePath(Win32, lower, Rejoined(p), p)
  {
    var d := p[..LastCut(Win32, p, 2)];
    DriveRelative(p);
    DriveNamesCut(p);
    DriveRelative(d);
    NameSegments(Win32, p[2..]);
    RejoinedSame(lower, p, d, LastName(Win32, p[2..]));
  }

  lemma DriveNamesCut(p: string)
    requires HasDrivePrefix(p) && !DriveAbsolute(p) && LastCut(Win32, p, 2) != -1
    ensures var d := p[..LastCut(Win32, p, 2)];
            && |d| > 2 && d[..2] == p[..2] && HasDrivePrefix(d) && !DriveAbsolute(d)
            && SplitSegments(Win32, p[2..]) == SplitSegments(Win32, d[2..]) + KeepOne(LastName(Win32, p[2..]))
  {
    DriveScans(p);
    CutOnce(p[2..]);
    PrefixSuffix(p, 2, LastCut(Win32, p, 2));
  }

  lemma DriveScans(p: string)
    requires |p| >= 2
    ensures var cut := LastCut(Win32, p[2..], 0); LastCut(Win32, p, 2) == if cut == -1 then -1 else 2 + cut
  {
    BodyEndShift(Win32, p, 2, 0, |p[2..]|);
    LastSepShift(Win32, p, 2, 0, BodyEnd(Win32, p[2..], 0, |p[2..]|));
  }

  lemma CutOnce(q: string)
    requires LastCut(Win32, q, 0) > 0
    ensures SplitSegments(Win32, q) == SplitSegments(Win32, q[..LastCut(Win32, q, 0)]) + KeepOne(LastName(Win32, q))
  {
    LastNameCut(Win32, q, LastCut(Win32, q, 0), BodyEnd(Win32, q, 0, |q|));
  }

  lemma OneNameOnly(q: string)
    requires q != "" && !IsSep(Win32, q[0]) && LastCut(Win32, q, 0) == -1
    ensures LastName(Win32, q) != "" && SplitSegments(Win32, q) == KeepOne(LastName(Win32, q))
    ensures IsName(LastName(Win32, q))
  {
    NameAlone(Win32, q, BodyEnd(Win32, q, 0, |q|));
  }

  /** One name relative to a drive: rejoining makes it a name under the root of the drive. */
  lemma DriveNameMoves(lower: string -> string, p: string)
    requires CaseFold(lower) && HasDrivePrefix(p) && !DriveAbsolute(p) && |p| > 2 && LastCut(Win32, p, 2) == -1
    ensures !SamePath(Win32, lower, Rejoined(p), p)
  {
    var q, drive := p[2..], p[..2];
    var b := LastName(Win32, q);
    DriveRelative(p);
    DriveScans(p);
    OneNameOnly(q);
    NameSegments(Win32, q);
    BareDriveJoined(drive, b);
    TrimmedForm(Win32, Rejoined(p));
    TrimmedForm(Win32, p);
    NameTail(drive, b, false);
    RootedUnlikeRelative(lower, drive, JoinWith(PlaceOf(Win32, Rejoined(p)).segments, '\\'),
                         Tail(Win32, PlaceOf(Win32, p)));
  }

  lemma OneResolved(b: string, absolute: bool)
    ensures Resolved([b], absolute) == if b == ".." && absolute then [] else [b]
  {
    assert [b] == [] + [b];
    ResolvedSnoc([], b, absolute);
  }

  /** What is written of at most one name holds no separator. */
  lemma NameTail(canonical: string, b: string, absolute: bool)
    requires IsName(b)
    ensures NoBackslash(Tail(Win32, Place(canonical, absolute, Resolved(KeepOne(b), absolute))))
  {
    OneResolved(b, absolute);
  }

  lemma RootedUnlikeRelative(lower: string -> string, drive: string, t1: string, t2: string)
    requires CaseFold(lower) && HasDrivePrefix(drive) && |drive| == 2 && NoBackslash(t2)
    ensures lower(drive + "\\" + t1) != lower(drive + t2)
  {
    assert drive + "\\" + t1 == Slashed(drive, t1);
    assert NoBackslash(drive + t2);
    assert '\\' in lower(Slashed(drive, t1));
  }

  lemma NothingLast(q: string)
    requires q == ""
    ensures LastCut(Win32, q, 0) == -1 && LastName(Win32, q) == ""
  {
  }

  lemma BareDriveParts(p: string)
    requires BareDrive(p)
    ensures DirnameOf(Win32, p) == p && Basename(Win32, p, "") == ""
  {
    DriveRelative(p);
    DriveScans(p);
    NothingLast(p[2..]);
    assert p[..2] == p;
  }

  lemma BareDriveRejoins(lower: string -> string, p: string)
    requires BareDrive(p)
    ensures SamePath(Win32, lower, Rejoined(p), p)
  {
    BareDriveParts(p);
    JoinTwo(Win32, p, "");
    DriveRelative(p);
    NormalizeKeepsPlace(Win32, p);
    SamePlaces(lower, Rejoined(p), p);
  }

  // ---- Paths under a single separator ----

  lemma SingleRoot(p: string)
    requires p != "" && IsSep(Win32, p[0]) && MatchUnc(p).NoUnc?
    ensures ParseRoot(Win32, p) == ParsedRoot(p[..1], "\\", true)
    ensures Segments(Win32, p) == SplitSegments(Win32, p[0..])
  {
    AfterSep(p, 0);
  }

  lemma SingleDirRoot(p: string)
    requires |p| > 1 && IsSep(Win32, p[0]) && MatchUnc(p).NoUnc?
    ensures DirRootOf(p) == RootUpTo(1, 1)
  {
  }

  lemma SingleDirnameIs(p: string)
    requires p != "" && IsSep(Win32, p[0]) && MatchUnc(p).NoUnc?
    ensures DirnameOf(Win32, p) == CutAfter(p, 0)
  {
    if |p| == 1 {
      assert p[..1] == p;
    } else {
      SingleDirRoot(p);
    }
  }

  /** A bare server, with any separators after it, is directly under its root. */
  lemma ServerDirname(p: string)
    requires BareServer(p)
    ensures |CutAfter(p, 0)| == 1
  {
    var k := NameEnd(Win32, p, 2);
    BareServerShape(p);
    BodyEndIs(Win32, p, 1, |p|, k);
    LastSepIs(Win32, p, 1, k, 1);
  }

  /** The directory dirname leaves is neither a bare server nor a share. */
  lemma SingleDirname(p: string)
    requires p != "" && IsSep(Win32, p[0]) && MatchUnc(p).NoUnc?
    ensures var d := CutAfter(p, 0);
            d != "" && d[0] == p[0] && MatchUnc(d).NoUnc? && !BareServer(d)
  {
    CutAfterShape(p, 0);
    if BareServer(p) {
      ServerDirname(p);
    } else if StartsWithTwoSeps(p) && |p| > 2 {
      assert IsSep(Win32, p[2]);
    }
  }

  lemma SingleRejoins(lower: string -> string, p: string)
    requires p != "" && IsSep(Win32, p[0]) && MatchUnc(p).NoUnc?
    ensures SamePath(Win32, lower, Rejoined(p), p)
  {
    var d := CutAfter(p, 0);
    SingleRoot(p);
    NoDriveBasename(p);
    SingleDirnameIs(p);
    SingleDirname(p);
    SingleRoot(d);
    RootedDirBase(p, 0);
    assert p[0..] == p;
    NameSegments(Win32, p);
    RejoinedSame(lower, p, d, LastName(Win32, p));
  }

  // ---- Paths without a root ----

  lemma Rootless(p: string)
    requires p != "" && !IsSep(Win32, p[0]) && !HasDrivePrefix(p)
    ensures ParseRoot(Win32, p) == ParsedRoot("", "", false) && Segments(Win32, p) == SplitSegments(Win32, p)
  {
    assert p[0..] == p;
  }

  lemma RootlessDirname(p: string)
    requires p != "" && !IsSep(Win32, p[0]) && !HasDrivePrefix(p)
    ensures var cut := LastCut(Win32, p, 0); DirnameOf(Win32, p) == if cut == -1 then "." else p[..cut]
  {
    if |p| == 1 {
      assert LastCut(Win32, p, 0) == -1;
    } else {
      assert DirRootOf(p) == RootUpTo(-1, 0);
    }
  }

  lemma RootlessRejoins(lower: string -> string, p: string)
    requires p != "" && !IsSep(Win32, p[0]) && !HasDrivePrefix(p) && Stable(Win32, p)
    ensures SamePath(Win32, lower, Rejoined(p), p)
  {
    var cut, b := LastCut(Win32, p, 0), LastName(Win32, p);
    Rootless(p);
    RootlessDirname(p);
    NoDriveBasename(p);
    NameSegments(Win32, p);
    if cut == -1 {
      OneNameOnly(p);
      DotHere();
      assert [] + KeepOne(b) == KeepOne(b);
      RejoinedSame(lower, p, ".", b);
    } else {
      CutOnce(p);
      Rootless(p[..cut]);
      RejoinedSame(lower, p, p[..cut], b);
    }
  }

  lemma DotHere()
    ensures ParseRoot(Win32, ".") == ParsedRoot("", "", false) && Segments(Win32, ".") == []
  {
    Rootless(".");
    NoSepSegment(Win32, ".");
  }

  lemma EmptyRejoins(lower: string -> string)
    ensures SamePath(Win32, lower, Rejoined(""), "")
  {
    BasenameIs(Win32, "");
    DotHere();
    SegmentsOfEmpty(Win32);
    JoinTwo(Win32, ".", "");
    NormalizeKeepsPlace(Win32, ".");
    SamePlaces(lower, Rejoined(""), "");
  }

  // ---- Every win32 path ----

  /** Joining dirname and basename of a stable win32 path names its place again exactly under Rejoins. */
  lemma RejoinExact(lower: string -> string, p: string)
    requires CaseFold(lower) && Stable(Win32, p)
    ensures SamePath(Win32, lower, Rejoined(p), p) <==> Rejoins(p)
  {
    if MatchUnc(p).Unc? {
      if MatchUnc(p).rawLength < |p| {
        UncRejoins(lower, p);
      } else {
        ShareAlone(lower, p);
      }
    } else if DriveAbsolute(p) {
      DriveDirnameBasenameRejoin(lower, p);
    } else if HasDrivePrefix(p) {
      if BareDrive(p) {
        BareDriveRejoins(lower, p);
      } else if LastCut(Win32, p, 2) != -1 {
        DriveNamesRejoin(lower, p);
      } else {
        DriveNameMoves(lower, p);
      }
    } else if p == "" {
      EmptyRejoins(lower);
    } else if IsSep(Win32, p[0]) {
      SingleRejoins(lower, p);
    } else {
      RootlessRejoins(lower, p);
    }
  }

  // ---- Inputs that do not rejoin ----

  lemma OneNameCut(p: string, n: nat)
    requires n < |p| && forall k | n <= k < |p| :: !IsSep(Win32, p[k])
    ensures LastCut(Win32, p, n) == -1
  {
    BodyEndIs(Win32, p, n, |p|, |p|);
    LastSepIs(Win32, p, n, |p|, -1);
  }

  /** `C:x`: dirname is `C:`, basename `x`, and joining them gives `C:\x`. */
  lemma DriveNameInput(lower: string -> string)
    requires CaseFold(lower)
    ensures !SamePath(Win32, lower, Rejoined("C:x"), "C:x")
  {
    OneNameCut("C:x", 2);
    DriveNameMoves(lower, "C:x");
  }

  lemma BareShare(server: string, share: string)
    requires IsName(server) && IsName(share)
    ensures var p := "\\\\" + server + "\\" + share; MatchUnc(p) == Unc(server, share, |p|)
  {
    var p := "\\\\" + server + "\\" + share;
    var n := 3 + |server|;
    assert p[2..2 + |server|] == server && p[n..n + |share|] == share && p[2 + |server|] == '\\' && p[n] == share[0];
    NameAt(p, 2, server);
    OneSepAt(p, 2 + |server|);
    NameAt(p, n, share);
    MatchUncIs(p, 2 + |server|, n, n + |share|);
  }

  /** `\\srv\share`: it is its own dirname, and its basename is `share`. */
  lemma ShareInput(lower: string -> string, server: string, share: string)
    requires CaseFold(lower) && IsName(server) && IsName(share) && !IsDots(share)
    ensures var p := "\\\\" + server + "\\" + share; !SamePath(Win32, lower, Rejoined(p), p)
  {
    BareShare(server, share);
    ShareAlone(lower, "\\\\" + server + "\\" + share);
  }
}
