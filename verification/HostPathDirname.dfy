/** The laws of dirname and basename: they split a path that join puts together again. */
module HostPathDirname {
  import opened HostPath
  import opened HostPathSegments
  import opened HostPathPlaces
  import opened HostPathLaws

  // ---- Scans from the right ----

  lemma {:induction false} BodyEndIs(platform: Platform, p: string, lo: nat, hi: nat, e: nat)
    requires lo <= e <= hi <= |p|
    requires forall k | e <= k < hi :: IsSep(platform, p[k])
    requires e > lo ==> !IsSep(platform, p[e - 1])
    ensures BodyEnd(platform, p, lo, hi) == e
    decreases hi
  {
    if e < hi {
      BodyEndIs(platform, p, lo, hi - 1, e);
    }
  }

  lemma {:induction false} LastSepIs(platform: Platform, p: string, lo: nat, hi: nat, k: int)
    requires lo <= hi <= |p|
    requires k == -1 || (lo <= k < hi && IsSep(platform, p[k]))
    requires forall m | lo <= m < hi && k < m :: !IsSep(platform, p[m])
    ensures LastSep(platform, p, lo, hi) == k
    decreases hi
  {
    if hi > lo && k < hi - 1 {
      LastSepIs(platform, p, lo, hi - 1, k);
    }
  }

  lemma {:induction false} LastSepShift(platform: Platform, p: string, n: nat, lo: nat, hi: nat)
    requires lo <= hi && n + hi <= |p|
    ensures var k := LastSep(platform, p[n..], lo, hi);
            LastSep(platform, p, n + lo, n + hi) == if k == -1 then -1 else n + k
    decreases hi
  {
    if hi > lo {
      assert p[n..][hi - 1] == p[n + hi - 1];
      LastSepShift(platform, p, n, lo, hi - 1);
    }
  }

  lemma {:induction false} BodyEndShift(platform: Platform, p: string, n: nat, lo: nat, hi: nat)
    requires lo <= hi && n + hi <= |p|
    ensures BodyEnd(platform, p, n + lo, n + hi) == n + BodyEnd(platform, p[n..], lo, hi)
    decreases hi
  {
    if hi > lo {
      assert p[n..][hi - 1] == p[n + hi - 1];
      BodyEndShift(platform, p, n, lo, hi - 1);
    }
  }

  lemma LastPiece(platform: Platform, s: string)
    ensures LastOf(SplitEach(platform, s)) == s[LastSep(platform, s, 0, |s|) + 1..]
  {
  }

  lemma {:induction false} LastSepPrefix(platform: Platform, p: string, n: nat, hi: nat)
    requires hi <= n <= |p|
    ensures LastSep(platform, p[..n], 0, hi) == LastSep(platform, p, 0, hi)
    decreases hi
  {
    if hi > 0 {
      LastSepPrefix(platform, p, n, hi - 1);
    }
  }

  /** The last name of a string, its trailing separators left off. */
  function LastName(platform: Platform, q: string): string {
    var e := BodyEnd(platform, q, 0, |q|);
    q[LastSep(platform, q, 0, e) + 1..e]
  }

  lemma LastNameIs(platform: Platform, q: string)
    ensures LastOf(SplitEach(platform, WithoutTrailingSeps(platform, q))) == LastName(platform, q)
  {
    var e := BodyEnd(platform, q, 0, |q|);
    var body := q[..e];
    LastPiece(platform, body);
    LastSepPrefix(platform, q, e, e);
    var k := LastSep(platform, q, 0, e);
    assert LastSep(platform, body, 0, |body|) == k;
    assert body[k + 1..] == q[k + 1..e];
  }

  lemma BasenameIs(platform: Platform, p: string)
    ensures Basename(platform, p, "")
         == LastName(platform, if platform.Win32? && HasDrivePrefix(p) then p[2..] else p)
  {
    assert p[0..] == p;
    LastNameIs(platform, if platform.Win32? && HasDrivePrefix(p) then p[2..] else p);
  }

  /** The last name of q, cut at its separator and its trailing ones. */
  lemma LastNameAt(platform: Platform, q: string, k: nat, e: nat)
    requires k < e <= |q| && IsSep(platform, q[k])
    requires forall m | k < m < e :: !IsSep(platform, q[m])
    requires forall m | e <= m < |q| :: IsSep(platform, q[m])
    requires e == k + 1 ==> forall m | 0 <= m < e :: IsSep(platform, q[m])
    ensures LastName(platform, q) == q[k + 1..e]
  {
    if e > k + 1 {
      BodyEndIs(platform, q, 0, |q|, e);
      LastSepIs(platform, q, 0, e, k);
    } else {
      BodyEndIs(platform, q, 0, |q|, 0);
      LastSepIs(platform, q, 0, 0, -1);
    }
  }

  lemma CutSegments(platform: Platform, q: string, k: nat, e: nat)
    requires k < e <= |q| && IsSep(platform, q[k])
    requires forall m | k < m < e :: !IsSep(platform, q[m])
    requires forall m | e <= m < |q| :: IsSep(platform, q[m])
    ensures SplitSegments(platform, q) == SplitSegments(platform, q[..k]) + KeepOne(q[k + 1..e])
  {
    var name := q[k + 1..e];
    SegmentsTrailing(platform, q, e);
    assert q[..e] == q[..k] + [q[k]] + name;
    SegmentsSplit(platform, q[..k], q[k], name);
    NoSepSegment(platform, name);
  }

  /** q cut before its last name: what is left of the cut, a separator, the name, trailing separators. */
  lemma LastNameCut(platform: Platform, q: string, k: nat, e: nat)
    requires k < e <= |q| && IsSep(platform, q[k])
    requires forall m | k < m < e :: !IsSep(platform, q[m])
    requires forall m | e <= m < |q| :: IsSep(platform, q[m])
    requires e == k + 1 ==> forall m | 0 <= m < e :: IsSep(platform, q[m])
    ensures SplitSegments(platform, q) == SplitSegments(platform, q[..k]) + KeepOne(LastName(platform, q))
  {
    LastNameAt(platform, q, k, e);
    CutSegments(platform, q, k, e);
  }

  // ---- posix ----

  /** dirname keeps the root and all segments but the last, which is basename. */
  lemma PosixDirBase(platform: Platform, p: string)
    requires !platform.Win32?
    ensures ParseRoot(platform, DirnameOf(platform, p)) == ParseRoot(platform, p)
    ensures SplitSegments(platform, p)
         == SplitSegments(platform, DirnameOf(platform, p)) + KeepOne(Basename(platform, p, ""))
    ensures SplitSegments(platform, Basename(platform, p, "")) == KeepOne(Basename(platform, p, ""))
  {
    BasenameIs(platform, p);
    NameSegments(platform, p);
    if p != "" {
      PosixDirBaseCases(platform, p);
    } else {
      PosixDirBaseEmpty(platform);
    }
  }

  lemma NameSegments(platform: Platform, q: string)
    ensures SplitSegments(platform, LastName(platform, q)) == KeepOne(LastName(platform, q))
  {
    NoSepSegment(platform, LastName(platform, q));
  }

  lemma PosixDirBaseEmpty(platform: Platform)
    requires !platform.Win32?
    ensures ParseRoot(platform, DirnameOf(platform, "")) == ParseRoot(platform, "")
    ensures SplitSegments(platform, "")
            == SplitSegments(platform, DirnameOf(platform, "")) + KeepOne(LastName(platform, ""))
  {
    NoSepSegment(platform, ".");
    NoSepSegment(platform, "");
  }

  lemma PosixDirBaseCases(platform: Platform, p: string)
    requires !platform.Win32? && p != ""
    ensures ParseRoot(platform, DirnameOf(platform, p)) == ParseRoot(platform, p)
    ensures SplitSegments(platform, p)
         == SplitSegments(platform, DirnameOf(platform, p)) + KeepOne(LastName(platform, p))
  {
    var e := BodyEnd(platform, p, 1, |p|);
    var cut := LastSep(platform, p, 1, e);
    if cut != -1 {
      LastNameCut(platform, p, cut, e);
      RootsAlone(platform, p, cut);
    } else if IsSep(platform, p[0]) {
      LastNameCut(platform, p, 0, e);
      RootsAlone(platform, p, 1);
      NoSepSegment(platform, "");
      assert p[..0] == "" && p[..1] == "/";
    } else {
      OnlyName(platform, p, e);
    }
  }

  lemma RootsAlone(platform: Platform, p: string, cut: nat)
    requires !platform.Win32? && 1 <= cut <= |p|
    ensures ParseRoot(platform, p[..cut]) == ParseRoot(platform, p)
    ensures SplitSegments(platform, "//") == []
    ensures cut == 1 && p[0] == '/' ==> SplitSegments(platform, p[..cut]) == []
  {
    NoSepSegment(platform, "");
    SegmentsTrailing(platform, "//", 0);
    assert "//"[..0] == "";
    if cut == 1 && p[0] == '/' {
      SegmentsTrailing(platform, p[..cut], 0);
      assert p[..cut][..0] == "";
    }
  }

  lemma OnlyName(platform: Platform, p: string, e: nat)
    requires !platform.Win32? && p != "" && !IsSep(platform, p[0])
    requires e == BodyEnd(platform, p, 1, |p|) && LastSep(platform, p, 1, e) == -1
    ensures SplitSegments(platform, p) == SplitSegments(platform, ".") + KeepOne(LastName(platform, p))
  {
    AfterDot(platform, KeepOne(LastName(platform, p)));
    NameFromStart(platform, p, e);
    NameAlone(platform, p, e);
  }

  lemma AfterDot(platform: Platform, names: seq<string>)
    ensures SplitSegments(platform, ".") + names == names
  {
    NoSepSegment(platform, ".");
  }

  lemma NameFromStart(platform: Platform, p: string, e: nat)
    requires p != "" && !IsSep(platform, p[0])
    requires e == BodyEnd(platform, p, 1, |p|) && LastSep(platform, p, 1, e) == -1
    ensures BodyEnd(platform, p, 0, |p|) == e && LastSep(platform, p, 0, e) == -1
  {
    BodyEndIs(platform, p, 0, |p|, e);
    LastSepIs(platform, p, 0, e, -1);
  }

  lemma NameAlone(platform: Platform, q: string, e: nat)
    requires e == BodyEnd(platform, q, 0, |q|) && LastSep(platform, q, 0, e) == -1
    ensures LastName(platform, q) == q[..e] && SplitSegments(platform, q) == KeepOne(q[..e])
  {
    SegmentsTrailing(platform, q, e);
    NoSepSegment(platform, q[..e]);
    assert q[0..e] == q[..e];
  }

  /** Joining what dirname and basename return names the place of the path again, for every posix path. */
  lemma DirnameBasenameRejoin(platform: Platform, lower: string -> string, p: string)
    requires !platform.Win32?
    ensures SamePath(platform, lower, Join(platform, [DirnameOf(platform, p), Basename(platform, p, "")]), p)
  {
    var d, b := DirnameOf(platform, p), Basename(platform, p, "");
    PosixDirBase(platform, p);
    PosixSegments(platform, p);
    PosixSegments(platform, d);
    JoinPlace(platform, d, b);
    PosixSamePath(platform, lower, Join(platform, [d, b]), p);
  }

  /** When dirname agrees with climbing: the last part is a name, or what dirname leaves is the root. */
  predicate ClimbsToDirname(platform: Platform, p: string) {
    var b := Basename(platform, p, "");
    var d := PlaceOf(platform, DirnameOf(platform, p));
    (b != "" && b != "." && b != "..") || (d.absolute && d.segments == [])
  }

  lemma PopAfterPush(s: seq<string>, name: string, absolute: bool)
    requires name != ".."
    ensures Resolved(s + [name] + [".."], absolute) == Resolved(s, absolute)
  {
    ResolvedSnoc(s + [name], "..", absolute);
    ResolvedSnoc(s, name, absolute);
  }

  /** One or two `..` after a list change what it resolves to, except at a root. */
  lemma ClimbChanges(s: seq<string>, absolute: bool)
    ensures Resolved(s + [".."], absolute) == Resolved(s, absolute) <==> absolute && Resolved(s, absolute) == []
    ensures Resolved(s + [".."] + [".."], absolute) == Resolved(s, absolute)
            <==> absolute && Resolved(s, absolute) == []
  {
    var r := Resolved(s, absolute);
    ResolvedSnoc(s, "..", absolute);
    ResolvedSnoc(s + [".."], "..", absolute);
    ResolvedStacked(s, absolute);
    var r1 := PushSegment(r, "..", absolute);
    var r2 := PushSegment(r1, "..", absolute);
    if r != [] && r[|r| - 1] != ".." {
      assert |r1| == |r| - 1;
      assert |r2| == |r| ==> r2[|r2| - 1] == "..";
    }
  }

  lemma ClimbPlace(platform: Platform, p: string)
    requires !platform.Win32?
    ensures PlaceOf(platform, Join(platform, [p, ".."]))
         == Place(ParseRoot(platform, p).canonical, ParseRoot(platform, p).absolute,
                  Resolved(SplitSegments(platform, p) + [".."], ParseRoot(platform, p).absolute))
  {
    NoSepSegment(platform, "..");
    PosixSegments(platform, p);
    if p != "" {
      JoinPlace(platform, p, "..");
    } else {
      JoinTwo(platform, p, "..");
      NormalizeKeepsPlace(platform, "..");
      PosixSegments(platform, "..");
      NoSepSegment(platform, "");
      assert [] + [".."] == [".."];
    }
  }

  lemma ClimbSegments(s: seq<string>, b: string, absolute: bool)
    ensures Resolved(s + KeepOne(b) + [".."], absolute) == Resolved(s, absolute)
       <==> (b != "" && b != "." && b != "..") || (absolute && Resolved(s, absolute) == [])
  {
    ClimbChanges(s, absolute);
    if b == "" || b == "." {
      assert s + KeepOne(b) == s;
    } else if b != ".." {
      PopAfterPush(s, b, absolute);
    }
  }

  /** dirname leads where climbing one level leads, exactly under ClimbsToDirname. */
  lemma DirnameIsClimb(platform: Platform, lower: string -> string, p: string)
    requires !platform.Win32?
    ensures SamePath(platform, lower, DirnameOf(platform, p), Join(platform, [p, ".."]))
            <==> ClimbsToDirname(platform, p)
  {
    var d := DirnameOf(platform, p);
    PosixDirBase(platform, p);
    PosixSegments(platform, d);
    ClimbPlace(platform, p);
    ClimbSegments(SplitSegments(platform, d), Basename(platform, p, ""), ParseRoot(platform, p).absolute);
    PosixSamePath(platform, lower, d, Join(platform, [p, ".."]));
  }

  // ---- Iterating dirname ----

  function DirnameMeasure(p: string): nat {
    if p == "/" || p == "." then 0 else |p| + 1
  }

  lemma DirnameDecreases(platform: Platform, p: string)
    requires !platform.Win32?
    ensures p != "/" && p != "." ==> DirnameMeasure(DirnameOf(platform, p)) < DirnameMeasure(p)
    ensures DirnameOf(platform, "/") == "/" && DirnameOf(platform, ".") == "."
  {
    if p != "" {
      var e := BodyEnd(platform, p, 1, |p|);
      var cut := LastSep(platform, p, 1, e);
    }
  }

  /** dirname applied until it changes nothing. */
  function DirnameLimit(platform: Platform, p: string): (r: string)
    requires !platform.Win32?
    ensures DirnameOf(platform, r) == r
    ensures r == if ParseRoot(platform, p).absolute then "/" else "."
    decreases DirnameMeasure(p)
  {
    DirnameDecreases(platform, p);
    PosixDirBase(platform, p);
    var d := DirnameOf(platform, p);
    if d == p then p else DirnameLimit(platform, d)
  }

  // ---- win32 drives ----

  lemma DriveRootParse(p: string)
    requires DriveAbsolute(p)
    ensures ParseRoot(Win32, p) == ParsedRoot(p[..3], p[..2] + "\\", true)
    ensures Segments(Win32, p) == SplitSegments(Win32, p[3..])
  {
    assert MatchUnc(p).NoUnc?;
  }

  lemma LeadingSepAddsNothing(q: string, n: nat)
    requires 1 <= n <= |q| && IsSep(Win32, q[0])
    ensures SplitSegments(Win32, q[..n]) == SplitSegments(Win32, q[1..n])
  {
    assert q[..n] == "" + [q[0]] + q[1..n];
    SegmentsSplit(Win32, "", q[0], q[1..n]);
    NoSepSegment(Win32, "");
  }

  /** The cut of a path whose names begin after the separator at n, seen from that separator. */
  lemma RootedScans(p: string, n: nat)
    requires n < |p|
    ensures var cut := LastCut(Win32, p[n..], 1);
            LastCut(Win32, p, n + 1) == if cut == -1 then -1 else n + cut
  {
    var q := p[n..];
    BodyEndShift(Win32, p, n, 1, |q|);
    LastSepShift(Win32, p, n, 1, BodyEnd(Win32, q, 1, |q|));
  }

  /** A string that begins with a separator, cut where the scans from its second character end. */
  lemma RootedCut(q: string, cut: int)
    requires q != "" && IsSep(Win32, q[0]) && cut == LastCut(Win32, q, 1)
    ensures SplitSegments(Win32, q)
         == SplitSegments(Win32, q[..if cut == -1 then 0 else cut]) + KeepOne(LastName(Win32, q))
  {
    var e := BodyEnd(Win32, q, 1, |q|);
    if cut == -1 {
      RootedNameOnly(q, e);
    } else {
      LastNameCut(Win32, q, cut, e);
    }
  }

  lemma RootedNameOnly(q: string, e: nat)
    requires q != "" && IsSep(Win32, q[0]) && e == BodyEnd(Win32, q, 1, |q|) && LastSep(Win32, q, 1, e) == -1
    ensures SplitSegments(Win32, q) == SplitSegments(Win32, q[..0]) + KeepOne(LastName(Win32, q))
  {
    assert forall m | 0 < m < e :: !IsSep(Win32, q[m]);
    LastNameCut(Win32, q, 0, e);
  }

  /** What dirname keeps of a path whose names begin after the separator at n. */
  function CutAfter(p: string, n: nat): string
    requires n < |p|
  {
    var cut := LastCut(Win32, p, n + 1);
    if cut == -1 then p[..n + 1] else p[..cut]
  }

  lemma CutAfterShape(p: string, n: nat)
    requires n < |p|
    ensures var d := CutAfter(p, n); n < |d| <= |p| && d == p[..|d|]
  {
  }

  lemma PrefixSuffix(p: string, n: nat, m: nat)
    requires n <= m <= |p|
    ensures p[..m][n..] == p[n..][..m - n] && p[..m][..n] == p[..n]
  {
  }

  lemma OneSep(platform: Platform, c: char)
    requires IsSep(platform, c)
    ensures SplitSegments(platform, [c]) == []
  {
    NoSepSegment(platform, "");
    assert [c] == "" + [c] + "";
    SegmentsSplit(platform, "", c, "");
  }

  lemma CutAfterSegments(p: string, n: nat, k: nat)
    requires n < |p| && IsSep(Win32, p[n])
    requires k == if LastCut(Win32, p, n + 1) == -1 then 0 else LastCut(Win32, p, n + 1) - n
    ensures SplitSegments(Win32, p[n..][..k]) == SplitSegments(Win32, CutAfter(p, n)[n..])
  {
    if k == 0 {
      NoSepSegment(Win32, "");
      OneSep(Win32, p[n]);
      assert p[..n + 1][n..] == [p[n]];
      assert p[n..][..0] == "";
    } else {
      PrefixSuffix(p, n, n + k);
    }
  }

  /** The names of a path after the separator at n: those dirname keeps, then the last one. */
  lemma RootedDirBase(p: string, n: nat)
    requires n < |p| && IsSep(Win32, p[n])
    ensures SplitSegments(Win32, p[n..])
         == SplitSegments(Win32, CutAfter(p, n)[n..]) + KeepOne(LastName(Win32, p[n..]))
  {
    var cut := LastCut(Win32, p[n..], 1);
    RootedScans(p, n);
    RootedCut(p[n..], cut);
    CutAfterSegments(p, n, if cut == -1 then 0 else cut);
  }

  lemma DriveDirnameIs(p: string)
    requires DriveAbsolute(p)
    ensures DirnameOf(Win32, p) == CutAfter(p, 2)
  {
  }

  lemma DriveDirBase(p: string)
    requires DriveAbsolute(p)
    ensures var d := DirnameOf(Win32, p);
            DriveAbsolute(d) && d[..3] == p[..3]
            && SplitSegments(Win32, p[3..])
               == SplitSegments(Win32, d[3..]) + KeepOne(LastName(Win32, p[2..]))
  {
    var d := CutAfter(p, 2);
    DriveDirnameIs(p);
    CutAfterShape(p, 2);
    RootedDirBase(p, 2);
    AfterSep(p, 2);
    AfterSep(d, 2);
  }

  lemma AfterSep(p: string, n: nat)
    requires n < |p| && IsSep(Win32, p[n])
    ensures SplitSegments(Win32, p[n..]) == SplitSegments(Win32, p[n + 1..])
  {
    LeadingSepAddsNothing(p[n..], |p| - n);
    assert p[n..][..|p| - n] == p[n..] && p[n..][1..|p| - n] == p[n + 1..];
  }

  /** The same on win32 for a path with a drive root. */
  lemma DriveDirnameBasenameRejoin(lower: string -> string, p: string)
    requires DriveAbsolute(p)
    ensures SamePath(Win32, lower, Join(Win32, [DirnameOf(Win32, p), Basename(Win32, p, "")]), p)
  {
    var d, b := DirnameOf(Win32, p), Basename(Win32, p, "");
    DriveDirBase(p);
    BasenameIs(Win32, p);
    NoSepSegment(Win32, b);
    DriveRootParse(p);
    DriveRootParse(d);
    assert d[..2] == d[..3][..2] && p[..2] == p[..3][..2];
    JoinPlace(Win32, d, b);
    assert PlaceOf(Win32, Join(Win32, [d, b])) == PlaceOf(Win32, p);
    TrimmedForm(Win32, Join(Win32, [d, b]));
    TrimmedForm(Win32, p);
  }

  // ---- Extensions ----

  /** With an extension, basename drops it from the end of the name, unless the name is nothing else; of a path
      equal to the extension nothing is left. */
  lemma BasenameExtension(platform: Platform, p: string, ext: string)
    requires ext != ""
    ensures var name, r := Basename(platform, p, ""), Basename(platform, p, ext);
            && (p == ext ==> r == "")
            && (p != ext && name == ext ==> r == name)
            && (p != ext && name != ext ==> if EndsWith(name, ext) then r + ext == name else r == name)
  {
    var name := Basename(platform, p, "");
    if EndsWith(name, ext) {
      SuffixOff(name, ext);
    }
  }

  lemma SuffixOff(name: string, ext: string)
    requires EndsWith(name, ext)
    ensures name[..|name| - |ext|] + ext == name
  {
  }
}
