/** The texts dirname and basename return, told by where the last name of a path begins and ends. */
module HostPathText {
  import opened HostPath
  import opened HostPathSegments
  import opened HostPathPlaces
  import opened HostPathLaws
  import opened HostPathDirname
  import opened HostPathRejoin

  /** p[k..e] is the last name of p at or after lo: it stands at lo or after a separator, and only separators follow. */
  predicate NameAt(platform: Platform, p: string, lo: nat, k: nat, e: nat) {
    && lo <= k < e <= |p|
    && (k == lo || IsSep(platform, p[k - 1]))
    && (forall i | k <= i < e :: !IsSep(platform, p[i]))
    && SepsFrom(platform, p, e)
  }

  predicate SepsFrom(platform: Platform, p: string, lo: nat) {
    forall i | lo <= i < |p| :: IsSep(platform, p[i])
  }

  /** Every path has a last name or nothing but separators. */
  lemma HasName(platform: Platform, p: string, lo: nat)
    requires lo <= |p|
    ensures SepsFrom(platform, p, lo) || exists k, e :: NameAt(platform, p, lo, k, e)
  {
    var e := BodyEnd(platform, p, lo, |p|);
    var k := LastSep(platform, p, lo, e);
    if e > lo {
      assert NameAt(platform, p, lo, if k == -1 then lo else k + 1, e);
    }
  }

  lemma CutAt(platform: Platform, p: string, lo: nat, k: nat, e: nat)
    requires NameAt(platform, p, lo, k, e)
    ensures BodyEnd(platform, p, lo, |p|) == e && LastCut(platform, p, lo) == if k == lo then -1 else k - 1
  {
    BodyEndIs(platform, p, lo, |p|, e);
    LastSepIs(platform, p, lo, e, if k == lo then -1 else k - 1);
  }

  lemma NoCut(platform: Platform, p: string, lo: nat)
    requires lo <= |p| && SepsFrom(platform, p, lo)
    ensures LastCut(platform, p, lo) == -1
  {
    BodyEndIs(platform, p, lo, |p|, lo);
  }

  lemma LastNameText(platform: Platform, p: string, k: nat, e: nat)
    requires NameAt(platform, p, 0, k, e)
    ensures LastName(platform, p) == p[k..e]
  {
    CutAt(platform, p, 0, k, e);
  }

  lemma NoLastName(platform: Platform, p: string)
    requires SepsFrom(platform, p, 0)
    ensures LastName(platform, p) == ""
  {
    BodyEndIs(platform, p, 0, |p|, 0);
  }

  // ---- posix ----

  lemma PosixCut(platform: Platform, p: string, k: nat, e: nat)
    requires !platform.Win32? && NameAt(platform, p, 0, k, e)
    ensures LastCut(platform, p, 1) == if k <= 1 then -1 else k - 1
  {
    BodyEndIs(platform, p, 1, |p|, e);
    LastSepIs(platform, p, 1, e, if k <= 1 then -1 else k - 1);
  }

  /** On posix, the name at k: dirname is what comes before the separator in front of it, where `/` and `//` keep
      theirs and no separator gives `.`; basename is the name. */
  lemma PosixText(platform: Platform, p: string, k: nat, e: nat)
    requires !platform.Win32? && NameAt(platform, p, 0, k, e)
    ensures DirnameOf(platform, p)
         == if k == 0 then "." else if k == 1 then "/" else if k == 2 && p[0] == '/' then "//" else p[..k - 1]
    ensures Basename(platform, p, "") == p[k..e]
  {
    BasenameIs(platform, p);
    LastNameText(platform, p, k, e);
    PosixCut(platform, p, k, e);
  }

  /** The empty path and paths of nothing but separators have no name. */
  lemma PosixNoName(platform: Platform, p: string)
    requires !platform.Win32? && SepsFrom(platform, p, 0)
    ensures DirnameOf(platform, p) == (if p == "" then "." else "/") && Basename(platform, p, "") == ""
  {
    BasenameIs(platform, p);
    NoLastName(platform, p);
    if p != "" {
      NoCut(platform, p, 1);
    }
  }

  // ---- win32 ----

  /** Where the names of a win32 path begin: after its share and one separator, its drive root, its drive, or its
      leading separator. */
  function NamesFrom(p: string): (n: nat)
    ensures n <= |p|
  {
    if MatchUnc(p).Unc? then (if ShareEnd(p) < |p| then ShareEnd(p) + 1 else |p|)
    else if DriveAbsolute(p) then 3
    else if HasDrivePrefix(p) then 2
    else if p != "" && IsSep(Win32, p[0]) then 1
    else 0
  }

  lemma CutAfterText(p: string, n: nat, k: nat, e: nat)
    requires n < |p| && NameAt(Win32, p, n + 1, k, e)
    ensures CutAfter(p, n) == if k == n + 1 then p[..n + 1] else p[..k - 1]
  {
    CutAt(Win32, p, n + 1, k, e);
  }

  lemma CutAfterNothing(p: string, n: nat)
    requires n < |p| && SepsFrom(Win32, p, n + 1)
    ensures CutAfter(p, n) == p[..n + 1]
  {
    NoCut(Win32, p, n + 1);
  }

  /** On win32, the name at k: dirname is what comes before the separator in front of it, the root when it stands there,
      and `.` when there is no root. */
  lemma Win32DirnameText(p: string, k: nat, e: nat)
    requires NameAt(Win32, p, NamesFrom(p), k, e)
    ensures var n := NamesFrom(p);
            DirnameOf(Win32, p) == if k > n then p[..k - 1] else if n == 0 then "." else p[..n]
  {
    if MatchUnc(p).Unc? {
      UncDirname(p);
      CutAfterText(p, ShareEnd(p), k, e);
    } else if DriveAbsolute(p) {
      DriveDirnameIs(p);
      CutAfterText(p, 2, k, e);
    } else if HasDrivePrefix(p) {
      DriveRelative(p);
      CutAt(Win32, p, 2, k, e);
    } else if IsSep(Win32, p[0]) {
      SingleDirnameIs(p);
      CutAfterText(p, 0, k, e);
    } else {
      RootlessDirname(p);
      CutAt(Win32, p, 0, k, e);
    }
  }

  /** Without a name dirname is the root, and a share keeps at most one separator. */
  lemma Win32RootDirname(p: string)
    requires SepsFrom(Win32, p, NamesFrom(p))
    ensures DirnameOf(Win32, p) == if p == "" then "." else p[..NamesFrom(p)]
  {
    if MatchUnc(p).Unc? {
      UncDirname(p);
      assert p[..|p|] == p;
      if ShareEnd(p) < |p| {
        CutAfterNothing(p, ShareEnd(p));
      }
    } else if DriveAbsolute(p) {
      DriveDirnameIs(p);
      CutAfterNothing(p, 2);
    } else if HasDrivePrefix(p) {
      DriveRelative(p);
      NoCut(Win32, p, 2);
    } else if p != "" {
      SingleDirnameIs(p);
      CutAfterNothing(p, 0);
    }
  }

  lemma NameShift(p: string, n: nat, k: nat, e: nat)
    requires n <= |p| && NameAt(Win32, p, n, k, e)
    ensures NameAt(Win32, p[n..], 0, k - n, e - n)
  {
  }

  /** A name after a separator is the last name seen from before that separator. */
  lemma NameWider(p: string, n: nat, k: nat, e: nat)
    requires 0 < n <= |p| && IsSep(Win32, p[n - 1]) && NameAt(Win32, p, n, k, e)
    ensures forall m | 0 <= m < n :: NameAt(Win32, p, m, k, e)
  {
  }

  /** basename is the name, wherever the root ends. */
  lemma Win32BasenameText(p: string, k: nat, e: nat)
    requires NameAt(Win32, p, NamesFrom(p), k, e)
    ensures Basename(Win32, p, "") == p[k..e]
  {
    var n := NamesFrom(p);
    BasenameIs(Win32, p);
    if HasDrivePrefix(p) {
      if DriveAbsolute(p) {
        NameWider(p, 3, k, e);
      }
      AfterDriveText(p, k, e);
    } else {
      if n > 0 {
        NameWider(p, n, k, e);
      }
      LastNameText(Win32, p, k, e);
    }
  }

  lemma AfterDriveText(p: string, k: nat, e: nat)
    requires |p| >= 2 && NameAt(Win32, p, 2, k, e)
    ensures LastName(Win32, p[2..]) == p[k..e]
  {
    NameShift(p, 2, k, e);
    LastNameText(Win32, p[2..], k - 2, e - 2);
  }

  /** Without a name basename is empty, except that a share alone is named by its share. */
  lemma Win32RootBasename(p: string)
    requires SepsFrom(Win32, p, NamesFrom(p))
    ensures Basename(Win32, p, "") == if MatchUnc(p).Unc? then MatchUnc(p).share else ""
  {
    BasenameIs(Win32, p);
    if MatchUnc(p).Unc? {
      UncParts(p);
      SepRunEndIs(Win32, p, ShareEnd(p), |p|);
      ShareAloneName(p);
    } else if HasDrivePrefix(p) {
      AfterDriveNothing(p);
    } else {
      NoLastName(Win32, p);
    }
  }

  lemma AfterDriveNothing(p: string)
    requires HasDrivePrefix(p) && SepsFrom(Win32, p, if DriveAbsolute(p) then 3 else 2)
    ensures LastName(Win32, p[2..]) == ""
  {
    NoLastName(Win32, p[2..]);
  }
}
